/**
  The two resource parsers.  `Localizable.strings` holds lines of the form
  `"key" = "value";`; `Localizable.stringsdict` holds plural dictionaries.
  Both yield localized key terms tagged with the bundle they were read for.
  Reading the files is not modelled: the strings parser receives the file's
  lines, the dictionary parser the dictionary's entries in the order Swift
  enumerates them (which Swift leaves unspecified).
 */
module LocalizedStringsParser {
  import opened Wrappers
  import opened Text
  import opened FormatSpecifiers

  /** A parsed entry: its bundle, raw lookup key, comment texts and the specifiers of its text. */
  datatype LocalizedKeyTerm = LocalizedKeyTerm(
    bundle: string,
    key: string,
    terms: seq<string>,
    formatSpecifiers: seq<FormatSpecifier>)

  function KeysOf(keyTerms: seq<LocalizedKeyTerm>): set<string> {
    set t | t in keyTerms :: t.key
  }

  // ======================================================= Localizable.strings

  /** Only lines that start with a double quote are looked at. */
  predicate IsCandidate(line: string) {
    StartsWith(line, "\"")
  }

  /** A candidate line is taken when `split(separator: "=")` gives exactly two pieces. */
  predicate IsEntryLine(line: string) {
    IsCandidate(line) && |Split(line, '=')| == 2
  }

  /** The per-line work of `LocalizedStringsParser.parse`. */
  function ParseLine(bundleSource: string, line: string): (r: Option<LocalizedKeyTerm>)
    ensures r.Some? <==> IsEntryLine(line)
    ensures r.Some? ==> r.value.bundle == bundleSource && |r.value.terms| == 1
    ensures r.Some? ==> r.value.formatSpecifiers == In(r.value.terms[0])
    ensures r.Some? ==> '=' !in r.value.key && '=' !in r.value.terms[0]
  {
    if !IsEntryLine(line) then None
    else
      var parts := Split(line, '=');
      var key := DropLast(DropFirst(Trim(parts[0])));
      var term := DropLast(DropLast(DropFirst(Trim(parts[1]))));
      PieceKeepsAbsence(parts[0], '=');
      PieceKeepsAbsence(parts[1], '=');
      Some(LocalizedKeyTerm(bundleSource, key, [term], In(term)))
  }

  /** What is cut out of a piece holds no character the piece lacked. */
  lemma {:induction false} PieceKeepsAbsence(piece: string, c: char)
    requires c !in piece
    ensures c !in DropLast(DropFirst(Trim(piece)))
    ensures c !in DropLast(DropLast(DropFirst(Trim(piece))))
  {
    var trimmed := Trim(piece);
    var start: nat :| TrimmedAt(piece, trimmed, start);
    AbsentFromSlice(piece, c, start, start + |trimmed|);
    AbsentFromDrops(trimmed, c);
    AbsentFromDrops(DropFirst(trimmed), c);
    AbsentFromDrops(DropLast(DropFirst(trimmed)), c);
  }

  /** The line a strings table holds for `key` and `value`. */
  function EntryLine(key: string, value: string): string {
    "\"" + key + "\" = \"" + value + "\";"
  }

  /** The line splits at its one `=` into the quoted key with a space, and a space with the quoted value. */
  lemma {:induction false} EntryLineSplit(key: string, value: string)
    requires '=' !in key && '=' !in value
    ensures Split(EntryLine(key, value), '=') == ["\"" + key + "\" ", " \"" + value + "\";"]
  {
    var left := "\"" + key + "\" ";
    var right := " \"" + value + "\";";
    assert EntryLine(key, value) == left + ['='] + right;
    assert '=' !in left;
    assert '=' !in right;
    SplitAroundOne(left, right, '=');
  }

  lemma {:induction false} TrimQuotedKey(key: string)
    ensures Trim("\"" + key + "\" ") == "\"" + key + "\""
  {
    var word := "\"" + key + "\"";
    TrimPadded("", word, " ");
    assert "" + word + " " == "\"" + key + "\" ";
  }

  lemma {:induction false} TrimQuotedValue(value: string)
    ensures Trim(" \"" + value + "\";") == "\"" + value + "\";"
  {
    var word := "\"" + value + "\";";
    assert word[0] == '"' && word[|word| - 1] == ';';
    assert forall i :: 0 <= i < |" "| ==> IsWhitespace(" "[i]);
    TrimPadded(" ", word, "");
    assert " " + word + "" == " \"" + value + "\";";
  }

  /** Parsing the line written for a key and a value free of `=` gives back that key and value. */
  lemma {:induction false} ParseEntryLine(bundleSource: string, key: string, value: string)
    requires '=' !in key && '=' !in value
    ensures ParseLine(bundleSource, EntryLine(key, value))
         == Some(LocalizedKeyTerm(bundleSource, key, [value], In(value)))
  {
    var line := EntryLine(key, value);
    EntryLineSplit(key, value);
    assert line[..1] == "\"";
    TrimQuotedKey(key);
    TrimQuotedValue(value);
    var quotedKey := "\"" + key + "\"";
    var quotedValue := "\"" + value + "\";";
    assert DropFirst(quotedKey) == key + "\"";
    assert DropLast(key + "\"") == key;
    assert DropFirst(quotedValue) == value + "\";";
    assert DropLast(value + "\";") == value + "\"";
    assert DropLast(value + "\"") == value;
  }

  /** A strings-table line with any whitespace around the `=` and after the `;`. */
  function PaddedEntryLine(key: string, value: string, before: string, after: string, trailing: string): string {
    "\"" + key + "\"" + before + "=" + after + "\"" + value + "\";" + trailing
  }

  /**
    The parser does not depend on the spacing: a line with whitespace of any
    kind and length around its `=` and after its `;` gives back its key and
    its value, as the space-padded line does.
   */
  lemma {:induction false} ParsePaddedEntryLine(bundleSource: string, key: string, value: string, before: string, after: string, trailing: string)
    requires '=' !in key && '=' !in value
    requires AllWhitespace(before) && AllWhitespace(after) && AllWhitespace(trailing)
    ensures ParseLine(bundleSource, PaddedEntryLine(key, value, before, after, trailing))
         == Some(LocalizedKeyTerm(bundleSource, key, [value], In(value)))
  {
    var line := PaddedEntryLine(key, value, before, after, trailing);
    var quotedKey := "\"" + key + "\"";
    var quotedValue := "\"" + value + "\";";
    var parts := Split(line, '=');
    assert parts == [quotedKey + before, after + quotedValue + trailing] by {
      PaddedEntryLineSplit(key, value, before, after, trailing);
    }
    assert IsEntryLine(line) by {
      assert line[..1] == "\"";
    }
    assert DropLast(DropFirst(Trim(parts[0]))) == key by {
      TrimPadded("", quotedKey, before);
      assert "" + quotedKey + before == quotedKey + before;
      UnquotedKey(key);
    }
    assert DropLast(DropLast(DropFirst(Trim(parts[1])))) == value by {
      assert quotedValue[|quotedValue| - 1] == ';';
      TrimPadded(after, quotedValue, trailing);
      UnquotedValue(value);
    }
  }

  /** The key between its quotes. */
  lemma {:induction false} UnquotedKey(key: string)
    ensures DropLast(DropFirst("\"" + key + "\"")) == key
  {
    assert DropFirst("\"" + key + "\"") == key + "\"";
  }

  /** The value between its opening quote and its closing `";`. */
  lemma {:induction false} UnquotedValue(value: string)
    ensures DropLast(DropLast(DropFirst("\"" + value + "\";"))) == value
  {
    assert DropFirst("\"" + value + "\";") == value + "\";";
    assert DropLast(value + "\";") == value + "\"";
  }

  /** The padded line splits at its one `=` into the padded quoted key and the padded quoted value. */
  lemma {:induction false} PaddedEntryLineSplit(key: string, value: string, before: string, after: string, trailing: string)
    requires '=' !in key && '=' !in value
    requires AllWhitespace(before) && AllWhitespace(after) && AllWhitespace(trailing)
    ensures Split(PaddedEntryLine(key, value, before, after, trailing), '=')
         == ["\"" + key + "\"" + before, after + ("\"" + value + "\";") + trailing]
  {
    var left := "\"" + key + "\"" + before;
    var right := after + ("\"" + value + "\";") + trailing;
    assert PaddedEntryLine(key, value, before, after, trailing) == left + ['='] + right;
    assert '=' !in before && '=' !in after && '=' !in trailing;
    assert '=' !in left;
    assert '=' !in right;
    SplitAroundOne(left, right, '=');
  }

  /** Every key term the table's lines yield, in line order. */
  function ParsedLines(bundleSource: string, lines: seq<string>): seq<LocalizedKeyTerm>
    decreases |lines|
  {
    if |lines| == 0 then []
    else
      var rest := ParsedLines(bundleSource, lines[..|lines| - 1]);
      match ParseLine(bundleSource, lines[|lines| - 1])
      case Some(t) => rest + [t]
      case None => rest
  }

  /** The candidate lines that were ignored (and warned about). */
  function IgnoredLines(lines: seq<string>): seq<string>
    decreases |lines|
  {
    if |lines| == 0 then []
    else
      var last := lines[|lines| - 1];
      IgnoredLines(lines[..|lines| - 1]) + (if IsCandidate(last) && !IsEntryLine(last) then [last] else [])
  }

  /** The keys warned about as duplicates: each term whose key an earlier term already had. */
  function DuplicateKeys(keyTerms: seq<LocalizedKeyTerm>): seq<string>
    decreases |keyTerms|
  {
    if |keyTerms| == 0 then []
    else
      var earlier := keyTerms[..|keyTerms| - 1];
      var key := keyTerms[|keyTerms| - 1].key;
      DuplicateKeys(earlier) + (if key in KeysOf(earlier) then [key] else [])
  }

  /** The number of candidate lines. */
  function CandidateCount(lines: seq<string>): nat
    decreases |lines|
  {
    if |lines| == 0 then 0
    else CandidateCount(lines[..|lines| - 1]) + (if IsCandidate(lines[|lines| - 1]) then 1 else 0)
  }

  /**
    `LocalizedStringsParser.parse` over the lines of the table: each accepted
    line appends its key term, a key already seen is only reported.
   */
  method ParseStrings(bundleSource: string, lines: seq<string>)
    returns (keyTerms: seq<LocalizedKeyTerm>, ignored: seq<string>, duplicates: seq<string>)
    ensures keyTerms == ParsedLines(bundleSource, lines)
    ensures ignored == IgnoredLines(lines)
    ensures duplicates == DuplicateKeys(keyTerms)
  {
    keyTerms, ignored, duplicates := [], [], [];
    var keys: seq<string> := [];
    for i := 0 to |lines|
      invariant keyTerms == ParsedLines(bundleSource, lines[..i])
      invariant ignored == IgnoredLines(lines[..i])
      invariant duplicates == DuplicateKeys(keyTerms)
      invariant forall k :: k in keys <==> k in KeysOf(keyTerms)
    {
      var line := lines[i];
      LinesStep(bundleSource, lines, i);
      if !StartsWith(line, "\"") {
        continue;
      }
      var parts := Split(line, '=');
      if |parts| != 2 {
        ignored := ignored + [line];
        continue;
      }
      var key := DropLast(DropFirst(Trim(parts[0])));
      var term := DropLast(DropLast(DropFirst(Trim(parts[1]))));
      var formatSpecifiers := In(term);
      var keyTerm := LocalizedKeyTerm(bundleSource, key, [term], formatSpecifiers);
      assert ParseLine(bundleSource, line) == Some(keyTerm);
      KeysStep(keyTerms, keyTerm);
      keyTerms := keyTerms + [keyTerm];
      if key !in keys {
        keys := keys + [key];
        continue;
      }
      duplicates := duplicates + [key];
    }
    assert lines[..|lines|] == lines;
  }

  lemma {:induction false} LinesStep(bundleSource: string, lines: seq<string>, i: nat)
    requires i < |lines|
    ensures ParsedLines(bundleSource, lines[..i + 1])
         == ParsedLines(bundleSource, lines[..i])
          + (match ParseLine(bundleSource, lines[i]) case Some(t) => [t] case None => [])
    ensures IgnoredLines(lines[..i + 1])
         == IgnoredLines(lines[..i]) + (if IsCandidate(lines[i]) && !IsEntryLine(lines[i]) then [lines[i]] else [])
  {
    assert lines[..i + 1][..i] == lines[..i];
  }

  lemma {:induction false} KeysStep(keyTerms: seq<LocalizedKeyTerm>, keyTerm: LocalizedKeyTerm)
    ensures KeysOf(keyTerms + [keyTerm]) == KeysOf(keyTerms) + {keyTerm.key}
    ensures DuplicateKeys(keyTerms + [keyTerm])
         == DuplicateKeys(keyTerms) + (if keyTerm.key in KeysOf(keyTerms) then [keyTerm.key] else [])
  {
    assert (keyTerms + [keyTerm])[..|keyTerms|] == keyTerms;
  }

  /** Appending lines appends their key terms: the result keeps line order. */
  lemma {:induction false} ParsedLinesAppend(bundleSource: string, a: seq<string>, b: seq<string>)
    ensures ParsedLines(bundleSource, a + b) == ParsedLines(bundleSource, a) + ParsedLines(bundleSource, b)
    decreases |b|
  {
    if |b| > 0 {
      var b' := b[..|b| - 1];
      assert (a + b)[..|a + b| - 1] == a + b';
      assert (a + b)[|a + b| - 1] == b[|b| - 1];
      ParsedLinesAppend(bundleSource, a, b');
    } else {
      assert a + b == a;
    }
  }

  /** Each candidate line is either turned into exactly one key term or ignored. */
  lemma {:induction false} CandidatesAccountedFor(bundleSource: string, lines: seq<string>)
    ensures |ParsedLines(bundleSource, lines)| + |IgnoredLines(lines)| == CandidateCount(lines)
    ensures CandidateCount(lines) <= |lines|
    decreases |lines|
  {
    if |lines| > 0 {
      CandidatesAccountedFor(bundleSource, lines[..|lines| - 1]);
    }
  }

  /** Duplicates are only reported: every accepted term is kept, one per distinct key plus one per repeat. */
  lemma {:induction false} DuplicatesKept(keyTerms: seq<LocalizedKeyTerm>)
    ensures |DuplicateKeys(keyTerms)| + |KeysOf(keyTerms)| == |keyTerms|
    decreases |keyTerms|
  {
    if |keyTerms| > 0 {
      var earlier := keyTerms[..|keyTerms| - 1];
      var last := keyTerms[|keyTerms| - 1];
      DuplicatesKept(earlier);
      assert keyTerms == earlier + [last];
      KeysStep(earlier, last);
      if last.key in KeysOf(earlier) {
        assert KeysOf(keyTerms) == KeysOf(earlier);
      } else {
        assert |KeysOf(keyTerms)| == |KeysOf(earlier)| + 1;
      }
    }
  }

  lemma {:induction false} ParsedEntryLine(bundleSource: string, key: string, value: string)
    requires '=' !in key && '=' !in value
    ensures ParsedLines(bundleSource, [EntryLine(key, value)])
         == [LocalizedKeyTerm(bundleSource, key, [value], In(value))]
  {
    ParseEntryLine(bundleSource, key, value);
    assert [EntryLine(key, value)][..0] == [];
  }

  /** Two lines with the same key give two key terms, and the second is reported as a duplicate. */
  lemma {:induction false} DuplicateKeyExample(bundleSource: string, key: string, first: string, second: string)
    requires '=' !in key && '=' !in first && '=' !in second
    ensures ParsedLines(bundleSource, [EntryLine(key, first), EntryLine(key, second)])
         == [LocalizedKeyTerm(bundleSource, key, [first], In(first)),
             LocalizedKeyTerm(bundleSource, key, [second], In(second))]
    ensures DuplicateKeys(ParsedLines(bundleSource, [EntryLine(key, first), EntryLine(key, second)])) == [key]
  {
    var firstLine, secondLine := EntryLine(key, first), EntryLine(key, second);
    var firstTerm := LocalizedKeyTerm(bundleSource, key, [first], In(first));
    var secondTerm := LocalizedKeyTerm(bundleSource, key, [second], In(second));
    ParsedEntryLine(bundleSource, key, first);
    ParsedEntryLine(bundleSource, key, second);
    assert ParsedLines(bundleSource, [firstLine, secondLine]) == [firstTerm, secondTerm] by {
      ParsedLinesAppend(bundleSource, [firstLine], [secondLine]);
      assert [firstLine] + [secondLine] == [firstLine, secondLine];
    }
    assert DuplicateKeys([firstTerm, secondTerm]) == [key] by {
      KeysStep([], firstTerm);
      KeysStep([firstTerm], secondTerm);
      assert [] + [firstTerm] == [firstTerm];
      assert [firstTerm] + [secondTerm] == [firstTerm, secondTerm];
    }
  }

  // =================================================== Localizable.stringsdict

  /** A property-list value, as far as the dictionary parser inspects it. */
  datatype PlistValue = PString(text: string) | PDictionary(entries: map<string, PlistValue>) | POther

  const FormatKeyName: string := "NSStringLocalizedFormatKey"
  const ValueTypeKeyName: string := "NSStringFormatValueTypeKey"

  /** The six plural buckets, in the order their comments are emitted, and the label written before each one's text. */
  const Buckets: seq<string> := ["zero", "one", "two", "few", "many", "other"]
  const Labels: seq<string> := ["Zero: ", "One: ", "Two: ", "Few: ", "Many: ", "Other: "]

  /** `as? [String: String]`: a dictionary all of whose values are strings. */
  function AsStringMap(value: PlistValue): (r: Option<map<string, string>>)
    ensures r.Some? <==> value.PDictionary? && forall k :: k in value.entries ==> value.entries[k].PString?
    ensures r.Some? ==> r.value.Keys == value.entries.Keys
    ensures r.Some? ==> forall k :: k in r.value ==> value.entries[k] == PString(r.value[k])
  {
    if value.PDictionary? && forall k :: k in value.entries ==> value.entries[k].PString? then
      Some(map k | k in value.entries :: value.entries[k].text)
    else None
  }

  /**
    The format properties of a plural entry: the string dictionary named by
    the `#@...@` slice of its `NSStringLocalizedFormatKey`, if all of that exists.
   */
  function FormatProperties(value: PlistValue): Option<map<string, string>> {
    if !value.PDictionary? then None
    else
      var entries := value.entries;
      if FormatKeyName !in entries || !entries[FormatKeyName].PString? then None
      else
        match Slice(entries[FormatKeyName].text, "#@", "@")
        case None => None
        case Some(formatKey) =>
          if formatKey !in entries then None else AsStringMap(entries[formatKey])
  }

  /** The comment line of bucket `i`: its label and its text. */
  function CommentTerm(format: map<string, string>, i: nat): string
    requires i < |Buckets| && Buckets[i] in format
  {
    Labels[i] + format[Buckets[i]]
  }

  /** The comment lines of the buckets from `from` on that the format properties hold. */
  function CommentTermsFrom(format: map<string, string>, from: nat): seq<string>
    requires from <= |Buckets|
    decreases |Buckets| - from
  {
    if from == |Buckets| then []
    else
      (if Buckets[from] in format then [CommentTerm(format, from)] else [])
      + CommentTermsFrom(format, from + 1)
  }

  /** The indices of the buckets, from `from` on, that the format properties hold. */
  function PresentBucketsFrom(format: map<string, string>, from: nat): (r: seq<nat>)
    requires from <= |Buckets|
    ensures forall k :: 0 <= k < |r| ==> from <= r[k] < |Buckets| && Buckets[r[k]] in format
    ensures forall k, l :: 0 <= k < l < |r| ==> r[k] < r[l]
    ensures forall i :: from <= i < |Buckets| && Buckets[i] in format ==> i in r
    decreases |Buckets| - from
  {
    if from == |Buckets| then []
    else (if Buckets[from] in format then [from] else []) + PresentBucketsFrom(format, from + 1)
  }

  /**
    The comments are the present buckets in the fixed order zero, one, two,
    few, many, other, each written as its label and its text; so there are at most six.
   */
  lemma {:induction false} CommentTermsAreBuckets(format: map<string, string>, from: nat)
    requires from <= |Buckets|
    ensures BucketsMatch(format, from)
    ensures |CommentTermsFrom(format, from)| == |PresentBucketsFrom(format, from)| <= |Buckets| - from
    ensures forall k :: 0 <= k < |PresentBucketsFrom(format, from)| ==>
      CommentTermsFrom(format, from)[k] == CommentTerm(format, PresentBucketsFrom(format, from)[k])
    decreases |Buckets| - from
  {
    if from < |Buckets| {
      CommentTermsAreBuckets(format, from + 1);
      BucketsStep(format, from);
    }
  }

  /** The comment lines from `from` on are those of the present buckets from `from` on, one for one. */
  predicate BucketsMatch(format: map<string, string>, from: nat)
    requires from <= |Buckets|
  {
    && |CommentTermsFrom(format, from)| == |PresentBucketsFrom(format, from)| <= |Buckets| - from
    && forall k :: 0 <= k < |PresentBucketsFrom(format, from)| ==>
         CommentTermsFrom(format, from)[k] == CommentTerm(format, PresentBucketsFrom(format, from)[k])
  }

  /** Each comment line is the one of the bucket at the same place. */
  predicate Paired(format: map<string, string>, present: seq<nat>, terms: seq<string>) {
    && |terms| == |present|
    && forall k :: 0 <= k < |present| ==>
         present[k] < |Buckets| && Buckets[present[k]] in format && terms[k] == CommentTerm(format, present[k])
  }

  /** A bucket and its comment line, put in front of a pairing, keep it one. */
  lemma {:induction false} PairedCons(format: map<string, string>, b: nat, rest: seq<nat>, restTerms: seq<string>)
    requires b < |Buckets| && Buckets[b] in format && Paired(format, rest, restTerms)
    ensures Paired(format, [b] + rest, [CommentTerm(format, b)] + restTerms)
  {
    var present, terms := [b] + rest, [CommentTerm(format, b)] + restTerms;
    forall k | 0 <= k < |present|
      ensures present[k] < |Buckets| && Buckets[present[k]] in format && terms[k] == CommentTerm(format, present[k])
    {
      if k > 0 {
        assert terms[k] == restTerms[k - 1] && present[k] == rest[k - 1];
      }
    }
  }

  /** One bucket more in front: present, it comes first on both sides; absent, neither changes. */
  lemma {:induction false} BucketsStep(format: map<string, string>, from: nat)
    requires from < |Buckets| && BucketsMatch(format, from + 1)
    ensures BucketsMatch(format, from)
  {
    var rest := PresentBucketsFrom(format, from + 1);
    var restTerms := CommentTermsFrom(format, from + 1);
    assert Paired(format, rest, restTerms);
    if Buckets[from] in format {
      assert PresentBucketsFrom(format, from) == [from] + rest;
      assert CommentTermsFrom(format, from) == [CommentTerm(format, from)] + restTerms;
      PairedCons(format, from, rest, restTerms);
    } else {
      assert PresentBucketsFrom(format, from) == [] + rest == rest;
      assert CommentTermsFrom(format, from) == [] + restTerms == restTerms;
    }
    assert Paired(format, PresentBucketsFrom(format, from), CommentTermsFrom(format, from));
  }

  /** The per-entry work of `LocalizedDictionaryParser.parse`. */
  function DictionaryEntry(bundleSource: string, key: string, value: PlistValue): (r: Option<LocalizedKeyTerm>)
    ensures r.Some? <==> FormatProperties(value).Some? && ValueTypeKeyName in FormatProperties(value).value
    ensures r.Some? ==> r.value.bundle == bundleSource && r.value.key == key
    ensures r.Some? ==> r.value.formatSpecifiers == [From(FormatProperties(value).value[ValueTypeKeyName])]
    ensures r.Some? ==> |r.value.terms| <= 6
    ensures r.Some? ==>
      var format := FormatProperties(value).value;
      var present := PresentBucketsFrom(format, 0);
      && |r.value.terms| == |present|
      && forall k :: 0 <= k < |present| ==> r.value.terms[k] == CommentTerm(format, present[k])
  {
    match FormatProperties(value)
    case None => None
    case Some(format) =>
      if ValueTypeKeyName !in format then None
      else
        CommentTermsAreBuckets(format, 0);
        Some(LocalizedKeyTerm(bundleSource, key, CommentTermsFrom(format, 0), [From(format[ValueTypeKeyName])]))
  }

  /** The key terms of the dictionary's entries, in enumeration order. */
  function DictionaryTerms(bundleSource: string, entries: seq<(string, PlistValue)>): seq<LocalizedKeyTerm>
    decreases |entries|
  {
    if |entries| == 0 then []
    else
      var (key, value) := entries[|entries| - 1];
      var rest := DictionaryTerms(bundleSource, entries[..|entries| - 1]);
      match DictionaryEntry(bundleSource, key, value)
      case Some(t) => rest + [t]
      case None => rest
  }

  /** The keys of the entries that were skipped (and warned about). */
  function SkippedKeys(bundleSource: string, entries: seq<(string, PlistValue)>): seq<string>
    decreases |entries|
  {
    if |entries| == 0 then []
    else
      var (key, value) := entries[|entries| - 1];
      SkippedKeys(bundleSource, entries[..|entries| - 1])
      + (if DictionaryEntry(bundleSource, key, value).None? then [key] else [])
  }

  /**
    `LocalizedDictionaryParser.parse` over the dictionary's entries: an entry
    passing the four guards yields one key term with one specifier and its
    bucket comments; any other entry is skipped.
   */
  method ParseDictionary(bundleSource: string, entries: seq<(string, PlistValue)>)
    returns (keyTerms: seq<LocalizedKeyTerm>, skipped: seq<string>)
    ensures keyTerms == DictionaryTerms(bundleSource, entries)
    ensures skipped == SkippedKeys(bundleSource, entries)
  {
    keyTerms, skipped := [], [];
    for i := 0 to |entries|
      invariant keyTerms == DictionaryTerms(bundleSource, entries[..i])
      invariant skipped == SkippedKeys(bundleSource, entries[..i])
    {
      var (key, value) := entries[i];
      assert entries[..i + 1][..i] == entries[..i];
      if !value.PDictionary? {
        skipped := skipped + [key];
        continue;
      }
      var properties := value.entries;
      if FormatKeyName !in properties || !properties[FormatKeyName].PString? {
        skipped := skipped + [key];
        continue;
      }
      var formatKey := Slice(properties[FormatKeyName].text, "#@", "@");
      if formatKey.None? || formatKey.value !in properties {
        skipped := skipped + [key];
        continue;
      }
      var formatDict := AsStringMap(properties[formatKey.value]);
      if formatDict.None? {
        skipped := skipped + [key];
        continue;
      }
      var format := formatDict.value;
      if ValueTypeKeyName !in format {
        skipped := skipped + [key];
        continue;
      }
      var formatSpecifier := From(format[ValueTypeKeyName]);
      var terms := PluralComments(format);
      keyTerms := keyTerms + [LocalizedKeyTerm(bundleSource, key, terms, [formatSpecifier])];
    }
    assert entries[..|entries|] == entries;
  }

  /**
    The comment lines of one plural entry.  The parser has one `if let` per
    bucket, in table order; the loop runs over the same table.
   */
  method PluralComments(format: map<string, string>) returns (terms: seq<string>)
    ensures terms == CommentTermsFrom(format, 0)
  {
    terms := [];
    ghost var expected := CommentTermsFrom(format, 0);
    assert [] + expected == expected;
    for i := 0 to |Buckets|
      invariant terms + CommentTermsFrom(format, i) == expected
    {
      CommentStep(format, i, terms);
      if Buckets[i] in format {
        terms := terms + [Labels[i] + format[Buckets[i]]];
      }
    }
    assert terms + [] == terms;
  }

  lemma {:induction false} CommentStep(format: map<string, string>, from: nat, done: seq<string>)
    requires from < |Buckets|
    ensures Buckets[from] in format ==>
      done + CommentTermsFrom(format, from) == (done + [CommentTerm(format, from)]) + CommentTermsFrom(format, from + 1)
    ensures Buckets[from] !in format ==>
      done + CommentTermsFrom(format, from) == done + CommentTermsFrom(format, from + 1)
  {
    var rest := CommentTermsFrom(format, from + 1);
    if Buckets[from] in format {
      var piece := [CommentTerm(format, from)];
      assert CommentTermsFrom(format, from) == piece + rest;
      assert done + (piece + rest) == (done + piece) + rest;
    } else {
      assert CommentTermsFrom(format, from) == [] + rest;
      assert [] + rest == rest;
    }
  }

  /** Every key term of a plural dictionary carries exactly one specifier and at most six comments. */
  lemma {:induction false} DictionaryTermsShape(bundleSource: string, entries: seq<(string, PlistValue)>)
    ensures |DictionaryTerms(bundleSource, entries)| + |SkippedKeys(bundleSource, entries)| == |entries|
    ensures forall t :: t in DictionaryTerms(bundleSource, entries) ==>
      t.bundle == bundleSource && |t.formatSpecifiers| == 1 && |t.terms| <= 6
    decreases |entries|
  {
    if |entries| > 0 {
      DictionaryTermsShape(bundleSource, entries[..|entries| - 1]);
    }
  }

  /** `slice(from: "#@", to: "@")` finds the variable name of a plural format key. */
  lemma {:induction false} SliceFormatKey(prefix: string, name: string, suffix: string)
    requires '@' !in prefix && '@' !in name
    ensures Slice(prefix + "#@" + name + "@" + suffix, "#@", "@") == Some(name)
  {
    var s := prefix + "#@" + name + "@" + suffix;
    var i := |prefix|;
    assert s[i..i + 2] == "#@";
    forall j: nat | j < i ensures !OccursAt(s, "#@", j) {
      if j + 2 <= |s| {
        assert s[j + 1] != '@' by {
          if j + 1 < i { assert s[j + 1] == prefix[j + 1]; }
        }
        assert s[j..j + 2][1] == s[j + 1];
      }
    }
    assert IndexOf(s, "#@", 0) == Some(i) by {
      IndexOfFirst(s, "#@", 0, i);
    }
    var k := i + 2 + |name|;
    assert s[k..k + 1] == "@";
    forall j: nat | i + 2 <= j < k ensures !OccursAt(s, "@", j) {
      assert s[j] == name[j - i - 2];
      assert s[j..j + 1] == [s[j]];
    }
    IndexOfFirst(s, "@", i + 2, k);
    assert s[i + 2..k] == name;
  }

  /** The search returns the first occurrence. */
  lemma {:induction false} IndexOfFirst(s: string, pattern: string, from: nat, at: nat)
    requires |pattern| > 0 && from <= at && OccursAt(s, pattern, at)
    requires forall j: nat :: from <= j < at ==> !OccursAt(s, pattern, j)
    ensures IndexOf(s, pattern, from) == Some(at)
    decreases at - from
  {
    if from < at {
      assert !OccursAt(s, pattern, from);
      IndexOfFirst(s, pattern, from + 1, at);
    }
  }
}
