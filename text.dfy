/**
  String operations the builders and parsers rely on: Foundation's `split`,
  `replacingOccurrences`, `hasPrefix` and `Int(_:)`, the `StringJoiner` and
  string helpers of the CoreExtensions package (`trimmed`, `lowercasedFirst`,
  `uppercasedFirst`, `slice`, `dropLastIfWhiteSpace`, `trailingTrimmed`), and
  Swift's ordering of strings.  Case mapping and whitespace are ASCII-only.
 */
module Text {
  import opened Wrappers

  /** Whitespace and newline characters removed by trimming. */
  predicate IsWhitespace(c: char) {
    c == ' ' || c == '\t' || c == '\n' || c == '\r'
  }

  /** Every character of `s` is whitespace; true of the empty string. */
  predicate AllWhitespace(s: string) {
    forall i :: 0 <= i < |s| ==> IsWhitespace(s[i])
  }

  predicate StartsWith(s: string, prefix: string) {
    |prefix| <= |s| && s[..|prefix|] == prefix
  }

  predicate EndsWith(s: string, suffix: string) {
    |suffix| <= |s| && s[|s| - |suffix|..] == suffix
  }

  /** Taking one more element of a sequence appends that element. */
  lemma {:induction false} TakeOneMore<T>(s: seq<T>, i: nat)
    requires i < |s|
    ensures s[..i + 1] == s[..i] + [s[i]]
  {
  }

  /** Indexing the third of four concatenated sequences. */
  lemma {:induction false} IndexThird<T>(a: seq<T>, b: seq<T>, c: seq<T>, d: seq<T>, j: nat)
    requires j < |c|
    ensures (a + b + c + d)[|a| + |b| + j] == c[j]
  {
  }

  /** Indexing the second, fourth and sixth of seven concatenated sequences, all three at `j`. */
  lemma {:induction false} IndexSections<T>(a: seq<T>, k: seq<T>, b: seq<T>, x: seq<T>, c: seq<T>, y: seq<T>, d: seq<T>, j: nat)
    requires j < |k| && j < |x| && j < |y|
    ensures (a + k + b + x + c + y + d)[|a| + j] == k[j]
    ensures (a + k + b + x + c + y + d)[|a| + |k| + |b| + j] == x[j]
    ensures (a + k + b + x + c + y + d)[|a| + |k| + |b| + |x| + |c| + j] == y[j]
  {
  }

  /** `IndexSections` for three equally long sections framed by parts of three, five, five and five elements. */
  lemma {:induction false} IndexFrame<T>(a: seq<T>, k: seq<T>, b: seq<T>, x: seq<T>, c: seq<T>, y: seq<T>, d: seq<T>, j: nat)
    requires |a| == 3 && |b| == |c| == |d| == 5 && |x| == |y| == |k| && j < |k|
    ensures |a + k + b + x + c + y + d| == 18 + 3 * |k|
    ensures (a + k + b + x + c + y + d)[3 + j] == k[j]
    ensures (a + k + b + x + c + y + d)[8 + |k| + j] == x[j]
    ensures (a + k + b + x + c + y + d)[13 + 2 * |k| + j] == y[j]
  {
    IndexSections(a, k, b, x, c, y, d, j);
  }

  /** Indexing the second of four concatenated sequences. */
  lemma {:induction false} IndexSecondOfFour<T>(a: seq<T>, b: seq<T>, c: seq<T>, d: seq<T>, i: nat)
    requires i < |b|
    ensures (a + b + c + d)[|a| + i] == b[i]
  {
  }

  /** The first and last elements of `[first] + b + c + [last]`. */
  lemma {:induction false} FramedEnds<T>(first: T, b: seq<T>, c: seq<T>, last: T)
    ensures ([first] + b + c + [last])[0] == first
    ensures ([first] + b + c + [last])[|[first] + b + c + [last]| - 1] == last
  {
  }

  /** Indexing the last of three concatenated sequences. */
  lemma {:induction false} IndexLast<T>(a: seq<T>, b: seq<T>, c: seq<T>, j: nat)
    requires j < |c|
    ensures (a + b + c)[|a| + |b| + j] == c[j]
  {
  }

  /** Indexing the middle of three concatenated sequences. */
  lemma {:induction false} IndexSecond<T>(a: seq<T>, b: seq<T>, c: seq<T>, j: nat)
    requires j < |b|
    ensures (a + b + c)[|a| + j] == b[j]
  {
  }

  // ---------------------------------------------------------------- joining

  /** `StringJoiner(separator:)` after its parts were appended, then `build()`; also `joined(separator:)`. */
  function Join(parts: seq<string>, separator: string): string
  {
    if |parts| == 0 then ""
    else if |parts| == 1 then parts[0]
    else parts[0] + separator + Join(parts[1..], separator)
  }

  /** Joining two non-empty lists is joining their joins. */
  lemma {:induction false} JoinConcat(a: seq<string>, b: seq<string>, separator: string)
    requires |a| > 0 && |b| > 0
    ensures Join(a + b, separator) == Join(a, separator) + separator + Join(b, separator)
    decreases |a|
  {
    if |a| == 1 {
      assert (a + b)[1..] == b;
    } else {
      assert (a + b)[1..] == a[1..] + b;
      JoinConcat(a[1..], b, separator);
    }
  }

  /** A join begins with its first part and ends with its last part. */
  lemma {:induction false} JoinEnds(parts: seq<string>, separator: string)
    requires |parts| > 0
    ensures StartsWith(Join(parts, separator), parts[0])
    ensures EndsWith(Join(parts, separator), parts[|parts| - 1])
    decreases |parts|
  {
    if |parts| > 1 {
      JoinEnds(parts[1..], separator);
      var rest := Join(parts[1..], separator);
      assert Join(parts, separator) == parts[0] + (separator + rest);
      assert EndsWith(separator + rest, parts[|parts| - 1]) by {
        assert (separator + rest)[|separator + rest| - |parts[|parts| - 1]|..]
            == rest[|rest| - |parts[|parts| - 1]|..];
      }
      PrefixOfConcat(parts[0], separator + rest);
      SuffixOfConcat(parts[0], separator + rest, parts[|parts| - 1]);
    }
  }

  /** A join ends with the last character of its last part. */
  lemma {:induction false} LastOfJoin(parts: seq<string>, separator: string)
    requires |parts| > 0 && |parts[|parts| - 1]| > 0
    ensures var joined := Join(parts, separator); var last := parts[|parts| - 1];
      |joined| > 0 && joined[|joined| - 1] == last[|last| - 1]
  {
    JoinEnds(parts, separator);
    LastOfSuffix(Join(parts, separator), parts[|parts| - 1]);
  }

  /** A text ends with the last character of any non-empty suffix of it. */
  lemma {:induction false} LastOfSuffix(s: string, suffix: string)
    requires EndsWith(s, suffix) && |suffix| > 0
    ensures |s| > 0 && s[|s| - 1] == suffix[|suffix| - 1]
  {
    assert s[|s| - |suffix|..][|suffix| - 1] == s[|s| - 1];
  }

  /** A join of at least three parts opens with its first two parts, each followed by the separator. */
  lemma {:induction false} JoinOpensWith(parts: seq<string>, separator: string)
    requires |parts| > 2
    ensures StartsWith(Join(parts, separator), parts[0] + separator + parts[1] + separator)
  {
    var rest := parts[2..];
    assert parts[1..][1..] == rest;
    var tail := Join(rest, separator);
    assert Join(parts, separator) == (parts[0] + separator + parts[1] + separator) + tail;
    PrefixOfConcat(parts[0] + separator + parts[1] + separator, tail);
  }

  /** A join of at least three parts closes with its last two parts, the separator between them. */
  lemma {:induction false} JoinClosesWith(parts: seq<string>, separator: string)
    requires |parts| > 2
    ensures EndsWith(Join(parts, separator), parts[|parts| - 2] + separator + parts[|parts| - 1])
  {
    var n := |parts|;
    var last := [parts[n - 2], parts[n - 1]];
    assert parts == parts[..n - 2] + last;
    JoinConcat(parts[..n - 2], last, separator);
    var ending := parts[n - 2] + separator + parts[n - 1];
    assert Join(last, separator) == ending;
    assert EndsWith(ending, ending);
    SuffixOfConcat(Join(parts[..n - 2], separator) + separator, ending, ending);
  }

  /** Regrouping a four-part concatenation around its first part. */
  lemma {:induction false} Regroup(a: string, b: string, c: string, d: string)
    ensures a + b + c + d == a + (b + c + d)
  {
  }

  /** A text built by appending to `a + b` starts with `a + b`. */
  lemma {:induction false} PrefixOfAppended(a: string, b: string, c: string, d: string)
    ensures StartsWith(a + b + c + d, a + b)
  {
    assert (a + b + c + d)[..|a + b|] == a + b;
  }

  /** A text whose rest opens with `)` starts with its first part closed. */
  lemma {:induction false} ClosedPrefix(a: string, tail: string)
    requires |tail| > 0 && tail[0] == ')'
    ensures StartsWith(a + tail, a + ")")
  {
    assert (a + tail)[..|a| + 1] == a + [tail[0]];
  }

  lemma {:induction false} PrefixOfConcat(a: string, b: string)
    ensures StartsWith(a + b, a)
    ensures (a + b)[|a|..] == b
  {
    assert (a + b)[..|a|] == a;
  }

  /** A name followed by a suffix: both kept in place, and no space when neither has one. */
  lemma {:induction false} Suffixed(name: string, suffix: string)
    requires ' ' !in name && ' ' !in suffix
    ensures ' ' !in name + suffix
    ensures |name + suffix| == |name| + |suffix|
    ensures StartsWith(name + suffix, name) && (name + suffix)[|name|..] == suffix
  {
    PrefixOfConcat(name, suffix);
  }

  lemma {:induction false} PrefixTransitive(a: string, b: string, c: string)
    requires StartsWith(a, b) && StartsWith(b, c)
    ensures StartsWith(a, c)
  {
    assert a[..|c|] == a[..|b|][..|c|];
  }

  lemma {:induction false} PrefixAfter(a: string, b: string, prefix: string)
    requires StartsWith(b, prefix)
    ensures StartsWith(a + b, a + prefix)
  {
    assert (a + b)[..|a + prefix|] == a + b[..|prefix|];
  }

  lemma {:induction false} SuffixOfHead(head: string, tail: string)
    ensures EndsWith(head + tail, tail)
  {
    assert (head + tail)[|head + tail| - |tail|..] == tail;
  }

  lemma {:induction false} SuffixOfConcat(a: string, b: string, suffix: string)
    requires EndsWith(b, suffix)
    ensures EndsWith(a + b, suffix)
  {
    assert (a + b)[|a + b| - |suffix|..] == b[|b| - |suffix|..];
  }

  /** Concatenation without separator (Swift's `joined()`). */
  function Concat(parts: seq<string>): string
  {
    if |parts| == 0 then "" else parts[0] + Concat(parts[1..])
  }

  // --------------------------------------------------------------- trimming

  function TrimLeading(s: string): (r: string)
    ensures |r| <= |s| && r == s[|s| - |r|..]
    ensures forall i :: 0 <= i < |s| - |r| ==> IsWhitespace(s[i])
    ensures |r| > 0 ==> !IsWhitespace(r[0])
    decreases |s|
  {
    if |s| > 0 && IsWhitespace(s[0]) then TrimLeading(s[1..]) else s
  }

  /** CoreExtensions' `trailingTrimmed`: every trailing whitespace character removed. */
  function TrimTrailing(s: string): (r: string)
    ensures |r| <= |s| && r == s[..|r|]
    ensures forall i :: |r| <= i < |s| ==> IsWhitespace(s[i])
    ensures |r| > 0 ==> !IsWhitespace(r[|r| - 1])
    decreases |s|
  {
    if |s| > 0 && IsWhitespace(s[|s| - 1]) then TrimTrailing(s[..|s| - 1]) else s
  }

  /** CoreExtensions' `trimmed`: leading and trailing whitespace removed, the middle kept. */
  function Trim(s: string): (r: string)
    ensures |r| <= |s|
    ensures |r| > 0 ==> !IsWhitespace(r[0]) && !IsWhitespace(r[|r| - 1])
    ensures exists start :: TrimmedAt(s, r, start)
  {
    var leading := TrimLeading(s);
    var start := |s| - |leading|;
    var r := TrimTrailing(leading);
    TrimLocated(s, leading, r);
    r
  }

  lemma {:induction false} TrimLocated(s: string, leading: string, r: string)
    requires |leading| <= |s| && leading == s[|s| - |leading|..]
    requires forall i :: 0 <= i < |s| - |leading| ==> IsWhitespace(s[i])
    requires |r| <= |leading| && r == leading[..|r|]
    requires forall i :: |r| <= i < |leading| ==> IsWhitespace(leading[i])
    ensures TrimmedAt(s, r, |s| - |leading|)
  {
    var start := |s| - |leading|;
    forall i | 0 <= i < |r| ensures r[i] == s[start + i] {
      assert r[i] == leading[i];
    }
    assert r == s[start..start + |r|];
    forall i | start + |r| <= i < |s| ensures IsWhitespace(s[i]) {
      assert s[i] == leading[i - start];
    }
  }

  /** `r` is the part of `s` at `start`, and everything of `s` around it is whitespace. */
  predicate TrimmedAt(s: string, r: string, start: nat) {
    && start + |r| <= |s| && r == s[start..start + |r|]
    && (forall i :: 0 <= i < start ==> IsWhitespace(s[i]))
    && (forall i :: start + |r| <= i < |s| ==> IsWhitespace(s[i]))
  }

  /** Trimming removes exactly the whitespace padding around a word that neither starts nor ends with whitespace. */
  lemma {:induction false} TrimPadded(pre: string, word: string, post: string)
    requires forall i :: 0 <= i < |pre| ==> IsWhitespace(pre[i])
    requires forall i :: 0 <= i < |post| ==> IsWhitespace(post[i])
    requires |word| > 0 && !IsWhitespace(word[0]) && !IsWhitespace(word[|word| - 1])
    ensures Trim(pre + word + post) == word
  {
    PaddedTrims(pre, word, post);
  }

  /** The two halves of `Trim` remove the padding on their sides. */
  lemma {:induction false} PaddedTrims(pre: string, word: string, post: string)
    requires forall i :: 0 <= i < |pre| ==> IsWhitespace(pre[i])
    requires forall i :: 0 <= i < |post| ==> IsWhitespace(post[i])
    requires |word| > 0 && !IsWhitespace(word[0]) && !IsWhitespace(word[|word| - 1])
    ensures TrimTrailing(TrimLeading(pre + word + post)) == word
  {
    var leading := TrimLeading(pre + word + post);
    assert leading == word + post by {
      assert pre + word + post == pre + (word + post);
      TrimLeadingPadded(pre, word + post);
    }
    assert TrimTrailing(leading) == word by {
      TrimTrailingPadded(word, post);
    }
  }

  lemma {:induction false} TrimLeadingPadded(pre: string, rest: string)
    requires forall i :: 0 <= i < |pre| ==> IsWhitespace(pre[i])
    requires |rest| > 0 && !IsWhitespace(rest[0])
    ensures TrimLeading(pre + rest) == rest
    decreases |pre|
  {
    if |pre| > 0 {
      assert (pre + rest)[1..] == pre[1..] + rest;
      TrimLeadingPadded(pre[1..], rest);
    } else {
      assert pre + rest == rest;
    }
  }

  lemma {:induction false} TrimTrailingPadded(rest: string, post: string)
    requires forall i :: 0 <= i < |post| ==> IsWhitespace(post[i])
    requires |rest| > 0 && !IsWhitespace(rest[|rest| - 1])
    ensures TrimTrailing(rest + post) == rest
    decreases |post|
  {
    if |post| > 0 {
      assert (rest + post)[..|rest + post| - 1] == rest + post[..|post| - 1];
      TrimTrailingPadded(rest, post[..|post| - 1]);
    } else {
      assert rest + post == rest;
    }
  }

  /** CoreExtensions' `dropLastIfWhiteSpace`: the last character dropped when it is whitespace. */
  function DropLastIfWhitespace(s: string): (r: string)
    ensures |s| > 0 && IsWhitespace(s[|s| - 1]) ==> r + [s[|s| - 1]] == s
    ensures !(|s| > 0 && IsWhitespace(s[|s| - 1])) ==> r == s
  {
    if |s| > 0 && IsWhitespace(s[|s| - 1]) then s[..|s| - 1] else s
  }

  /** Swift's `dropFirst()`: nothing happens to an empty string. */
  function DropFirst(s: string): string {
    if |s| == 0 then s else s[1..]
  }

  /** Swift's `dropLast()`: nothing happens to an empty string. */
  function DropLast(s: string): string {
    if |s| == 0 then s else s[..|s| - 1]
  }

  /** A character missing from a text is missing from every slice of it. */
  lemma {:induction false} AbsentFromSlice(s: string, c: char, i: nat, j: nat)
    requires c !in s && i <= j <= |s|
    ensures c !in s[i..j]
  {
    assert forall k :: 0 <= k < j - i ==> s[i..j][k] == s[i + k];
  }

  /** ... and so from what `dropFirst` and `dropLast` leave. */
  lemma {:induction false} AbsentFromDrops(s: string, c: char)
    requires c !in s
    ensures c !in DropFirst(s) && c !in DropLast(s)
  {
    if |s| > 0 {
      AbsentFromSlice(s, c, 1, |s|);
      AbsentFromSlice(s, c, 0, |s| - 1);
    }
  }

  // -------------------------------------------------------------- splitting

  /** The number of leading characters before the first `separator`. */
  function TokenLength(s: string, separator: char): (n: nat)
    ensures n <= |s|
    ensures forall i :: 0 <= i < n ==> s[i] != separator
    ensures n < |s| ==> s[n] == separator
    decreases |s|
  {
    if |s| == 0 || s[0] == separator then 0 else 1 + TokenLength(s[1..], separator)
  }

  /**
    Swift's `split(separator:)`: the maximal runs of characters other than
    `separator`, left to right; empty pieces are dropped.
   */
  function Split(s: string, separator: char): (parts: seq<string>)
    ensures forall k :: 0 <= k < |parts| ==> |parts[k]| > 0 && separator !in parts[k]
    ensures |parts| == 0 <==> forall i :: 0 <= i < |s| ==> s[i] == separator
    decreases |s|
  {
    if |s| == 0 then []
    else if s[0] == separator then
      var rest := Split(s[1..], separator);
      assert forall i :: 1 <= i < |s| ==> s[i] == s[1..][i - 1];
      rest
    else
      var n := TokenLength(s, separator);
      [s[..n]] + Split(s[n..], separator)
  }

  /** `s` with every `c` removed. */
  function Without(s: string, c: char): (r: string)
    ensures c !in r
    decreases |s|
  {
    if |s| == 0 then "" else (if s[0] == c then "" else [s[0]]) + Without(s[1..], c)
  }

  lemma {:induction false} WithoutConcat(a: string, b: string, c: char)
    ensures Without(a + b, c) == Without(a, c) + Without(b, c)
    decreases |a|
  {
    if |a| == 0 {
      assert a + b == b;
    } else {
      var head := if a[0] == c then "" else [a[0]];
      assert (a + b)[0] == a[0] && (a + b)[1..] == a[1..] + b;
      assert Without(a + b, c) == head + Without(a[1..] + b, c);
      WithoutConcat(a[1..], b, c);
      assert Without(a, c) == head + Without(a[1..], c);
    }
  }

  lemma {:induction false} WithoutAbsent(s: string, c: char)
    requires c !in s
    ensures Without(s, c) == s
    decreases |s|
  {
    if |s| > 0 {
      WithoutAbsent(s[1..], c);
      assert s == [s[0]] + s[1..];
    }
  }

  /** Splitting loses exactly the separators: the pieces put back together are `s` without them. */
  lemma {:induction false} SplitLosesOnlySeparators(s: string, separator: char)
    ensures Concat(Split(s, separator)) == Without(s, separator)
    decreases |s|
  {
    if |s| > 0 {
      if s[0] == separator {
        SplitLosesOnlySeparators(s[1..], separator);
        assert Split(s, separator) == Split(s[1..], separator);
        assert Without(s, separator) == Without(s[1..], separator);
      } else {
        var n := TokenLength(s, separator);
        var head, tail := s[..n], s[n..];
        var parts := Split(s, separator);
        assert parts == [head] + Split(tail, separator);
        SplitLosesOnlySeparators(tail, separator);
        assert parts[1..] == Split(tail, separator);
        assert Concat(parts) == head + Concat(Split(tail, separator));
        assert s == head + tail;
        WithoutConcat(head, tail, separator);
        assert separator !in head;
        WithoutAbsent(head, separator);
      }
    }
  }

  /** A piece free of the separator and followed by one (or by nothing) is measured exactly. */
  lemma {:induction false} TokenLengthOf(a: string, rest: string, separator: char)
    requires separator !in a
    requires |rest| == 0 || rest[0] == separator
    ensures TokenLength(a + rest, separator) == |a|
    decreases |a|
  {
    if |a| > 0 {
      assert (a + rest)[1..] == a[1..] + rest;
      TokenLengthOf(a[1..], rest, separator);
    } else {
      assert a + rest == rest;
    }
  }

  /** A non-empty separator-free piece splits into itself. */
  lemma {:induction false} SplitWhole(a: string, separator: char)
    requires |a| > 0 && separator !in a
    ensures Split(a, separator) == [a]
  {
    TokenLengthOf(a, "", separator);
    assert a + "" == a;
    assert a[..|a|] == a && a[|a|..] == "";
  }

  /** `split` of two separator-free non-empty pieces around one separator gives back the two pieces. */
  lemma {:induction false} SplitAroundOne(a: string, b: string, separator: char)
    requires |a| > 0 && |b| > 0 && separator !in a && separator !in b
    ensures Split(a + [separator] + b, separator) == [a, b]
  {
    var tail := [separator] + b;
    var s := a + tail;
    assert a + [separator] + b == s;
    TokenLengthOf(a, tail, separator);
    assert s[..|a|] == a && s[|a|..] == tail;
    assert Split(s, separator) == [a] + Split(tail, separator);
    assert tail[1..] == b;
    assert Split(tail, separator) == Split(b, separator);
    SplitWhole(b, separator);
  }

  // ---------------------------------------------------------- replacement

  /** `pattern` occurs in `s` starting at position `i`. */
  predicate OccursAt(s: string, pattern: string, i: nat) {
    i + |pattern| <= |s| && s[i..i + |pattern|] == pattern
  }

  /** `t` occurs somewhere in `s`. */
  ghost predicate Contains(s: string, t: string) {
    exists p: nat :: OccursAt(s, t, p)
  }

  lemma {:induction false} ContainsInSuffix(a: string, b: string, t: string)
    requires Contains(b, t)
    ensures Contains(a + b, t)
  {
    var p: nat :| OccursAt(b, t, p);
    assert (a + b)[|a| + p..|a| + p + |t|] == b[p..p + |t|];
    assert OccursAt(a + b, t, |a| + p);
  }

  lemma {:induction false} ContainsInPrefix(a: string, b: string, t: string)
    requires Contains(a, t)
    ensures Contains(a + b, t)
  {
    var p: nat :| OccursAt(a, t, p);
    assert (a + b)[p..p + |t|] == a[p..p + |t|];
    assert OccursAt(a + b, t, p);
  }

  lemma {:induction false} ContainsWhole(s: string)
    ensures Contains(s, s)
  {
    assert OccursAt(s, s, 0);
  }

  /** Each part of a concatenation occurs in it. */
  lemma {:induction false} ConcatContains(parts: seq<string>, i: nat)
    requires i < |parts|
    ensures Contains(Concat(parts), parts[i])
    decreases i
  {
    if i == 0 {
      ContainsWhole(parts[0]);
      ContainsInPrefix(parts[0], Concat(parts[1..]), parts[0]);
    } else {
      assert parts[1..][i - 1] == parts[i];
      ConcatContains(parts[1..], i - 1);
      ContainsInSuffix(parts[0], Concat(parts[1..]), parts[i]);
    }
  }

  /** Each part of a join occurs in it. */
  lemma {:induction false} JoinContains(parts: seq<string>, separator: string, i: nat)
    requires i < |parts|
    ensures Contains(Join(parts, separator), parts[i])
    decreases i
  {
    if |parts| == 1 {
      ContainsWhole(parts[0]);
    } else if i == 0 {
      ContainsWhole(parts[0]);
      assert Join(parts, separator) == parts[0] + (separator + Join(parts[1..], separator));
      ContainsInPrefix(parts[0], separator + Join(parts[1..], separator), parts[0]);
    } else {
      assert parts[1..][i - 1] == parts[i];
      JoinContains(parts[1..], separator, i - 1);
      ContainsInSuffix(separator, Join(parts[1..], separator), parts[i]);
      assert Join(parts, separator) == parts[0] + (separator + Join(parts[1..], separator));
      ContainsInSuffix(parts[0], separator + Join(parts[1..], separator), parts[i]);
    }
  }

  /** A list joined with `, ` between an opening and `)` starts with the first item and ends with `)`. */
  lemma {:induction false} ClosedJoin(head: string, parts: seq<string>)
    requires |parts| > 0
    ensures StartsWith(head + Join(parts, ", ") + ")", head + parts[0])
    ensures EndsWith(head + Join(parts, ", ") + ")", ")")
  {
    var joined := Join(parts, ", ");
    JoinEnds(parts, ", ");
    PrefixOfConcat(joined, ")");
    PrefixTransitive(joined + ")", joined, parts[0]);
    PrefixAfter(head, joined + ")", parts[0]);
    assert head + (joined + ")") == head + joined + ")";
    SuffixOfHead(head + joined, ")");
  }

  /** A list joined with `, ` between an opening and `)` holds every item. */
  lemma {:induction false} ClosedJoinHolds(head: string, parts: seq<string>)
    ensures forall i :: 0 <= i < |parts| ==> Contains(head + Join(parts, ", ") + ")", parts[i])
  {
    var joined := Join(parts, ", ");
    forall i | 0 <= i < |parts| ensures Contains(head + joined + ")", parts[i]) {
      JoinContains(parts, ", ", i);
      ContainsInSuffix(head, joined, parts[i]);
      ContainsInPrefix(head + joined, ")", parts[i]);
    }
  }

  /** Appending a part appends its text. */
  lemma {:induction false} ConcatAppend(parts: seq<string>, last: string)
    ensures Concat(parts + [last]) == Concat(parts) + last
    decreases |parts|
  {
    if |parts| == 0 {
      assert parts + [last] == [last];
      assert Concat([last]) == last + Concat([]);
    } else {
      assert (parts + [last])[1..] == parts[1..] + [last];
      ConcatAppend(parts[1..], last);
    }
  }

  /**
    Foundation's `replacingOccurrences(of: pattern, with: "")`: occurrences
    are found left to right and do not overlap.
   */
  function RemoveAll(s: string, pattern: string): (r: string)
    requires |pattern| > 0
    ensures |r| <= |s|
    decreases |s|
  {
    if |s| < |pattern| then s
    else if s[..|pattern|] == pattern then RemoveAll(s[|pattern|..], pattern)
    else [s[0]] + RemoveAll(s[1..], pattern)
  }

  /** Removing a one-character pattern leaves none of that character. */
  lemma {:induction false} RemoveAllSingle(s: string, c: char)
    ensures c !in RemoveAll(s, [c])
    decreases |s|
  {
    if |s| >= 1 {
      RemoveAllSingle(s[1..], c);
    }
  }

  /** A string in which the pattern does not occur is left unchanged. */
  lemma {:induction false} RemoveAllAbsent(s: string, pattern: string)
    requires |pattern| > 0
    requires forall i: nat :: !OccursAt(s, pattern, i)
    ensures RemoveAll(s, pattern) == s
    decreases |s|
  {
    if |s| >= |pattern| {
      assert !OccursAt(s, pattern, 0);
      assert s[..|pattern|] == s[0..|pattern|];
      forall i: nat ensures !OccursAt(s[1..], pattern, i) {
        assert !OccursAt(s, pattern, i + 1);
        if i + |pattern| <= |s[1..]| {
          assert s[1..][i..i + |pattern|] == s[i + 1..i + 1 + |pattern|];
        }
      }
      RemoveAllAbsent(s[1..], pattern);
      assert s == [s[0]] + s[1..];
    }
  }

  // ---------------------------------------------------------- case mapping

  function ToLower(c: char): char {
    if 'A' <= c <= 'Z' then (c as int + 32) as char else c
  }

  function ToUpper(c: char): char {
    if 'a' <= c <= 'z' then (c as int - 32) as char else c
  }

  /** CoreExtensions' `lowercasedFirst()`: the first character lowercased, the rest kept. */
  function LowercasedFirst(s: string): (r: string)
    ensures |r| == |s|
    ensures |s| > 0 ==> r[0] == ToLower(s[0]) && r[1..] == s[1..]
  {
    if |s| == 0 then s else [ToLower(s[0])] + s[1..]
  }

  /** CoreExtensions' `uppercasedFirst()`: the first character uppercased, the rest kept. */
  function UppercasedFirst(s: string): (r: string)
    ensures |r| == |s|
    ensures |s| > 0 ==> r[0] == ToUpper(s[0]) && r[1..] == s[1..]
  {
    if |s| == 0 then s else [ToUpper(s[0])] + s[1..]
  }

  /** Case mapping never turns a character into a space, nor a space into anything else. */
  lemma {:induction false} CaseMappingKeepsSpaces(c: char)
    ensures (ToLower(c) == ' ') == (c == ' ')
    ensures (ToUpper(c) == ' ') == (c == ' ')
    ensures IsWhitespace(ToLower(c)) == IsWhitespace(c)
  {
  }

  /**
    The camel-joining of the builders' `name`: the space-separated words of
    `s`, the first kept as it is and each later one with its first letter
    uppercased, concatenated.
   */
  function CamelJoin(s: string): (r: string)
    requires exists i :: 0 <= i < |s| && s[i] != ' '
    ensures ' ' !in r
    ensures |r| == |Without(s, ' ')|
    ensures StartsWith(r, Split(s, ' ')[0])
  {
    var parts := Split(s, ' ');
    var tail := UppercasedWords(parts[1..]);
    SplitLosesOnlySeparators(s, ' ');
    assert parts == [parts[0]] + parts[1..];
    UppercasedWordsKeepShape(parts[1..], tail);
    PrefixOfConcat(parts[0], Concat(tail));
    parts[0] + Concat(tail)
  }

  /** Each word with its first letter uppercased. */
  function UppercasedWords(words: seq<string>): (r: seq<string>)
    ensures |r| == |words|
    ensures forall k :: 0 <= k < |words| ==> r[k] == UppercasedFirst(words[k])
  {
    seq(|words|, k requires 0 <= k < |words| => UppercasedFirst(words[k]))
  }

  /**
    The camel-joining described character by character: spaces are dropped,
    and a character is uppercased exactly when a space precedes it and some
    earlier word has already been seen (`seen`); `afterSpace` says whether
    the previous character was a space.
   */
  function CamelChars(s: string, seen: bool, afterSpace: bool): string
    decreases |s|
  {
    if |s| == 0 then ""
    else if s[0] == ' ' then CamelChars(s[1..], seen, true)
    else [if seen && afterSpace then ToUpper(s[0]) else s[0]] + CamelChars(s[1..], true, false)
  }

  /**
    Camel-joining is `s` without its spaces, where the first letter of every
    word after the first is uppercased and every other character is kept.
   */
  lemma {:induction false} CamelJoinCharacters(s: string)
    requires exists i :: 0 <= i < |s| && s[i] != ' '
    ensures CamelJoin(s) == CamelChars(s, false, false)
  {
    CamelCharsFirstWord(s, false);
  }

  /** From the start, before any word: the first word is kept, the later ones are uppercased-first. */
  lemma {:induction false} CamelCharsFirstWord(s: string, afterSpace: bool)
    requires exists i :: 0 <= i < |s| && s[i] != ' '
    ensures |Split(s, ' ')| > 0
    ensures CamelChars(s, false, afterSpace)
         == Split(s, ' ')[0] + Concat(UppercasedWords(Split(s, ' ')[1..]))
    decreases |s|
  {
    if s[0] == ' ' {
      var i :| 0 <= i < |s| && s[i] != ' ';
      assert s[1..][i - 1] == s[i];
      CamelCharsFirstWord(s[1..], true);
      SplitSkipsSeparator(s, ' ');
    } else {
      var n := TokenLength(s, ' ');
      var word, rest := s[..n], s[n..];
      var tail := CamelChars(rest, true, true);
      assert CamelChars(s, false, afterSpace) == [s[0]] + (word[1..] + tail) by {
        WordThenRest(s, ' ');
        CamelCharsKeepWord(word[1..], rest);
      }
      assert [s[0]] + word[1..] == word by {
        WordThenRest(s, ' ');
      }
      Associative([s[0]], word[1..], tail);
      assert tail == Concat(UppercasedWords(Split(rest, ' '))) by {
        CamelCharsLaterWords(rest);
      }
      SplitTakesWord(s, ' ');
    }
  }

  /** Inside a word, its remaining characters are kept. */
  lemma {:induction false} CamelCharsKeepWord(word: string, rest: string)
    requires ' ' !in word
    requires |rest| == 0 || rest[0] == ' '
    ensures CamelChars(word + rest, true, false) == word + CamelChars(rest, true, true)
    decreases |word|
  {
    if |word| == 0 {
      assert word + rest == rest;
    } else {
      assert (word + rest)[0] == word[0] && (word + rest)[1..] == word[1..] + rest;
      CamelCharsKeepWord(word[1..], rest);
      assert [word[0]] + word[1..] == word;
    }
  }

  /** After a word and a space, every word is uppercased-first. */
  lemma {:induction false} CamelCharsLaterWords(s: string)
    ensures CamelChars(s, true, true) == Concat(UppercasedWords(Split(s, ' ')))
    decreases |s|
  {
    if |s| == 0 {
    } else if s[0] == ' ' {
      CamelCharsLaterWords(s[1..]);
      SplitSkipsSeparator(s, ' ');
    } else {
      CamelCharsLaterWords(s[TokenLength(s, ' ')..]);
      LaterWordStep(s);
    }
  }

  /** One word after a space, given the claim for the text after that word. */
  lemma {:induction false} LaterWordStep(s: string)
    requires |s| > 0 && s[0] != ' '
    requires CamelChars(s[TokenLength(s, ' ')..], true, true)
          == Concat(UppercasedWords(Split(s[TokenLength(s, ' ')..], ' ')))
    ensures CamelChars(s, true, true) == Concat(UppercasedWords(Split(s, ' ')))
  {
    var n := TokenLength(s, ' ');
    var word, rest := s[..n], s[n..];
    var upperFirst := [ToUpper(s[0])];
    var tail := CamelChars(rest, true, true);
    var words := Split(rest, ' ');
    assert CamelChars(s, true, true) == upperFirst + (word[1..] + tail) by {
      WordThenRest(s, ' ');
      CamelCharsKeepWord(word[1..], rest);
    }
    assert UppercasedFirst(word) == upperFirst + word[1..] by {
      WordThenRest(s, ' ');
    }
    Associative(upperFirst, word[1..], tail);
    assert Concat(UppercasedWords(Split(s, ' '))) == UppercasedFirst(word) + Concat(UppercasedWords(words)) by {
      SplitTakesWord(s, ' ');
      UppercasedWordsCons(word, words);
    }
  }

  lemma {:induction false} Rejoin<T>(s: seq<T>, k: nat)
    requires k <= |s|
    ensures s == s[..k] + s[k..]
  {
  }

  lemma {:induction false} Associative<T>(a: seq<T>, b: seq<T>, c: seq<T>)
    ensures a + (b + c) == (a + b) + c
  {
  }

  /** A leading separator is skipped by `split`. */
  lemma {:induction false} SplitSkipsSeparator(s: string, separator: char)
    requires |s| > 0 && s[0] == separator
    ensures Split(s, separator) == Split(s[1..], separator)
  {
  }

  /** `split` of a text starting with a word: that word, then the split of the rest. */
  lemma {:induction false} SplitTakesWord(s: string, separator: char)
    requires |s| > 0 && s[0] != separator
    ensures Split(s, separator) == [s[..TokenLength(s, separator)]] + Split(s[TokenLength(s, separator)..], separator)
  {
  }

  /** The first word of a text is non-empty, free of the separator and followed by one or by nothing. */
  lemma {:induction false} WordThenRest(s: string, separator: char)
    requires |s| > 0 && s[0] != separator
    ensures var n := TokenLength(s, separator);
      && 0 < n && s[1..] == s[..n][1..] + s[n..] && s[..n][0] == s[0]
      && separator !in s[..n][1..]
      && (|s[n..]| == 0 || s[n..][0] == separator)
  {
    var n := TokenLength(s, separator);
    var word := s[..n];
    assert forall i :: 0 <= i < |word[1..]| ==> word[1..][i] == s[i + 1];
  }

  lemma {:induction false} UppercasedWordsCons(word: string, words: seq<string>)
    ensures Concat(UppercasedWords([word] + words)) == UppercasedFirst(word) + Concat(UppercasedWords(words))
  {
    var all := UppercasedWords([word] + words);
    assert all == [UppercasedFirst(word)] + UppercasedWords(words);
  }

  lemma {:induction false} UppercasedWordsKeepShape(words: seq<string>, upper: seq<string>)
    requires forall k :: 0 <= k < |words| ==> ' ' !in words[k]
    requires |upper| == |words|
    requires forall k :: 0 <= k < |words| ==> upper[k] == UppercasedFirst(words[k])
    ensures ' ' !in Concat(upper)
    ensures |Concat(upper)| == |Concat(words)|
    decreases |words|
  {
    if |words| > 0 {
      UppercasedWordsKeepShape(words[1..], upper[1..]);
      var w := words[0];
      if |w| > 0 {
        CaseMappingKeepsSpaces(w[0]);
        assert upper[0] == [ToUpper(w[0])] + w[1..];
        assert ' ' !in w[1..] by {
          forall i | 0 <= i < |w[1..]| ensures w[1..][i] != ' ' {
            assert w[1..][i] == w[i + 1];
          }
        }
      }
    }
  }

  // ------------------------------------------------------- finding slices

  /** The first position at or after `from` where `pattern` occurs. */
  function IndexOf(s: string, pattern: string, from: nat): (r: Option<nat>)
    requires |pattern| > 0
    ensures r.Some? ==> from <= r.value && OccursAt(s, pattern, r.value)
    ensures r.Some? ==> forall i: nat :: from <= i < r.value ==> !OccursAt(s, pattern, i)
    ensures r.None? ==> forall i: nat :: from <= i ==> !OccursAt(s, pattern, i)
    decreases |s| - from
  {
    if from + |pattern| > |s| then None
    else if s[from..from + |pattern|] == pattern then Some(from)
    else IndexOf(s, pattern, from + 1)
  }

  /**
    CoreExtensions' `slice(from:to:)`: the text between the first occurrence
    of `start` and the first occurrence of `end` after it, if both exist.
   */
  function Slice(s: string, start: string, end: string): (r: Option<string>)
    requires |start| > 0 && |end| > 0
  {
    match IndexOf(s, start, 0)
    case None => None
    case Some(i) =>
      match IndexOf(s, end, i + |start|)
      case None => None
      case Some(j) => Some(s[i + |start|..j])
  }

  // ---------------------------------------------------------------- numbers

  predicate IsDigit(c: char) {
    '0' <= c <= '9'
  }

  predicate AllDigits(s: string) {
    forall i :: 0 <= i < |s| ==> IsDigit(s[i])
  }

  function DigitChar(d: nat): (c: char)
    requires d < 10
    ensures IsDigit(c) && (c as int) - ('0' as int) == d
  {
    (('0' as int) + d) as char
  }

  /** The decimal notation of `n`, as string interpolation `"\(n)"` renders it. */
  function NatToString(n: nat): (r: string)
    ensures |r| > 0 && AllDigits(r)
    decreases n
  {
    if n < 10 then [DigitChar(n)] else NatToString(n / 10) + [DigitChar(n % 10)]
  }

  /** The value of a string of decimal digits. */
  function DigitsValue(s: string): nat
    requires AllDigits(s)
    decreases |s|
  {
    if |s| == 0 then 0 else DigitsValue(s[..|s| - 1]) * 10 + ((s[|s| - 1] as int) - ('0' as int))
  }

  /** Reading back the decimal notation of a number gives the number. */
  lemma {:induction false} DigitsValueOfNatToString(n: nat)
    ensures DigitsValue(NatToString(n)) == n
    decreases n
  {
    var s := NatToString(n);
    if n >= 10 {
      DigitsValueOfNatToString(n / 10);
      assert s[..|s| - 1] == NatToString(n / 10);
    }
  }

  /** Different numbers have different decimal notations. */
  lemma {:induction false} NatToStringInjective(m: nat, n: nat)
    requires NatToString(m) == NatToString(n)
    ensures m == n
  {
    DigitsValueOfNatToString(m);
    DigitsValueOfNatToString(n);
  }

  /** The largest value of Swift's 64-bit `Int`. */
  const IntMax: int := 0x7FFF_FFFF_FFFF_FFFF

  /**
    Swift's `Int(_: String)`: an optional `+` or `-` followed by at least one
    decimal digit and nothing else, whose value fits the 64-bit `Int`.
   */
  function ParseInt(s: string): (r: Option<int>)
    ensures r.Some? ==> -IntMax - 1 <= r.value <= IntMax
    ensures |s| == 0 ==> r.None?
  {
    var signed := |s| > 0 && (s[0] == '+' || s[0] == '-');
    var digits := if signed then s[1..] else s;
    if |digits| == 0 || !AllDigits(digits) then None
    else
      var magnitude: int := DigitsValue(digits);
      var value: int := if signed && s[0] == '-' then -magnitude else magnitude;
      if -IntMax - 1 <= value <= IntMax then Some(value) else None
  }

  /** `Int("\(n)") == n` for every non-negative `Int`. */
  lemma {:induction false} ParseIntOfNatToString(n: nat)
    requires n <= IntMax
    ensures ParseInt(NatToString(n)) == Some(n)
  {
    DigitsValueOfNatToString(n);
  }

  // --------------------------------------------------------------- ordering

  /** Swift's `<` on strings, as the lexicographic order of their characters. */
  predicate Below(a: string, b: string)
    decreases |a|
  {
    |b| > 0 && (|a| == 0 || a[0] < b[0] || (a[0] == b[0] && Below(a[1..], b[1..])))
  }

  lemma {:induction false} BelowIrreflexive(a: string)
    ensures !Below(a, a)
    decreases |a|
  {
    if |a| > 0 {
      BelowIrreflexive(a[1..]);
    }
  }

  lemma {:induction false} BelowTransitive(a: string, b: string, c: string)
    requires Below(a, b) && Below(b, c)
    ensures Below(a, c)
    decreases |a|
  {
    if |a| > 0 && a[0] == b[0] && b[0] == c[0] {
      BelowTransitive(a[1..], b[1..], c[1..]);
    }
  }

  lemma {:induction false} BelowTotal(a: string, b: string)
    requires a != b
    ensures Below(a, b) || Below(b, a)
    decreases |a|
  {
    if |a| > 0 && |b| > 0 && a[0] == b[0] {
      assert a == [a[0]] + a[1..] && b == [b[0]] + b[1..];
      BelowTotal(a[1..], b[1..]);
    }
  }

  lemma {:induction false} BelowAsymmetric(a: string, b: string)
    requires Below(a, b)
    ensures !Below(b, a)
  {
    if Below(b, a) {
      BelowTransitive(a, b, a);
      BelowIrreflexive(a);
    }
  }

  predicate StrictlyAscending(xs: seq<string>) {
    forall i, j :: 0 <= i < j < |xs| ==> Below(xs[i], xs[j])
  }

  predicate IsLeast(m: string, s: set<string>) {
    m in s && forall x :: x in s && x != m ==> Below(m, x)
  }

  lemma {:induction false} LeastExists(s: set<string>)
    requires s != {}
    ensures exists m :: IsLeast(m, s)
    decreases s
  {
    var y :| y in s;
    if s == {y} {
      assert IsLeast(y, s);
    } else {
      LeastExists(s - {y});
      var m :| IsLeast(m, s - {y});
      if Below(y, m) {
        forall x | x in s && x != y ensures Below(y, x) {
          if x != m {
            BelowTransitive(y, m, x);
          }
        }
        assert IsLeast(y, s);
      } else {
        BelowTotal(y, m);
        assert IsLeast(m, s);
      }
    }
  }

  lemma {:induction false} LeastUnique(s: set<string>)
    ensures forall m, n :: IsLeast(m, s) && IsLeast(n, s) ==> m == n
  {
    forall m, n | IsLeast(m, s) && IsLeast(n, s) ensures m == n {
      if m != n {
        BelowAsymmetric(m, n);
      }
    }
  }

  /** Swift's `keys.sorted()`: the strings of `s` in ascending order. */
  function SortedStrings(s: set<string>): (r: seq<string>)
    ensures StrictlyAscending(r)
    ensures forall x :: x in r <==> x in s
    ensures |r| == |s|
    decreases s
  {
    if s == {} then []
    else
      LeastExists(s);
      LeastUnique(s);
      var m :| IsLeast(m, s);
      var rest := SortedStrings(s - {m});
      assert forall j :: 0 <= j < |rest| ==> rest[j] in s - {m};
      [m] + rest
  }
}
