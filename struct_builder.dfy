/**
  The struct emitter: renders the group tree as nested `public struct`s
  whose members are static properties (for key terms without specifiers)
  and static functions (for key terms with specifiers) that look the key up
  in its bundle.
 */
module StructBuilder {
  import opened Text
  import opened SwiftLint
  import opened FormatSpecifiers
  import opened LocalizedStringsParser
  import opened BuilderGroups
  import EnumBuilder

  // ------------------------------------------------------------ identifiers

  /** `fixStructName`: the name trimmed, then the two names unusable as Swift type names replaced. */
  function FixStructName(value: string): (r: string)
    ensures r != "Type" && r != "For"
    ensures Trim(value) == "Type" ==> r == "TypeOf"
    ensures Trim(value) == "For" ==> r == "`For`"
    ensures Trim(value) != "Type" && Trim(value) != "For" ==> r == Trim(value)
  {
    var name := Trim(value);
    if name == "Type" then "TypeOf"
    else if name == "For" then "`For`"
    else name
  }

  /**
    A group name without surrounding whitespace names the struct as it names
    the enum: the two emitters differ only in the trimming.
   */
  lemma {:induction false} FixStructNameAgrees(value: string)
    requires |value| > 0 && !IsWhitespace(value[0]) && !IsWhitespace(value[|value| - 1])
    ensures FixStructName(value) == EnumBuilder.FixEnumName(value)
  {
    TrimPadded("", value, "");
    assert "" + value + "" == value;
  }

  /** The three keywords the struct emitter escapes as member names. */
  predicate IsEscapedKeyword(name: string) {
    name == "for" || name == "in" || name == "is"
  }

  /** A keyword in backticks: `` `for` ``, `` `in` `` or `` `is` ``. */
  function Escaped(name: string): (r: string)
    requires IsEscapedKeyword(name)
    ensures r == "`" + name + "`" && ' ' !in r
  {
    if name == "for" then "`for`"
    else if name == "in" then "`in`"
    else "`is`"
  }

  /**
    The part of a member's name taken from its raw name: the keywords `for`,
    `in` and `is` escaped with backticks, the camel-joined words of a name
    with spaces, otherwise the lowered name itself.
   */
  function StructStem(raw: string): (r: string)
    ensures ' ' !in r
    ensures IsEscapedKeyword(LoweredName(raw)) ==> r == "`" + LoweredName(raw) + "`"
    ensures !IsEscapedKeyword(LoweredName(raw)) && ' ' !in LoweredName(raw) ==> r == LoweredName(raw)
    ensures !IsEscapedKeyword(LoweredName(raw)) && ' ' in LoweredName(raw) ==> r == CamelJoin(LoweredName(raw))
  {
    var name := LoweredName(raw);
    if IsEscapedKeyword(name) then Escaped(name)
    else if ' ' in name then
      assert name[0] != ' ';
      CamelJoin(name)
    else name
  }

  /** `name`: the stem, then `Plural` for several terms; specifiers do not change the name. */
  function StructCaseName(keyCase: Case): (r: string)
    ensures ' ' !in r
    ensures StartsWith(r, StructStem(keyCase.0))
    ensures |r| == |StructStem(keyCase.0)| + (if |keyCase.1.terms| > 1 then 6 else 0)
    ensures r[|StructStem(keyCase.0)|..] == if |keyCase.1.terms| > 1 then "Plural" else ""
  {
    var name := StructStem(keyCase.0);
    var suffix := if |keyCase.1.terms| > 1 then "Plural" else "";
    assert ' ' !in suffix;
    Suffixed(name, suffix);
    name + suffix
  }

  /**
    Two members with the same raw name and the same plurality get the same
    name whatever their specifiers: the `With` suffix of the enum emitter is
    not added here.
   */
  lemma {:induction false} StructCaseNameIgnoresSpecifiers(a: Case, b: Case)
    requires a.0 == b.0 && (|a.1.terms| > 1) == (|b.1.terms| > 1)
    requires |a.1.formatSpecifiers| == 0 && |b.1.formatSpecifiers| > 0
    ensures StructCaseName(a) == StructCaseName(b)
    ensures EnumBuilder.CaseName(a) != EnumBuilder.CaseName(b)
  {
    assert |EnumBuilder.CaseName(a)| != |EnumBuilder.CaseName(b)|;
  }

  /**
    Apart from `in` and `is`, which only the struct emitter escapes, the
    enum emitter's case name is the struct emitter's member name followed by
    `With` when there are specifiers.
   */
  lemma {:induction false} CaseNamesAgree(keyCase: Case)
    requires LoweredName(keyCase.0) != "in" && LoweredName(keyCase.0) != "is"
    ensures EnumBuilder.CaseName(keyCase)
      == StructCaseName(keyCase) + (if |keyCase.1.formatSpecifiers| > 0 then "With" else "")
  {
    var stem := StructStem(keyCase.0);
    assert EnumBuilder.CaseStem(keyCase.0) == stem;
    var plural := if |keyCase.1.terms| > 1 then "Plural" else "";
    var with := if |keyCase.1.formatSpecifiers| > 0 then "With" else "";
    assert EnumBuilder.CaseName(keyCase) == stem + (plural + with);
    assert StructCaseName(keyCase) == stem + plural;
    Associative(stem, plural, with);
  }

  // ---------------------------------------------------------------- members

  /** The declaration lines of a member without specifiers: a lazily initialised static property. */
  function PropertyLines(keyCase: Case, indent: string): seq<string> {
    [indent + "public static var " + StructCaseName(keyCase) + ": String = {",
     indent + "    return \"" + keyCase.1.key + "\".localized(Bundle." + keyCase.1.bundle + ")",
     indent + "}()"]
  }

  /** The declaration lines of a member with specifiers: a static function passing its parameters on. */
  function FunctionLines(keyCase: Case, indent: string, asParameter: FormatSpecifier -> string): seq<string> {
    var specifiers := keyCase.1.formatSpecifiers;
    [indent + "public static func " + StructCaseName(keyCase)
       + "(" + Join(Parameters(specifiers, asParameter), ", ") + ") -> String {",
     indent + "    let arguments: [CVarArg] = [" + Join(ArgumentLabels(|specifiers|), ", ") + "]",
     indent + "    return \"" + keyCase.1.key + "\".localized(arguments: arguments, bundle: Bundle." + keyCase.1.bundle + ")",
     indent + "}"]
  }

  /** The lines `format` writes: one comment per term, the declaration, and an empty line. */
  function MemberLines(keyCase: Case, indent: string, asParameter: FormatSpecifier -> string): seq<string> {
    DocLines(keyCase.1.terms, indent)
    + (if |keyCase.1.formatSpecifiers| == 0 then PropertyLines(keyCase, indent)
       else FunctionLines(keyCase, indent, asParameter))
    + [""]
  }

  /** The parameter loop of `format`: the parameter and argument lists, built side by side. */
  method ParameterLists(specifiers: seq<FormatSpecifier>, asParameter: FormatSpecifier -> string)
    returns (parameters: seq<string>, arguments: seq<string>)
    ensures parameters == Parameters(specifiers, asParameter)
    ensures arguments == ArgumentLabels(|specifiers|)
  {
    parameters, arguments := [], [];
    ghost var allParameters := Parameters(specifiers, asParameter);
    ghost var allArguments := ArgumentLabels(|specifiers|);
    for index := 0 to |specifiers|
      invariant parameters == allParameters[..index]
      invariant arguments == allArguments[..index]
    {
      TakeOneMore(allParameters, index);
      TakeOneMore(allArguments, index);
      parameters := parameters + ["_ " + ParameterLabel(index) + ": " + asParameter(specifiers[index])];
      arguments := arguments + [ParameterLabel(index)];
    }
    assert allParameters[..|specifiers|] == allParameters;
    assert allArguments[..|specifiers|] == allArguments;
  }

  /** The comment loop of `format`. */
  method Comments(terms: seq<string>, indent: string) returns (lines: seq<string>)
    ensures lines == DocLines(terms, indent)
  {
    lines := [];
    ghost var expected := DocLines(terms, indent);
    for i := 0 to |terms|
      invariant lines == expected[..i]
    {
      TakeOneMore(expected, i);
      lines := lines + [indent + "/// " + terms[i]];
    }
    assert expected[..|terms|] == expected;
  }

  /** `format(keyCase, indent:)`: the text of one member. */
  method Format(keyCase: Case, indent: string, asParameter: FormatSpecifier -> string) returns (r: string)
    ensures r == Join(MemberLines(keyCase, indent, asParameter), "\n")
  {
    var keyTerm := keyCase.1;
    var lines := Comments(keyTerm.terms, indent);
    var declaration: seq<string>;
    if |keyTerm.formatSpecifiers| == 0 {
      declaration := [indent + "public static var " + StructCaseName(keyCase) + ": String = {",
                      indent + "    return \"" + keyTerm.key + "\".localized(Bundle." + keyTerm.bundle + ")",
                      indent + "}()"];
      assert declaration == PropertyLines(keyCase, indent);
    } else {
      var parameters, arguments := ParameterLists(keyTerm.formatSpecifiers, asParameter);
      declaration := [indent + "public static func " + StructCaseName(keyCase) + "(" + Join(parameters, ", ") + ") -> String {",
                      indent + "    let arguments: [CVarArg] = [" + Join(arguments, ", ") + "]",
                      indent + "    return \"" + keyTerm.key + "\".localized(arguments: arguments, bundle: Bundle." + keyTerm.bundle + ")",
                      indent + "}"];
      assert declaration == FunctionLines(keyCase, indent, asParameter);
    }
    lines := lines + declaration + [""];
    r := Join(lines, "\n");
  }

  /**
    A member is a property exactly when it has no specifiers and a function
    otherwise; its declaration follows its comment lines.
   */
  lemma {:induction false} MemberKind(keyCase: Case, indent: string, asParameter: FormatSpecifier -> string)
    ensures |MemberLines(keyCase, indent, asParameter)| > |keyCase.1.terms| + 1
    ensures StartsWith(MemberLines(keyCase, indent, asParameter)[|keyCase.1.terms|], indent + "public static var ")
        <==> |keyCase.1.formatSpecifiers| == 0
    ensures StartsWith(MemberLines(keyCase, indent, asParameter)[|keyCase.1.terms|], indent + "public static func ")
        <==> |keyCase.1.formatSpecifiers| > 0
  {
    var docs := DocLines(keyCase.1.terms, indent);
    var name := StructCaseName(keyCase);
    var specifiers := keyCase.1.formatSpecifiers;
    var declarations := if |specifiers| == 0 then PropertyLines(keyCase, indent) else FunctionLines(keyCase, indent, asParameter);
    IndexSecond(docs, declarations, [""], 0);
    var line := declarations[0];
    var keyword := if |specifiers| == 0 then "public static var " else "public static func ";
    if |specifiers| == 0 {
      PrefixOfAppended(indent, keyword, name, ": String = {");
    } else {
      var opening := name + "(" + Join(Parameters(specifiers, asParameter), ", ");
      Regroup(indent + keyword, name, "(", Join(Parameters(specifiers, asParameter), ", "));
      PrefixOfAppended(indent, keyword, opening, ") -> String {");
    }
    KeywordTellsKind(line, indent, keyword);
  }

  /** The character after `public static ` tells a property line from a function line. */
  lemma {:induction false} KeywordTellsKind(line: string, indent: string, keyword: string)
    requires StartsWith(line, indent + keyword)
    requires keyword == "public static var " || keyword == "public static func "
    ensures StartsWith(line, indent + "public static var ") <==> keyword == "public static var "
    ensures StartsWith(line, indent + "public static func ") <==> keyword == "public static func "
  {
    assert line[|indent| + 14] == keyword[14];
    assert ("public static var ")[14] == 'v';
    assert ("public static func ")[14] == 'f';
    if StartsWith(line, indent + "public static var ") {
      assert line[|indent| + 14] == (indent + "public static var ")[|indent| + 14];
    }
    if StartsWith(line, indent + "public static func ") {
      assert line[|indent| + 14] == (indent + "public static func ")[|indent| + 14];
    }
  }

  /**
    The line returning the localised text opens with `return "`, and the raw
    key and the bundle name appear in it unchanged: the member looks up the
    very key it was built from, in its own bundle.
   */
  lemma {:induction false} MemberLooksUpKey(keyCase: Case, indent: string, asParameter: FormatSpecifier -> string)
    ensures var line := |keyCase.1.terms| + (if |keyCase.1.formatSpecifiers| == 0 then 1 else 2);
      && line < |MemberLines(keyCase, indent, asParameter)|
      && StartsWith(MemberLines(keyCase, indent, asParameter)[line], indent + "    return \"")
      && Contains(MemberLines(keyCase, indent, asParameter)[line], keyCase.1.key)
      && Contains(MemberLines(keyCase, indent, asParameter)[line], keyCase.1.bundle)
  {
    var docs := DocLines(keyCase.1.terms, indent);
    var key, bundle := keyCase.1.key, keyCase.1.bundle;
    if |keyCase.1.formatSpecifiers| == 0 {
      var declarations := PropertyLines(keyCase, indent);
      IndexSecond(docs, declarations, [""], 1);
      PiecesOfLine(indent + "    return \"", key, "\".localized(Bundle.", bundle, ")");
    } else {
      var declarations := FunctionLines(keyCase, indent, asParameter);
      IndexSecond(docs, declarations, [""], 2);
      PiecesOfLine(indent + "    return \"", key, "\".localized(arguments: arguments, bundle: Bundle.", bundle, ")");
    }
  }

  /** A line built as `a + key + b + bundle + c` starts with `a` and holds `key` and `bundle`. */
  lemma {:induction false} PiecesOfLine(a: string, key: string, b: string, bundle: string, c: string)
    ensures StartsWith(a + key + b + bundle + c, a)
    ensures Contains(a + key + b + bundle + c, key)
    ensures Contains(a + key + b + bundle + c, bundle)
  {
    assert (a + key + b + bundle + c)[..|a|] == a;
    ContainsWhole(key);
    ContainsInSuffix(a, key, key);
    ContainsInPrefix(a + key, b, key);
    ContainsInPrefix(a + key + b, bundle, key);
    ContainsInPrefix(a + key + b + bundle, c, key);
    ContainsWhole(bundle);
    ContainsInSuffix(a + key + b, bundle, bundle);
    ContainsInPrefix(a + key + b + bundle, c, bundle);
  }

  /** A member's text ends with a newline, so consecutive members are separated by an empty line. */
  lemma {:induction false} MemberEndsWithNewline(keyCase: Case, indent: string, asParameter: FormatSpecifier -> string)
    ensures EndsWith(Join(MemberLines(keyCase, indent, asParameter), "\n"), "\n")
  {
    LastEmptyJoin(MemberLines(keyCase, indent, asParameter), "\n");
  }

  /** Joining lines whose last one is empty leaves the separator last. */
  lemma {:induction false} LastEmptyJoin(lines: seq<string>, separator: string)
    requires |lines| > 1 && lines[|lines| - 1] == ""
    ensures EndsWith(Join(lines, separator), separator)
  {
    var front := lines[..|lines| - 1];
    assert lines == front + [""];
    JoinConcat(front, [""], separator);
    assert Join(front, separator) + separator + Join([""], separator) == Join(front, separator) + separator;
    SuffixOfHead(Join(front, separator), separator);
  }

  // ---------------------------------------------------------------- structs

  /** The `public struct` line of a group. */
  function StructHeader(group: BuilderGroup, indent: string): string {
    indent + "public struct " + FixStructName(group.name) + " {"
  }

  /**
    The text `buildStruct` writes for a group: its header, its members in
    descending order of raw name, its child groups in ascending key order
    (each one level deeper), joined by newlines; then the last character
    dropped when it is whitespace, and the closing brace on a line of its
    own followed by a newline.
   */
  function StructText(group: BuilderGroup, indent: string, asParameter: FormatSpecifier -> string): string
    decreases group, 2
  {
    DropLastIfWhitespace(Join(StructLines(group, indent, asParameter), "\n")) + "\n" + indent + "}\n"
  }

  function StructLines(group: BuilderGroup, indent: string, asParameter: FormatSpecifier -> string): (r: seq<string>)
    ensures |r| == 1 + |group.cases| + |ChildKeys(group)|
    ensures r[0] == StructHeader(group, indent)
    decreases group, 1
  {
    [StructHeader(group, indent)]
    + MemberTexts(SortCases(group.cases), indent + Indent, asParameter)
    + ChildStructTexts(group, indent + Indent, asParameter)
  }

  /** The text of each member, in the order given. */
  function MemberTexts(cases: seq<Case>, indent: string, asParameter: FormatSpecifier -> string): (r: seq<string>)
    ensures |r| == |cases|
    ensures forall i :: 0 <= i < |cases| ==> r[i] == Join(MemberLines(cases[i], indent, asParameter), "\n")
  {
    seq(|cases|, i requires 0 <= i < |cases| => Join(MemberLines(cases[i], indent, asParameter), "\n"))
  }

  /** The text of each child group, in ascending key order. */
  function ChildStructTexts(group: BuilderGroup, indent: string, asParameter: FormatSpecifier -> string): (r: seq<string>)
    ensures |r| == |ChildKeys(group)|
    ensures forall i :: 0 <= i < |r| ==> r[i] == StructText(group.groups[ChildKeys(group)[i]], indent, asParameter)
    decreases group, 0
  {
    var keys := ChildKeys(group);
    seq(|keys|, i requires 0 <= i < |keys| => assert keys[i] in keys; StructText(group.groups[keys[i]], indent, asParameter))
  }

  /** The member loop of `buildStruct`. */
  method Members(cases: seq<Case>, indent: string, asParameter: FormatSpecifier -> string) returns (texts: seq<string>)
    ensures texts == MemberTexts(cases, indent, asParameter)
  {
    texts := [];
    ghost var expected := MemberTexts(cases, indent, asParameter);
    for i := 0 to |cases|
      invariant texts == expected[..i]
    {
      var text := Format(cases[i], indent, asParameter);
      TakeOneMore(expected, i);
      texts := texts + [text];
    }
    assert expected[..|cases|] == expected;
  }

  /** `buildStruct(group, indent:)`. */
  method BuildStruct(group: BuilderGroup, indent: string, asParameter: FormatSpecifier -> string) returns (r: string)
    ensures r == StructText(group, indent, asParameter)
    decreases group
  {
    var inner := indent + Indent;
    var memberTexts := Members(SortCases(group.cases), inner, asParameter);
    var groupKeys := ChildKeys(group);
    var childTexts := [];
    ghost var expected := ChildStructTexts(group, inner, asParameter);
    for i := 0 to |groupKeys|
      invariant childTexts == expected[..i]
    {
      assert groupKeys[i] in groupKeys;
      var subGroup := group.groups[groupKeys[i]];
      var text := BuildStruct(subGroup, inner, asParameter);
      assert expected[i] == text;
      TakeOneMore(expected, i);
      childTexts := childTexts + [text];
    }
    assert expected[..|groupKeys|] == expected;
    var lines := [indent + "public struct " + FixStructName(group.name) + " {"] + memberTexts + childTexts;
    assert lines == StructLines(group, indent, asParameter);
    var result := DropLastIfWhitespace(Join(lines, "\n"));
    result := result + "\n" + indent + "}\n";
    r := result;
  }

  /**
    Every struct opens with its header and ends with its closing brace on a
    line of its own, at the same indentation, followed by a newline.
   */
  lemma {:induction false} StructTextShape(group: BuilderGroup, indent: string, asParameter: FormatSpecifier -> string)
    ensures StartsWith(StructText(group, indent, asParameter), StructHeader(group, indent))
    ensures EndsWith(StructText(group, indent, asParameter), "\n" + indent + "}\n")
  {
    var lines := StructLines(group, indent, asParameter);
    var header := StructHeader(group, indent);
    var joined := Join(lines, "\n");
    JoinEnds(lines, "\n");
    var kept := DropLastIfWhitespace(joined);
    assert header[|header| - 1] == '{' by {
      SuffixOfHead(indent + "public struct " + FixStructName(group.name), " {");
    }
    DropLastKeepsPrefix(joined, header);
    var closing := "\n" + indent + "}\n";
    Regroup(kept, "\n", indent, "}\n");
    PrefixOfConcat(kept, closing);
    PrefixTransitive(kept + closing, kept, header);
    SuffixOfHead(kept, closing);
  }

  /**
    The layout of a group's lines: the header first, then member `i` of the
    descending order at line `1 + i`, then child `j` of the ascending key
    order right after the members.
   */
  lemma {:induction false} StructLayout(group: BuilderGroup, indent: string, asParameter: FormatSpecifier -> string)
    ensures StructLines(group, indent, asParameter)[0] == StructHeader(group, indent)
    ensures forall i :: 0 <= i < |group.cases| ==>
      StructLines(group, indent, asParameter)[1 + i]
      == Join(MemberLines(SortCases(group.cases)[i], indent + Indent, asParameter), "\n")
    ensures forall j :: 0 <= j < |ChildKeys(group)| ==>
      && ChildKeys(group)[j] in group.groups
      && StructLines(group, indent, asParameter)[1 + |group.cases| + j]
         == StructText(group.groups[ChildKeys(group)[j]], indent + Indent, asParameter)
  {
    forall i | 0 <= i < |group.cases|
      ensures StructLines(group, indent, asParameter)[1 + i]
           == Join(MemberLines(SortCases(group.cases)[i], indent + Indent, asParameter), "\n")
    {
      StructMemberLine(group, indent, asParameter, i);
    }
    forall j | 0 <= j < |ChildKeys(group)|
      ensures ChildKeys(group)[j] in group.groups
      ensures StructLines(group, indent, asParameter)[1 + |group.cases| + j]
           == StructText(group.groups[ChildKeys(group)[j]], indent + Indent, asParameter)
    {
      StructChildLine(group, indent, asParameter, j);
    }
  }

  lemma {:induction false} StructMemberLine(group: BuilderGroup, indent: string, asParameter: FormatSpecifier -> string, i: nat)
    requires i < |group.cases|
    ensures StructLines(group, indent, asParameter)[1 + i]
         == Join(MemberLines(SortCases(group.cases)[i], indent + Indent, asParameter), "\n")
  {
    var members := MemberTexts(SortCases(group.cases), indent + Indent, asParameter);
    IndexSecond([StructHeader(group, indent)], members, ChildStructTexts(group, indent + Indent, asParameter), i);
  }

  lemma {:induction false} StructChildLine(group: BuilderGroup, indent: string, asParameter: FormatSpecifier -> string, j: nat)
    requires j < |ChildKeys(group)|
    ensures ChildKeys(group)[j] in group.groups
    ensures StructLines(group, indent, asParameter)[1 + |group.cases| + j]
         == StructText(group.groups[ChildKeys(group)[j]], indent + Indent, asParameter)
  {
    var keys := ChildKeys(group);
    assert keys[j] in keys;
    var members := MemberTexts(SortCases(group.cases), indent + Indent, asParameter);
    IndexLast([StructHeader(group, indent)], members, ChildStructTexts(group, indent + Indent, asParameter), j);
  }

  /**
    The text of every child group appears whole in its parent's text: the
    last line is then a child ending in a newline, and the newline dropped
    before the closing brace is the one written back.
   */
  lemma {:induction false} StructTextHoldsChildren(group: BuilderGroup, indent: string, asParameter: FormatSpecifier -> string, key: string)
    requires key in group.groups
    ensures Contains(StructText(group, indent, asParameter), StructText(group.groups[key], indent + Indent, asParameter))
  {
    var joined := Join(StructLines(group, indent, asParameter), "\n");
    var child := StructText(group.groups[key], indent + Indent, asParameter);
    StructLinesHoldChild(group, indent, asParameter, key);
    StructLinesEndInNewline(group, indent, asParameter);
    ClosedAfterNewline(joined, indent, child);
  }

  /** The joined lines of a group hold the text of each of its children. */
  lemma {:induction false} StructLinesHoldChild(group: BuilderGroup, indent: string, asParameter: FormatSpecifier -> string, key: string)
    requires key in group.groups
    ensures Contains(Join(StructLines(group, indent, asParameter), "\n"), StructText(group.groups[key], indent + Indent, asParameter))
  {
    var keys := ChildKeys(group);
    var j :| 0 <= j < |keys| && keys[j] == key;
    StructChildLine(group, indent, asParameter, j);
    JoinContains(StructLines(group, indent, asParameter), "\n", 1 + |group.cases| + j);
  }

  /** With child groups, the joined lines end with the last child's closing newline. */
  lemma {:induction false} StructLinesEndInNewline(group: BuilderGroup, indent: string, asParameter: FormatSpecifier -> string)
    requires |group.groups| > 0
    ensures var joined := Join(StructLines(group, indent, asParameter), "\n");
      |joined| > 0 && joined[|joined| - 1] == '\n'
  {
    var lines := StructLines(group, indent, asParameter);
    var n := |ChildKeys(group)|;
    StructChildLine(group, indent, asParameter, n - 1);
    var child := group.groups[ChildKeys(group)[n - 1]];
    assert lines[|lines| - 1] == StructText(child, indent + Indent, asParameter);
    StructTextEndsInNewline(child, indent + Indent, asParameter);
    LastOfJoin(lines, "\n");
  }

  /** Every struct text ends with the newline after its closing brace. */
  lemma {:induction false} StructTextEndsInNewline(group: BuilderGroup, indent: string, asParameter: FormatSpecifier -> string)
    ensures var text := StructText(group, indent, asParameter); |text| > 0 && text[|text| - 1] == '\n'
  {
    StructTextShape(group, indent, asParameter);
    LastOfSuffix(StructText(group, indent, asParameter), "\n" + indent + "}\n");
  }

  /**
    A text ending in a newline, closed by `buildStruct`, is that text
    followed by the brace line, so all it holds is kept.
   */
  lemma {:induction false} ClosedAfterNewline(joined: string, indent: string, part: string)
    requires |joined| > 0 && joined[|joined| - 1] == '\n'
    requires Contains(joined, part)
    ensures Contains(DropLastIfWhitespace(joined) + "\n" + indent + "}\n", part)
  {
    var kept := DropLastIfWhitespace(joined);
    assert kept + "\n" == joined;
    Associative(joined, indent, "}\n");
    ContainsInPrefix(joined, indent + "}\n", part);
  }

  /** Dropping a trailing whitespace character keeps a prefix that does not end in whitespace. */
  lemma {:induction false} DropLastKeepsPrefix(s: string, prefix: string)
    requires StartsWith(s, prefix) && |prefix| > 0 && !IsWhitespace(prefix[|prefix| - 1])
    ensures StartsWith(DropLastIfWhitespace(s), prefix)
  {
    if IsWhitespace(s[|s| - 1]) {
      assert |s| > |prefix|;
      assert DropLastIfWhitespace(s)[..|prefix|] == s[..|prefix|];
    }
  }

  // ------------------------------------------------------------------- file

  /** The private `String` extension the generated members call, line by line. */
  const LocalisedExtensions: string := Join([
    "private extension String {",
    "    func localized(_ bundle: Bundle) -> String {",
    "        return NSLocalizedString(self, bundle: bundle, comment: \"\")",
    "    }",
    "",
    "    func localized(arguments: [CVarArg], bundle: Bundle) -> String {",
    "        return String(format: self, arguments: arguments).localized(bundle)",
    "    }",
    "}"], "\n")

  /** The nine items of the generated file, in the order `build` appends them. */
  function FileItems(master: BuilderGroup, asParameter: FormatSpecifier -> string): seq<string> {
    [Description(Disable(FileLength)),
     "import Foundation",
     "",
     LocalisedExtensions,
     "",
     Description(Disable(TypeBodyLength)),
     TrimTrailing(StructText(master, "", asParameter)),
     Description(Enable(TypeBodyLength)),
     Description(Enable(FileLength))]
  }

  /**
    `build`: the file for the master group.  The key terms `build` receives
    are not read by it; the master group built from them is the input here.
   */
  method Build(master: BuilderGroup, asParameter: FormatSpecifier -> string) returns (r: string)
    ensures r == Join(FileItems(master, asParameter), "\n")
  {
    var structText := BuildStruct(master, "", asParameter);
    var items := [Description(Disable(FileLength)), "import Foundation", "", LocalisedExtensions, "",
                  Description(Disable(TypeBodyLength)), TrimTrailing(structText),
                  Description(Enable(TypeBodyLength)), Description(Enable(FileLength))];
    r := Join(items, "\n");
  }

  /**
    The file switches both rules off before anything else and on again at
    the very end; the struct tree sits between them with its trailing
    newline trimmed, so it ends with the master's closing brace.
   */
  lemma {:induction false} FileShape(master: BuilderGroup, asParameter: FormatSpecifier -> string)
    ensures StartsWith(Join(FileItems(master, asParameter), "\n"),
                       Description(Disable(FileLength)) + "\n" + "import Foundation" + "\n")
    ensures EndsWith(Join(FileItems(master, asParameter), "\n"),
                     Description(Enable(TypeBodyLength)) + "\n" + Description(Enable(FileLength)))
    ensures Contains(Join(FileItems(master, asParameter), "\n"), TrimTrailing(StructText(master, "", asParameter)))
    ensures EndsWith(TrimTrailing(StructText(master, "", asParameter)), "}")
  {
    var items := FileItems(master, asParameter);
    JoinOpensWith(items, "\n");
    JoinClosesWith(items, "\n");
    JoinContains(items, "\n", 6);
    var text := StructText(master, "", asParameter);
    StructTextShape(master, "", asParameter);
    TrimmedClosing(text);
  }

  /** Trimming a text that ends with a brace and a newline leaves the brace last. */
  lemma {:induction false} TrimmedClosing(text: string)
    requires EndsWith(text, "\n" + "" + "}\n")
    ensures EndsWith(TrimTrailing(text), "}")
  {
    var n := |text|;
    assert text[n - 1] == '\n' && text[n - 2] == '}';
    var t := TrimTrailing(text);
    assert |t| == n - 1;
    assert t[|t| - 1] == '}';
  }
}
