/**
  The enum emitter: renders the group tree as nested `public enum`s, one
  `case` per key term, plus one `LocalizableSupport` extension per group
  that has cases of its own.
 */
module EnumBuilder {
  import opened Text
  import opened Collections
  import opened SwiftLint
  import opened FormatSpecifiers
  import opened LocalizedStringsParser
  import opened BuilderGroups

  // ------------------------------------------------------------ identifiers

  /** `fixEnumName`: the two group names that are not usable as Swift type names are replaced. */
  function FixEnumName(value: string): (r: string)
    ensures r != "Type" && r != "For"
    ensures value == "Type" ==> r == "TypeOf"
    ensures value == "For" ==> r == "`For`"
    ensures value != "Type" && value != "For" ==> r == value
  {
    if value == "Type" then "TypeOf"
    else if value == "For" then "`For`"
    else value
  }

  /** The replacement is a fixed point: fixing a fixed name changes nothing. */
  lemma {:induction false} FixEnumNameIdempotent(value: string)
    ensures FixEnumName(FixEnumName(value)) == FixEnumName(value)
  {
  }

  /**
    The part of a case's identifier taken from its raw name: `` `for` `` for
    `for`, the camel-joined words of a name with spaces, otherwise the
    lowered name itself.
   */
  function CaseStem(raw: string): (r: string)
    ensures ' ' !in r
    ensures LoweredName(raw) == "for" ==> r == "`for`"
    ensures LoweredName(raw) != "for" && ' ' !in LoweredName(raw) ==> r == LoweredName(raw)
    ensures LoweredName(raw) != "for" && ' ' in LoweredName(raw) ==>
      && r == CamelJoin(LoweredName(raw))
      && StartsWith(r, Split(LoweredName(raw), ' ')[0])
      && |r| == |Without(LoweredName(raw), ' ')|
  {
    var name := LoweredName(raw);
    if name == "for" then "`for`"
    else if ' ' in name then
      assert name[0] != ' ';
      CamelJoin(name)
    else name
  }

  /** `name`: the stem, then `Plural` for several terms, then `With` when there are specifiers. */
  function CaseName(keyCase: Case): (r: string)
    ensures ' ' !in r
    ensures StartsWith(r, CaseStem(keyCase.0))
    ensures |r| == |CaseStem(keyCase.0)|
                 + (if |keyCase.1.terms| > 1 then 6 else 0)
                 + (if |keyCase.1.formatSpecifiers| > 0 then 4 else 0)
    ensures r[|CaseStem(keyCase.0)|..]
         == (if |keyCase.1.terms| > 1 then "Plural" else "")
          + (if |keyCase.1.formatSpecifiers| > 0 then "With" else "")
  {
    var name := CaseStem(keyCase.0);
    var suffix := (if |keyCase.1.terms| > 1 then "Plural" else "")
                + (if |keyCase.1.formatSpecifiers| > 0 then "With" else "");
    assert ' ' !in suffix && |suffix| == (if |keyCase.1.terms| > 1 then 6 else 0)
                                       + (if |keyCase.1.formatSpecifiers| > 0 then 4 else 0);
    Suffixed(name, suffix);
    name + suffix
  }

  /**
    The suffixes tell the variants apart: two cases with the same raw name
    get the same identifier only when both or neither are plural and both or
    neither take arguments.
   */
  lemma {:induction false} CaseNameSuffixes(a: Case, b: Case)
    requires a.0 == b.0 && CaseName(a) == CaseName(b)
    ensures (|a.1.terms| > 1) == (|b.1.terms| > 1)
    ensures (|a.1.formatSpecifiers| > 0) == (|b.1.formatSpecifiers| > 0)
  {
  }

  /** The suffixes come after the stem, `Plural` before `With`. */
  lemma {:induction false} CaseNameSuffixOrder(keyCase: Case)
    requires |keyCase.1.terms| > 1 && |keyCase.1.formatSpecifiers| > 0
    ensures CaseName(keyCase) == CaseStem(keyCase.0) + "PluralWith"
  {
    var stem, r := CaseStem(keyCase.0), CaseName(keyCase);
    assert r[|stem|..] == "PluralWith";
    Rejoin(r, |stem|);
  }

  // ------------------------------------------------------------------ cases

  /** The `case` line: the identifier, and the parameter list only when there are specifiers. */
  function CaseDeclaration(keyCase: Case, indent: string, asParameter: FormatSpecifier -> string): string {
    var text := indent + "case " + CaseName(keyCase);
    if |keyCase.1.formatSpecifiers| == 0 then text
    else text + "(" + Join(Parameters(keyCase.1.formatSpecifiers, asParameter), ", ") + ")"
  }

  /** The lines `toCase` writes: the comment lines, then the `case` line. */
  function CaseLines(keyCase: Case, indent: string, asParameter: FormatSpecifier -> string): seq<string> {
    DocLines(keyCase.1.terms, indent) + [CaseDeclaration(keyCase, indent, asParameter)]
  }

  /** `toCase`: the comment lines and the `case` line of one case. */
  method ToCase(keyCase: Case, indent: string, asParameter: FormatSpecifier -> string) returns (r: string)
    ensures r == Join(CaseLines(keyCase, indent, asParameter), "\n")
  {
    var text := indent + "case " + CaseName(keyCase);
    var keyTerm := keyCase.1;
    if |keyTerm.formatSpecifiers| > 0 {
      var parameters: seq<string> := [];
      for index := 0 to |keyTerm.formatSpecifiers|
        invariant parameters == Parameters(keyTerm.formatSpecifiers, asParameter)[..index]
      {
        TakeOneMore(Parameters(keyTerm.formatSpecifiers, asParameter), index);
        parameters := parameters + ["_ " + ParameterLabel(index) + ": " + asParameter(keyTerm.formatSpecifiers[index])];
      }
      assert parameters == Parameters(keyTerm.formatSpecifiers, asParameter);
      text := text + "(" + Join(parameters, ", ") + ")";
    }
    assert text == CaseDeclaration(keyCase, indent, asParameter);
    var lines: seq<string> := [];
    for i := 0 to |keyTerm.terms|
      invariant lines == DocLines(keyTerm.terms, indent)[..i]
    {
      TakeOneMore(DocLines(keyTerm.terms, indent), i);
      lines := lines + [indent + "/// " + keyTerm.terms[i]];
    }
    assert lines == DocLines(keyTerm.terms, indent);
    lines := lines + [text];
    assert lines == CaseLines(keyCase, indent, asParameter);
    r := Join(lines, "\n");
  }

  /**
    The `case` line has a parameter list exactly when the key term has
    specifiers; the list holds `_ p<i>: <type>` for every specifier, in
    order and separated by `, `, opening with the first one.
   */
  lemma {:induction false} CaseDeclarationShape(keyCase: Case, indent: string, asParameter: FormatSpecifier -> string)
    ensures |keyCase.1.formatSpecifiers| == 0 ==>
      CaseDeclaration(keyCase, indent, asParameter) == indent + "case " + CaseName(keyCase)
    ensures |keyCase.1.formatSpecifiers| > 0 ==>
      && StartsWith(CaseDeclaration(keyCase, indent, asParameter),
                    indent + "case " + CaseName(keyCase) + "(" + Parameters(keyCase.1.formatSpecifiers, asParameter)[0])
      && EndsWith(CaseDeclaration(keyCase, indent, asParameter), ")")
      && CaseDeclaration(keyCase, indent, asParameter)
         == indent + "case " + CaseName(keyCase) + "(" + Join(Parameters(keyCase.1.formatSpecifiers, asParameter), ", ") + ")"
    ensures forall i :: 0 <= i < |keyCase.1.formatSpecifiers| ==>
      Contains(CaseDeclaration(keyCase, indent, asParameter),
               "_ " + ParameterLabel(i) + ": " + asParameter(keyCase.1.formatSpecifiers[i]))
  {
    var specifiers := keyCase.1.formatSpecifiers;
    if |specifiers| > 0 {
      var head := indent + "case " + CaseName(keyCase) + "(";
      var parameters := Parameters(specifiers, asParameter);
      assert CaseDeclaration(keyCase, indent, asParameter) == head + Join(parameters, ", ") + ")";
      ClosedJoin(head, parameters);
      ClosedJoinHolds(head, parameters);
    }
  }

  // ------------------------------------------------------------------- enums

  /** The `public enum` line of a group. */
  function EnumHeader(group: BuilderGroup, indent: string): string {
    indent + "public enum " + FixEnumName(group.name) + " {"
  }

  /**
    The text `buildEnum` writes for a group: its header, its cases in
    descending order of raw name, its child groups in ascending key order
    (each one level deeper), and the closing brace.
   */
  function EnumText(group: BuilderGroup, indent: string, asParameter: FormatSpecifier -> string): string
    decreases group, 2
  {
    Join(EnumLines(group, indent, asParameter), "\n")
  }

  function EnumLines(group: BuilderGroup, indent: string, asParameter: FormatSpecifier -> string): (r: seq<string>)
    ensures |r| == 2 + |group.cases| + |ChildKeys(group)|
    decreases group, 1
  {
    [EnumHeader(group, indent)]
    + CaseTexts(SortCases(group.cases), indent + Indent, asParameter)
    + ChildTexts(group, indent + Indent, asParameter)
    + [indent + "}"]
  }

  /** The text of each case, in the order given. */
  function CaseTexts(cases: seq<Case>, indent: string, asParameter: FormatSpecifier -> string): (r: seq<string>)
    ensures |r| == |cases|
    ensures forall i :: 0 <= i < |cases| ==> r[i] == Join(CaseLines(cases[i], indent, asParameter), "\n")
  {
    seq(|cases|, i requires 0 <= i < |cases| => Join(CaseLines(cases[i], indent, asParameter), "\n"))
  }

  /** The text of each child group, in ascending key order. */
  function ChildTexts(group: BuilderGroup, indent: string, asParameter: FormatSpecifier -> string): (r: seq<string>)
    ensures |r| == |ChildKeys(group)|
    ensures forall i :: 0 <= i < |r| ==> r[i] == EnumText(group.groups[ChildKeys(group)[i]], indent, asParameter)
    decreases group, 0
  {
    var keys := ChildKeys(group);
    seq(|keys|, i requires 0 <= i < |keys| => assert keys[i] in keys; EnumText(group.groups[keys[i]], indent, asParameter))
  }

  /** The case loop of `buildEnum`: one `toCase` text per case, in the order given. */
  method ToCases(cases: seq<Case>, indent: string, asParameter: FormatSpecifier -> string) returns (texts: seq<string>)
    ensures texts == CaseTexts(cases, indent, asParameter)
  {
    texts := [];
    ghost var expected := CaseTexts(cases, indent, asParameter);
    for i := 0 to |cases|
      invariant texts == expected[..i]
    {
      var text := ToCase(cases[i], indent, asParameter);
      TakeOneMore(expected, i);
      texts := texts + [text];
    }
    assert expected[..|cases|] == expected;
  }

  /** `buildEnum(group, indent:)`. */
  method BuildEnum(group: BuilderGroup, indent: string, asParameter: FormatSpecifier -> string) returns (r: string)
    ensures r == EnumText(group, indent, asParameter)
    decreases group
  {
    var inner := indent + Indent;
    var caseTexts := ToCases(SortCases(group.cases), inner, asParameter);
    var groupKeys := ChildKeys(group);
    var childTexts := [];
    ghost var expected := ChildTexts(group, inner, asParameter);
    for i := 0 to |groupKeys|
      invariant childTexts == expected[..i]
    {
      assert groupKeys[i] in groupKeys;
      var subGroup := group.groups[groupKeys[i]];
      var text := BuildEnum(subGroup, inner, asParameter);
      assert expected[i] == text;
      TakeOneMore(expected, i);
      childTexts := childTexts + [text];
    }
    assert expected[..|groupKeys|] == expected;
    var lines := [indent + "public enum " + FixEnumName(group.name) + " {"] + caseTexts + childTexts + [indent + "}"];
    assert lines == EnumLines(group, indent, asParameter);
    r := Join(lines, "\n");
  }

  /**
    Every enum opens with its header and closes with a brace at the same
    indentation; between them come the group's cases, then its children.
   */
  lemma {:induction false} EnumTextShape(group: BuilderGroup, indent: string, asParameter: FormatSpecifier -> string)
    ensures StartsWith(EnumText(group, indent, asParameter), EnumHeader(group, indent))
    ensures EndsWith(EnumText(group, indent, asParameter), indent + "}")
  {
    var lines := EnumLines(group, indent, asParameter);
    JoinEnds(lines, "\n");
  }

  /**
    The layout of a group's lines: the header first, then case `i` of the
    descending order at line `1 + i`, then child `j` of the ascending key
    order right after the cases, and the closing brace last.
   */
  lemma {:induction false} EnumLayout(group: BuilderGroup, indent: string, asParameter: FormatSpecifier -> string)
    ensures EnumLines(group, indent, asParameter)[0] == EnumHeader(group, indent)
    ensures forall i :: 0 <= i < |group.cases| ==>
      EnumLines(group, indent, asParameter)[1 + i]
      == Join(CaseLines(SortCases(group.cases)[i], indent + Indent, asParameter), "\n")
    ensures forall j :: 0 <= j < |ChildKeys(group)| ==>
      && ChildKeys(group)[j] in group.groups
      && EnumLines(group, indent, asParameter)[1 + |group.cases| + j]
         == EnumText(group.groups[ChildKeys(group)[j]], indent + Indent, asParameter)
    ensures EnumLines(group, indent, asParameter)[|EnumLines(group, indent, asParameter)| - 1] == indent + "}"
  {
    forall i | 0 <= i < |group.cases|
      ensures EnumLines(group, indent, asParameter)[1 + i]
           == Join(CaseLines(SortCases(group.cases)[i], indent + Indent, asParameter), "\n")
    {
      EnumCaseLine(group, indent, asParameter, i);
    }
    forall j | 0 <= j < |ChildKeys(group)|
      ensures ChildKeys(group)[j] in group.groups
      ensures EnumLines(group, indent, asParameter)[1 + |group.cases| + j]
           == EnumText(group.groups[ChildKeys(group)[j]], indent + Indent, asParameter)
    {
      EnumChildLine(group, indent, asParameter, j);
    }
    EnumEndLines(group, indent, asParameter);
  }

  lemma {:induction false} EnumEndLines(group: BuilderGroup, indent: string, asParameter: FormatSpecifier -> string)
    ensures EnumLines(group, indent, asParameter)[0] == EnumHeader(group, indent)
    ensures EnumLines(group, indent, asParameter)[|EnumLines(group, indent, asParameter)| - 1] == indent + "}"
  {
    FramedEnds(EnumHeader(group, indent), CaseTexts(SortCases(group.cases), indent + Indent, asParameter),
               ChildTexts(group, indent + Indent, asParameter), indent + "}");
  }

  lemma {:induction false} EnumCaseLine(group: BuilderGroup, indent: string, asParameter: FormatSpecifier -> string, i: nat)
    requires i < |group.cases|
    ensures EnumLines(group, indent, asParameter)[1 + i]
         == Join(CaseLines(SortCases(group.cases)[i], indent + Indent, asParameter), "\n")
  {
    var cases := CaseTexts(SortCases(group.cases), indent + Indent, asParameter);
    IndexSecondOfFour([EnumHeader(group, indent)], cases, ChildTexts(group, indent + Indent, asParameter), [indent + "}"], i);
  }

  lemma {:induction false} EnumChildLine(group: BuilderGroup, indent: string, asParameter: FormatSpecifier -> string, j: nat)
    requires j < |ChildKeys(group)|
    ensures ChildKeys(group)[j] in group.groups
    ensures EnumLines(group, indent, asParameter)[1 + |group.cases| + j]
         == EnumText(group.groups[ChildKeys(group)[j]], indent + Indent, asParameter)
  {
    var keys := ChildKeys(group);
    assert keys[j] in keys;
    var cases := CaseTexts(SortCases(group.cases), indent + Indent, asParameter);
    IndexThird([EnumHeader(group, indent)], cases, ChildTexts(group, indent + Indent, asParameter), [indent + "}"], j);
  }

  /** The text of every child group is part of its parent's text. */
  lemma {:induction false} EnumTextHoldsChildren(group: BuilderGroup, indent: string, asParameter: FormatSpecifier -> string, key: string)
    requires key in group.groups
    ensures Contains(EnumText(group, indent, asParameter), EnumText(group.groups[key], indent + Indent, asParameter))
  {
    var inner := indent + Indent;
    var lines := EnumLines(group, indent, asParameter);
    var keys := ChildKeys(group);
    var j :| 0 <= j < |keys| && keys[j] == key;
    var cases := CaseTexts(SortCases(group.cases), inner, asParameter);
    var children := ChildTexts(group, inner, asParameter);
    IndexThird([EnumHeader(group, indent)], cases, children, [indent + "}"], j);
    JoinContains(lines, "\n", 1 + |cases| + j);
  }

  // ------------------------------------------------------------- extensions

  /** The start of every switch arm for a case. */
  function ArmHead(keyCase: Case): string {
    "            case ." + CaseName(keyCase)
  }

  /** The `localizedKey` arm: the raw lookup key, verbatim, as a string literal. */
  function KeyArm(keyCase: Case): string {
    ArmHead(keyCase) + ": return \"" + keyCase.1.key + "\""
  }

  /** The `arguments` arm: `nil` without specifiers, else the bound parameters in order. */
  function ArgumentArm(keyCase: Case): string {
    var n := |keyCase.1.formatSpecifiers|;
    if n == 0 then ArmHead(keyCase) + ": return nil"
    else
      var labels := ArgumentLabels(n);
      ArmHead(keyCase) + "(" + Join(Bindings(labels), ", ") + "): return [" + Join(labels, ", ") + "]"
  }

  /** A `let` binding for each label, in order. */
  function Bindings(labels: seq<string>): (r: seq<string>)
    ensures |r| == |labels|
    ensures forall i :: 0 <= i < |r| ==> r[i] == "let " + labels[i]
  {
    seq(|labels|, i requires 0 <= i < |labels| => "let " + labels[i])
  }

  /** The `bundle` arm. */
  function BundleArm(keyCase: Case): string {
    ArmHead(keyCase) + ": return Bundle." + keyCase.1.bundle
  }

  /** The `localizedKey` arms, one per case in the order given. */
  function KeyArms(cases: seq<Case>): (r: seq<string>)
    ensures |r| == |cases|
    ensures forall i :: 0 <= i < |cases| ==> r[i] == KeyArm(cases[i])
  {
    seq(|cases|, i requires 0 <= i < |cases| => KeyArm(cases[i]))
  }

  /** The `arguments` arms, one per case in the order given. */
  function ArgumentArms(cases: seq<Case>): (r: seq<string>)
    ensures |r| == |cases|
    ensures forall i :: 0 <= i < |cases| ==> r[i] == ArgumentArm(cases[i])
  {
    seq(|cases|, i requires 0 <= i < |cases| => ArgumentArm(cases[i]))
  }

  /** The `bundle` arms, one per case in the order given. */
  function BundleArms(cases: seq<Case>): (r: seq<string>)
    ensures |r| == |cases|
    ensures forall i :: 0 <= i < |cases| ==> r[i] == BundleArm(cases[i])
  {
    seq(|cases|, i requires 0 <= i < |cases| => BundleArm(cases[i]))
  }

  const KeySwitchOpening: seq<string> := ["    var localizedKey: String {", "        switch self {"]
  const ArgumentSwitchOpening: seq<string> := ["        }", "    }", "", "    var arguments: [CVarArg]? {", "        switch self {"]
  const BundleSwitchOpening: seq<string> := ["        }", "    }", "", "    var bundle: Bundle {", "        switch self {"]
  const ExtensionClosing: seq<string> := ["        }", "    }", "}", "", ""]

  /** The lines of one extension: three switches over the group's cases, in stored order. */
  function ExtensionLines(path: seq<string>, cases: seq<Case>): seq<string> {
    ["extension " + Join(path, ".") + ": LocalizableSupport {"]
    + KeySwitchOpening + KeyArms(cases)
    + ArgumentSwitchOpening + ArgumentArms(cases)
    + BundleSwitchOpening + BundleArms(cases)
    + ExtensionClosing
  }

  /**
    The extensions `buildCaseExtensions` writes for a group and everything
    below it: the group's own extension when it has cases, then those of
    its children in the order `enumerate` lists them.
   */
  function Extensions(parentKeys: seq<string>, group: BuilderGroup, enumerate: map<string, BuilderGroup> -> seq<string>): string
    requires EnumeratesKeys(enumerate)
    decreases group, 1
  {
    var path := parentKeys + [FixEnumName(group.name)];
    var own := if |group.cases| == 0 then "" else Join(ExtensionLines(path, group.cases), "\n");
    own + Concat(ChildExtensions(parentKeys, group, enumerate))
  }

  /** The extensions of a group's children, in enumeration order. */
  function ChildExtensions(parentKeys: seq<string>, group: BuilderGroup, enumerate: map<string, BuilderGroup> -> seq<string>): (r: seq<string>)
    requires EnumeratesKeys(enumerate)
    ensures |r| == |enumerate(group.groups)|
    ensures forall i :: 0 <= i < |r| ==>
      (enumerate(group.groups)[i] in group.groups &&
       r[i] == Extensions(parentKeys + [FixEnumName(group.name)], group.groups[enumerate(group.groups)[i]], enumerate))
    decreases group, 0
  {
    var path := parentKeys + [FixEnumName(group.name)];
    var order := enumerate(group.groups);
    seq(|order|, i requires 0 <= i < |order| => assert order[i] in order; Extensions(path, group.groups[order[i]], enumerate))
  }

  /** The `arguments` arm of one case: the inner loop binds and returns one label per specifier. */
  method BuildArgumentArm(termCase: Case) returns (arm: string)
    ensures arm == ArgumentArm(termCase)
  {
    var specifiers := termCase.1.formatSpecifiers;
    if |specifiers| == 0 {
      arm := "            case ." + CaseName(termCase) + ": return nil";
    } else {
      var bindings: seq<string> := [];
      var values: seq<string> := [];
      ghost var allValues := ArgumentLabels(|specifiers|);
      ghost var allBindings := Bindings(allValues);
      for index := 0 to |specifiers|
        invariant bindings == allBindings[..index]
        invariant values == allValues[..index]
      {
        TakeOneMore(allBindings, index);
        TakeOneMore(allValues, index);
        bindings := bindings + ["let " + ParameterLabel(index)];
        values := values + [ParameterLabel(index)];
      }
      assert bindings == allBindings;
      assert values == allValues;
      arm := "            case ." + CaseName(termCase) + "(" + Join(bindings, ", ") + "): return [" + Join(values, ", ") + "]";
    }
  }

  /** The loop over the cases in the `localizedKey` switch. */
  method BuildKeyArms(cases: seq<Case>) returns (arms: seq<string>)
    ensures arms == KeyArms(cases)
  {
    arms := [];
    ghost var expected := KeyArms(cases);
    for i := 0 to |cases|
      invariant arms == expected[..i]
    {
      TakeOneMore(expected, i);
      arms := arms + ["            case ." + CaseName(cases[i]) + ": return \"" + cases[i].1.key + "\""];
    }
    assert expected[..|cases|] == expected;
  }

  /** The loop over the cases in the `arguments` switch. */
  method BuildArgumentArms(cases: seq<Case>) returns (arms: seq<string>)
    ensures arms == ArgumentArms(cases)
  {
    arms := [];
    ghost var expected := ArgumentArms(cases);
    for i := 0 to |cases|
      invariant arms == expected[..i]
    {
      var arm := BuildArgumentArm(cases[i]);
      TakeOneMore(expected, i);
      arms := arms + [arm];
    }
    assert expected[..|cases|] == expected;
  }

  /** The loop over the cases in the `bundle` switch. */
  method BuildBundleArms(cases: seq<Case>) returns (arms: seq<string>)
    ensures arms == BundleArms(cases)
  {
    arms := [];
    ghost var expected := BundleArms(cases);
    for i := 0 to |cases|
      invariant arms == expected[..i]
    {
      TakeOneMore(expected, i);
      arms := arms + ["            case ." + CaseName(cases[i]) + ": return Bundle." + cases[i].1.bundle];
    }
    assert expected[..|cases|] == expected;
  }

  /** The own extension of a group with cases: three switches, appended line by line. */
  method BuildExtension(path: seq<string>, cases: seq<Case>) returns (text: string)
    ensures text == Join(ExtensionLines(path, cases), "\n")
  {
    var extName := Join(path, ".");
    var keyArms := BuildKeyArms(cases);
    var argumentArms := BuildArgumentArms(cases);
    var bundleArms := BuildBundleArms(cases);
    var lines := ["extension " + extName + ": LocalizableSupport {",
                  "    var localizedKey: String {",
                  "        switch self {"]
      + keyArms
      + ["        }", "    }", "", "    var arguments: [CVarArg]? {", "        switch self {"]
      + argumentArms
      + ["        }", "    }", "", "    var bundle: Bundle {", "        switch self {"]
      + bundleArms
      + ["        }", "    }", "}", "", ""];
    assert lines == ExtensionLines(path, cases);
    text := Join(lines, "\n");
  }

  /** Appending the next part to a running concatenation. */
  lemma {:induction false} ConcatStep(own: string, parts: seq<string>, i: nat)
    requires i < |parts|
    ensures own + Concat(parts[..i + 1]) == own + Concat(parts[..i]) + parts[i]
  {
    TakeOneMore(parts, i);
    ConcatAppend(parts[..i], parts[i]);
  }

  /** `buildCaseExtensions(parentKeys, group:)`. */
  method BuildCaseExtensions(parentKeys: seq<string>, group: BuilderGroup, enumerate: map<string, BuilderGroup> -> seq<string>)
    returns (text: string)
    requires EnumeratesKeys(enumerate)
    ensures text == Extensions(parentKeys, group, enumerate)
    decreases group, 1
  {
    text := "";
    var cases := group.cases;
    var newKeys := parentKeys + [FixEnumName(group.name)];
    if |cases| > 0 {
      var own := BuildExtension(newKeys, cases);
      text := text + own;
    }
    var rest := BuildChildExtensions(parentKeys, group, enumerate);
    text := text + rest;
  }

  /** The loop of `buildCaseExtensions` over the child groups, in enumeration order. */
  method BuildChildExtensions(parentKeys: seq<string>, group: BuilderGroup, enumerate: map<string, BuilderGroup> -> seq<string>)
    returns (text: string)
    requires EnumeratesKeys(enumerate)
    ensures text == Concat(ChildExtensions(parentKeys, group, enumerate))
    decreases group, 0
  {
    text := "";
    var newKeys := parentKeys + [FixEnumName(group.name)];
    var order := enumerate(group.groups);
    ghost var children := ChildExtensions(parentKeys, group, enumerate);
    for i := 0 to |order|
      invariant text == "" + Concat(children[..i])
    {
      var sub := BuildCaseExtensions(newKeys, group.groups[order[i]], enumerate);
      ConcatStep("", children, i);
      text := text + sub;
    }
    assert children[..|order|] == children;
  }

  /**
    Each of the three switches of an extension lists every case exactly
    once, in the stored order, with nothing else between its opening and
    its closing lines (so no `default` arm).
   */
  lemma {:induction false} ExtensionListsEveryCase(path: seq<string>, cases: seq<Case>)
    ensures |ExtensionLines(path, cases)| == 18 + 3 * |cases|
    ensures forall i :: 0 <= i < |cases| ==>
      && ExtensionLines(path, cases)[3 + i] == KeyArm(cases[i])
      && ExtensionLines(path, cases)[8 + |cases| + i] == ArgumentArm(cases[i])
      && ExtensionLines(path, cases)[13 + 2 * |cases| + i] == BundleArm(cases[i])
  {
    forall i | 0 <= i < |cases|
      ensures ExtensionLines(path, cases)[3 + i] == KeyArm(cases[i])
      ensures ExtensionLines(path, cases)[8 + |cases| + i] == ArgumentArm(cases[i])
      ensures ExtensionLines(path, cases)[13 + 2 * |cases| + i] == BundleArm(cases[i])
    {
      ExtensionLinesAt(path, cases, i);
    }
  }

  lemma {:induction false} ExtensionLinesAt(path: seq<string>, cases: seq<Case>, i: nat)
    requires i < |cases|
    ensures |ExtensionLines(path, cases)| == 18 + 3 * |cases|
    ensures ExtensionLines(path, cases)[3 + i] == KeyArms(cases)[i]
    ensures ExtensionLines(path, cases)[8 + |cases| + i] == ArgumentArms(cases)[i]
    ensures ExtensionLines(path, cases)[13 + 2 * |cases| + i] == BundleArms(cases)[i]
  {
    var head := ["extension " + Join(path, ".") + ": LocalizableSupport {"] + KeySwitchOpening;
    assert ExtensionLines(path, cases)
      == head + KeyArms(cases) + ArgumentSwitchOpening + ArgumentArms(cases) + BundleSwitchOpening + BundleArms(cases) + ExtensionClosing;
    assert |head| == 3 && |ArgumentSwitchOpening| == |BundleSwitchOpening| == |ExtensionClosing| == 5;
    IndexFrame(head, KeyArms(cases), ArgumentSwitchOpening, ArgumentArms(cases), BundleSwitchOpening, BundleArms(cases), ExtensionClosing, i);
  }

  /**
    A group gets an extension of its own exactly when it has cases; it is
    named by the dot-joined path of fixed names from the root to the group.
   */
  lemma {:induction false} ExtensionWhenCases(parentKeys: seq<string>, group: BuilderGroup, enumerate: map<string, BuilderGroup> -> seq<string>)
    requires EnumeratesKeys(enumerate)
    ensures |group.cases| > 0 ==>
      StartsWith(Extensions(parentKeys, group, enumerate),
                 "extension " + Join(parentKeys + [FixEnumName(group.name)], ".") + ": LocalizableSupport {")
    ensures |group.cases| == 0 ==>
      Extensions(parentKeys, group, enumerate) == Concat(ChildExtensions(parentKeys, group, enumerate))
  {
    var path := parentKeys + [FixEnumName(group.name)];
    var children := ChildExtensions(parentKeys, group, enumerate);
    if |group.cases| > 0 {
      var lines := ExtensionLines(path, group.cases);
      JoinEnds(lines, "\n");
      PrefixOfConcat(Join(lines, "\n"), Concat(children));
      var header := lines[0];
      assert StartsWith(Join(lines, "\n") + Concat(children), header) by {
        assert (Join(lines, "\n") + Concat(children))[..|header|] == Join(lines, "\n")[..|header|];
      }
    } else {
      assert "" + Concat(children) == Concat(children);
    }
  }

  /** Every child group is visited: the extensions of each child are part of its parent's. */
  lemma {:induction false} ExtensionsVisitChildren(parentKeys: seq<string>, group: BuilderGroup,
                                enumerate: map<string, BuilderGroup> -> seq<string>, key: string)
    requires EnumeratesKeys(enumerate) && key in group.groups
    ensures Contains(Extensions(parentKeys, group, enumerate),
                     Extensions(parentKeys + [FixEnumName(group.name)], group.groups[key], enumerate))
  {
    var path := parentKeys + [FixEnumName(group.name)];
    var order := enumerate(group.groups);
    var children := ChildExtensions(parentKeys, group, enumerate);
    assert key in order;
    var j :| 0 <= j < |order| && order[j] == key;
    assert children[j] == Extensions(path, group.groups[key], enumerate);
    var own := if |group.cases| == 0 then "" else Join(ExtensionLines(path, group.cases), "\n");
    assert Extensions(parentKeys, group, enumerate) == own + Concat(children);
    ConcatContains(children, j);
    ContainsInSuffix(own, Concat(children), children[j]);
  }

  /** The key arm of a case begins with its identifier and returns the raw key verbatim. */
  lemma {:induction false} KeyArmShape(keyCase: Case)
    ensures StartsWith(KeyArm(keyCase), ArmHead(keyCase))
    ensures EndsWith(KeyArm(keyCase), ": return \"" + keyCase.1.key + "\"")
  {
    var head := ArmHead(keyCase);
    var keyTail := ": return \"" + keyCase.1.key + "\"";
    Regroup(head, ": return \"", keyCase.1.key, "\"");
    ArmParts(head, keyTail);
  }

  /** The bundle arm of a case begins with its identifier and returns `Bundle.<bundle>`. */
  lemma {:induction false} BundleArmShape(keyCase: Case)
    ensures StartsWith(BundleArm(keyCase), ArmHead(keyCase))
    ensures EndsWith(BundleArm(keyCase), ": return Bundle." + keyCase.1.bundle)
  {
    var head := ArmHead(keyCase);
    var bundleTail := ": return Bundle." + keyCase.1.bundle;
    assert BundleArm(keyCase) == head + bundleTail;
    ArmParts(head, bundleTail);
  }

  lemma {:induction false} ArmParts(head: string, tail: string)
    ensures StartsWith(head + tail, head) && EndsWith(head + tail, tail)
  {
    PrefixOfConcat(head, tail);
    SuffixOfHead(head, tail);
  }

  /**
    The arguments arm returns `nil` exactly when the case has no specifiers;
    otherwise it binds `let p0`, ... in its pattern and returns the labels
    `p0`, ... in order, one per specifier.
   */
  lemma {:induction false} ArgumentArmShape(keyCase: Case)
    ensures StartsWith(ArgumentArm(keyCase), ArmHead(keyCase))
    ensures |keyCase.1.formatSpecifiers| == 0 <==> EndsWith(ArgumentArm(keyCase), ": return nil")
    ensures |keyCase.1.formatSpecifiers| > 0 ==>
      EndsWith(ArgumentArm(keyCase), "): return [" + Join(ArgumentLabels(|keyCase.1.formatSpecifiers|), ", ") + "]")
    ensures |keyCase.1.formatSpecifiers| > 0 ==>
      StartsWith(ArgumentArm(keyCase), ArmHead(keyCase) + "(" + Join(Bindings(ArgumentLabels(|keyCase.1.formatSpecifiers|)), ", ") + ")")
    ensures forall i :: 0 <= i < |keyCase.1.formatSpecifiers| ==> Contains(ArgumentArm(keyCase), "let " + ParameterLabel(i))
  {
    var head := ArmHead(keyCase);
    var n := |keyCase.1.formatSpecifiers|;
    if n == 0 {
      PrefixOfConcat(head, ": return nil");
      SuffixOfHead(head, ": return nil");
    } else {
      var labels := ArgumentLabels(n);
      var bound := Join(Bindings(labels), ", ");
      var returned := "): return [" + Join(labels, ", ") + "]";
      var front := head + "(" + bound;
      Regroup(front, "): return [", Join(labels, ", "), "]");
      SuffixOfHead(front, returned);
      Regroup(head, "(", bound, returned);
      PrefixOfConcat(head, "(" + bound + returned);
      var a := ArgumentArm(keyCase);
      assert a[|a| - 1] == returned[|returned| - 1] == ']';
      BindingsInArm(head, Bindings(labels), Join(labels, ", "));
      assert ": return nil"[|": return nil"| - 1] == 'l';
    }
  }

  /** An arm `<head>(<bindings>): return [<returned>]` opens with its pattern, which holds every binding. */
  lemma {:induction false} BindingsInArm(head: string, bindings: seq<string>, returned: string)
    ensures var arm := head + "(" + Join(bindings, ", ") + "): return [" + returned + "]";
      && StartsWith(arm, head + "(" + Join(bindings, ", ") + ")")
      && forall i :: 0 <= i < |bindings| ==> Contains(arm, bindings[i])
  {
    var pattern := head + "(" + Join(bindings, ", ");
    var tail := "): return [" + returned + "]";
    var arm := pattern + "): return [" + returned + "]";
    assert arm == pattern + tail by {
      Associative(pattern, "): return [", returned);
      Associative(pattern, "): return [" + returned, "]");
    }
    assert tail[0] == ')';
    ClosedPrefix(pattern, tail);
    BindingsInPattern(head, bindings);
    forall i | 0 <= i < |bindings| ensures Contains(arm, bindings[i]) {
      ContainsInPrefix(pattern, tail, bindings[i]);
    }
  }

  /** Each binding appears in the opened pattern. */
  lemma {:induction false} BindingsInPattern(head: string, bindings: seq<string>)
    ensures forall i :: 0 <= i < |bindings| ==> Contains(head + "(" + Join(bindings, ", "), bindings[i])
  {
    forall i | 0 <= i < |bindings| ensures Contains(head + "(" + Join(bindings, ", "), bindings[i]) {
      JoinContains(bindings, ", ", i);
      ContainsInSuffix(head + "(", Join(bindings, ", "), bindings[i]);
    }
  }

  // ------------------------------------------------------------------- file

  /** The protocol the generated enums conform to, line by line. */
  const LocalizableProtocol: string := Join([
    "public protocol Localizable {",
    "    func localized() -> String",
    "}"], "\n")

  /** The protocol and default implementation the extensions rely on, line by line. */
  const LocalizableSupportProtocol: string := Join([
    "protocol LocalizableSupport: Localizable {",
    "    var arguments: [CVarArg]? { get }",
    "    var localizedKey: String { get }",
    "    var bundle: Bundle { get }",
    "}",
    "",
    "extension LocalizableSupport {",
    "    private func format(_ value: String) -> String {",
    "        guard let arguments = arguments else { return value }",
    "        return String(format: value, arguments: arguments)",
    "    }",
    "",
    "    public func localized() -> String {",
    "        return format(NSLocalizedString(localizedKey, bundle: bundle, comment: \"\"))",
    "    }",
    "}"], "\n")

  /** The thirteen items of the generated file, in the order `build` appends them. */
  function FileItems(master: BuilderGroup, enumerate: map<string, BuilderGroup> -> seq<string>,
                     asParameter: FormatSpecifier -> string): seq<string>
    requires EnumeratesKeys(enumerate)
  {
    [Description(Disable(FileLength)),
     "import Foundation",
     "",
     LocalizableProtocol,
     "",
     LocalizableSupportProtocol,
     "",
     Description(Disable(TypeBodyLength)),
     EnumText(master, "", asParameter),
     "",
     TrimTrailing(Extensions([], master, enumerate)),
     Description(Enable(TypeBodyLength)),
     Description(Enable(FileLength))]
  }

  /**
    `build`: the file for the master group.  The key terms `build` receives
    are not read by it; the master group built from them is the input here.
   */
  method Build(master: BuilderGroup, enumerate: map<string, BuilderGroup> -> seq<string>,
               asParameter: FormatSpecifier -> string) returns (r: string)
    requires EnumeratesKeys(enumerate)
    ensures r == Join(FileItems(master, enumerate, asParameter), "\n")
  {
    var enumText := BuildEnum(master, "", asParameter);
    var extensions := BuildCaseExtensions([], master, enumerate);
    var items := [Description(Disable(FileLength)), "import Foundation", "", LocalizableProtocol, "",
                  LocalizableSupportProtocol, "", Description(Disable(TypeBodyLength)), enumText, "",
                  TrimTrailing(extensions), Description(Enable(TypeBodyLength)), Description(Enable(FileLength))];
    r := Join(items, "\n");
  }

  /**
    The file switches both rules off before anything else and on again at
    the very end, and it holds the whole enum tree.
   */
  lemma {:induction false} FileShape(master: BuilderGroup, enumerate: map<string, BuilderGroup> -> seq<string>,
                  asParameter: FormatSpecifier -> string)
    requires EnumeratesKeys(enumerate)
    ensures StartsWith(Join(FileItems(master, enumerate, asParameter), "\n"),
                       Description(Disable(FileLength)) + "\n" + "import Foundation" + "\n")
    ensures EndsWith(Join(FileItems(master, enumerate, asParameter), "\n"),
                     Description(Enable(TypeBodyLength)) + "\n" + Description(Enable(FileLength)))
    ensures Contains(Join(FileItems(master, enumerate, asParameter), "\n"), EnumText(master, "", asParameter))
  {
    var items := FileItems(master, enumerate, asParameter);
    JoinOpensWith(items, "\n");
    JoinClosesWith(items, "\n");
    JoinContains(items, "\n", 8);
  }
}
