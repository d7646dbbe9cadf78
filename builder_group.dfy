/**
  The group tree both emitters render.  The tree is built elsewhere from the
  parsed key terms; here it is an input.  A group has a name, its own cases
  (each a raw case name paired with its key term) and its child groups by key.
 */
module BuilderGroups {
  import opened Text
  import opened FormatSpecifiers
  import opened LocalizedStringsParser

  /** One case of a group: the raw case name and the key term it stands for. */
  type Case = (string, LocalizedKeyTerm)

  datatype BuilderGroup = BuilderGroup(name: string, cases: seq<Case>, groups: map<string, BuilderGroup>)

  /** Cases in descending order of raw case name, as `sorted { $0.0 > $1.0 }` leaves them. */
  predicate Descending(cases: seq<Case>) {
    forall i, j :: 0 <= i < j < |cases| ==> !Below(cases[i].0, cases[j].0)
  }

  /** `c` placed before the first case whose name it is not below. */
  function InsertDescending(c: Case, sorted: seq<Case>): (r: seq<Case>)
    requires Descending(sorted)
    ensures Descending(r)
    ensures multiset(r) == multiset(sorted) + multiset{c}
    decreases |sorted|
  {
    if |sorted| == 0 then [c]
    else if !Below(c.0, sorted[0].0) then
      InsertFront(c, sorted);
      [c] + sorted
    else
      var rest := InsertDescending(c, sorted[1..]);
      assert sorted == [sorted[0]] + sorted[1..];
      InsertBehind(c, sorted, rest);
      [sorted[0]] + rest
  }

  lemma {:induction false} InsertFront(c: Case, sorted: seq<Case>)
    requires Descending(sorted) && |sorted| > 0 && !Below(c.0, sorted[0].0)
    ensures Descending([c] + sorted)
  {
    forall j | 0 < j < |sorted| + 1 ensures !Below(c.0, ([c] + sorted)[j].0) {
      var y := sorted[j - 1];
      if Below(c.0, y.0) {
        BelowTotal(c.0, sorted[0].0);
        if j - 1 > 0 {
          if c.0 == sorted[0].0 {
          } else {
            BelowTransitive(sorted[0].0, c.0, y.0);
          }
        }
      }
    }
  }

  lemma {:induction false} InsertBehind(c: Case, sorted: seq<Case>, rest: seq<Case>)
    requires Descending(sorted) && |sorted| > 0 && Below(c.0, sorted[0].0)
    requires Descending(rest) && multiset(rest) == multiset(sorted[1..]) + multiset{c}
    ensures Descending([sorted[0]] + rest)
  {
    forall j | 0 <= j < |rest| ensures !Below(sorted[0].0, rest[j].0) {
      var y := rest[j];
      assert y in multiset(rest);
      if y == c {
        BelowAsymmetric(c.0, sorted[0].0);
      } else {
        assert y in multiset(sorted[1..]);
        var k :| 0 <= k < |sorted[1..]| && sorted[1..][k] == y;
        assert sorted[k + 1] == y;
      }
    }
  }

  /** The cases of a group in the order both emitters write them. */
  function SortCases(cases: seq<Case>): (r: seq<Case>)
    ensures Descending(r)
    ensures multiset(r) == multiset(cases)
    ensures |r| == |cases|
    decreases |cases|
  {
    if |cases| == 0 then []
    else
      var r := InsertDescending(cases[0], SortCases(cases[1..]));
      assert cases == [cases[0]] + cases[1..];
      assert |r| == |multiset(r)|;
      r
  }

  /** The names of the child groups in ascending order, as `groups.keys.sorted()` gives them. */
  function ChildKeys(group: BuilderGroup): (r: seq<string>)
    ensures StrictlyAscending(r)
    ensures forall k :: k in r <==> k in group.groups
    ensures |r| == |group.groups|
  {
    SortedStrings(group.groups.Keys)
  }

  // ------------------------------------------- rendering shared by both emitters

  /** One level of indentation in the generated code. */
  const Indent: string := "    "

  /** The name of the parameter for the specifier at `index`: `p0`, `p1`, ... */
  function ParameterLabel(index: nat): (r: string)
    ensures |r| > 1 && r[0] == 'p' && AllDigits(r[1..])
  {
    "p" + NatToString(index)
  }

  /** Different positions get different parameter names. */
  lemma {:induction false} ParameterLabelInjective(i: nat, j: nat)
    requires ParameterLabel(i) == ParameterLabel(j)
    ensures i == j
  {
    assert ParameterLabel(i)[1..] == NatToString(i);
    assert ParameterLabel(j)[1..] == NatToString(j);
    NatToStringInjective(i, j);
  }

  /** `_ p<i>: <type>` for each specifier, in order; the type is what `asParameter` names. */
  function Parameters(specifiers: seq<FormatSpecifier>, asParameter: FormatSpecifier -> string): (r: seq<string>)
    ensures |r| == |specifiers|
    ensures forall i :: 0 <= i < |r| ==> r[i] == "_ " + ParameterLabel(i) + ": " + asParameter(specifiers[i])
  {
    seq(|specifiers|, i requires 0 <= i < |specifiers| => "_ " + ParameterLabel(i) + ": " + asParameter(specifiers[i]))
  }

  /** `p0`, ..., `p<n-1>`: the arguments passed on, in parameter order. */
  function ArgumentLabels(n: nat): (r: seq<string>)
    ensures |r| == n
    ensures forall i :: 0 <= i < n ==> r[i] == ParameterLabel(i)
  {
    seq(n, i requires 0 <= i < n => ParameterLabel(i))
  }

  /** One `/// <term>` comment line per term, in order. */
  function DocLines(terms: seq<string>, indent: string): (r: seq<string>)
    ensures |r| == |terms|
    ensures forall i :: 0 <= i < |r| ==> r[i] == indent + "/// " + terms[i]
  {
    seq(|terms|, i requires 0 <= i < |terms| => indent + "/// " + terms[i])
  }

  /** The identifier a raw case name starts from in both emitters: trimmed, first letter lowercased. */
  function LoweredName(raw: string): (r: string)
    ensures |r| == |Trim(raw)| <= |raw|
    ensures |r| > 0 ==> !IsWhitespace(r[0])
    ensures |Trim(raw)| > 0 ==> r == [ToLower(Trim(raw)[0])] + Trim(raw)[1..]
  {
    var trimmed := Trim(raw);
    if |trimmed| == 0 then LowercasedFirst(trimmed)
    else
      CaseMappingKeepsSpaces(trimmed[0]);
      LowercasedFirst(trimmed)
  }
}
