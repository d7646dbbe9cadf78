/**
  The command-line arguments parser: `--output <type>` options and
  `--source<k>` / `--bundle<k>` pairs grouped by their group number `k`,
  gathered into the list of properties the program runs with.
 */
module ArgumentsParser {
  import opened Wrappers
  import opened Text
  import opened Collections

  /** The acceptable output types. */
  datatype OutputType = Struct | Enum

  /** `OutputType.rawValue`. */
  function OutputRawValue(t: OutputType): string {
    match t
    case Struct => "struct"
    case Enum => "enum"
  }

  /** `OutputType(rawValue:)`: only the two raw values name a type. */
  function OutputTypeFrom(raw: string): (r: Option<OutputType>)
    ensures r.Some? <==> raw == "struct" || raw == "enum"
    ensures r.Some? ==> OutputRawValue(r.value) == raw
  {
    if raw == "struct" then Some(Struct)
    else if raw == "enum" then Some(Enum)
    else None
  }

  /** Reading a raw value back gives the type again. */
  lemma {:induction false} OutputTypeRoundTrip(t: OutputType)
    ensures OutputTypeFrom(OutputRawValue(t)) == Some(t)
  {
  }

  /** The properties the program runs with. */
  datatype ArgumentProperties =
    | Bundle(bundle: string, path: string)
    | Output(outputType: OutputType)

  /** `ArgumentsParser.Error`. */
  datatype ArgumentsError =
    | NoArguments
    | UnknownOutputType(value: string)
    | MissingArgumentAt(index: int)

  /** The arguments that come in groups. */
  datatype RepeatableArgument = SourceArgument | BundleArgument

  /** `RepeatableArgument.allCases`, in declaration order. */
  const AllCases: seq<RepeatableArgument> := [SourceArgument, BundleArgument]

  function FlagName(flag: RepeatableArgument): string {
    match flag
    case SourceArgument => "source"
    case BundleArgument => "bundle"
  }

  /** An entry of a group. */
  datatype SourceParameter = BundleName(name: string) | SourcePath(path: string)

  /** What a repeatable argument stores for its value. */
  function Parameter(flag: RepeatableArgument, value: string): SourceParameter {
    match flag
    case BundleArgument => BundleName(value)
    case SourceArgument => SourcePath(value)
  }

  type Groups = map<int, seq<SourceParameter>>

  /** `errorOrValueAt(index, from:)`. */
  function ErrorOrValueAt(index: nat, input: seq<string>): (r: Result<string, ArgumentsError>)
    ensures r.Success? <==> index < |input|
    ensures r.Success? ==> r.value == input[index]
    ensures r.Failure? ==> r.error == MissingArgumentAt(index)
  {
    if index < |input| then Success(input[index]) else Failure(MissingArgumentAt(index))
  }

  // ------------------------------------------------------------ group keys

  /**
    The group a repeatable argument belongs to: every occurrence of the flag
    name removed, and what is left read as an integer, or group 0 when it is
    not one.
   */
  function GroupIndex(argument: string, flag: RepeatableArgument): int {
    ParseInt(RemoveAll(argument, FlagName(flag))).GetOr(0)
  }

  /** A bare flag belongs to group 0, a flag followed by a number to that group. */
  lemma {:induction false} GroupIndexOf(flag: RepeatableArgument, n: nat)
    requires n <= IntMax
    ensures GroupIndex(FlagName(flag), flag) == 0
    ensures GroupIndex(FlagName(flag) + NatToString(n), flag) == n
  {
    var name := FlagName(flag);
    var digits := NatToString(n);
    assert RemoveAll(name, name) == RemoveAll(name[|name|..], name) == "";
    assert (name + digits)[..|name|] == name;
    assert (name + digits)[|name|..] == digits;
    forall i: nat ensures !OccursAt(digits, name, i) {
      if i + |name| <= |digits| {
        assert digits[i..i + |name|][0] == digits[i];
        assert IsDigit(digits[i]) && !IsDigit(name[0]);
      }
    }
    RemoveAllAbsent(digits, name);
    ParseIntOfNatToString(n);
  }

  /** `inputGroups[groupIndex] = (inputGroups[groupIndex] ?? []) + [parameter]`. */
  function Record(groups: Groups, key: int, parameter: SourceParameter): (r: Groups)
    ensures r.Keys == groups.Keys + {key}
    ensures r[key] == (if key in groups then groups[key] else []) + [parameter]
    ensures forall k :: k in groups && k != key ==> r[k] == groups[k]
  {
    groups[key := (if key in groups then groups[key] else []) + [parameter]]
  }

  // ------------------------------------------------------------- the scan

  /** Where the scan of one argument has got to: the index, the current argument text, the groups. */
  datatype Scan = Scan(index: nat, argument: string, groups: Groups)

  /**
    The loop over the repeatable arguments from `AllCases[k]` on.  A flag
    whose name the current argument starts with consumes the next argument,
    and that value becomes the current argument for the remaining checks.
   */
  function RepeatablesFrom(args: seq<string>, index: nat, argument: string, groups: Groups, k: nat): (r: Result<Scan, ArgumentsError>)
    requires index < |args| && k <= |AllCases|
    ensures r.Success? ==> index <= r.value.index < |args|
    ensures r.Failure? ==> r.error == MissingArgumentAt(|args|)
    ensures r.Success? ==> groups.Keys <= r.value.groups.Keys
    decreases |AllCases| - k
  {
    if k == |AllCases| then Success(Scan(index, argument, groups))
    else
      var flag := AllCases[k];
      if StartsWith(argument, FlagName(flag)) then
        var key := GroupIndex(argument, flag);
        match ErrorOrValueAt(index + 1, args)
        case Failure(e) => Failure(e)
        case Success(value) => RepeatablesFrom(args, index + 1, value, Record(groups, key, Parameter(flag, value)), k + 1)
      else RepeatablesFrom(args, index, argument, groups, k + 1)
  }

  /** The state of `gather`'s loop: the index, the groups and the properties so far. */
  datatype State = State(index: nat, groups: Groups, properties: seq<ArgumentProperties>)

  predicate AllOutputs(properties: seq<ArgumentProperties>) {
    forall i :: 0 <= i < |properties| ==> properties[i].Output?
  }

  /** `properties` starts with `before` and adds only outputs to it. */
  predicate ExtendsWithOutputs(before: seq<ArgumentProperties>, properties: seq<ArgumentProperties>) {
    |before| <= |properties| && properties[..|before|] == before && AllOutputs(properties[|before|..])
  }

  /**
    One pass of `gather`'s loop at `s.index`, ending with the deferred
    increment: an argument without `--` is skipped; otherwise `--` is
    removed everywhere, the repeatable arguments are checked, and then an
    `output` argument consumes the next one as its type.
   */
  function ArgumentStep(args: seq<string>, s: State): (r: Result<State, ArgumentsError>)
    requires s.index < |args|
    ensures r.Success? ==> s.index < r.value.index <= |args|
    ensures r.Success? ==> ExtendsWithOutputs(s.properties, r.value.properties)
    ensures r.Success? ==> s.groups.Keys <= r.value.groups.Keys
    ensures r.Failure? ==> r.error == MissingArgumentAt(|args|) || r.error.UnknownOutputType?
    ensures !StartsWith(args[s.index], "--") ==> r == Success(State(s.index + 1, s.groups, s.properties))
  {
    var argument := args[s.index];
    if !StartsWith(argument, "--") then
      Success(State(s.index + 1, s.groups, s.properties))
    else
      match RepeatablesFrom(args, s.index, RemoveAll(argument, "--"), s.groups, 0)
      case Failure(e) => Failure(e)
      case Success(scan) => AfterScan(args, s.properties, scan)
  }

  /** The rest of the pass once the repeatable arguments are checked: an `output` argument reads its type. */
  function AfterScan(args: seq<string>, properties: seq<ArgumentProperties>, scan: Scan): (r: Result<State, ArgumentsError>)
    requires scan.index < |args|
    ensures r.Success? ==> scan.index < r.value.index <= |args| && r.value.groups == scan.groups
    ensures r.Success? ==> ExtendsWithOutputs(properties, r.value.properties)
    ensures r.Failure? ==> r.error == MissingArgumentAt(|args|) || r.error.UnknownOutputType?
  {
    if scan.argument == "output" then
      match ErrorOrValueAt(scan.index + 1, args)
      case Failure(e) => Failure(e)
      case Success(value) =>
        match OutputTypeFrom(value)
        case Some(t) =>
          assert (properties + [Output(t)])[..|properties|] == properties;
          Success(State(scan.index + 2, scan.groups, properties + [Output(t)]))
        case None => Failure(UnknownOutputType(value))
    else
      assert properties[..|properties|] == properties;
      Success(State(scan.index + 1, scan.groups, properties))
  }

  /** `gather`'s loop from state `s` until the index passes the last argument. */
  function Collect(args: seq<string>, s: State): (r: Result<State, ArgumentsError>)
    ensures r.Success? ==> r.value.index >= |args|
    ensures r.Success? ==> ExtendsWithOutputs(s.properties, r.value.properties)
    ensures r.Failure? ==> r.error == MissingArgumentAt(|args|) || r.error.UnknownOutputType?
    decreases |args| - s.index
  {
    if s.index >= |args| then
      assert s.properties[..|s.properties|] == s.properties;
      Success(s)
    else
      match ArgumentStep(args, s)
      case Failure(e) => Failure(e)
      case Success(next) =>
        var r := Collect(args, next);
        if r.Success? then
          ExtendsTransitive(s.properties, next.properties, r.value.properties);
          r
        else r
  }

  lemma {:induction false} ExtendsTransitive(a: seq<ArgumentProperties>, b: seq<ArgumentProperties>, c: seq<ArgumentProperties>)
    requires ExtendsWithOutputs(a, b) && ExtendsWithOutputs(b, c)
    ensures ExtendsWithOutputs(a, c)
  {
    assert c[..|a|] == c[..|b|][..|a|];
    forall i | |a| <= i < |c| ensures c[i].Output? {
      if i < |b| {
        assert c[i] == b[i] == b[|a|..][i - |a|];
      } else {
        assert c[i] == c[|b|..][i - |b|];
      }
    }
  }

  // ---------------------------------------------------------------- groups

  /** The last bundle name among `values`, as the loop over them leaves `bundleName`. */
  function LastBundle(values: seq<SourceParameter>): (r: Option<string>)
    ensures r.Some? <==> exists i :: 0 <= i < |values| && values[i].BundleName?
    ensures r.Some? ==> exists i :: 0 <= i < |values| && values[i] == BundleName(r.value)
  {
    if |values| == 0 then None
    else if values[|values| - 1].BundleName? then Some(values[|values| - 1].name)
    else
      var r := LastBundle(values[..|values| - 1]);
      assert forall i :: 0 <= i < |values| - 1 ==> values[..|values| - 1][i] == values[i];
      r
  }

  /** The last source path among `values`, as the loop over them leaves `sourcePath`. */
  function LastPath(values: seq<SourceParameter>): (r: Option<string>)
    ensures r.Some? <==> exists i :: 0 <= i < |values| && values[i].SourcePath?
    ensures r.Some? ==> exists i :: 0 <= i < |values| && values[i] == SourcePath(r.value)
  {
    if |values| == 0 then None
    else if values[|values| - 1].SourcePath? then Some(values[|values| - 1].path)
    else
      var r := LastPath(values[..|values| - 1]);
      assert forall i :: 0 <= i < |values| - 1 ==> values[..|values| - 1][i] == values[i];
      r
  }

  /** What one group contributes: a bundle property when it has exactly two entries, a bundle and a path. */
  function GroupProperty(values: seq<SourceParameter>): Option<ArgumentProperties> {
    if |values| != 2 then None
    else
      match (LastBundle(values), LastPath(values))
      case (Some(name), Some(path)) => Some(Bundle(name, path))
      case _ => None
  }

  /**
    A group yields a property exactly when it holds two entries of
    different kinds, and the property pairs the bundle with the path.
   */
  lemma {:induction false} GroupPropertyIff(values: seq<SourceParameter>)
    ensures GroupProperty(values).Some? <==> |values| == 2 && values[0].BundleName? != values[1].BundleName?
    ensures |values| == 2 && values[0].BundleName? && values[1].SourcePath? ==>
      GroupProperty(values) == Some(Bundle(values[0].name, values[1].path))
    ensures |values| == 2 && values[0].SourcePath? && values[1].BundleName? ==>
      GroupProperty(values) == Some(Bundle(values[1].name, values[0].path))
  {
    if |values| == 2 {
      assert values[..1] == [values[0]];
      assert LastBundle([values[0]]) == (if values[0].BundleName? then Some(values[0].name) else None);
      assert LastPath([values[0]]) == (if values[0].SourcePath? then Some(values[0].path) else None);
    }
  }

  /** The bundle properties of the groups listed in `order`, in that order. */
  function GroupProperties(groups: Groups, order: seq<int>): (r: seq<ArgumentProperties>)
    requires forall i :: 0 <= i < |order| ==> order[i] in groups
    ensures |r| <= |order|
    ensures forall i :: 0 <= i < |r| ==> r[i].Bundle?
    ensures forall p :: p in r <==> exists i :: 0 <= i < |order| && GroupProperty(groups[order[i]]) == Some(p)
  {
    if |order| == 0 then []
    else
      var front := GroupProperties(groups, order[..|order| - 1]);
      assert forall i :: 0 <= i < |order| - 1 ==> order[..|order| - 1][i] == order[i];
      match GroupProperty(groups[order[|order| - 1]])
      case Some(p) => front + [p]
      case None => front
  }

  /** The properties keep the order of the groups: those of two runs of keys are concatenated. */
  lemma {:induction false} GroupPropertiesConcat(groups: Groups, a: seq<int>, b: seq<int>)
    requires forall i :: 0 <= i < |a| ==> a[i] in groups
    requires forall i :: 0 <= i < |b| ==> b[i] in groups
    ensures forall i :: 0 <= i < |a + b| ==> (a + b)[i] in groups
    ensures GroupProperties(groups, a + b) == GroupProperties(groups, a) + GroupProperties(groups, b)
    decreases |b|
  {
    assert forall i :: 0 <= i < |a + b| ==> (a + b)[i] in groups by {
      forall i | 0 <= i < |a + b| ensures (a + b)[i] in groups {
        if i >= |a| {
          assert (a + b)[i] == b[i - |a|];
        }
      }
    }
    if |b| == 0 {
      assert a + b == a;
    } else {
      var front := b[..|b| - 1];
      assert (a + b)[..|a + b| - 1] == a + front;
      assert (a + b)[|a + b| - 1] == b[|b| - 1];
      GroupPropertiesConcat(groups, a, front);
      match GroupProperty(groups[b[|b| - 1]])
      case Some(p) =>
        Associative(GroupProperties(groups, a), GroupProperties(groups, front), [p]);
      case None =>
    }
  }

  // ---------------------------------------------------------------- gather

  /** All outputs come before all bundles. */
  predicate OutputsFirst(properties: seq<ArgumentProperties>) {
    forall i, j :: 0 <= i < j < |properties| && properties[i].Bundle? ==> properties[j].Bundle?
  }

  /**
    `gather()`: fewer than two arguments is an error; otherwise the loop
    runs from index 1 and the groups are turned into bundle properties in
    the order `enumerate` lists them, after the outputs.
   */
  function Gathered(args: seq<string>, enumerate: Groups -> seq<int>): (r: Result<seq<ArgumentProperties>, ArgumentsError>)
    requires EnumeratesKeys(enumerate)
    ensures r == Failure(NoArguments) <==> |args| < 2
    ensures r.Failure? && r.error.MissingArgumentAt? ==> r.error.index == |args|
    ensures r.Success? ==> OutputsFirst(r.value)
  {
    if |args| <= 1 then Failure(NoArguments)
    else
      match Collect(args, State(1, map[], []))
      case Failure(e) => Failure(e)
      case Success(s) =>
        var bundles := Bundles(s.groups, enumerate);
        assert s.properties[0..] == s.properties;
        OutputsThenBundles(s.properties, bundles);
        Success(s.properties + bundles)
  }

  /** The bundle properties of all groups, in the order `enumerate` lists the group keys. */
  function Bundles(groups: Groups, enumerate: Groups -> seq<int>): (r: seq<ArgumentProperties>)
    requires EnumeratesKeys(enumerate)
    ensures forall i :: 0 <= i < |r| ==> r[i].Bundle?
    ensures forall p :: p in r <==> exists k :: k in groups && GroupProperty(groups[k]) == Some(p)
  {
    var order := enumerate(groups);
    assert IsOrderingOf(order, groups.Keys);
    assert forall i :: 0 <= i < |order| ==> order[i] in order;
    OrderedProperties(groups, order);
    GroupProperties(groups, order)
  }

  /** Taken in any order of all the keys, the groups' properties are exactly those some group yields. */
  lemma {:induction false} OrderedProperties(groups: Groups, order: seq<int>)
    requires IsOrderingOf(order, groups.Keys)
    ensures forall i :: 0 <= i < |order| ==> order[i] in groups
    ensures forall p :: p in GroupProperties(groups, order) <==> exists k :: k in groups && GroupProperty(groups[k]) == Some(p)
  {
    assert forall i :: 0 <= i < |order| ==> order[i] in order;
    var r := GroupProperties(groups, order);
    forall p | p in r ensures exists k :: k in groups && GroupProperty(groups[k]) == Some(p) {
      var i :| 0 <= i < |order| && GroupProperty(groups[order[i]]) == Some(p);
      assert order[i] in order;
    }
    forall p | exists k :: k in groups && GroupProperty(groups[k]) == Some(p)
      ensures p in r
    {
      var k :| k in groups && GroupProperty(groups[k]) == Some(p);
      assert k in order;
      var i :| 0 <= i < |order| && order[i] == k;
    }
  }

  lemma {:induction false} OutputsThenBundles(outputs: seq<ArgumentProperties>, bundles: seq<ArgumentProperties>)
    requires AllOutputs(outputs)
    requires forall i :: 0 <= i < |bundles| ==> bundles[i].Bundle?
    ensures OutputsFirst(outputs + bundles)
  {
    var all := outputs + bundles;
    forall i, j | 0 <= i < j < |all| && all[i].Bundle? ensures all[j].Bundle? {
      assert i >= |outputs|;
      assert all[j] == bundles[j - |outputs|];
    }
  }

  // -------------------------------------------------------- what one step does

  /** Removing `--` from a flag whose name has no dash leaves the name. */
  lemma {:induction false} RemoveDashes(name: string)
    requires '-' !in name
    ensures RemoveAll("--" + name, "--") == name
  {
    assert ("--" + name)[..2] == "--";
    assert ("--" + name)[2..] == name;
    forall i: nat ensures !OccursAt(name, "--", i) {
      if i + 2 <= |name| {
        assert name[i..i + 2][0] == name[i];
      }
    }
    RemoveAllAbsent(name, "--");
  }

  /**
    `--output v` appends the output type `v` names, and any other `v` is
    an error; a trailing `--output` misses its value.
   */
  lemma {:induction false} OutputStep(args: seq<string>, s: State)
    requires s.index < |args| && args[s.index] == "--output"
    ensures ArgumentStep(args, s) ==
      if s.index + 1 == |args| then Failure(MissingArgumentAt(|args|))
      else match OutputTypeFrom(args[s.index + 1])
        case Some(t) => Success(State(s.index + 2, s.groups, s.properties + [Output(t)]))
        case None => Failure(UnknownOutputType(args[s.index + 1]))
  {
    var argument := args[s.index];
    assert StartsWith(argument, "--") && RemoveAll(argument, "--") == "output" by {
      assert argument == "--" + "output";
      PrefixOfConcat("--", "output");
      RemoveDashes("output");
    }
    OutputIsNoRepeatable(args, s.index, s.groups);
  }

  /** `output` starts with neither flag name, so the scan leaves it alone. */
  lemma {:induction false} OutputIsNoRepeatable(args: seq<string>, index: nat, groups: Groups)
    requires index < |args|
    ensures RepeatablesFrom(args, index, "output", groups, 0) == Success(Scan(index, "output", groups))
  {
    FirstDiffers("output", FlagName(SourceArgument));
    FirstDiffers("output", FlagName(BundleArgument));
    assert RepeatablesFrom(args, index, "output", groups, 1) == Success(Scan(index, "output", groups));
  }

  lemma {:induction false} FirstDiffers(s: string, prefix: string)
    requires |s| > 0 && |prefix| > 0 && s[0] != prefix[0]
    ensures !StartsWith(s, prefix)
  {
    if |prefix| <= |s| {
      assert s[..|prefix|][0] == s[0];
    }
  }

  /**
    `--source<n> v` stores `v` as the path of group `n`, provided `v` does
    not itself start with `bundle` and is not `output`: the consumed value
    is the one the later checks see.
   */
  lemma {:induction false} SourceStep(args: seq<string>, s: State, n: nat)
    requires s.index + 1 < |args| && n <= IntMax
    requires args[s.index] == "--" + (FlagName(SourceArgument) + NatToString(n))
    requires !StartsWith(args[s.index + 1], FlagName(BundleArgument)) && args[s.index + 1] != "output"
    ensures ArgumentStep(args, s) == Success(State(s.index + 2, Record(s.groups, n, SourcePath(args[s.index + 1])), s.properties))
  {
    var flag := FlagName(SourceArgument) + NatToString(n);
    RemoveDashes(flag);
    PrefixOfConcat("--", flag);
    PrefixOfConcat(FlagName(SourceArgument), NatToString(n));
    GroupIndexOf(SourceArgument, n);
    var groups := Record(s.groups, n, SourcePath(args[s.index + 1]));
    assert RepeatablesFrom(args, s.index + 1, args[s.index + 1], groups, 1)
        == Success(Scan(s.index + 1, args[s.index + 1], groups));
  }

  /** `--bundle<n> v` stores `v` as the bundle name of group `n`, provided `v` is not `output`. */
  lemma {:induction false} BundleStep(args: seq<string>, s: State, n: nat)
    requires s.index + 1 < |args| && n <= IntMax
    requires args[s.index] == "--" + (FlagName(BundleArgument) + NatToString(n))
    requires args[s.index + 1] != "output"
    ensures ArgumentStep(args, s) == Success(State(s.index + 2, Record(s.groups, n, BundleName(args[s.index + 1])), s.properties))
  {
    var flag := FlagName(BundleArgument) + NatToString(n);
    RemoveDashes(flag);
    PrefixOfConcat("--", flag);
    PrefixOfConcat(FlagName(BundleArgument), NatToString(n));
    GroupIndexOf(BundleArgument, n);
    assert flag[0] == 'b';
    assert !StartsWith(flag, FlagName(SourceArgument));
  }

  /** A `--source<n>` or `--bundle<n>` as the last argument misses its value. */
  lemma {:induction false} TrailingFlagStep(args: seq<string>, s: State, flag: RepeatableArgument, n: nat)
    requires s.index + 1 == |args| && n <= IntMax
    requires args[s.index] == "--" + (FlagName(flag) + NatToString(n))
    ensures ArgumentStep(args, s) == Failure(MissingArgumentAt(|args|))
  {
    var name := FlagName(flag) + NatToString(n);
    RemoveDashes(name);
    PrefixOfConcat("--", name);
    PrefixOfConcat(FlagName(flag), NatToString(n));
    if flag == BundleArgument {
      assert name[0] == 'b';
      assert !StartsWith(name, FlagName(SourceArgument));
    }
  }

  /** So the whole gathering fails at the index past the last argument. */
  lemma {:induction false} TrailingFlag(program: string, flag: RepeatableArgument, n: nat, enumerate: Groups -> seq<int>)
    requires EnumeratesKeys(enumerate) && n <= IntMax
    ensures Gathered([program, "--" + (FlagName(flag) + NatToString(n))], enumerate) == Failure(MissingArgumentAt(2))
  {
    var args := [program, "--" + (FlagName(flag) + NatToString(n))];
    TrailingFlagStep(args, State(1, map[], []), flag, n);
  }

  /** Arguments that do not start with `--` are skipped, however many there are. */
  lemma {:induction false} SkipsUnflagged(args: seq<string>, s: State)
    requires s.index <= |args|
    requires forall i :: s.index <= i < |args| ==> !StartsWith(args[i], "--")
    ensures Collect(args, s) == Success(State(|args|, s.groups, s.properties))
    decreases |args| - s.index
  {
    if s.index < |args| {
      SkipsUnflagged(args, State(s.index + 1, s.groups, s.properties));
    }
  }

  // ------------------------------------------------------ the first argument

  /** Two argument lists that differ at most in their first element. */
  predicate SameAfterFirst(a: seq<string>, b: seq<string>) {
    |a| == |b| && forall i :: 1 <= i < |a| ==> a[i] == b[i]
  }

  lemma {:induction false} RepeatablesIgnoreFirst(a: seq<string>, b: seq<string>, index: nat, argument: string, groups: Groups, k: nat)
    requires SameAfterFirst(a, b) && 1 <= index < |a| && k <= |AllCases|
    ensures RepeatablesFrom(a, index, argument, groups, k) == RepeatablesFrom(b, index, argument, groups, k)
    decreases |AllCases| - k
  {
    if k < |AllCases| {
      var flag := AllCases[k];
      if StartsWith(argument, FlagName(flag)) {
        if index + 1 < |a| {
          var groups' := Record(groups, GroupIndex(argument, flag), Parameter(flag, a[index + 1]));
          RepeatablesIgnoreFirst(a, b, index + 1, a[index + 1], groups', k + 1);
        }
      } else {
        RepeatablesIgnoreFirst(a, b, index, argument, groups, k + 1);
      }
    }
  }

  lemma {:induction false} StepIgnoresFirst(a: seq<string>, b: seq<string>, s: State)
    requires SameAfterFirst(a, b) && 1 <= s.index < |a|
    ensures ArgumentStep(a, s) == ArgumentStep(b, s)
  {
    RepeatablesIgnoreFirst(a, b, s.index, RemoveAll(a[s.index], "--"), s.groups, 0);
  }

  lemma {:induction false} CollectIgnoresFirst(a: seq<string>, b: seq<string>, s: State)
    requires SameAfterFirst(a, b) && 1 <= s.index
    ensures Collect(a, s) == Collect(b, s)
    decreases |a| - s.index
  {
    if s.index < |a| {
      StepIgnoresFirst(a, b, s);
      var step := ArgumentStep(a, s);
      if step.Success? {
        CollectIgnoresFirst(a, b, step.value);
      }
    }
  }

  /** `arguments[0]`, the program's own path, is never inspected. */
  lemma {:induction false} FirstArgumentIgnored(args: seq<string>, program: string, enumerate: Groups -> seq<int>)
    requires EnumeratesKeys(enumerate) && |args| > 0
    ensures Gathered([program] + args[1..], enumerate) == Gathered(args, enumerate)
  {
    var other := [program] + args[1..];
    assert SameAfterFirst(args, other) by {
      forall i | 1 <= i < |args| ensures args[i] == other[i] {
        assert other[i] == args[1..][i - 1];
      }
    }
    CollectIgnoresFirst(args, other, State(1, map[], []));
  }

  // --------------------------------------------------------------- examples

  lemma {:induction false} OneGroup(enumerate: Groups -> seq<int>, groups: Groups, key: int)
    requires EnumeratesKeys(enumerate) && groups.Keys == {key}
    ensures enumerate(groups) == [key]
  {
    OrderingOfOne(enumerate(groups), key);
  }

  lemma {:induction false} CollectThrough(args: seq<string>, s: State)
    requires s.index < |args| && ArgumentStep(args, s).Success?
    ensures Collect(args, s) == Collect(args, ArgumentStep(args, s).value)
  {
  }

  lemma {:induction false} GatheredAfter(args: seq<string>, enumerate: Groups -> seq<int>, last: State)
    requires EnumeratesKeys(enumerate) && |args| > 1
    requires Collect(args, State(1, map[], [])) == Success(last)
    ensures Gathered(args, enumerate) == Success(last.properties + Bundles(last.groups, enumerate))
  {
  }

  /** A group holding one path and one bundle name contributes exactly that bundle. */
  lemma {:induction false} BundlesOfPair(enumerate: Groups -> seq<int>, groups: Groups, key: int, name: string, path: string)
    requires EnumeratesKeys(enumerate)
    requires groups.Keys == {key} && groups[key] == [SourcePath(path), BundleName(name)]
    ensures Bundles(groups, enumerate) == [Bundle(name, path)]
  {
    OneGroup(enumerate, groups, key);
    GroupPropertyIff(groups[key]);
    assert [key][..0] == [];
  }

  /** A `--source<n>` and `--bundle<n>` pair makes one bundle property for group `n`. */
  lemma {:induction false} PairedFlags(program: string, n: nat, path: string, name: string, enumerate: Groups -> seq<int>)
    requires EnumeratesKeys(enumerate) && n <= IntMax
    requires !StartsWith(path, FlagName(BundleArgument)) && path != "output" && name != "output"
    ensures Gathered([program, "--" + (FlagName(SourceArgument) + NatToString(n)), path,
                      "--" + (FlagName(BundleArgument) + NatToString(n)), name], enumerate)
         == Success([Bundle(name, path)])
  {
    var args := [program, "--" + (FlagName(SourceArgument) + NatToString(n)), path,
                 "--" + (FlagName(BundleArgument) + NatToString(n)), name];
    var once := Record(map[], n, SourcePath(path));
    var groups := Record(once, n, BundleName(name));
    SourceStep(args, State(1, map[], []), n);
    CollectThrough(args, State(1, map[], []));
    BundleStep(args, State(3, once, []), n);
    CollectThrough(args, State(3, once, []));
    assert Collect(args, State(5, groups, [])) == Success(State(5, groups, []));
    GatheredAfter(args, enumerate, State(5, groups, []));
    BundlesOfPair(enumerate, groups, n, name, path);
    assert [] + [Bundle(name, path)] == [Bundle(name, path)];
  }

  /**
    A `--bundle` value `bundle` is not read again: `bundle` is the last
    repeatable flag, so only the `output` check follows, and it is stored.
   */
  lemma {:induction false} BundleNamedBundleStep(program: string, x: string)
    ensures ArgumentStep([program, "--bundle", "bundle", x], State(1, map[], []))
         == Success(State(3, Record(map[], 0, BundleName("bundle")), []))
  {
    var args := [program, "--bundle", "bundle", x];
    var groups := Record(map[], 0, BundleName("bundle"));
    assert RepeatablesFrom(args, 1, "bundle", map[], 0) == Success(Scan(2, "bundle", groups)) by {
      FirstDiffers("bundle", FlagName(SourceArgument));
      assert StartsWith("bundle", FlagName(BundleArgument));
      GroupIndexOf(BundleArgument, 0);
      assert RepeatablesFrom(args, 2, "bundle", groups, 2) == Success(Scan(2, "bundle", groups));
    }
    assert StartsWith(args[1], "--") && RemoveAll(args[1], "--") == "bundle" by {
      assert args[1] == "--" + "bundle";
      PrefixOfConcat("--", "bundle");
      RemoveDashes("bundle");
    }
  }

  /** The one step `--bundle output <type>` takes: a bundle named `output`, then the output type. */
  lemma {:induction false} BundleNamedOutputStep(program: string, raw: string)
    requires OutputTypeFrom(raw).Some?
    ensures ArgumentStep([program, "--bundle", "output", raw], State(1, map[], []))
         == Success(State(4, Record(map[], 0, BundleName("output")), [Output(OutputTypeFrom(raw).value)]))
  {
    var args := [program, "--bundle", "output", raw];
    var groups := Record(map[], 0, BundleName("output"));
    assert RepeatablesFrom(args, 1, "bundle", map[], 0) == Success(Scan(2, "output", groups)) by {
      FirstDiffers("bundle", FlagName(SourceArgument));
      assert StartsWith("bundle", FlagName(BundleArgument));
      GroupIndexOf(BundleArgument, 0);
      assert RepeatablesFrom(args, 2, "output", groups, 2) == Success(Scan(2, "output", groups));
    }
    assert StartsWith(args[1], "--") && RemoveAll(args[1], "--") == "bundle" by {
      assert args[1] == "--" + "bundle";
      PrefixOfConcat("--", "bundle");
      RemoveDashes("bundle");
    }
  }

  /**
    The value a repeatable argument consumes is checked again as if it were
    a flag: `--bundle output <type>` stores `output` as a bundle name and
    then reads `<type>` as the output type.
   */
  lemma {:induction false} ConsumedValueReadAsOutput(program: string, raw: string, enumerate: Groups -> seq<int>)
    requires EnumeratesKeys(enumerate) && OutputTypeFrom(raw).Some?
    ensures Gathered([program, "--bundle", "output", raw], enumerate) == Success([Output(OutputTypeFrom(raw).value)])
  {
    var args := [program, "--bundle", "output", raw];
    var groups := Record(map[], 0, BundleName("output"));
    var t := OutputTypeFrom(raw).value;
    var last := State(4, groups, [Output(t)]);
    BundleNamedOutputStep(program, raw);
    CollectThrough(args, State(1, map[], []));
    assert Collect(args, last) == Success(last);
    GatheredAfter(args, enumerate, last);
    assert last.properties + Bundles(groups, enumerate) == [Output(t)] by {
      OneGroup(enumerate, groups, 0);
      assert [0][..0] == [];
      assert GroupProperty(groups[0]).None?;
      assert [Output(t)] + [] == [Output(t)];
    }
  }

  /** The one step `--source bundle <name>` takes: a path `bundle`, then a bundle name for the same group. */
  lemma {:induction false} SourceNamedBundleStep(program: string, name: string)
    requires name != "output"
    ensures ArgumentStep([program, "--source", "bundle", name], State(1, map[], []))
         == Success(State(4, Record(Record(map[], 0, SourcePath("bundle")), 0, BundleName(name)), []))
  {
    var args := [program, "--source", "bundle", name];
    var once := Record(map[], 0, SourcePath("bundle"));
    var groups := Record(once, 0, BundleName(name));
    assert RepeatablesFrom(args, 1, "source", map[], 0) == Success(Scan(3, name, groups)) by {
      assert StartsWith("source", FlagName(SourceArgument));
      assert StartsWith("bundle", FlagName(BundleArgument));
      GroupIndexOf(SourceArgument, 0);
      GroupIndexOf(BundleArgument, 0);
      assert RepeatablesFrom(args, 3, name, groups, 2) == Success(Scan(3, name, groups));
    }
    assert StartsWith(args[1], "--") && RemoveAll(args[1], "--") == "source" by {
      assert args[1] == "--" + "source";
      PrefixOfConcat("--", "source");
      RemoveDashes("source");
    }
  }

  /**
    A lone `--source bundle <name>` forms a complete group: the path
    `bundle` it consumes is then mistaken for a `--bundle` flag.
   */
  lemma {:induction false} ConsumedValueReadAsBundle(program: string, name: string, enumerate: Groups -> seq<int>)
    requires EnumeratesKeys(enumerate) && name != "output"
    ensures Gathered([program, "--source", "bundle", name], enumerate) == Success([Bundle(name, "bundle")])
  {
    var args := [program, "--source", "bundle", name];
    var once := Record(map[], 0, SourcePath("bundle"));
    var groups := Record(once, 0, BundleName(name));
    var last := State(4, groups, []);
    SourceNamedBundleStep(program, name);
    CollectThrough(args, State(1, map[], []));
    assert Collect(args, last) == Success(last);
    GatheredAfter(args, enumerate, last);
    assert groups.Keys == {0} && groups[0] == [SourcePath("bundle"), BundleName(name)];
    BundlesOfPair(enumerate, groups, 0, name, "bundle");
    assert [] + [Bundle(name, "bundle")] == [Bundle(name, "bundle")];
  }

  /** The loop of `gather` over `RepeatableArgument.allCases` for one argument. */
  method ScanRepeatables(args: seq<string>, index: nat, argument: string, groups: Groups)
    returns (r: Result<Scan, ArgumentsError>)
    requires index < |args|
    ensures r == RepeatablesFrom(args, index, argument, groups, 0)
  {
    var at: nat, current, inputGroups := index, argument, groups;
    ghost var expected := RepeatablesFrom(args, index, argument, groups, 0);
    for k := 0 to |AllCases|
      invariant at < |args|
      invariant RepeatablesFrom(args, at, current, inputGroups, k) == expected
    {
      var flag := AllCases[k];
      if StartsWith(current, FlagName(flag)) {
        var groupKey := RemoveAll(current, FlagName(flag));
        var groupIndex := ParseInt(groupKey).GetOr(0);
        assert groupIndex == GroupIndex(current, flag);
        at := at + 1;
        var next := ErrorOrValueAt(at, args);
        if next.Failure? {
          return Failure(next.error);
        }
        current := next.value;
        var grouped := if groupIndex in inputGroups then inputGroups[groupIndex] else [];
        match flag {
          case BundleArgument => grouped := grouped + [BundleName(current)];
          case SourceArgument => grouped := grouped + [SourcePath(current)];
        }
        assert inputGroups[groupIndex := grouped] == Record(inputGroups, groupIndex, Parameter(flag, current));
        inputGroups := inputGroups[groupIndex := grouped];
      }
    }
    r := Success(Scan(at, current, inputGroups));
  }

  /** The loop of `gather` over the entries of one group. */
  method ResolveGroup(values: seq<SourceParameter>) returns (p: Option<ArgumentProperties>)
    ensures p == GroupProperty(values)
  {
    if |values| != 2 {
      return None;
    }
    var bundleName: Option<string> := None;
    var sourcePath: Option<string> := None;
    for j := 0 to |values|
      invariant bundleName == LastBundle(values[..j])
      invariant sourcePath == LastPath(values[..j])
    {
      assert values[..j + 1][..j] == values[..j];
      match values[j] {
        case SourcePath(path) => sourcePath := Some(path);
        case BundleName(bundle) => bundleName := Some(bundle);
      }
    }
    assert values[..|values|] == values;
    if bundleName.None? {
      return None;
    }
    if sourcePath.None? {
      return None;
    }
    p := Some(Bundle(bundleName.value, sourcePath.value));
  }

  /** The loop of `gather` over the groups, in the order `order` lists them. */
  method GroupsToProperties(groups: Groups, order: seq<int>) returns (bundles: seq<ArgumentProperties>)
    requires forall i :: 0 <= i < |order| ==> order[i] in groups
    ensures bundles == GroupProperties(groups, order)
  {
    bundles := [];
    for i := 0 to |order|
      invariant bundles == GroupProperties(groups, order[..i])
    {
      assert order[..i + 1][..i] == order[..i];
      var property := ResolveGroup(groups[order[i]]);
      if property.Some? {
        bundles := bundles + [property.value];
      }
    }
    assert order[..|order|] == order;
  }

  /** One pass of `gather`'s loop body, at `index`, ending with its deferred `index += 1`. */
  method StepArgument(arguments: seq<string>, index: nat, groups: Groups, properties: seq<ArgumentProperties>)
    returns (result: Result<State, ArgumentsError>)
    requires index < |arguments|
    ensures result == ArgumentStep(arguments, State(index, groups, properties))
  {
    var argument := arguments[index];
    if !StartsWith(argument, "--") {
      return Success(State(index + 1, groups, properties));
    }
    argument := RemoveAll(argument, "--");
    var scanned := ScanRepeatables(arguments, index, argument, groups);
    if scanned.Failure? {
      return Failure(scanned.error);
    }
    result := ReadOutput(arguments, properties, scanned.value);
  }

  /** The `output` check of `gather`'s loop body, after the repeatable arguments. */
  method ReadOutput(arguments: seq<string>, properties: seq<ArgumentProperties>, scan: Scan)
    returns (result: Result<State, ArgumentsError>)
    requires scan.index < |arguments|
    ensures result == AfterScan(arguments, properties, scan)
  {
    var index := scan.index;
    var found := properties;
    if scan.argument == "output" {
      index := index + 1;
      var next := ErrorOrValueAt(index, arguments);
      if next.Failure? {
        return Failure(next.error);
      }
      var outputType := OutputTypeFrom(next.value);
      if outputType.Some? {
        found := found + [Output(outputType.value)];
      } else {
        return Failure(UnknownOutputType(next.value));
      }
    }
    index := index + 1;
    result := Success(State(index, scan.groups, found));
  }

  /** `gather`'s loop over the arguments, from index 1. */
  method CollectArguments(arguments: seq<string>) returns (result: Result<State, ArgumentsError>)
    requires |arguments| > 1
    ensures result == Collect(arguments, State(1, map[], []))
  {
    var groups: Groups := map[];
    var properties: seq<ArgumentProperties> := [];
    var index: nat := 1;
    while index < |arguments|
      invariant Collect(arguments, State(index, groups, properties)) == Collect(arguments, State(1, map[], []))
      decreases |arguments| - index
    {
      var step := StepArgument(arguments, index, groups, properties);
      if step.Failure? {
        return Failure(step.error);
      }
      index, groups, properties := step.value.index, step.value.groups, step.value.properties;
    }
    assert Collect(arguments, State(index, groups, properties)) == Success(State(index, groups, properties));
    result := Success(State(index, groups, properties));
  }

  /** `gather()` itself. */
  method Gather(arguments: seq<string>, enumerate: Groups -> seq<int>) returns (result: Result<seq<ArgumentProperties>, ArgumentsError>)
    requires EnumeratesKeys(enumerate)
    ensures result == Gathered(arguments, enumerate)
  {
    if |arguments| <= 1 {
      return Failure(NoArguments);
    }
    var collected := CollectArguments(arguments);
    if collected.Failure? {
      return Failure(collected.error);
    }
    var last := collected.value;
    GatheredAfter(arguments, enumerate, last);
    var order := enumerate(last.groups);
    assert forall i :: 0 <= i < |order| ==> order[i] in order;
    var bundles := GroupsToProperties(last.groups, order);
    result := Success(last.properties + bundles);
  }
}
