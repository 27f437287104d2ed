/**
 * Substitution of query variables into a stored aggregation pipeline
 * (`injectVariablesIntoAggregation`): a pure recursive transform over the
 * JSON tree. A string leaf that begins with the reserved prefix `##` is a
 * placeholder; it is replaced by the bound scalar, which keeps its own type.
 * Object keys and every other leaf are left as they are. An unbound
 * placeholder fails the whole substitution.
 */
module PipelineInjection {
  import opened Wrappers
  import opened Json

  const PLACEHOLDER_PREFIX: string := "##"

  type Variables = map<string, Scalar>

  datatype InjectionError = MissingVariable(name: string)
  {
    /** The text of the thrown error; it quotes the placeholder as written. */
    function Message(): string
    {
      "Missing pipeline variable: " + PLACEHOLDER_PREFIX + name
    }
  }

  /** The variable a leaf string refers to, if it is a placeholder. */
  function PlaceholderName(s: string): (r: Option<string>)
    ensures r.Some? <==> |s| >= 2 && s[0] == '#' && s[1] == '#'
    ensures r.Some? ==> s == PLACEHOLDER_PREFIX + r.value
  {
    if |s| >= |PLACEHOLDER_PREFIX| && s[..|PLACEHOLDER_PREFIX|] == PLACEHOLDER_PREFIX
    then Some(s[|PLACEHOLDER_PREFIX|..])
    else None
  }

  function ChildNames(t: Json): (r: seq<seq<string>>)
    ensures |r| == |Children(t)|
    decreases t, 0
  {
    match t
    case Arr(items) => seq(|items|, i requires 0 <= i < |items| => PlaceholderNames(items[i]))
    case Obj(fields) => seq(|fields|, i requires 0 <= i < |fields| => PlaceholderNames(fields[i].1))
    case _ => []
  }

  /** The names of the placeholders of a document, in traversal order. */
  function PlaceholderNames(t: Json): seq<string>
    decreases t, 1
  {
    if t.Str? && PlaceholderName(t.s).Some? then [PlaceholderName(t.s).value]
    else if t.IsLeaf() then []
    else Flatten(ChildNames(t))
  }

  lemma ChildNamesAt(t: Json, i: nat)
    requires i < |Children(t)|
    ensures ChildNames(t)[i] == PlaceholderNames(Children(t)[i])
  {
  }

  /** What a single leaf becomes: the bound value for a placeholder, itself otherwise. */
  function ResolveLeaf(leaf: Json, vars: Variables): Json
  {
    if leaf.Str? && PlaceholderName(leaf.s).Some? && PlaceholderName(leaf.s).value in vars
    then vars[PlaceholderName(leaf.s).value].ToJson()
    else leaf
  }

  function ResolveAll(leaves: seq<Json>, vars: Variables): (r: seq<Json>)
    ensures |r| == |leaves| && forall i :: 0 <= i < |leaves| ==> r[i] == ResolveLeaf(leaves[i], vars)
  {
    seq(|leaves|, i requires 0 <= i < |leaves| => ResolveLeaf(leaves[i], vars))
  }

  /** `names[k]` is the first name of `names` that `vars` does not bind. */
  ghost predicate FirstUnboundAt(names: seq<string>, vars: Variables, k: int)
  {
    0 <= k < |names| && names[k] !in vars && forall j :: 0 <= j < k ==> names[j] in vars
  }

  ghost predicate IsFirstUnbound(names: seq<string>, vars: Variables, n: string)
  {
    exists k :: FirstUnboundAt(names, vars, k) && names[k] == n
  }

  function InjectChildren(t: Json, vars: Variables): (rs: seq<Result<Json, InjectionError>>)
    ensures |rs| == |Children(t)|
    decreases t, 0
  {
    match t
    case Arr(items) => seq(|items|, i requires 0 <= i < |items| => Inject(items[i], vars))
    case Obj(fields) => seq(|fields|, i requires 0 <= i < |fields| => Inject(fields[i].1, vars))
    case _ => []
  }

  /**
   * The substitution. Array elements and object values are visited in order
   * and the first failure wins; object keys are never looked at.
   */
  function Inject(t: Json, vars: Variables): Result<Json, InjectionError>
    decreases t, 1
  {
    if t.Str? && PlaceholderName(t.s).Some? then
      var name := PlaceholderName(t.s).value;
      if name in vars then Success(vars[name].ToJson()) else Failure(MissingVariable(name))
    else if t.IsLeaf() then Success(t)
    else
      var rs := AllOk(InjectChildren(t, vars));
      if rs.Failure? then Failure(rs.error) else Success(Rebuild(t, rs.value))
  }

  lemma InjectChildrenAt(t: Json, vars: Variables, i: nat)
    requires i < |Children(t)|
    ensures InjectChildren(t, vars)[i] == Inject(Children(t)[i], vars)
  {
  }

  /** Substitution succeeds exactly when every placeholder of the document is bound. */
  lemma {:induction false} InjectSucceedsIffAllBound(t: Json, vars: Variables)
    ensures Inject(t, vars).Success? <==> forall n :: n in PlaceholderNames(t) ==> n in vars
    decreases t
  {
    if !t.IsLeaf() {
      var parts := ChildNames(t);
      forall i | 0 <= i < |Children(t)|
        ensures InjectChildren(t, vars)[i].Success? <==> forall n :: n in parts[i] ==> n in vars
      {
        InjectChildrenAt(t, vars, i);
        ChildNamesAt(t, i);
        ChildIsSmaller(t, i);
        InjectSucceedsIffAllBound(Children(t)[i], vars);
      }
      AllBoundFlatten(parts, vars);
    }
  }

  lemma AllBoundFlatten(parts: seq<seq<string>>, vars: Variables)
    ensures (forall n :: n in Flatten(parts) ==> n in vars) <==>
            (forall i :: 0 <= i < |parts| ==> forall n :: n in parts[i] ==> n in vars)
  {
    forall i, n | 0 <= i < |parts| && n in parts[i] && (forall m :: m in Flatten(parts) ==> m in vars)
      ensures n in vars
    {
      FlattenHasMember(parts, i, n);
    }
    forall n | n in Flatten(parts) && (forall i :: 0 <= i < |parts| ==> forall m :: m in parts[i] ==> m in vars)
      ensures n in vars
    {
      var i := FlattenMemberPart(parts, n);
    }
  }

  /**
   * A failed substitution names the first unbound placeholder in traversal
   * order: every placeholder before it is bound.
   */
  lemma {:induction false} InjectReportsFirstMissing(t: Json, vars: Variables)
    requires Inject(t, vars).Failure?
    ensures IsFirstUnbound(PlaceholderNames(t), vars, Inject(t, vars).error.name)
    decreases t
  {
    if t.Str? && PlaceholderName(t.s).Some? {
      assert FirstUnboundAt(PlaceholderNames(t), vars, 0);
    } else {
      var rs := InjectChildren(t, vars);
      var parts := ChildNames(t);
      var i :| 0 <= i < |rs| && rs[i].Failure? && rs[i].error == AllOk(rs).error &&
        forall j :: 0 <= j < i ==> rs[j].Success?;
      forall j | 0 <= j < |rs| ensures rs[j].Success? <==> forall n :: n in parts[j] ==> n in vars {
        InjectChildrenAt(t, vars, j);
        ChildNamesAt(t, j);
        ChildIsSmaller(t, j);
        InjectSucceedsIffAllBound(Children(t)[j], vars);
      }
      InjectChildrenAt(t, vars, i);
      ChildNamesAt(t, i);
      ChildIsSmaller(t, i);
      InjectReportsFirstMissing(Children(t)[i], vars);
      FirstMissingFromPart(rs, parts, vars, i);
    }
  }

  /** The step from the first failing child to the whole document. */
  lemma FirstMissingFromPart(rs: seq<Result<Json, InjectionError>>, parts: seq<seq<string>>, vars: Variables, i: nat)
    requires |rs| == |parts| && i < |rs|
    requires forall j :: 0 <= j < |rs| ==> (rs[j].Success? <==> forall n :: n in parts[j] ==> n in vars)
    requires forall j :: 0 <= j < i ==> rs[j].Success?
    requires rs[i].Failure? && IsFirstUnbound(parts[i], vars, rs[i].error.name)
    ensures IsFirstUnbound(Flatten(parts), vars, rs[i].error.name)
  {
    var n := rs[i].error.name;
    var k :| FirstUnboundAt(parts[i], vars, k) && parts[i][k] == n;
    var before := Flatten(parts[..i]);
    forall m | m in before ensures m in vars {
      var j := FlattenMemberPart(parts[..i], m);
      assert parts[..i][j] == parts[j];
    }
    FlattenSplit(parts, i);
    assert parts[i..] == [parts[i]] + parts[i + 1..];
    assert Flatten(parts[i..]) == parts[i] + Flatten(parts[i + 1..]);
    var all := Flatten(parts);
    assert all == before + parts[i] + Flatten(parts[i + 1..]);
    var at := |before| + k;
    forall j | 0 <= j < at ensures all[j] in vars {
      if j < |before| {
        assert all[j] == before[j];
      } else {
        assert all[j] == parts[i][j - |before|];
      }
    }
    assert all[at] == n;
    assert FirstUnboundAt(all, vars, at);
  }

  /** A successful substitution keeps the skeleton: keys, nesting, array lengths and order. */
  lemma {:induction false} InjectPreservesSkeleton(t: Json, vars: Variables)
    requires Inject(t, vars).Success?
    ensures Erase(Inject(t, vars).value) == Erase(t)
    decreases t
  {
    if !t.IsLeaf() {
      var vs := AllOk(InjectChildren(t, vars)).value;
      var r := Rebuild(t, vs);
      forall i | 0 <= i < |Children(t)| ensures EraseChildren(r)[i] == EraseChildren(t)[i] {
        InjectChildrenAt(t, vars, i);
        ChildIsSmaller(t, i);
        InjectPreservesSkeleton(Children(t)[i], vars);
        EraseChildrenAt(r, i);
        EraseChildrenAt(t, i);
      }
      assert EraseChildren(r) == EraseChildren(t);
      RebuildSameShell(r, t, EraseChildren(t));
    }
  }

  /**
   * A successful substitution transforms the leaves one by one: each
   * placeholder becomes its bound value (with the value's own type) and every
   * other leaf is unchanged.
   */
  lemma {:induction false} InjectResolvesLeaves(t: Json, vars: Variables)
    requires Inject(t, vars).Success?
    ensures Leaves(Inject(t, vars).value) == ResolveAll(Leaves(t), vars)
    decreases t
  {
    if !t.IsLeaf() {
      var vs := AllOk(InjectChildren(t, vars)).value;
      var r := Rebuild(t, vs);
      forall i | 0 <= i < |Children(t)| ensures ChildLeaves(r)[i] == ResolveAll(ChildLeaves(t)[i], vars) {
        InjectChildrenAt(t, vars, i);
        ChildIsSmaller(t, i);
        InjectResolvesLeaves(Children(t)[i], vars);
        ChildLeavesAt(r, i);
        ChildLeavesAt(t, i);
      }
      ResolveFlatten(ChildLeaves(t), ChildLeaves(r), vars);
    }
  }

  lemma {:induction false} ResolveFlatten(before: seq<seq<Json>>, after: seq<seq<Json>>, vars: Variables)
    requires |before| == |after|
    requires forall i :: 0 <= i < |before| ==> after[i] == ResolveAll(before[i], vars)
    ensures Flatten(after) == ResolveAll(Flatten(before), vars)
  {
    if before != [] {
      ResolveFlatten(before[1..], after[1..], vars);
      assert ResolveAll(before[0] + Flatten(before[1..]), vars)
          == ResolveAll(before[0], vars) + ResolveAll(Flatten(before[1..]), vars);
    }
  }

  /**
   * The two properties above pin the result down: any document with the
   * input's skeleton and the resolved leaves is the substitution's result.
   */
  lemma InjectIsUnique(t: Json, vars: Variables, r: Json)
    requires Inject(t, vars).Success?
    requires Erase(r) == Erase(t) && Leaves(r) == ResolveAll(Leaves(t), vars)
    ensures Inject(t, vars).value == r
  {
    InjectPreservesSkeleton(t, vars);
    InjectResolvesLeaves(t, vars);
    SkeletonAndLeavesDetermine(Inject(t, vars).value, r);
  }

  /** A document without placeholders comes back unchanged, whatever the bindings. */
  lemma {:induction false} InjectFullyBoundIsIdentity(t: Json, vars: Variables)
    requires PlaceholderNames(t) == []
    ensures Inject(t, vars) == Success(t)
    decreases t
  {
    if !t.IsLeaf() {
      var rs := InjectChildren(t, vars);
      forall i | 0 <= i < |Children(t)| ensures rs[i] == Success(Children(t)[i]) {
        ChildNamesAt(t, i);
        FlattenHasNone(ChildNames(t), i);
        InjectChildrenAt(t, vars, i);
        ChildIsSmaller(t, i);
        InjectFullyBoundIsIdentity(Children(t)[i], vars);
      }
      assert AllOk(rs).value == Children(t);
      RebuildOwnChildren(t);
    }
  }

  lemma FlattenHasNone<T>(xss: seq<seq<T>>, i: nat)
    requires Flatten(xss) == [] && i < |xss|
    ensures xss[i] == []
  {
    if xss[i] != [] {
      FlattenHasMember(xss, i, xss[i][0]);
    }
  }

  /** A bound placeholder leaf becomes its scalar. */
  lemma InjectBoundLeaf(name: string, vars: Variables, v: Scalar)
    requires name in vars && vars[name] == v
    ensures Inject(Str(PLACEHOLDER_PREFIX + name), vars) == Success(v.ToJson())
  {
    assert (PLACEHOLDER_PREFIX + name)[..|PLACEHOLDER_PREFIX|] == PLACEHOLDER_PREFIX;
    assert (PLACEHOLDER_PREFIX + name)[|PLACEHOLDER_PREFIX|..] == name;
  }

  /** A string that does not begin with `#` is left as it is. */
  lemma InjectPlainLeaf(s: string, vars: Variables)
    requires s == [] || s[0] != '#'
    ensures Inject(Str(s), vars) == Success(Str(s))
  {
  }

  /** Substitution into an array, element by element. */
  lemma InjectArray(items: seq<Json>, vars: Variables, out: seq<Json>)
    requires |out| == |items|
    requires forall i :: 0 <= i < |items| ==> Inject(items[i], vars) == Success(out[i])
    ensures Inject(Arr(items), vars) == Success(Arr(out))
  {
    var t := Arr(items);
    forall i | 0 <= i < |items| ensures InjectChildren(t, vars)[i] == Success(out[i]) {
      InjectChildrenAt(t, vars, i);
    }
    assert AllOk(InjectChildren(t, vars)).value == out;
  }

  /** Substitution into an object, value by value; the keys are carried over. */
  lemma InjectObject(fields: seq<(string, Json)>, vars: Variables, out: seq<(string, Json)>)
    requires |out| == |fields|
    requires forall i :: 0 <= i < |fields| ==> out[i].0 == fields[i].0 && Inject(fields[i].1, vars) == Success(out[i].1)
    ensures Inject(Obj(fields), vars) == Success(Obj(out))
  {
    var t := Obj(fields);
    forall i | 0 <= i < |fields| ensures InjectChildren(t, vars)[i] == Success(out[i].1) {
      InjectChildrenAt(t, vars, i);
    }
    var vs := AllOk(InjectChildren(t, vars)).value;
    assert vs == Values(out);
    assert Zip(Keys(fields), vs) == out;
  }

  /** The first failing element decides the failure of an array. */
  lemma InjectArrayFails(items: seq<Json>, vars: Variables, i: nat, e: InjectionError)
    requires i < |items|
    requires forall j :: 0 <= j < i ==> Inject(items[j], vars).Success?
    requires Inject(items[i], vars) == Failure(e)
    ensures Inject(Arr(items), vars) == Failure(e)
  {
    var t := Arr(items);
    forall j | 0 <= j <= i ensures InjectChildren(t, vars)[j] == Inject(items[j], vars) {
      InjectChildrenAt(t, vars, j);
    }
    AllOkFirstFailure(InjectChildren(t, vars), i);
  }

  /** The first failing value decides the failure of an object. */
  lemma InjectObjectFails(fields: seq<(string, Json)>, vars: Variables, i: nat, e: InjectionError)
    requires i < |fields|
    requires forall j :: 0 <= j < i ==> Inject(fields[j].1, vars).Success?
    requires Inject(fields[i].1, vars) == Failure(e)
    ensures Inject(Obj(fields), vars) == Failure(e)
  {
    var t := Obj(fields);
    forall j | 0 <= j <= i ensures InjectChildren(t, vars)[j] == Inject(fields[j].1, vars) {
      InjectChildrenAt(t, vars, j);
    }
    AllOkFirstFailure(InjectChildren(t, vars), i);
  }

  lemma AllOkFirstFailure<T, E>(rs: seq<Result<T, E>>, i: nat)
    requires i < |rs| && rs[i].Failure?
    requires forall j :: 0 <= j < i ==> rs[j].Success?
    ensures AllOk(rs) == Failure(rs[i].error)
  {
    var k :| 0 <= k < |rs| && rs[k].Failure? && rs[k].error == AllOk(rs).error &&
      forall j :: 0 <= j < k ==> rs[j].Success?;
    assert k == i;
  }
}
