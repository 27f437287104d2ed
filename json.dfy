/**
 * JSON documents as an explicit tagged union: the shape of aggregation
 * pipelines, request payloads and variable values. Numbers are integers.
 * Objects keep their keys in insertion order.
 */
module Json {
  import opened Wrappers

  datatype Json =
    | Null
    | Bool(b: bool)
    | Num(n: int)
    | Str(s: string)
    | Arr(items: seq<Json>)
    | Obj(fields: seq<(string, Json)>)
  {
    predicate IsLeaf() { !Arr? && !Obj? }
  }

  /** The values a query variable may be bound to: text, number or boolean. */
  datatype Scalar = SString(s: string) | SNumber(n: int) | SBoolean(b: bool)
  {
    /** The scalar as a JSON leaf of its own native type. */
    function ToJson(): (j: Json)
      ensures j.IsLeaf() && !j.Null?
      ensures SString? <==> j.Str?
      ensures SNumber? <==> j.Num?
      ensures SBoolean? <==> j.Bool?
    {
      match this
      case SString(s) => Str(s)
      case SNumber(n) => Num(n)
      case SBoolean(b) => Bool(b)
    }
  }

  /** The keys of an object, in order. */
  function Keys(fields: seq<(string, Json)>): (r: seq<string>)
    ensures |r| == |fields|
  {
    seq(|fields|, i requires 0 <= i < |fields| => fields[i].0)
  }

  /** The values of an object, in key order. */
  function Values(fields: seq<(string, Json)>): (r: seq<Json>)
    ensures |r| == |fields|
  {
    seq(|fields|, i requires 0 <= i < |fields| => fields[i].1)
  }

  /** The object whose keys and values are the given ones, pairwise. */
  function Zip(keys: seq<string>, values: seq<Json>): (r: seq<(string, Json)>)
    requires |keys| == |values|
    ensures Keys(r) == keys && Values(r) == values
  {
    seq(|keys|, i requires 0 <= i < |keys| => (keys[i], values[i]))
  }

  /** The direct children of a node: array elements, or object values in key order. */
  function Children(t: Json): seq<Json>
  {
    match t
    case Arr(items) => items
    case Obj(fields) => Values(fields)
    case _ => []
  }

  /**
   * Two nodes have the same shell when both are leaves, both are arrays of the
   * same length, or both are objects with the same keys in the same order.
   */
  predicate SameShell(a: Json, b: Json)
  {
    || (a.IsLeaf() && b.IsLeaf())
    || (a.Arr? && b.Arr? && |a.items| == |b.items|)
    || (a.Obj? && b.Obj? && Keys(a.fields) == Keys(b.fields))
  }

  /** The node with the shell of `t` and the children `cs`. */
  function Rebuild(t: Json, cs: seq<Json>): (r: Json)
    requires |cs| == |Children(t)|
    ensures SameShell(t, r) && Children(r) == (if t.IsLeaf() then [] else cs)
    ensures t.IsLeaf() ==> r == t
  {
    match t
    case Arr(_) => Arr(cs)
    case Obj(fields) => Obj(Zip(Keys(fields), cs))
    case _ => t
  }

  /** A node is determined by its shell and its children. */
  lemma ShellAndChildrenDetermine(a: Json, b: Json)
    requires !a.IsLeaf() && SameShell(a, b) && Children(a) == Children(b)
    ensures a == b
  {
    if a.Obj? {
      forall i | 0 <= i < |a.fields| ensures a.fields[i] == b.fields[i] {
        assert a.fields[i].0 == Keys(a.fields)[i] == Keys(b.fields)[i] == b.fields[i].0;
        assert a.fields[i].1 == Values(a.fields)[i] == Values(b.fields)[i] == b.fields[i].1;
      }
    }
  }

  lemma RebuildOwnChildren(t: Json)
    ensures Rebuild(t, Children(t)) == t
  {
    if !t.IsLeaf() {
      ShellAndChildrenDetermine(t, Rebuild(t, Children(t)));
    }
  }

  /** Rebuilding depends on the shell only. */
  lemma RebuildSameShell(a: Json, b: Json, cs: seq<Json>)
    requires SameShell(a, b) && |cs| == |Children(a)| == |Children(b)|
    ensures Rebuild(a, cs) == Rebuild(b, cs) || a.IsLeaf()
  {
  }

  function EraseChildren(t: Json): (r: seq<Json>)
    ensures |r| == |Children(t)|
    decreases t, 0
  {
    match t
    case Arr(items) => seq(|items|, i requires 0 <= i < |items| => Erase(items[i]))
    case Obj(fields) => seq(|fields|, i requires 0 <= i < |fields| => Erase(fields[i].1))
    case _ => []
  }

  /**
   * The skeleton of a document: every leaf replaced by `Null`. Two documents
   * have the same skeleton exactly when they have the same nesting, the same
   * array lengths and the same object keys in the same order.
   */
  function Erase(t: Json): (r: Json)
    ensures t.IsLeaf() <==> r == Null
    decreases t, 1
  {
    if t.IsLeaf() then Null else Rebuild(t, EraseChildren(t))
  }

  lemma EraseChildrenAt(t: Json, i: nat)
    requires i < |Children(t)|
    ensures EraseChildren(t)[i] == Erase(Children(t)[i])
  {
  }

  function ChildLeaves(t: Json): (r: seq<seq<Json>>)
    ensures |r| == |Children(t)|
    decreases t, 0
  {
    match t
    case Arr(items) => seq(|items|, i requires 0 <= i < |items| => Leaves(items[i]))
    case Obj(fields) => seq(|fields|, i requires 0 <= i < |fields| => Leaves(fields[i].1))
    case _ => []
  }

  /** The leaves of a document in traversal order: array elements in order, object values in key order. */
  function Leaves(t: Json): seq<Json>
    decreases t, 1
  {
    if t.IsLeaf() then [t] else Flatten(ChildLeaves(t))
  }

  lemma ChildLeavesAt(t: Json, i: nat)
    requires i < |Children(t)|
    ensures ChildLeaves(t)[i] == Leaves(Children(t)[i])
  {
  }

  /** Equal skeletons: equal shells, and children with equal skeletons pairwise. */
  lemma SkeletonParts(a: Json, b: Json)
    requires Erase(a) == Erase(b)
    ensures SameShell(a, b) && |Children(a)| == |Children(b)|
    ensures forall i :: 0 <= i < |Children(a)| ==> Erase(Children(a)[i]) == Erase(Children(b)[i])
  {
    if !a.IsLeaf() {
      assert !b.IsLeaf();
      assert Children(Erase(a)) == EraseChildren(a);
      assert Children(Erase(b)) == EraseChildren(b);
      forall i | 0 <= i < |Children(a)| ensures Erase(Children(a)[i]) == Erase(Children(b)[i]) {
        EraseChildrenAt(a, i);
        EraseChildrenAt(b, i);
      }
    }
  }

  /** Documents with the same skeleton have the same number of leaves. */
  lemma {:induction false} SkeletonFixesLeafCount(a: Json, b: Json)
    requires Erase(a) == Erase(b)
    ensures |Leaves(a)| == |Leaves(b)|
    decreases a
  {
    SkeletonParts(a, b);
    if !a.IsLeaf() {
      forall i | 0 <= i < |Children(a)| ensures |ChildLeaves(a)[i]| == |ChildLeaves(b)[i]| {
        ChildLeavesAt(a, i);
        ChildLeavesAt(b, i);
        ChildIsSmaller(a, i);
        SkeletonFixesLeafCount(Children(a)[i], Children(b)[i]);
      }
      FlattenSameLengths(ChildLeaves(a), ChildLeaves(b));
    }
  }

  /** Children are structurally smaller than their parent. */
  lemma ChildIsSmaller(t: Json, i: nat)
    requires i < |Children(t)|
    ensures Children(t)[i] < t
  {
    if t.Obj? {
      assert Children(t)[i] == t.fields[i].1;
    }
  }

  lemma {:induction false} FlattenSameLengths<T>(xss: seq<seq<T>>, yss: seq<seq<T>>)
    requires |xss| == |yss|
    requires forall i :: 0 <= i < |xss| ==> |xss[i]| == |yss[i]|
    ensures |Flatten(xss)| == |Flatten(yss)|
  {
    if xss != [] {
      FlattenSameLengths(xss[1..], yss[1..]);
    }
  }

  /**
   * A document is determined by its skeleton and its leaves: this is what makes
   * "same skeleton, leaves transformed one by one" a complete specification of
   * a leaf-wise transformation.
   */
  lemma {:induction false} SkeletonAndLeavesDetermine(a: Json, b: Json)
    requires Erase(a) == Erase(b)
    requires Leaves(a) == Leaves(b)
    ensures a == b
    decreases a
  {
    SkeletonParts(a, b);
    if a.IsLeaf() {
      assert [a] == Leaves(a) == Leaves(b) == [b];
    } else {
      forall i | 0 <= i < |Children(a)| ensures |ChildLeaves(a)[i]| == |ChildLeaves(b)[i]| {
        ChildLeavesAt(a, i);
        ChildLeavesAt(b, i);
        ChildIsSmaller(a, i);
        SkeletonFixesLeafCount(Children(a)[i], Children(b)[i]);
      }
      FlattenInjective(ChildLeaves(a), ChildLeaves(b));
      forall i | 0 <= i < |Children(a)| ensures Children(a)[i] == Children(b)[i] {
        ChildLeavesAt(a, i);
        ChildLeavesAt(b, i);
        ChildIsSmaller(a, i);
        SkeletonAndLeavesDetermine(Children(a)[i], Children(b)[i]);
      }
      ShellAndChildrenDetermine(a, b);
    }
  }
}
