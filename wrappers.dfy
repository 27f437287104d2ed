/** Option and Result, the failure-carrying values the rest of the model returns. */
module Wrappers {

  datatype Option<+T> = None | Some(value: T)

  /** `Success` or the first `Failure` met; the Effect error channel of the system. */
  datatype Result<+T, +E> = Success(value: T) | Failure(error: E)

  /**
   * Combines results computed in order: the values of all of them when every one
   * succeeded, otherwise the error of the first that failed.
   */
  function AllOk<T, E>(rs: seq<Result<T, E>>): (r: Result<seq<T>, E>)
    ensures r.Success? <==> forall i :: 0 <= i < |rs| ==> rs[i].Success?
    ensures r.Success? ==> |r.value| == |rs| && forall i :: 0 <= i < |rs| ==> r.value[i] == rs[i].value
    ensures r.Failure? ==>
      exists i :: 0 <= i < |rs| && rs[i].Failure? && rs[i].error == r.error &&
        forall j :: 0 <= j < i ==> rs[j].Success?
  {
    if rs == [] then Success([])
    else if rs[0].Failure? then Failure(rs[0].error)
    else
      var rest := AllOk(rs[1..]);
      if rest.Failure? then
        assert forall i :: 1 <= i < |rs| ==> rs[i] == rs[1..][i - 1];
        Failure(rest.error)
      else Success([rs[0].value] + rest.value)
  }

  /** Concatenation of a sequence of sequences, in order. */
  function Flatten<T>(xss: seq<seq<T>>): (r: seq<T>)
  {
    if xss == [] then [] else xss[0] + Flatten(xss[1..])
  }

  lemma {:induction false} FlattenSplit<T>(xss: seq<seq<T>>, i: nat)
    requires i <= |xss|
    ensures Flatten(xss) == Flatten(xss[..i]) + Flatten(xss[i..])
  {
    if i == 0 {
      assert xss[..0] == [];
      assert xss[0..] == xss;
    } else {
      FlattenSplit(xss[1..], i - 1);
      assert xss[1..][..i - 1] == xss[1..i];
      assert xss[1..][i - 1..] == xss[i..];
      assert xss[..i][1..] == xss[1..i];
    }
  }

  /** Every element of a part is an element of the concatenation. */
  lemma {:induction false} FlattenHasMember<T>(xss: seq<seq<T>>, i: nat, x: T)
    requires i < |xss| && x in xss[i]
    ensures x in Flatten(xss)
  {
    if i > 0 {
      FlattenHasMember(xss[1..], i - 1, x);
    }
  }

  /** Every element of the concatenation comes from one of the parts. */
  lemma {:induction false} FlattenMemberPart<T>(xss: seq<seq<T>>, x: T) returns (i: nat)
    requires x in Flatten(xss)
    ensures i < |xss| && x in xss[i]
  {
    if x in xss[0] {
      i := 0;
    } else {
      var j := FlattenMemberPart(xss[1..], x);
      i := j + 1;
    }
  }

  /** Parts of equal lengths are determined by their concatenation. */
  lemma {:induction false} FlattenInjective<T>(xss: seq<seq<T>>, yss: seq<seq<T>>)
    requires |xss| == |yss|
    requires forall i :: 0 <= i < |xss| ==> |xss[i]| == |yss[i]|
    requires Flatten(xss) == Flatten(yss)
    ensures xss == yss
  {
    if xss != [] {
      var n := |xss[0]|;
      assert xss[0] == Flatten(xss)[..n];
      assert yss[0] == Flatten(yss)[..n];
      assert Flatten(xss[1..]) == Flatten(xss)[n..];
      assert Flatten(yss[1..]) == Flatten(yss)[n..];
      FlattenInjective(xss[1..], yss[1..]);
      assert xss == [xss[0]] + xss[1..];
      assert yss == [yss[0]] + yss[1..];
    }
  }
}
