/** Taking elements out of a list without disturbing the others. */
module Sublists {
  ghost predicate Distinct<T>(xs: seq<T>) {
    forall i, j :: 0 <= i < j < |xs| ==> xs[i] != xs[j]
  }

  /** The elements of `xs` that are not dropped, in order. */
  function Kept<T>(xs: seq<T>, drops: seq<bool>): seq<T>
    requires |xs| == |drops|
    decreases |xs|
  {
    if xs == [] then []
    else
      var n := |xs| - 1;
      Kept(xs[..n], drops[..n]) + if drops[n] then [] else [xs[n]]
  }

  lemma KeptSnoc<T>(xs: seq<T>, drops: seq<bool>, x: T, drop: bool)
    requires |xs| == |drops|
    ensures Kept(xs + [x], drops + [drop]) == Kept(xs, drops) + if drop then [] else [x]
  {
    assert (xs + [x])[..|xs|] == xs && (drops + [drop])[..|xs|] == drops;
  }

  /** Where each kept element came from: the positions rise, are not dropped, and are all that
      are not. */
  lemma {:induction false} KeptInOrder<T>(xs: seq<T>, drops: seq<bool>) returns (from: seq<nat>)
    requires |xs| == |drops|
    ensures |from| == |Kept(xs, drops)|
    ensures forall k :: 0 <= k < |from| ==> from[k] < |xs| && !drops[from[k]] && Kept(xs, drops)[k] == xs[from[k]]
    ensures forall k, l :: 0 <= k < l < |from| ==> from[k] < from[l]
    ensures forall j :: 0 <= j < |xs| && !drops[j] ==> j in from
    decreases |xs|
  {
    if xs == [] {
      from := [];
    } else {
      var n := |xs| - 1;
      var before := KeptInOrder(xs[..n], drops[..n]);
      from := before + if drops[n] then [] else [n];
      forall j | 0 <= j < |xs| && !drops[j] ensures j in from {
        if j < n {
          assert !drops[..n][j] && j in before;
        }
      }
    }
  }
}
