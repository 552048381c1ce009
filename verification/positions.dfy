/**
 Positions of the elements a filtering loop keeps. Both the section filter of
 the parser and the file-name filter of the loader are loops that keep some
 elements of a sequence in order; their results are described through the
 increasing list of positions they keep.
 */
module Positions {

  /** Every position raised by one. */
  function Shift(at: seq<nat>): (r: seq<nat>)
    ensures |r| == |at|
    ensures forall k :: 0 <= k < |r| ==> r[k] == at[k] + 1
  {
    seq(|at|, k requires 0 <= k < |at| => at[k] + 1)
  }

  /** Shifting never produces position 0, and `i + 1` is shifted in exactly when `i` was there. */
  lemma ShiftMembers(at: seq<nat>)
    ensures 0 !in Shift(at)
    ensures forall i: nat :: i + 1 in Shift(at) <==> i in at
  {
  }

  /** The positions of the elements of `xs` that satisfy `keep`, in order. */
  function Kept<T>(xs: seq<T>, keep: T -> bool): seq<nat> {
    if |xs| == 0 then []
    else (if keep(xs[0]) then [0] else []) + Shift(Kept(xs[1..], keep))
  }

  /** The kept positions lie inside `xs`, hold kept elements, and increase. */
  lemma {:induction false} KeptIncrease<T>(xs: seq<T>, keep: T -> bool)
    ensures forall k :: 0 <= k < |Kept(xs, keep)| ==> Kept(xs, keep)[k] < |xs| && keep(xs[Kept(xs, keep)[k]])
    ensures forall k, l :: 0 <= k < l < |Kept(xs, keep)| ==> Kept(xs, keep)[k] < Kept(xs, keep)[l]
    decreases |xs|
  {
    if |xs| > 0 {
      KeptIncrease(xs[1..], keep);
      var at, rest := Kept(xs, keep), Kept(xs[1..], keep);
      var d := if keep(xs[0]) then 1 else 0;
      forall k | d <= k < |at|
        ensures at[k] < |xs| && keep(xs[at[k]])
      {
        assert at[k] == rest[k - d] + 1;
        assert xs[at[k]] == xs[1..][rest[k - d]];
      }
    }
  }

  /** Every element satisfying `keep` has its position kept, and no other. */
  lemma {:induction false} KeptExact<T>(xs: seq<T>, keep: T -> bool)
    ensures forall i :: 0 <= i < |xs| ==> (keep(xs[i]) <==> i in Kept(xs, keep))
    decreases |xs|
  {
    if |xs| > 0 {
      KeptExact(xs[1..], keep);
      ShiftMembers(Kept(xs[1..], keep));
      forall i | 1 <= i < |xs|
        ensures keep(xs[i]) <==> i in Kept(xs, keep)
      {
        assert xs[i] == xs[1..][i - 1];
        assert (i - 1) + 1 == i;
      }
    }
  }

  /** No more positions are kept than there are elements. */
  lemma {:induction false} KeptLength<T>(xs: seq<T>, keep: T -> bool)
    ensures |Kept(xs, keep)| <= |xs|
    decreases |xs|
  {
    if |xs| > 0 {
      KeptLength(xs[1..], keep);
    }
  }

  /** The images under `f` of the elements of `xs` that `keep` accepts, in order. */
  function Select<T, U>(xs: seq<T>, keep: T -> bool, f: T -> U): seq<U> {
    if |xs| == 0 then []
    else (if keep(xs[0]) then [f(xs[0])] else []) + Select(xs[1..], keep, f)
  }

  /** One value is selected per kept position. */
  lemma {:induction false} SelectLength<T, U>(xs: seq<T>, keep: T -> bool, f: T -> U)
    ensures |Select(xs, keep, f)| == |Kept(xs, keep)|
    decreases |xs|
  {
    if |xs| > 0 {
      SelectLength(xs[1..], keep, f);
    }
  }

  /** The `k`-th selected value is the image of the element at the `k`-th kept position. */
  lemma {:induction false} SelectPick<T, U>(xs: seq<T>, keep: T -> bool, f: T -> U)
    ensures |Select(xs, keep, f)| == |Kept(xs, keep)|
    ensures forall k :: 0 <= k < |Kept(xs, keep)| ==>
      Kept(xs, keep)[k] < |xs| && Select(xs, keep, f)[k] == f(xs[Kept(xs, keep)[k]])
    decreases |xs|
  {
    SelectLength(xs, keep, f);
    if |xs| > 0 {
      SelectPick(xs[1..], keep, f);
      var at, rest := Kept(xs, keep), Kept(xs[1..], keep);
      var ys, tail := Select(xs, keep, f), Select(xs[1..], keep, f);
      var d := if keep(xs[0]) then 1 else 0;
      assert at == (if keep(xs[0]) then [0] else []) + Shift(rest);
      assert ys == (if keep(xs[0]) then [f(xs[0])] else []) + tail;
      forall k | d <= k < |at|
        ensures at[k] < |xs| && ys[k] == f(xs[at[k]])
      {
        var m := k - d;
        assert at[k] == rest[m] + 1 && ys[k] == tail[m];
        assert xs[at[k]] == xs[1..][rest[m]];
      }
    }
  }
}
