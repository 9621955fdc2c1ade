/** Finite sums of naturals: what the aggregate counting invariants are built from. */
module Sums {

  function Sum(xs: seq<nat>): nat
  {
    if xs == [] then 0 else Sum(xs[..|xs| - 1]) + xs[|xs| - 1]
  }

  /** Replacing one summand changes the sum by exactly the difference. */
  lemma {:induction false} SumUpdate(xs: seq<nat>, i: nat, v: nat)
    requires i < |xs|
    ensures Sum(xs[i := v]) + xs[i] == Sum(xs) + v
  {
    var n := |xs| - 1;
    if i == n {
      assert xs[i := v][..n] == xs[..n];
    } else {
      assert xs[i := v][..n] == xs[..n][i := v];
      SumUpdate(xs[..n], i, v);
    }
  }

  /** One summand never exceeds the sum. */
  lemma {:induction false} SumAtLeast(xs: seq<nat>, i: nat)
    requires i < |xs|
    ensures xs[i] <= Sum(xs)
  {
    SumUpdate(xs, i, 0);
  }

  /** Two different summands together never exceed the sum. */
  lemma {:induction false} SumAtLeastPair(xs: seq<nat>, i: nat, j: nat)
    requires i < |xs| && j < |xs| && i != j
    ensures xs[i] + xs[j] <= Sum(xs)
  {
    SumUpdate(xs, i, 0);
    SumAtLeast(xs[i := 0], j);
  }

  /** Summand-wise comparison carries over to the sums. */
  lemma {:induction false} SumMonotone(xs: seq<nat>, ys: seq<nat>)
    requires |xs| == |ys|
    requires forall i :: 0 <= i < |xs| ==> xs[i] <= ys[i]
    ensures Sum(xs) <= Sum(ys)
  {
    if xs != [] {
      SumMonotone(xs[..|xs| - 1], ys[..|ys| - 1]);
    }
  }

  /** A sum of summands that are at most k is at most k times their number. */
  lemma {:induction false} SumBound(xs: seq<nat>, k: nat)
    requires forall i :: 0 <= i < |xs| ==> xs[i] <= k
    ensures Sum(xs) <= k * |xs|
  {
    if xs != [] {
      SumBound(xs[..|xs| - 1], k);
    }
  }

  lemma {:induction false} SumZero(xs: seq<nat>)
    requires forall i :: 0 <= i < |xs| ==> xs[i] == 0
    ensures Sum(xs) == 0
  {
    if xs != [] {
      SumZero(xs[..|xs| - 1]);
    }
  }

  /** A positive sum has a positive summand. */
  lemma {:induction false} SumWitness(xs: seq<nat>) returns (i: nat)
    requires Sum(xs) > 0
    ensures i < |xs| && xs[i] > 0
  {
    if xs[|xs| - 1] > 0 {
      i := |xs| - 1;
    } else {
      i := SumWitness(xs[..|xs| - 1]);
    }
  }

  lemma {:induction false} SumAppend(xs: seq<nat>, v: nat)
    ensures Sum(xs + [v]) == Sum(xs) + v
  {
    assert (xs + [v])[..|xs|] == xs;
  }

  /** The sum of two columns added summand by summand. */
  lemma {:induction false} SumAdd(xs: seq<nat>, ys: seq<nat>, zs: seq<nat>)
    requires |xs| == |ys| == |zs|
    requires forall i :: 0 <= i < |xs| ==> zs[i] == xs[i] + ys[i]
    ensures Sum(zs) == Sum(xs) + Sum(ys)
  {
    if xs != [] {
      SumAdd(xs[..|xs| - 1], ys[..|xs| - 1], zs[..|xs| - 1]);
    }
  }
}
