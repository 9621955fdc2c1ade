/** Counting by distinctness. */
module Pigeonhole {
  /** Distinct numbers below n are at most n many. */
  lemma {:induction false} DistinctIsShort(path: seq<nat>, n: nat)
    requires forall i :: 0 <= i < |path| ==> path[i] < n
    requires forall i, j :: 0 <= i < j < |path| ==> path[i] != path[j]
    ensures |path| <= n
    decreases n
  {
    assert path != [] ==> path[0] < n;
    if path == [] {
    } else if exists i :: 0 <= i < |path| && path[i] == n - 1 {
      var i :| 0 <= i < |path| && path[i] == n - 1;
      DistinctIsShort(path[..i] + path[i + 1..], n - 1);
    } else {
      DistinctIsShort(path, n - 1);
    }
  }
}
