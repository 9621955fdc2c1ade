/** The order in which queued references are released does not matter: the work list does what recursion would. */
module CascadeConfluence {
  import opened Options
  import opened Cascade

  function Without(q: seq<Ptr>, i: nat): seq<Ptr>
    requires i < |q|
  {
    q[..i] + q[i + 1..]
  }

  function Work(h: Heap, q: seq<Ptr>): nat { Weight(h) + |q| }

  /** Two releases commute. */
  lemma Diamond(h: Heap, p: Ptr, q: Ptr)
    requires Unref(h, p).Some? && Unref(h, q).Some? && p != q
    ensures var (h1, m1) := Unref(h, p).value; var (h2, m2) := Unref(h, q).value;
      && Unref(h1, q).Some? && Unref(h2, p).Some?
      && Unref(h1, q).value.1 == m2 && Unref(h2, p).value.1 == m1
      && Unref(h1, q).value.0 == Unref(h2, p).value.0
  {
    if p.Some? && q.Some? {
      var (h1, m1) := Unref(h, p).value;
      var (h2, m2) := Unref(h, q).value;
      assert h1[q.value] == h[q.value] && h2[p.value] == h[p.value];
      assert h1[q.value := h2[q.value]] == h2[p.value := h1[p.value]];
    }
  }

  /** A release that fails now fails after any other release. */
  lemma FailureStays(h: Heap, p: Ptr, q: Ptr)
    requires Unref(h, p).Some? && Unref(h, q).None?
    ensures Unref(Unref(h, p).value.0, q).None?
  {
  }

  /** Any queued reference may be released first. */
  lemma {:induction false} Pick(h: Heap, q: seq<Ptr>, i: nat)
    requires i < |q|
    ensures Drain(h, q) == Continue(Unref(h, q[i]), Without(q, i))
    decreases Work(h, q), 0
  {
    var n := |q| - 1;
    if i == n {
      assert Without(q, i) == q[..n];
    } else if Unref(h, q[n]).None? {
      if Unref(h, q[i]).Some? {
        FailureStays(h, q[i], q[n]);
        PickLast(Unref(h, q[i]).value.0, q, i, Unref(h, q[i]).value.1);
      }
    } else {
      var (h2, m2) := Unref(h, q[n]).value;
      PickAfter(h, q, i, h2, m2);
    }
  }

  lemma {:induction false} PickAfter(h: Heap, q: seq<Ptr>, i: nat, h2: Heap, m2: seq<Ptr>)
    requires i < |q| - 1 && Unref(h, q[|q| - 1]) == Some((h2, m2))
    ensures Drain(h2, q[..|q| - 1] + m2) == Continue(Unref(h, q[i]), Without(q, i))
    decreases Work(h, q) - 1, 3
  {
    var n := |q| - 1;
    Pick(h2, q[..n] + m2, i);
    assert Without(q[..n] + m2, i) == Without(q[..n], i) + m2;
    if Unref(h, q[i]).None? {
      FailureStays(h, q[n], q[i]);
    } else {
      var (h1, m1) := Unref(h, q[i]).value;
      PickLast(h1, q, i, m1);
      Swap(h, q, i, h1, m1, h2, m2);
    }
  }

  /** Releasing the last reference of q after q[i]. */
  lemma {:induction false} PickLast(h1: Heap, q: seq<Ptr>, i: nat, m1: seq<Ptr>)
    requires i < |q| - 1
    ensures Drain(h1, Without(q, i) + m1) == Continue(Unref(h1, q[|q| - 1]), Without(q[..|q| - 1], i) + m1)
    decreases Weight(h1) + |m1| + |q| - 1, 1
  {
    var n := |q| - 1;
    var rest := Without(q, i) + m1;
    assert rest[n - 1] == q[n];
    Pick(h1, rest, n - 1);
    assert Without(rest, n - 1) == Without(q[..n], i) + m1;
  }

  /** Releasing q[i] and then the last reference, or the other way round. */
  lemma {:induction false} Swap(h: Heap, q: seq<Ptr>, i: nat, h1: Heap, m1: seq<Ptr>, h2: Heap, m2: seq<Ptr>)
    requires i < |q| - 1 && Unref(h, q[i]) == Some((h1, m1)) && Unref(h, q[|q| - 1]) == Some((h2, m2))
    ensures Continue(Unref(h1, q[|q| - 1]), Without(q[..|q| - 1], i) + m1)
         == Continue(Unref(h2, q[i]), Without(q[..|q| - 1], i) + m2)
    decreases Work(h, q) - 1, 2
  {
    var n := |q| - 1;
    var rest := Without(q[..n], i);
    if q[i] != q[n] {
      Diamond(h, q[i], q[n]);
      var both := Unref(h1, q[n]).value.0;
      Reorder(both, (rest + m1) + m2, (rest + m2) + m1);
    }
  }

  /** Only the contents of the queue matter. */
  lemma {:induction false} Reorder(h: Heap, q: seq<Ptr>, r: seq<Ptr>)
    requires multiset(q) == multiset(r)
    ensures Drain(h, q) == Drain(h, r)
    decreases Work(h, q), 1
  {
    assert |q| == |multiset(q)| && |r| == |multiset(r)|;
    if r != [] {
      var n := |r| - 1;
      assert r[n] in multiset(r);
      var i :| 0 <= i < |q| && q[i] == r[n];
      Pick(h, q, i);
      var one := Unref(h, r[n]);
      if one.Some? {
        SameRest(q, i, r, one.value.1);
        Reorder(one.value.0, Without(q, i) + one.value.1, r[..n] + one.value.1);
      }
    }
  }

  lemma SameRest(q: seq<Ptr>, i: nat, r: seq<Ptr>, more: seq<Ptr>)
    requires multiset(q) == multiset(r) && i < |q| && r != [] && q[i] == r[|r| - 1]
    ensures multiset(Without(q, i) + more) == multiset(r[..|r| - 1] + more)
    ensures |Without(q, i)| == |r| - 1
  {
    assert q == q[..i] + [q[i]] + q[i + 1..] && r == r[..|r| - 1] + [r[|r| - 1]];
    assert |multiset(q)| == |q| && |multiset(r)| == |r|;
    calc {
      multiset(Without(q, i));
      multiset(q) - multiset{q[i]};
      multiset(r[..|r| - 1]);
    }
  }

  // ---- the work list against recursion ----

  /** Blocks that recursion is still destroying count as freed for the work list. */
  function Sweep(h: Heap): (r: Heap)
    ensures |r| == |h| && forall i :: 0 <= i < |h| ==> r[i] == if Dying(h[i]) then Freed else h[i]
  {
    seq(|h|, i requires 0 <= i < |h| => if Dying(h[i]) then Freed else h[i])
  }

  lemma {:induction false} OneMatches(h: Heap, p: Ptr, q: seq<Ptr>)
    ensures Drain(Sweep(h), q + [p]) == var r := Release(h, p); if r.None? then None else Drain(Sweep(r.value), q)
    decreases Weight(h), 0
  {
    assert (q + [p])[..|q|] == q;
    if p.None? || !Referenced(h, p.value) {
      assert q + [] == q;
    } else {
      var a, b := p.value, h[p.value];
      var h0 := h[a := b.(count := b.count - 1)];
      WeightUpdate(h, a, b.(count := b.count - 1));
      if b.count > 1 {
        assert Sweep(h0) == Sweep(h)[a := b.(count := b.count - 1)];
        assert q + [] == q;
      } else {
        assert Sweep(h0) == Sweep(h)[a := Freed];
        AllMatch(h0, b.fields, q);
        var r := ReleaseAll(h0, b.fields);
        if r.Some? {
          assert Dead(h0[a]);
          assert Sweep(r.value[a := Freed]) == Sweep(r.value);
        }
      }
    }
  }

  lemma {:induction false} AllMatch(h: Heap, ps: seq<Ptr>, q: seq<Ptr>)
    ensures Drain(Sweep(h), q + ps) == var r := ReleaseAll(h, ps); if r.None? then None else Drain(Sweep(r.value), q)
    decreases Weight(h), |ps| + 1
  {
    if ps == [] {
      assert q + ps == q;
    } else {
      assert ps == [ps[0]] + ps[1..];
      assert multiset(q + ps) == multiset((q + ps[1..]) + [ps[0]]);
      Reorder(Sweep(h), q + ps, (q + ps[1..]) + [ps[0]]);
      OneMatches(h, ps[0], q + ps[1..]);
      var r := Release(h, ps[0]);
      if r.Some? { AllMatch(r.value, ps[1..], q); }
    }
  }

  lemma {:induction false} DrainTidy(h: Heap, q: seq<Ptr>)
    ensures Drain(h, q).Some? ==> Tidy(h, Drain(h, q).value)
    decreases Work(h, q)
  {
    if q != [] && Unref(h, q[|q| - 1]).Some? {
      var (h', more) := Unref(h, q[|q| - 1]).value;
      DrainTidy(h', q[..|q| - 1] + more);
    }
  }

  /** Blocks being destroyed elsewhere are in nobody's way. */
  lemma {:induction false} DrainSwept(h: Heap, q: seq<Ptr>)
    ensures Drain(Sweep(h), q) == var r := Drain(h, q); if r.None? then None else Some(Sweep(r.value))
    decreases Work(h, q)
  {
    if q != [] && Unref(h, q[|q| - 1]).Some? {
      var (h', more) := Unref(h, q[|q| - 1]).value;
      assert Unref(Sweep(h), q[|q| - 1]) == Some((Sweep(h'), more)) by { UnrefSwept(h, q[|q| - 1]); }
      DrainSwept(h', q[..|q| - 1] + more);
    }
  }

  lemma UnrefSwept(h: Heap, p: Ptr)
    requires Unref(h, p).Some?
    ensures Unref(Sweep(h), p) == Some((Sweep(Unref(h, p).value.0), Unref(h, p).value.1))
  {
    if p.Some? { assert Sweep(h)[p.value := Sweep(Unref(h, p).value.0)[p.value]] == Sweep(Unref(h, p).value.0); }
  }

  lemma SweptApart(h: Heap, x: Heap, y: Heap)
    requires Tidy(h, x) && Tidy(h, y) && Sweep(x) == Sweep(y)
    ensures x == y
  {
    forall i | 0 <= i < |h| ensures x[i] == y[i] { assert Sweep(x)[i] == Sweep(y)[i]; }
  }

  /**
   * The work list does exactly what recursion does: the same blocks freed, the
   * same counts left, and a failure in one exactly when in the other. There is
   * no condition on the heap: it may be cyclic, its counts may be wrong, and
   * other blocks may be in the middle of their destruction.
   */
  lemma WorklistIsRecursion(h: Heap, p: Ptr)
    ensures Drain(h, [p]) == Release(h, p)
  {
    DrainSwept(h, [p]);
    DrainTidy(h, [p]);
    OneMatches(h, p, []);
    assert [] + [p] == [p];
    if Drain(h, [p]).Some? { SweptApart(h, Drain(h, [p]).value, Release(h, p).value); }
  }
}
