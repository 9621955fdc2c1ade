/** With honest reference counts the cascade cannot fail, frees each block once, and frees exactly the garbage. */
module CascadeBalance {
  import opened Options
  import opened Sums
  import opened Cascade

  function Occurs(ps: seq<Ptr>, a: nat): nat { multiset(ps)[Some(a)] }

  function RefsFrom(b: Block, a: nat): nat { if b.Freed? then 0 else Occurs(b.fields, a) }

  function Column(h: Heap, a: nat): (c: seq<nat>)
    ensures |c| == |h| && forall i :: 0 <= i < |h| ==> c[i] == RefsFrom(h[i], a)
  {
    seq(|h|, i requires 0 <= i < |h| => RefsFrom(h[i], a))
  }

  /** How often the fields of blocks point to a. */
  function Refs(h: Heap, a: nat): nat { Sum(Column(h, a)) }

  lemma RefsUpdate(h: Heap, i: nat, b: Block, a: nat)
    requires i < |h|
    ensures Refs(h[i := b], a) + RefsFrom(h[i], a) == Refs(h, a) + RefsFrom(b, a)
  {
    assert Column(h[i := b], a) == Column(h, a)[i := RefsFrom(b, a)];
    SumUpdate(Column(h, a), i, RefsFrom(b, a));
  }

  /** Every count is exact: owners elsewhere (`owners`), fields of blocks, and references queued for release. */
  predicate CountOk(h: Heap, q: seq<Ptr>, owners: seq<nat>, a: nat)
    requires a < |h| == |owners|
  {
    var total := owners[a] + Refs(h, a) + Occurs(q, a);
    if h[a].Freed? then total == 0 else h[a].count == total > 0
  }

  predicate InHeap(h: Heap, ps: seq<Ptr>) { forall i :: 0 <= i < |ps| && ps[i].Some? ==> ps[i].value < |h| }

  ghost predicate Balanced(h: Heap, q: seq<Ptr>, owners: seq<nat>) {
    && |owners| == |h| && InHeap(h, q)
    && (forall i :: 0 <= i < |h| && h[i].Block? ==> InHeap(h, h[i].fields))
    && (forall a :: 0 <= a < |h| ==> CountOk(h, q, owners, a))
  }

  // ---- no failure ----

  lemma OccursAppend(ps: seq<Ptr>, qs: seq<Ptr>, a: nat)
    ensures Occurs(ps + qs, a) == Occurs(ps, a) + Occurs(qs, a)
  {
  }

  lemma OccursLast(q: seq<Ptr>, a: nat)
    requires q != []
    ensures Occurs(q, a) == Occurs(q[..|q| - 1], a) + (if q[|q| - 1] == Some(a) then 1 else 0)
  {
    assert q == q[..|q| - 1] + [q[|q| - 1]];
  }

  /** A queued reference can be released, and the counts stay exact. */
  lemma UnrefBalanced(h: Heap, q: seq<Ptr>, owners: seq<nat>)
    requires Balanced(h, q, owners) && q != []
    ensures var r := Unref(h, q[|q| - 1]);
      r.Some? && Balanced(r.value.0, q[..|q| - 1] + r.value.1, owners)
  {
    var n := |q| - 1;
    if q[n].Some? {
      assert CountOk(h, q, owners, q[n].value);
      OccursLast(q, q[n].value);
    }
    var (h', more) := Unref(h, q[n]).value;
    forall a | 0 <= a < |h| ensures CountOk(h', q[..n] + more, owners, a) {
      assert CountOk(h, q, owners, a);
      OccursLast(q, a);
      OccursAppend(q[..n], more, a);
      if q[n].Some? { RefsUpdate(h, q[n].value, h'[q[n].value], a); }
    }
  }

  lemma {:induction false} DrainBalanced(h: Heap, q: seq<Ptr>, owners: seq<nat>)
    requires Balanced(h, q, owners)
    ensures Drain(h, q).Some? && Balanced(Drain(h, q).value, [], owners)
    decreases Weight(h) + |q|
  {
    if q != [] {
      UnrefBalanced(h, q, owners);
      var (h', more) := Unref(h, q[|q| - 1]).value;
      DrainBalanced(h', q[..|q| - 1] + more, owners);
    }
  }

  // ---- each block once ----

  /** A block keeps its fields until it is freed, and stays freed. */
  ghost predicate Shrinks(h: Heap, h': Heap) {
    && |h'| == |h|
    && (forall i :: 0 <= i < |h| && h'[i].Block? ==> h[i].Block? && h'[i].fields == h[i].fields)
  }

  lemma {:induction false} DrainShrinks(h: Heap, q: seq<Ptr>)
    requires Drain(h, q).Some?
    ensures Shrinks(h, Drain(h, q).value)
    decreases Weight(h) + |q|
  {
    if q != [] {
      var (h', more) := Unref(h, q[|q| - 1]).value;
      DrainShrinks(h', q[..|q| - 1] + more);
    }
  }

  /** The blocks `delete`d by the drain loop, in order. */
  function Frees(h: Heap, q: seq<Ptr>): seq<nat>
    decreases Weight(h) + |q|
  {
    if q == [] then [] else
      var p, r := q[|q| - 1], Unref(h, q[|q| - 1]);
      if r.None? then [] else
        (if p.Some? && h[p.value].count == 1 then [p.value] else []) + Frees(r.value.0, q[..|q| - 1] + r.value.1)
  }

  /** One round of the drain loop. */
  lemma DrainRound(h: Heap, q: seq<Ptr>)
    requires q != [] && Drain(h, q).Some?
    ensures Unref(h, q[|q| - 1]).Some?
    ensures var p, (h', more) := q[|q| - 1], Unref(h, q[|q| - 1]).value;
      && Drain(h', q[..|q| - 1] + more) == Drain(h, q)
      && Weight(h') + |q[..|q| - 1] + more| < Weight(h) + |q|
      && forall log: seq<nat> ::
           (log + (if p.Some? && h[p.value].count == 1 then [p.value] else [])) + Frees(h', q[..|q| - 1] + more) == log + Frees(h, q)
  {
  }

  /** Each block that goes is deleted once; no other is deleted at all. */
  lemma {:induction false} FreesOnce(h: Heap, q: seq<Ptr>, a: nat)
    requires Drain(h, q).Some? && a < |h|
    ensures multiset(Frees(h, q))[a] == if h[a].Block? && Drain(h, q).value[a].Freed? then 1 else 0
    decreases Weight(h) + |q|
  {
    if q != [] {
      var (h', more) := Unref(h, q[|q| - 1]).value;
      FreesOnce(h', q[..|q| - 1] + more, a);
      DrainShrinks(h', q[..|q| - 1] + more);
      FreesRound(h, q, a);
      assert Drain(h, q) == Drain(h', q[..|q| - 1] + more);
    }
  }

  lemma FreesRound(h: Heap, q: seq<Ptr>, a: nat)
    requires q != [] && Unref(h, q[|q| - 1]).Some? && a < |h|
    ensures var (h', more) := Unref(h, q[|q| - 1]).value;
      && multiset(Frees(h, q))[a] == multiset(Frees(h', q[..|q| - 1] + more))[a] + (if h[a].Block? && h'[a].Freed? then 1 else 0)
  {
    var p := q[|q| - 1];
    var (h', more) := Unref(h, p).value;
    var first := if p.Some? && h[p.value].count == 1 then [p.value] else [];
    var rest := Frees(h', q[..|q| - 1] + more);
    assert multiset(first + rest) == multiset(first) + multiset(rest);
  }

  // ---- exactly the garbage ----

  ghost predicate Acyclic(h: Heap, rank: seq<nat>) {
    |rank| == |h| &&
    forall i, k :: 0 <= i < |h| && h[i].Block? && 0 <= k < |h[i].fields| && h[i].fields[k].Some? && h[i].fields[k].value < |h| ==>
      rank[h[i].fields[k].value] < rank[i]
  }

  /** A chain of pointers from a block with an owner elsewhere. */
  ghost predicate IsPath(h: Heap, owners: seq<nat>, path: seq<nat>)
    requires |owners| == |h|
  {
    && path != [] && (forall i :: 0 <= i < |path| ==> path[i] < |h| && h[path[i]].Block?)
    && owners[path[0]] > 0
    && (forall i {:trigger path[i]} :: 0 < i < |path| ==> Some(path[i]) in h[path[i - 1]].fields)
  }

  ghost predicate Reachable(h: Heap, owners: seq<nat>, a: nat)
    requires |owners| == |h|
  {
    exists path :: IsPath(h, owners, path) && path[|path| - 1] == a
  }

  /** With all queues empty, a block is there because of an owner or because of a block above it. */
  lemma Holder(h: Heap, owners: seq<nat>, rank: seq<nat>, a: nat) returns (c: nat)
    requires Balanced(h, [], owners) && Acyclic(h, rank) && a < |h| && h[a].Block? && owners[a] == 0
    ensures c < |h| && h[c].Block? && Some(a) in h[c].fields && rank[a] < rank[c]
  {
    assert CountOk(h, [], owners, a);
    c := SumWitness(Column(h, a));
    var k :| 0 <= k < |h[c].fields| && h[c].fields[k] == Some(a);
  }

  lemma {:induction false} Climb(h: Heap, owners: seq<nat>, rank: seq<nat>, a: nat) returns (path: seq<nat>)
    requires Balanced(h, [], owners) && Acyclic(h, rank) && a < |h| && h[a].Block?
    ensures IsPath(h, owners, path) && path[|path| - 1] == a
    decreases Sum(rank) - rank[a]
  {
    if owners[a] > 0 {
      path := [a];
    } else {
      var c := Holder(h, owners, rank, a);
      SumAtLeast(rank, c);
      SumAtLeast(rank, a);
      path := Climb(h, owners, rank, c);
      path := path + [a];
    }
  }

  /** Everything along a path survives. */
  lemma {:induction false} PathSurvives(h: Heap, h': Heap, owners: seq<nat>, path: seq<nat>, i: nat)
    requires |owners| == |h| && Shrinks(h, h') && Balanced(h', [], owners) && IsPath(h, owners, path) && i < |path|
    ensures h'[path[i]].Block?
  {
    var a := path[i];
    assert CountOk(h', [], owners, a);
    if i > 0 {
      var c := path[i - 1];
      PathSurvives(h, h', owners, path, i - 1);
      assert Some(a) in h'[c].fields;
      SumAtLeast(Column(h', a), c);
    }
  }

  /**
   * On an acyclic heap with exact counts the cascade cannot fail, and a block
   * is still there afterwards exactly when it was reachable from an owner.
   */
  lemma SurvivesIffReachable(h: Heap, q: seq<Ptr>, owners: seq<nat>, rank: seq<nat>, a: nat)
    requires Balanced(h, q, owners) && Acyclic(h, rank) && a < |h|
    ensures Drain(h, q).Some?
    ensures Drain(h, q).value[a].Block? <==> Reachable(h, owners, a)
  {
    DrainBalanced(h, q, owners);
    DrainShrinks(h, q);
    var h' := Drain(h, q).value;
    if h'[a].Block? {
      StaysAcyclic(h, h', rank);
      var path := Climb(h', owners, rank, a);
      assert IsPath(h, owners, path);
    }
    if Reachable(h, owners, a) {
      var path :| IsPath(h, owners, path) && path[|path| - 1] == a;
      PathSurvives(h, h', owners, path, |path| - 1);
    }
  }

  lemma StaysAcyclic(h: Heap, h': Heap, rank: seq<nat>)
    requires Acyclic(h, rank) && Shrinks(h, h')
    ensures Acyclic(h', rank)
  {
  }
}
