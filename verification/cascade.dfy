/**
 * What destroying a SharedPtr does to the heap of control blocks.
 *
 * A block's data may hold any number of SharedPtrs; when the last reference to
 * the block goes they are destroyed in turn. The shipped destructor queues
 * them; the textbook one would recurse.
 */
module Cascade {
  import opened Options
  import opened Sums

  /** The control block pointer of a SharedPtr: null or an address. */
  type Ptr = Option<nat>

  datatype Block = Freed | Block(count: nat, fields: seq<Ptr>)

  type Heap = seq<Block>

  /** Work still in a block: releasing it, and its fields if it goes. */
  function BlockWeight(b: Block): nat {
    if b.Freed? || b.count == 0 then 0 else 1 + |b.fields|
  }

  function Weights(h: Heap): (ws: seq<nat>)
    ensures |ws| == |h| && forall i :: 0 <= i < |h| ==> ws[i] == BlockWeight(h[i])
  {
    seq(|h|, i requires 0 <= i < |h| => BlockWeight(h[i]))
  }

  function Weight(h: Heap): nat { Sum(Weights(h)) }

  lemma WeightUpdate(h: Heap, a: nat, b: Block)
    requires a < |h|
    ensures Weight(h[a := b]) + BlockWeight(h[a]) == Weight(h) + BlockWeight(b)
  {
    assert Weights(h[a := b]) == Weights(h)[a := BlockWeight(b)];
    SumUpdate(Weights(h), a, BlockWeight(b));
  }

  /** A reference to release at a: it must be a block whose count is not 0. */
  predicate Referenced(h: Heap, a: nat) { a < |h| && h[a].Block? && h[a].count > 0 }

  // ---- the shipped destructor: a work list ----

  /** `unref`: the heap afterwards and the pointers whose destructors run; None is a failed assertion or a dangling pointer. */
  function Unref(h: Heap, p: Ptr): (r: Option<(Heap, seq<Ptr>)>)
    ensures r.Some? ==> |r.value.0| == |h| && Weight(r.value.0) + |r.value.1| <= Weight(h)
  {
    if p.None? then Some((h, []))
    else if !Referenced(h, p.value) then None
    else
      var a, b := p.value, h[p.value];
      if b.count == 1 then
        WeightUpdate(h, a, Freed);
        Some((h[a := Freed], b.fields))
      else
        WeightUpdate(h, a, b.(count := b.count - 1));
        Some((h[a := b.(count := b.count - 1)], []))
  }

  /** The drain loop of `~SharedPtr`: release the back of the queue until it is empty. */
  function Drain(h: Heap, q: seq<Ptr>): (r: Option<Heap>)
    ensures r.Some? ==> |r.value| == |h|
    decreases Weight(h) + |q|
  {
    if q == [] then Some(h) else
      var r := Unref(h, q[|q| - 1]);
      if r.None? then None else Drain(r.value.0, q[..|q| - 1] + r.value.1)
  }

  /** Draining after one reference has been released. */
  function Continue(r: Option<(Heap, seq<Ptr>)>, rest: seq<Ptr>): Option<Heap> {
    if r.None? then None else Drain(r.value.0, rest + r.value.1)
  }

  // ---- the textbook destructor: recursion ----

  predicate Dead(b: Block) { b.Freed? || b.count == 0 }

  /** A block being destroyed: its count is 0, its memory not yet freed. */
  predicate Dying(b: Block) { b.Block? && b.count == 0 }

  /** What a release leaves alone: dead blocks stay as they are, and no other is left half destroyed. */
  ghost predicate Tidy(h: Heap, h': Heap) {
    && |h'| == |h|
    && (forall i :: 0 <= i < |h| ==> (Dead(h[i]) ==> h'[i] == h[i]) && (Dying(h'[i]) ==> Dying(h[i])))
  }

  /** Release p; the last reference releases the fields, recursively, and then frees the block. */
  function Release(h: Heap, p: Ptr): (r: Option<Heap>)
    ensures r.Some? ==> Weight(r.value) <= Weight(h) && Tidy(h, r.value)
    decreases Weight(h), 0
  {
    if p.None? then Some(h)
    else if !Referenced(h, p.value) then None
    else
      var a, b := p.value, h[p.value];
      WeightUpdate(h, a, b.(count := b.count - 1));
      var h0 := h[a := b.(count := b.count - 1)];
      if b.count > 1 then Some(h0) else
      var r := ReleaseAll(h0, b.fields);
      if r.None? then None else
      WeightUpdate(r.value, a, Freed);
      Some(r.value[a := Freed])
  }

  function ReleaseAll(h: Heap, ps: seq<Ptr>): (r: Option<Heap>)
    ensures r.Some? ==> Weight(r.value) <= Weight(h) && Tidy(h, r.value)
    decreases Weight(h), |ps| + 1
  {
    if ps == [] then Some(h) else
      var r := Release(h, ps[0]);
      if r.None? then None else ReleaseAll(r.value, ps[1..])
  }
}
