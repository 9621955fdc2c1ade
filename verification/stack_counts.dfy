/**
 * What a thread's references amount to: how many units it contributes to each
 * block's count, kind by kind, and how the totals over all threads change when
 * one thread moves.
 */
module StackCounts {
  import opened Sums
  import opened PackedWord
  import opened StackMachine

  datatype Kind =
    | Owner       // a SharedPtr held in a local variable
    | Share       // an access unit that may still be returned to the packed word
    | Forfeit     // an access unit already committed to a global release
    | Retiring    // the uninstalled reference still to be dropped
    | Speculative // units a drain attempt has added and may take back
    | Claim       // all of the above
    | Reclaimer   // about to delete the block
    | Access      // access units on whatever block

  function Is(a: nat, b: nat): nat { if a == b then 1 else 0 }

  function FrameUnits(kind: Kind, f: Frame, b: nat): nat {
    match f
    case PushFrame(node) => if kind.Owner? || kind.Claim? then Is(node, b) else 0
    case PopFrame(top, next) =>
      if kind.Owner? then Is(next, b)
      else if kind.Share? then Is(Ptr(top), b)
      else if kind.Claim? then Is(next, b) + Is(Ptr(top), b)
      else if kind.Access? then 1
      else 0
  }

  /** One access unit on `h`, as seen by `kind`. */
  function Hold(kind: Kind, h: nat, b: nat): nat {
    if kind.Share? || kind.Claim? then Is(Ptr(h), b) else if kind.Access? then 1 else 0
  }

  /** One committed access unit. */
  function Committed(kind: Kind, h: nat, b: nat): nat {
    if kind.Forfeit? || kind.Claim? then Is(Ptr(h), b) else if kind.Access? then 1 else 0
  }

  function Owned(kind: Kind, a: nat, b: nat): nat {
    if kind.Owner? || kind.Claim? then Is(a, b) else 0
  }

  function Added(kind: Kind, h: nat, d: nat, b: nat): nat {
    if kind.Speculative? || kind.Claim? then (if Ptr(h) == b then d else 0) else 0
  }

  function ContUnits(kind: Kind, k: Cont, b: nat): nat {
    match k
    case AfterPrev(node) => Owned(kind, node, b)
    case Lost(f, _) => FrameUnits(kind, f, b)
    case Won(top, _) => Hold(kind, top, b)
    case Redo(top) => Hold(kind, top, b)
    case Look(top, _) => Hold(kind, top, b)
    case Finish(_) => 0
  }

  function Units(kind: Kind, pc: Pc, b: nat): nat {
    match pc
    case Idle => 0
    case GetAdd(node) => Owned(kind, node, b)
    case GetRef(node, copy) => Owned(kind, node, b) + Hold(kind, copy, b)
    case GetReturn(node, copy, _) => Owned(kind, node, b) + Owned(kind, Ptr(copy), b) + Hold(kind, copy, b)
    case GetForfeit(node, copy) => Owned(kind, node, b) + Owned(kind, Ptr(copy), b) + Committed(kind, copy, b)
    case SetPrev(node, block) => Owned(kind, node, b) + Owned(kind, block, b)
    case CasEnter(f) => FrameUnits(kind, f, b)
    case CasAcquire(f, _) => FrameUnits(kind, f, b)
    case CasRead(f, _, h, _) => FrameUnits(kind, f, b) + Hold(kind, h, b)
    case DrainAdd(f, _, h, _) => FrameUnits(kind, f, b) + Hold(kind, h, b)
    case DrainCas(f, _, h, e) => FrameUnits(kind, f, b) + Hold(kind, h, b) + Added(kind, h, Cnt(e), b)
    case DrainUndo(f, _, h, d, _, _) => FrameUnits(kind, f, b) + Hold(kind, h, b) + Added(kind, h, d, b)
    case Swap(f, _, h, _) => FrameUnits(kind, f, b) + Hold(kind, h, b)
    case Retire(h, k) =>
      Hold(kind, h, b) + (if kind.Retiring? || kind.Claim? then Is(Ptr(h), b) else 0) + ContUnits(kind, k, b)
    case Release(h, _, k) => Hold(kind, h, b) + ContUnits(kind, k, b)
    case ReleaseGlobal(h, k) => Committed(kind, h, b) + ContUnits(kind, k, b)
    case Unref(a, k) => Owned(kind, a, b) + ContUnits(kind, k, b)
    case Free(a, k) => (if kind.Reclaimer? then Is(a, b) else 0) + ContUnits(kind, k, b)
    case PopAcquire => 0
    case PopReacquire(top) => Hold(kind, top, b)
    case PopRead(top, _) => Hold(kind, top, b)
    case PopCopy(top) => Hold(kind, top, b)
    case PopTake(top, _) => Hold(kind, top, b)
    case Fault(_) => 0
  }

  function Column(kind: Kind, threads: seq<Thread>, b: nat): seq<nat> {
    seq(|threads|, i requires 0 <= i < |threads| => Units(kind, threads[i].pc, b))
  }

  /** All units of one kind that the threads together hold on block `b`. */
  function Total(kind: Kind, threads: seq<Thread>, b: nat): nat { Sum(Column(kind, threads, b)) }

  /** Which live nodes refer to `b` through their prev_. */
  function PrevColumn(heap: seq<Block>, b: nat): seq<nat> {
    seq(|heap|, i requires 0 <= i < |heap| => if heap[i].live then Is(heap[i].prev, b) else 0)
  }

  function PrevRefs(heap: seq<Block>, b: nat): nat { Sum(PrevColumn(heap, b)) }

  /** Every reference to `b` there is: the installation, the threads, the nodes. */
  function Refs(s: State, b: nat): nat {
    Is(Ptr(s.word), b) + Total(Claim, s.threads, b) + PrevRefs(s.heap, b)
  }

  /** The part of the references on `b` that the packed word counts. */
  function Local(s: State, b: nat): nat { if Ptr(s.word) == b then Cnt(s.word) else 0 }

  lemma TotalMove(kind: Kind, threads: seq<Thread>, t: nat, th: Thread, b: nat)
    requires t < |threads|
    ensures Total(kind, threads[t := th], b) + Units(kind, threads[t].pc, b)
         == Total(kind, threads, b) + Units(kind, th.pc, b)
  {
    SumUpdate(Column(kind, threads, b), t, Units(kind, th.pc, b));
    assert Column(kind, threads[t := th], b) == Column(kind, threads, b)[t := Units(kind, th.pc, b)];
  }

  lemma TotalAtLeast(kind: Kind, threads: seq<Thread>, t: nat, b: nat)
    requires t < |threads|
    ensures Units(kind, threads[t].pc, b) <= Total(kind, threads, b)
  {
    SumAtLeast(Column(kind, threads, b), t);
  }

  /** No kind of access exceeds the access units overall. */
  lemma ShareBelowAccess(threads: seq<Thread>, b: nat)
    ensures Total(Share, threads, b) <= Total(Access, threads, b)
  {
    forall i | 0 <= i < |threads| ensures Units(Share, threads[i].pc, b) <= Units(Access, threads[i].pc, b) {
      ShareIsAccess(threads[i].pc, b);
    }
    SumMonotone(Column(Share, threads, b), Column(Access, threads, b));
  }

  lemma ShareIsAccess(pc: Pc, b: nat)
    ensures Units(Share, pc, b) <= Units(Access, pc, b)
  {
  }

  lemma AccessAnywhere(threads: seq<Thread>, a: nat, b: nat)
    ensures Total(Access, threads, a) == Total(Access, threads, b)
  {
    assert Column(Access, threads, a) == Column(Access, threads, b);
  }

  lemma FrameSplits(f: Frame, b: nat)
    ensures FrameUnits(Claim, f, b)
         == FrameUnits(Owner, f, b) + FrameUnits(Share, f, b) + FrameUnits(Forfeit, f, b)
          + FrameUnits(Retiring, f, b) + FrameUnits(Speculative, f, b)
  {
  }

  lemma ContSplits(k: Cont, b: nat)
    ensures ContUnits(Claim, k, b)
         == ContUnits(Owner, k, b) + ContUnits(Share, k, b) + ContUnits(Forfeit, k, b)
          + ContUnits(Retiring, k, b) + ContUnits(Speculative, k, b)
  {
    if k.Lost? { FrameSplits(k.frame, b); }
  }

  predicate Releasing(pc: Pc) { pc.Retire? || pc.Release? || pc.ReleaseGlobal? || pc.Unref? || pc.Free? }

  predicate Exchanging(pc: Pc) {
    pc.CasEnter? || pc.CasAcquire? || pc.CasRead? || pc.DrainAdd? || pc.DrainCas? || pc.DrainUndo? || pc.Swap?
  }

  predicate Getting(pc: Pc) { pc.GetAdd? || pc.GetRef? || pc.GetReturn? || pc.GetForfeit? || pc.SetPrev? }

  lemma ReleaserSplits(pc: Pc, b: nat)
    requires Releasing(pc)
    ensures Units(Claim, pc, b)
         == Units(Owner, pc, b) + Units(Share, pc, b) + Units(Forfeit, pc, b)
          + Units(Retiring, pc, b) + Units(Speculative, pc, b)
  {
    ContSplits(pc.rest, b);
    if pc.Retire? || pc.Release? || pc.ReleaseGlobal? { HolderSplits(pc, b); }
  }

  lemma HolderSplits(pc: Pc, b: nat)
    requires pc.Retire? || pc.Release? || pc.ReleaseGlobal?
    requires ContUnits(Claim, pc.rest, b)
          == ContUnits(Owner, pc.rest, b) + ContUnits(Share, pc.rest, b) + ContUnits(Forfeit, pc.rest, b)
           + ContUnits(Retiring, pc.rest, b) + ContUnits(Speculative, pc.rest, b)
    ensures Units(Claim, pc, b)
         == Units(Owner, pc, b) + Units(Share, pc, b) + Units(Forfeit, pc, b)
          + Units(Retiring, pc, b) + Units(Speculative, pc, b)
  {
  }

  lemma ExchangerSplits(pc: Pc, b: nat)
    requires Exchanging(pc)
    ensures Units(Claim, pc, b)
         == Units(Owner, pc, b) + Units(Share, pc, b) + Units(Forfeit, pc, b)
          + Units(Retiring, pc, b) + Units(Speculative, pc, b)
  {
    FrameSplits(pc.frame, b);
  }

  lemma UnitsSplits(pc: Pc, b: nat)
    ensures Units(Claim, pc, b)
         == Units(Owner, pc, b) + Units(Share, pc, b) + Units(Forfeit, pc, b)
          + Units(Retiring, pc, b) + Units(Speculative, pc, b)
  {
    if Releasing(pc) {
      ReleaserSplits(pc, b);
    } else if Exchanging(pc) {
      ExchangerSplits(pc, b);
    }
  }

  /** A claim is exactly one of the five kinds. */
  lemma ClaimSplits(threads: seq<Thread>, b: nat)
    ensures Total(Claim, threads, b)
         == Total(Owner, threads, b) + Total(Share, threads, b) + Total(Forfeit, threads, b)
          + Total(Retiring, threads, b) + Total(Speculative, threads, b)
  {
    var o, h, f := Column(Owner, threads, b), Column(Share, threads, b), Column(Forfeit, threads, b);
    var r, p := Column(Retiring, threads, b), Column(Speculative, threads, b);
    var oh := seq(|threads|, i requires 0 <= i < |threads| => o[i] + h[i]);
    var ohf := seq(|threads|, i requires 0 <= i < |threads| => oh[i] + f[i]);
    var ohfr := seq(|threads|, i requires 0 <= i < |threads| => ohf[i] + r[i]);
    forall i | 0 <= i < |threads|
      ensures Column(Claim, threads, b)[i] == ohfr[i] + p[i]
    {
      UnitsSplits(threads[i].pc, b);
    }
    SumAdd(o, h, oh);
    SumAdd(oh, f, ohf);
    SumAdd(ohf, r, ohfr);
    SumAdd(ohfr, p, Column(Claim, threads, b));
  }

  lemma PrevPut(heap: seq<Block>, x: nat, block: Block, b: nat)
    requires x <= |heap|
    ensures PrevRefs(Put(heap, x, block), b) + (if x < |heap| && heap[x].live then Is(heap[x].prev, b) else 0)
         == PrevRefs(heap, b) + (if block.live then Is(block.prev, b) else 0)
  {
    var v := if block.live then Is(block.prev, b) else 0;
    if x < |heap| {
      SumUpdate(PrevColumn(heap, b), x, v);
      assert PrevColumn(heap[x := block], b) == PrevColumn(heap, b)[x := v];
    } else {
      SumAppend(PrevColumn(heap, b), v);
      assert PrevColumn(heap + [block], b) == PrevColumn(heap, b) + [v];
    }
  }

  /** A live node's prev_ is one of the references to the block it names. */
  lemma PrevAtLeast(heap: seq<Block>, x: nat)
    requires x < |heap| && heap[x].live
    ensures PrevRefs(heap, heap[x].prev) >= 1
  {
    SumAtLeast(PrevColumn(heap, heap[x].prev), x);
  }
}
