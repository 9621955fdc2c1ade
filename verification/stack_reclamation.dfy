/** Reference counting: conservation, safe dereferences, and complete reclamation. */
module StackReclamation {
  import opened Sums
  import opened Pigeonhole
  import opened PackedWord
  import opened StackMachine
  import opened StackCounts
  import opened StackInvariant
  import opened StackSteps
  import opened StackTheorems

  /** The two counters of a live block are exactly the references to it, kind by kind. */
  lemma Conservation(n: nat, s: State, b: nat)
    requires Reachable(n, s) && 0 < b < |s.heap| && s.heap[b].live
    ensures s.heap[b].refCount + Local(s, b)
         == Total(Owner, s.threads, b) + PrevRefs(s.heap, b) + Is(Ptr(s.word), b) + Total(Retiring, s.threads, b)
          + Total(Share, s.threads, b) + Total(Forfeit, s.threads, b) + Total(Speculative, s.threads, b)
  {
    ReachableOk(n, s);
    assert BlockOk(s, b);
    ClaimSplits(s.threads, b);
  }

  /** The blocks whose memory the thread's next step reads or writes. */
  function Touches(s: State, t: nat): set<nat>
    requires t < |s.threads|
  {
    match s.threads[t].pc
    case GetRef(_, copy) => {Ptr(copy)}
    case GetForfeit(_, copy) => {Ptr(copy)}
    case SetPrev(node, _) => {node}
    case CasEnter(PushFrame(node)) => {node, At(s.heap, node).prev}
    case CasEnter(PopFrame(top, next)) => {Ptr(top), next}
    case CasAcquire(_, _) => {Ptr(s.word)}
    case CasRead(_, _, h, _) => {Ptr(h)}
    case DrainAdd(_, _, h, _) => {Ptr(h)}
    case DrainUndo(_, _, h, _, _, _) => {Ptr(h)}
    case Retire(h, _) => {Ptr(h)}
    case ReleaseGlobal(h, _) => {Ptr(h)}
    case Unref(b, _) => {b}
    case Free(b, _) => {b}
    case PopAcquire => {Ptr(s.word)}
    case PopReacquire(_) => {Ptr(s.word)}
    case PopRead(top, _) => {Ptr(top)}
    case PopCopy(top) => {Ptr(top), At(s.heap, Ptr(top)).prev}
    case PopTake(top, _) => {Ptr(top)}
    case _ => {}
  }

  /** No step touches a block that has been freed. */
  lemma TouchesLive(n: nat, s: State, t: nat, b: nat)
    requires Reachable(n, s) && t < |s.threads| && b in Touches(s, t)
    ensures 0 < b < |s.heap| && s.heap[b].live
  {
    ReachableOk(n, s);
    var pc := s.threads[t].pc;
    Relies(s, t);
    if pc.CasAcquire? || pc.PopAcquire? || pc.PopReacquire? {
      assert s.heap[s.chain[0]].live;
    } else if pc.Free? {
      assert BlockOk(s, b);
      TotalAtLeast(Reclaimer, s.threads, t, b);
    } else if pc.CasEnter? && pc.frame.PushFrame? && b != pc.frame.node {
      ClaimedIsLive(s, t, pc.frame.node);
      PrevIsLive(s, pc.frame.node);
    } else if pc.PopCopy? && b != Ptr(pc.top) {
      ClaimedIsLive(s, t, Ptr(pc.top));
      assert NodeOk(s.heap, Ptr(pc.top));
      PrevIsLive(s, Ptr(pc.top));
    } else {
      TouchIsClaim(s, t, b);
      ClaimedIsLive(s, t, b);
    }
  }

  /** Apart from these steps, a thread only touches blocks it has a claim on. */
  lemma TouchIsClaim(s: State, t: nat, b: nat)
    requires t < |s.threads| && b in Touches(s, t) && ThreadOk(s, t, s.threads[t].pc) == true
    requires var pc := s.threads[t].pc;
      && !pc.CasAcquire? && !pc.PopAcquire? && !pc.PopReacquire? && !pc.Free?
      && !(pc.CasEnter? && pc.frame.PushFrame? && b != pc.frame.node) && !(pc.PopCopy? && b != Ptr(pc.top))
    ensures 0 < b < |s.heap| && Units(Claim, s.threads[t].pc, b) >= 1
  {
  }

  /** A block dies only in its one deletion step, when nothing refers to it and nobody else is deleting it. */
  lemma FreedOnce(n: nat, s: State, t: nat, act: Action, b: nat)
    requires Reachable(n, s) && Enabled(s, t, act) && Room(s, t)
    requires 0 < b < |s.heap| && s.heap[b].live && !At(Next(s, t, act).heap, b).live
    ensures s.threads[t].pc.Free? && s.threads[t].pc.block == b
    ensures Refs(s, b) == 0 && Total(Reclaimer, s.threads, b) == 1 && b !in s.chain
    ensures forall j :: 0 <= j < |s.threads| && s.threads[j].pc.Free? && s.threads[j].pc.block == b ==> j == t
  {
    ReachableOk(n, s);
    OnlyFreeKills(s, t, act, b);
    assert BlockOk(s, b);
    TotalAtLeast(Reclaimer, s.threads, t, b);
    ChainReferenced(s);
    forall j | 0 <= j < |s.threads| && s.threads[j].pc.Free? && s.threads[j].pc.block == b
      ensures j == t
    {
      if j != t { SumAtLeastPair(Column(Reclaimer, s.threads, b), j, t); }
    }
  }

  lemma OnlyFreeKills(s: State, t: nat, act: Action, b: nat)
    requires Enabled(s, t, act) && 0 < b < |s.heap| && s.heap[b].live && !At(Next(s, t, act).heap, b).live
    ensures s.threads[t].pc.Free? && s.threads[t].pc.block == b
  {
    if act.Go? {
      ReleaseKillsNone(s, t, act.spurious, b);
      ExchangeKillsNone(s, t, act.spurious, b);
      PopKillsNone(s, t, b);
    }
  }

  lemma ReleaseKillsNone(s: State, t: nat, spurious: bool, b: nat)
    requires t < |s.threads| && 0 < b < |s.heap| && s.heap[b].live
    ensures At(GetStep(s, t, spurious).heap, b).live
    ensures At(ReleaseStep(s, t, spurious).heap, b).live
    ensures !(s.threads[t].pc.Free? && s.threads[t].pc.block == b) ==> At(UnrefStep(s, t).heap, b).live
  {
  }

  lemma ExchangeKillsNone(s: State, t: nat, spurious: bool, b: nat)
    requires t < |s.threads| && 0 < b < |s.heap| && s.heap[b].live
    ensures At(CompareExchangeStep(s, t, spurious).heap, b).live
  {
  }

  lemma PopKillsNone(s: State, t: nat, b: nat)
    requires t < |s.threads| && 0 < b < |s.heap| && s.heap[b].live
    ensures At(PopStep(s, t).heap, b).live
  {
  }

  /** A block that loses its last reference has found a thread that will delete it. */
  lemma UnreferencedIsBeingFreed(n: nat, s: State, b: nat) returns (t: nat)
    requires Reachable(n, s) && 0 < b < |s.heap| && s.heap[b].live && Refs(s, b) == 0
    ensures t < |s.threads| && s.threads[t].pc.Free? && s.threads[t].pc.block == b
  {
    ReachableOk(n, s);
    assert BlockOk(s, b);
    t := SumWitness(Column(Reclaimer, s.threads, b));
    var pc := s.threads[t].pc;
    NoReclaimUnlessFree(pc, b);
  }

  lemma NoReclaimUnlessFree(pc: Pc, b: nat)
    requires Units(Reclaimer, pc, b) > 0
    ensures pc.Free? && pc.block == b
  {
    if Releasing(pc) && pc.rest.Lost? {
    } else if Exchanging(pc) {
    }
  }

  predicate Quiescent(s: State) { forall t :: 0 <= t < |s.threads| ==> s.threads[t].pc.Idle? }

  /** The block n steps along prev_ from block b, 0 beyond the end. */
  function Below(heap: seq<Block>, b: nat, n: nat): nat
    decreases n
  {
    if n == 0 || b == 0 then b else Below(heap, At(heap, b).prev, n - 1)
  }

  /** No leaks: with no calls in flight a block is live if and only if prev_ leads to it from the installed one. */
  lemma NothingLeaks(n: nat, s: State, b: nat)
    requires Reachable(n, s) && Quiescent(s) && 0 < b < |s.heap|
    ensures s.heap[b].live <==> exists k: nat :: Below(s.heap, Ptr(s.word), k) == b
  {
    ReachableOk(n, s);
    LiveIffOnChain(s, b);
    if b in s.chain {
      var i :| 0 <= i < |s.chain| && s.chain[i] == b;
      ChainIsBelow(s, 0, i);
    }
    if k: nat :| Below(s.heap, Ptr(s.word), k) == b {
      BelowIsOnChain(s, 0, k);
    }
  }

  lemma {:induction false} ChainIsBelow(s: State, i: nat, j: nat)
    requires Inv(s) && i <= j < |s.chain|
    ensures Below(s.heap, s.chain[i], j - i) == s.chain[j]
    decreases j - i
  {
    if i < j { ChainIsBelow(s, i + 1, j); }
  }

  lemma {:induction false} BelowIsOnChain(s: State, i: nat, k: nat)
    requires Inv(s) && i < |s.chain|
    ensures var b := Below(s.heap, s.chain[i], k); b == 0 || b in s.chain
    decreases k
  {
    if k > 0 {
      if i < |s.chain| - 1 {
        BelowIsOnChain(s, i + 1, k - 1);
      } else {
        assert NodeOk(s.heap, s.chain[i]);
      }
    }
  }

  lemma LiveIffOnChain(s: State, b: nat)
    requires Inv(s) && Quiescent(s) && 0 < b < |s.heap|
    ensures s.heap[b].live <==> b in s.chain
  {
    if s.heap[b].live && b !in s.chain {
      var above := OrphansClimb(s, b, |s.heap|);
      assert false;
    }
  }

  /** Off the chain, a referenced block is named by a live node one deeper, again off the chain. */
  lemma OrphanHasParent(s: State, b: nat) returns (c: nat)
    requires Inv(s) && Quiescent(s) && 0 < b < |s.heap| && s.heap[b].live && b !in s.chain
    ensures 0 < c < |s.heap| && s.heap[c].live && c !in s.chain && s.heap[c].prev == b
  {
    assert BlockOk(s, b);
    SumZero(Column(Claim, s.threads, b));
    SumZero(Column(Reclaimer, s.threads, b));
    assert Ptr(s.word) == s.chain[0];
    c := SumWitness(PrevColumn(s.heap, b));
    if c in s.chain { ChainIsClosed(s, c); }
  }

  /** What a node on the chain refers to is on the chain. */
  lemma ChainIsClosed(s: State, c: nat)
    requires Inv(s) && c in s.chain && s.heap[c].prev != 0
    ensures s.heap[c].prev in s.chain
  {
    var i :| 0 <= i < |s.chain| && s.chain[i] == c;
    assert NodeOk(s.heap, c);
    assert i < |s.chain| - 1;
    assert s.chain[i + 1] in s.chain;
  }

  /** Climbing from an orphan passes ever deeper orphans: more of them than there are blocks. */
  lemma {:induction false} OrphansClimb(s: State, b: nat, k: nat) returns (path: seq<nat>)
    requires Inv(s) && Quiescent(s) && 0 < b < |s.heap| && s.heap[b].live && b !in s.chain
    ensures |path| == k + 1 && path[0] == b
    ensures forall i :: 0 <= i < |path| ==> 0 < path[i] < |s.heap| && s.heap[path[i]].live && path[i] !in s.chain
    ensures forall i :: 0 <= i < k ==> s.heap[path[i + 1]].prev == path[i]
    ensures k < |s.heap|
    decreases k
  {
    if k == 0 {
      path := [b];
    } else {
      path := OrphansClimb(s, b, k - 1);
      var c := OrphanHasParent(s, path[k - 1]);
      path := path + [c];
      PathIsShort(s, path);
    }
  }

  lemma PathIsShort(s: State, path: seq<nat>)
    requires Inv(s) && Quiescent(s) && |path| > 0
    requires forall i :: 0 <= i < |path| ==> 0 < path[i] < |s.heap| && s.heap[path[i]].live && path[i] !in s.chain
    requires forall i :: 0 <= i < |path| - 1 ==> s.heap[path[i + 1]].prev == path[i]
    ensures |path| <= |s.heap|
  {
    forall i | 0 <= i < |path| ensures !s.heap[path[i]].stage.Private? {
      var c := OrphanHasParent(s, path[i]);
      assert NodeOk(s.heap, c);
    }
    forall i, j | 0 <= i <= j < |path| ensures s.heap[path[j]].depth == s.heap[path[i]].depth + (j - i) {
      DepthGrows(s, path, i, j);
    }
    DistinctIsShort(path, |s.heap|);
  }

  lemma {:induction false} DepthGrows(s: State, path: seq<nat>, i: nat, j: nat)
    requires Inv(s) && i <= j < |path|
    requires forall k :: 0 <= k < |path| ==> 0 < path[k] < |s.heap| && s.heap[path[k]].live && !s.heap[path[k]].stage.Private?
    requires forall k :: 0 <= k < |path| - 1 ==> s.heap[path[k + 1]].prev == path[k]
    ensures s.heap[path[j]].depth == s.heap[path[i]].depth + (j - i)
  {
    if i < j {
      DepthGrows(s, path, i, j - 1);
      assert s.heap[path[(j - 1) + 1]].prev == path[j - 1];
      assert NodeOk(s.heap, path[j]);
    }
  }
}
