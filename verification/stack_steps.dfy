/**
 * Proof rules for steps that only move counts between threads, blocks and the packed word.
 *
 * Here and in the other proof modules, `ThreadOk(...) == true` in a requires
 * clause means no more than `ThreadOk(...)`; written so, callers prove the
 * predicate as a whole instead of case by case.
 */
module StackSteps {
  import opened PackedWord
  import opened StackMachine
  import opened StackCounts
  import opened StackInvariant
  import opened StackFrame

  /** What thread t relies on holds. */
  lemma Relies(s: State, t: nat)
    requires Inv(s) && t < |s.threads|
    ensures ThreadOk(s, t, s.threads[t].pc)
  {
  }

  /** Replacing only thread t: the totals of one block move by t's difference. */
  lemma Moved(s: State, s': State, t: nat, b: nat)
    requires t < |s.threads| && |s'.threads| == |s.threads|
    requires s'.threads == s.threads[t := s'.threads[t]]
    ensures forall kind :: Total(kind, s'.threads, b) + Units(kind, s.threads[t].pc, b)
                        == Total(kind, s.threads, b) + Units(kind, s'.threads[t].pc, b)
  {
    forall kind
      ensures Total(kind, s'.threads, b) + Units(kind, s.threads[t].pc, b)
           == Total(kind, s.threads, b) + Units(kind, s'.threads[t].pc, b)
    {
      TotalMove(kind, s.threads, t, s'.threads[t], b);
    }
  }

  /** A step that changes at most one reference count, by d on block x. */
  ghost predicate Counts(s: State, s': State, t: nat, x: nat, d: int) {
    && t < |s.threads| && |s'.threads| == |s.threads|
    && s'.threads == s.threads[t := s'.threads[t]]
    && 0 < x < |s.heap| && s'.heap == AddRef(s.heap, x, d)
    && Ptr(s'.word) == Ptr(s.word)
  }

  /**
   * The counters of b move with t's claims, new claims are only on blocks
   * already referenced, and t starts reclaiming exactly when it has taken the
   * last count away.
   */
  ghost predicate Fair(s: State, s': State, t: nat, x: nat, d: int, b: nat)
    requires t < |s.threads| && t < |s'.threads| && x < |s.heap|
  {
    var pc, pc' := s.threads[t].pc, s'.threads[t].pc;
    && (if b == x then d else 0) + Local(s', b) - Local(s, b) == Units(Claim, pc', b) - Units(Claim, pc, b)
    && (Units(Claim, pc', b) > Units(Claim, pc, b) ==> Refs(s, b) > 0)
    && Units(Reclaimer, pc, b) == 0
    && (b != x ==> Units(Reclaimer, pc', b) == 0 && (Units(Claim, pc', b) >= Units(Claim, pc, b) || b == Ptr(s.word)))
    && (b == x && d >= 0 ==> Units(Reclaimer, pc', b) == 0)
    && (b == x && d < 0 ==>
          Units(Claim, pc, b) >= 1 && Units(Reclaimer, pc', b) == (if s.heap[x].refCount + d == 0 then 1 else 0))
  }

  lemma CountedBlock(s: State, s': State, t: nat, x: nat, d: int, b: nat)
    requires Inv(s) && Counts(s, s', t, x, d) && 0 < b < |s.heap| && Fair(s, s', t, x, d, b)
    requires Cnt(s'.word) <= Total(Share, s'.threads, Ptr(s'.word))
    ensures BlockOk(s', b)
  {
    Moved(s, s', t, b);
    assert PrevColumn(s'.heap, b) == PrevColumn(s.heap, b);
    assert BlockOk(s, b);
    TotalAtLeast(Claim, s.threads, t, b);
    ShareBelowClaim(s'.threads, b);
  }

  /** The word's count only grows with t's share of the installed block. */
  ghost predicate FairWord(s: State, s': State, t: nat)
    requires t < |s.threads| && t < |s'.threads|
  {
    && s'.word < WORDS
    && (Cnt(s'.word) == 0
        || Cnt(s'.word) - Cnt(s.word)
           <= Units(Share, s'.threads[t].pc, Ptr(s.word)) - Units(Share, s.threads[t].pc, Ptr(s.word)))
  }

  /** A counting step keeps everything but the abstract stack, which it leaves to show. */
  lemma CountingEffect(s: State, s': State, t: nat, x: nat, d: int)
    requires Inv(s) && Counts(s, s', t, x, d) && FairWord(s, s', t)
    requires forall b :: 0 < b < |s.heap| ==> Fair(s, s', t, x, d, b)
    requires s'.chain == s.chain && Replay(s'.log) == Replay(s.log)
    requires ThreadOk(s', t, s'.threads[t].pc) == true
    requires forall j :: 0 <= j < |s.threads| ==> ResultsOk(s', j)
    ensures Inv(s')
  {
    Moved(s, s', t, Ptr(s.word));
    RefHeapOk(s.heap, x, d);
    forall b | 0 < b < |s'.heap| ensures BlockOk(s', b) { CountedBlock(s, s', t, x, d, b); }
    ChainStays(s, s', t);
    EffectStep(s, s', t);
  }

  /** A counting step without an effect on the abstract stack. */
  lemma CountingStep(s: State, s': State, t: nat, x: nat, d: int)
    requires Inv(s) && Counts(s, s', t, x, d) && FairWord(s, s', t)
    requires forall b :: 0 < b < |s.heap| ==> Fair(s, s', t, x, d, b)
    requires s'.chain == s.chain && s'.log == s.log
    requires ThreadOk(s', t, s'.threads[t].pc) == true
    requires s'.threads[t].results + Pending(s'.threads[t].pc) == s.threads[t].results + Pending(s.threads[t].pc)
    ensures Inv(s')
  {
    ResultsStay(s, s', t);
    CountingEffect(s, s', t, x, d);
  }

  /** A step that only reads shared memory and keeps every claim. */
  lemma ReadingStep(s: State, s': State, t: nat)
    requires Inv(s) && t < |s.threads| && |s'.threads| == |s.threads|
    requires s' == s.(threads := s.threads[t := s'.threads[t]])
    requires forall b :: 0 < b < |s.heap| ==>
        Units(Claim, s'.threads[t].pc, b) == Units(Claim, s.threads[t].pc, b)
        && Units(Reclaimer, s.threads[t].pc, b) == 0 && Units(Reclaimer, s'.threads[t].pc, b) == 0
    requires Cnt(s.word) == 0 || Units(Share, s'.threads[t].pc, Ptr(s.word)) == Units(Share, s.threads[t].pc, Ptr(s.word))
    requires ThreadOk(s', t, s'.threads[t].pc) == true
    requires s'.threads[t].results == s.threads[t].results && Pending(s'.threads[t].pc) == Pending(s.threads[t].pc)
    ensures Inv(s')
  {
    CountingStep(s, s', t, Ptr(s.word), 0);
  }

  /** Access shares are claims. */
  lemma ShareBelowClaim(threads: seq<Thread>, b: nat)
    ensures Total(Share, threads, b) <= Total(Claim, threads, b)
  {
    ClaimSplits(threads, b);
  }

  lemma RefHeapOk(heap: seq<Block>, x: nat, d: int)
    requires HeapOk(heap) && x < |heap|
    ensures HeapOk(AddRef(heap, x, d))
  {
    var heap' := AddRef(heap, x, d);
    forall b | 0 <= b < |heap'| ensures NodeOk(heap', b) { assert NodeOk(heap, b); }
  }

  /** Whatever the step did, the other threads' part of the invariant follows from what it left alone. */
  lemma EffectStep(s: State, s': State, t: nat)
    requires Inv(s) && t < |s.threads| && |s'.threads| == |s.threads|
    requires s'.threads == s.threads[t := s'.threads[t]]
    requires HeapOk(s'.heap) && WordOk(s') && Evolves(s, s', t)
    requires forall b :: 0 < b < |s'.heap| ==> BlockOk(s', b)
    requires ChainOk(s') && ContentsOk(s')
    requires ThreadOk(s', t, s'.threads[t].pc) == true
    requires forall j :: 0 <= j < |s.threads| ==> ResultsOk(s', j)
    ensures Inv(s')
  {
    forall j | 0 <= j < |s'.threads|
      ensures ThreadOk(s', j, s'.threads[j].pc)
    {
      if j != t { ThreadStays(s, s', t, j); }
    }
  }

  /** A chain whose blocks stay as they are stays a chain. */
  lemma ChainStays(s: State, s': State, t: nat)
    requires Inv(s) && Evolves(s, s', t) && s'.chain == s.chain && Ptr(s'.word) == Ptr(s.word)
    requires forall b :: 0 < b < |s.heap| && s.heap[b].live && s.heap[b].stage.Listed? && Refs(s, b) > 0 ==> s'.heap[b].stage.Listed?
    ensures ChainOk(s')
    ensures forall i :: 0 <= i < |s.chain| - 1 ==> s'.heap[s.chain[i]].val == s.heap[s.chain[i]].val
  {
    ChainReferenced(s);
    forall i | 0 <= i < |s.chain|
      ensures s'.heap[s.chain[i]].live && Keeps(s.heap[s.chain[i]], s'.heap[s.chain[i]], t)
    {
    }
  }

  /** Without a new log entry every thread still accounts for its part of the log. */
  lemma ResultsStay(s: State, s': State, t: nat)
    requires Inv(s) && t < |s.threads| && |s'.threads| == |s.threads|
    requires s'.threads == s.threads[t := s'.threads[t]] && s'.log == s.log
    requires s'.threads[t].results + Pending(s'.threads[t].pc) == s.threads[t].results + Pending(s.threads[t].pc)
    ensures forall j :: 0 <= j < |s.threads| ==> ResultsOk(s', j)
  {
    forall j | 0 <= j < |s.threads| ensures ResultsOk(s', j) { assert ResultsOk(s, j); }
  }

  /** With a new entry of thread t, exactly t has one more effect to account for. */
  lemma ResultsRecorded(s: State, s': State, t: nat, e: Event)
    requires Inv(s) && t < |s.threads| && |s'.threads| == |s.threads|
    requires s'.threads == s.threads[t := s'.threads[t]] && s'.log == s.log + [Entry(t, e)]
    requires s'.threads[t].results == s.threads[t].results && Pending(s.threads[t].pc) == [] && Pending(s'.threads[t].pc) == [e]
    ensures forall j :: 0 <= j < |s.threads| ==> ResultsOk(s', j)
    ensures s'.log[..|s'.log| - 1] == s.log
  {
    assert s'.log[..|s'.log| - 1] == s.log;
    forall j | 0 <= j < |s.threads| ensures ResultsOk(s', j) { assert ResultsOk(s, j); }
  }

  /** Every block on the chain is referenced: by the word or by the node above. */
  lemma ChainReferenced(s: State)
    requires Inv(s)
    ensures forall i :: 0 <= i < |s.chain| ==> Refs(s, s.chain[i]) > 0
  {
    forall i | 0 <= i < |s.chain| ensures Refs(s, s.chain[i]) > 0 {
      if i > 0 {
        assert s.heap[s.chain[i - 1]].prev == s.chain[i];
        PrevIsLive(s, s.chain[i - 1]);
      }
    }
  }

  /** With room for another unit, counting it leaves the address alone. */
  lemma RoomForUnit(s: State, t: nat)
    requires Inv(s) && t < |s.threads| && Total(Access, s.threads, 0) < 1000
    ensures Cnt(s.word) < 1000 && Ptr(Inc(s.word)) == Ptr(s.word) && Cnt(Inc(s.word)) == Cnt(s.word) + 1 && Inc(s.word) < WORDS
  {
    ShareBelowAccess(s.threads, Ptr(s.word));
    AccessAnywhere(s.threads, 0, Ptr(s.word));
    IncFields(s.word);
  }

  /** The global count covers the installation and everything but the shares the word may still count. */
  lemma CountCovers(s: State, t: nat, b: nat)
    requires Inv(s) && t < |s.threads| && 0 < b < |s.heap| && s.heap[b].live
    ensures s.heap[b].refCount
         >= Units(Owner, s.threads[t].pc, b) + Units(Forfeit, s.threads[t].pc, b) + Units(Retiring, s.threads[t].pc, b)
          + Units(Speculative, s.threads[t].pc, b)
          + (if Ptr(s.word) == b then 1 else Units(Share, s.threads[t].pc, b))
  {
    assert BlockOk(s, b);
    ClaimSplits(s.threads, b);
    forall kind ensures Units(kind, s.threads[t].pc, b) <= Total(kind, s.threads, b) { TotalAtLeast(kind, s.threads, t, b); }
  }

  /** A claimed block has a positive reference count. */
  lemma CountPositive(s: State, t: nat, b: nat)
    requires Inv(s) && t < |s.threads| && 0 < b < |s.heap| && Refs(s, b) > 0
    ensures s.heap[b].live && s.heap[b].refCount > 0
  {
    assert BlockOk(s, b);
    ShareBelowClaim(s.threads, b);
  }
}
