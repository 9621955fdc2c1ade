/** Releasing access units and SharedPtrs preserves the invariant. */
module StackRelease {
  import opened PackedWord
  import opened StackMachine
  import opened StackCounts
  import opened StackInvariant
  import opened StackSteps

  /** Continuing after a release keeps what the continuation holds, knows and owes. */
  lemma Resumed(s: State, t: nat, k: Cont)
    requires t < |s.threads| && ContOk(s, t, k)
    ensures var s' := Resume(s, t, k);
      && s'.threads == s.threads[t := s'.threads[t]]
      && s' == s.(threads := s'.threads)
      && (forall kind, b :: Units(kind, s'.threads[t].pc, b) == ContUnits(kind, k, b))
      && ThreadOk(s', t, s'.threads[t].pc)
      && s'.threads[t].results + Pending(s'.threads[t].pc) == s.threads[t].results + PendingCont(k)
  {
    match k
    case AfterPrev(_) =>
    case Lost(PushFrame(_), _) =>
    case Lost(PopFrame(_, _), _) =>
    case Won(_, _) =>
    case Redo(_) =>
    case Look(_, _) =>
    case Finish(_) =>
  }

  /**
   * From `pc`, which has units of its own beyond the continuation's on block x
   * only, to where the continuation resumes: fair when the counters give back
   * exactly those units.
   */
  lemma ResumeFair(s: State, s': State, t: nat, x: nat, d: int, k: Cont, b: nat)
    requires t < |s.threads| && t < |s'.threads| && 0 < x < |s.heap| && 0 < b < |s.heap|
    requires Units(Claim, s'.threads[t].pc, b) == ContUnits(Claim, k, b)
    requires Units(Claim, s.threads[t].pc, b) == ContUnits(Claim, k, b) + Is(x, b)
    requires Units(Reclaimer, s.threads[t].pc, b) == 0
    requires d == -1 || d == 0
    requires d == -1 ==> Units(Reclaimer, s'.threads[t].pc, b) == (if b == x && s.heap[x].refCount == 1 then 1 else 0)
    requires d == 0 ==> Units(Reclaimer, s'.threads[t].pc, b) == 0 && Ptr(s.word) == x
    requires Local(s', b) == Local(s, b) - (if b == x then d + 1 else 0)
    ensures Fair(s, s', t, x, d, b)
  {
  }

  /** No continuation is about to delete anything. */
  lemma NoReclaim(k: Cont)
    ensures forall b :: ContUnits(Reclaimer, k, b) == 0
  {
    if k.Lost? && k.frame.PopFrame? {
    }
  }

  lemma ReleaseStepOk(s: State, t: nat, spurious: bool)
    requires Inv(s) && t < |s.threads| && s.threads[t].pc.Release?
    ensures Inv(ReleaseStep(s, t, spurious))
  {
    var pc := s.threads[t].pc;
    Relies(s, t);
    NoReclaim(pc.rest);
    if !spurious && s.word == pc.expected {
      ReturnUnit(s, ReleaseStep(s, t, spurious), t, pc.rest);
    } else if Ptr(s.word) != Ptr(pc.holder) || Cnt(s.word) == 0 {
      CommitUnit(s, t, pc.holder, pc.expected, pc.rest);
    } else {
      KeepUnit(s, t, pc.holder, pc.expected, pc.rest);
    }
  }

  /** Not returned yet: the word still counts units for the block, so try again. */
  lemma KeepUnit(s: State, t: nat, h: nat, e: nat, k: Cont)
    requires Inv(s) && t < |s.threads| && s.threads[t].pc == Release(h, e, k)
    requires Holding(s, h) && ContOk(s, t, k) == true
    requires Ptr(s.word) == Ptr(h) && Cnt(s.word) > 0
    ensures Inv(Jump(s, t, Release(h, s.word, k)))
  {
    NoReclaim(k);
    ReadingStep(s, Jump(s, t, Release(h, s.word, k)), t);
  }

  /** Not returned and no longer counted by the word: commit to a global release for good. */
  lemma CommitUnit(s: State, t: nat, h: nat, e: nat, k: Cont)
    requires Inv(s) && t < |s.threads| && s.threads[t].pc == Release(h, e, k)
    requires Holding(s, h) && ContOk(s, t, k) == true
    requires Ptr(s.word) != Ptr(h) || Cnt(s.word) == 0
    ensures Inv(Jump(s, t, ReleaseGlobal(h, k)))
  {
    NoReclaim(k);
    ReadingStep(s, Jump(s, t, ReleaseGlobal(h, k)), t);
  }

  /** The access unit goes back to the packed word, which still names the block. */
  lemma ReturnUnit(s: State, s': State, t: nat, k: Cont)
    requires Inv(s) && t < |s.threads| && Cnt(s.word) > 0
    requires forall a :: Units(Claim, s.threads[t].pc, a) == ContUnits(Claim, k, a) + Is(Ptr(s.word), a)
    requires forall a :: Units(Share, s.threads[t].pc, a) == ContUnits(Share, k, a) + Is(Ptr(s.word), a)
    requires forall a :: Units(Reclaimer, s.threads[t].pc, a) == 0
    requires Pending(s.threads[t].pc) == PendingCont(k)
    requires ContOk(s, t, k) == true
    requires s' == Resume(s.(word := Dec(s.word)), t, k)
    ensures Inv(s')
  {
    DecFields(s.word);
    CountedContOk(s, s.(word := Dec(s.word)), t, Ptr(s.word), 0, k);
    Resumed(s.(word := Dec(s.word)), t, k);
    NoReclaim(k);
    forall b | 0 < b < |s.heap| ensures Fair(s, s', t, Ptr(s.word), 0, b) {
      ResumeFair(s, s', t, Ptr(s.word), 0, k, b);
    }
    CountingStep(s, s', t, Ptr(s.word), 0);
  }

  lemma ReleaseGlobalStep(s: State, t: nat, spurious: bool)
    requires Inv(s) && t < |s.threads| && s.threads[t].pc.ReleaseGlobal?
    ensures Inv(ReleaseStep(s, t, spurious))
  {
    Relies(s, t);
    ClaimedIsLive(s, t, Ptr(s.threads[t].pc.holder));
    DropStep(s, ReleaseStep(s, t, spurious), t, Ptr(s.threads[t].pc.holder), s.threads[t].pc.rest);
  }

  lemma UnrefStepOk(s: State, t: nat)
    requires Inv(s) && t < |s.threads| && s.threads[t].pc.Unref?
    ensures Inv(UnrefStep(s, t))
  {
    Relies(s, t);
    ClaimedIsLive(s, t, s.threads[t].pc.block);
    CountCovers(s, t, s.threads[t].pc.block);
    DropStep(s, UnrefStep(s, t), t, s.threads[t].pc.block, s.threads[t].pc.rest);
  }

  /** Dropping one reference on b, then deleting it or continuing with k. */
  lemma DropStep(s: State, s': State, t: nat, b: nat, k: Cont)
    requires Inv(s) && t < |s.threads| && 0 < b < |s.heap| && s.heap[b].live
    requires forall a :: Units(Claim, s.threads[t].pc, a) == ContUnits(Claim, k, a) + Is(b, a)
    requires forall a :: Units(Share, s.threads[t].pc, a) == ContUnits(Share, k, a)
    requires forall a :: Units(Reclaimer, s.threads[t].pc, a) == 0
    requires Pending(s.threads[t].pc) == PendingCont(k)
    requires ContOk(s, t, k) == true
    requires var dropped := s.(heap := AddRef(s.heap, b, -1));
      s' == if s.heap[b].refCount == 1 then Jump(dropped, t, Free(b, k)) else Resume(dropped, t, k)
    ensures Inv(s')
  {
    var dropped := s.(heap := AddRef(s.heap, b, -1));
    CountedContOk(s, dropped, t, b, -1, k);
    Resumed(dropped, t, k);
    NoReclaim(k);
    forall a | 0 < a < |s.heap| ensures Fair(s, s', t, b, -1, a) {
      ResumeFair(s, s', t, b, -1, k, a);
    }
    DroppedOk(s', t, b, k, s.heap[b].refCount == 1);
    CountingStep(s, s', t, b, -1);
  }

  lemma DroppedOk(s': State, t: nat, b: nat, k: Cont, last: bool)
    requires t < |s'.threads| && Block?(s', b)
    requires if last then s'.threads[t].pc == Free(b, k) && ContOk(s', t, k) == true else ThreadOk(s', t, s'.threads[t].pc) == true
    ensures ThreadOk(s', t, s'.threads[t].pc)
  {
  }

  /** Counts are no part of what a continuation relies on. */
  lemma CountedContOk(s: State, s': State, t: nat, x: nat, d: int, k: Cont)
    requires x < |s.heap| && s'.heap == AddRef(s.heap, x, d) && ContOk(s, t, k) == true
    ensures ContOk(s', t, k)
  {
    match k
    case AfterPrev(_) =>
    case Lost(PushFrame(_), _) =>
    case Lost(PopFrame(_, _), _) =>
    case Won(_, _) =>
    case Redo(_) =>
    case Look(_, _) =>
    case Finish(_) =>
  }
}
