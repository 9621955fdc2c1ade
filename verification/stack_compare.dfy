/** AtomicSharedPtr::compareExchange up to its successful swap preserves the invariant. */
module StackCompare {
  import opened PackedWord
  import opened StackMachine
  import opened StackCounts
  import opened StackInvariant
  import opened StackSteps
  import opened StackRelease

  /**
   * The assertion that a block is not replaced by itself holds, and so does
   * the test that keeps compareExchange from returning before it has started.
   */
  lemma NewOneDiffers(s: State, t: nat, f: Frame)
    requires Inv(s) && t < |s.threads| && FrameOk(s, t, f)
    requires forall b :: Units(Claim, s.threads[t].pc, b) >= FrameUnits(Claim, f, b)
    ensures s.heap[NewOne(f)].live && Want(s, f) != s.heap[NewOne(f)].data
    ensures forall h :: 0 < h < |s.heap| && s.heap[h].live && s.heap[h].data == Want(s, f) ==> h != NewOne(f)
  {
    match f
    case PushFrame(node) =>
      ClaimedIsLive(s, t, node);
      PrevIsLive(s, node);
      assert NodeOk(s.heap, node);
    case PopFrame(top, next) =>
      ClaimedIsLive(s, t, Ptr(top));
      ClaimedIsLive(s, t, next);
      assert NodeOk(s.heap, Ptr(top));
  }

  /** Where the retry loop goes next is consistent with what it has just read. */
  lemma Dispatched(s: State, t: nat, f: Frame, want: nat, h: nat, e: nat, differed: bool)
    requires t < |s.threads| && Comparing(s, t, f, want, h)
    requires Ptr(h) != NewOne(f)
    requires Ptr(e) != Ptr(h) ==> differed
    ensures var s' := Dispatch(s, t, f, want, h, e, differed);
      && s' == s.(threads := s'.threads) && s'.threads == s.threads[t := s'.threads[t]]
      && (forall kind, b :: Units(kind, s'.threads[t].pc, b) == FrameUnits(kind, f, b) + Hold(kind, h, b))
      && ThreadOk(s', t, s'.threads[t].pc)
      && Pending(s'.threads[t].pc) == [] && s'.threads[t].results == s.threads[t].results
  {
  }

  /** Thread t's step is a detour to the head of the retry loop; the counts stay with it. */
  lemma DispatchStep(s: State, t: nat, f: Frame, want: nat, h: nat, e: nat, differed: bool)
    requires Inv(s) && t < |s.threads| && Comparing(s, t, f, want, h)
    requires forall b :: Units(Claim, s.threads[t].pc, b) == FrameUnits(Claim, f, b) + Hold(Claim, h, b)
    requires forall b :: Units(Share, s.threads[t].pc, b) == FrameUnits(Share, f, b) + Hold(Share, h, b)
    requires forall b :: Units(Reclaimer, s.threads[t].pc, b) == 0
    requires Pending(s.threads[t].pc) == []
    requires Ptr(e) != Ptr(h) ==> differed
    ensures Inv(Dispatch(s, t, f, want, h, e, differed))
  {
    ClaimedIsLive(s, t, Ptr(h));
    NewOneDiffers(s, t, f);
    Dispatched(s, t, f, want, h, e, differed);
    NoFrameReclaim(f);
    ReadingStep(s, Dispatch(s, t, f, want, h, e, differed), t);
  }

  lemma NoFrameReclaim(f: Frame)
    ensures forall b :: FrameUnits(Reclaimer, f, b) == 0
  {
  }

  lemma CasEnterStep(s: State, t: nat, spurious: bool)
    requires Inv(s) && t < |s.threads| && s.threads[t].pc.CasEnter?
    ensures Inv(CompareExchangeStep(s, t, spurious))
  {
    var f := s.threads[t].pc.frame;
    Relies(s, t);
    NewOneDiffers(s, t, f);
    NoFrameReclaim(f);
    ReadingStep(s, CompareExchangeStep(s, t, spurious), t);
  }

  lemma CasAcquireStep(s: State, t: nat, spurious: bool)
    requires Inv(s) && t < |s.threads| && Room(s, t) && s.threads[t].pc.CasAcquire?
    ensures Inv(CompareExchangeStep(s, t, spurious))
  {
    Relies(s, t);
    RoomForUnit(s, t);
    NoFrameReclaim(s.threads[t].pc.frame);
    CountingStep(s, CompareExchangeStep(s, t, spurious), t, Ptr(s.word), 0);
  }

  lemma CasReadStep(s: State, t: nat, spurious: bool)
    requires Inv(s) && t < |s.threads| && s.threads[t].pc.CasRead?
    ensures Inv(CompareExchangeStep(s, t, spurious))
  {
    var pc := s.threads[t].pc;
    Relies(s, t);
    if At(s.heap, Ptr(pc.holder)).data != pc.want {
      NoFrameReclaim(pc.frame);
      ReadingStep(s, CompareExchangeStep(s, t, spurious), t);
    } else {
      PackFields(Ptr(pc.holder));
      DispatchStep(s, t, pc.frame, pc.want, pc.holder, Pack(Ptr(pc.holder)), false);
    }
  }

  lemma DrainAddStep(s: State, t: nat, spurious: bool)
    requires Inv(s) && t < |s.threads| && s.threads[t].pc.DrainAdd?
    ensures Inv(CompareExchangeStep(s, t, spurious))
  {
    var pc := s.threads[t].pc;
    Relies(s, t);
    NoFrameReclaim(pc.frame);
    ClaimedIsLive(s, t, Ptr(pc.holder));
    CountingStep(s, CompareExchangeStep(s, t, spurious), t, Ptr(pc.holder), Cnt(pc.expected));
  }

  lemma DrainCasStep(s: State, t: nat, spurious: bool)
    requires Inv(s) && t < |s.threads| && s.threads[t].pc.DrainCas?
    ensures Inv(CompareExchangeStep(s, t, spurious))
  {
    var pc := s.threads[t].pc;
    Relies(s, t);
    if !spurious && s.word == pc.expected {
      Drained(s, t, pc.frame, pc.want, pc.holder);
    } else {
      Refused(s, t, pc.frame, pc.want, pc.holder, pc.expected);
    }
  }

  /** The drained units move from the word to the global count, where they were added before. */
  lemma Drained(s: State, t: nat, f: Frame, want: nat, h: nat)
    requires Inv(s) && t < |s.threads| && s.threads[t].pc == DrainCas(f, want, h, s.word)
    requires Comparing(s, t, f, want, h) && Ptr(s.word) == Ptr(h) && Cnt(s.word) > 0
    ensures Inv(Jump(s.(word := ClearCount(s.word)), t, DrainAdd(f, want, h, s.word)))
  {
    NoFrameReclaim(f);
    ClearFields(s.word);
    CountingStep(s, Jump(s.(word := ClearCount(s.word)), t, DrainAdd(f, want, h, s.word)), t, Ptr(s.word), 0);
  }

  lemma Refused(s: State, t: nat, f: Frame, want: nat, h: nat, e: nat)
    requires Inv(s) && t < |s.threads| && s.threads[t].pc == DrainCas(f, want, h, e)
    requires Comparing(s, t, f, want, h)
    ensures Inv(Jump(s, t, DrainUndo(f, want, h, Cnt(e), s.word, Installed(s) != want)))
  {
    NoFrameReclaim(f);
    OthersDiffer(s, t, want, h);
    ReadingStep(s, Jump(s, t, DrainUndo(f, want, h, Cnt(e), s.word, Installed(s) != want)), t);
  }

  /** Live blocks have distinct data, so another installed block shows other data. */
  lemma OthersDiffer(s: State, t: nat, want: nat, h: nat)
    requires Inv(s) && t < |s.threads| && Holding(s, h) && s.heap[Ptr(h)].data == want
    requires Units(Claim, s.threads[t].pc, Ptr(h)) >= 1
    ensures Ptr(s.word) != Ptr(h) <==> Installed(s) != want
  {
    ClaimedIsLive(s, t, Ptr(h));
    assert s.heap[s.chain[0]].live;
  }

  lemma DrainUndoStep(s: State, t: nat, spurious: bool)
    requires Inv(s) && t < |s.threads| && s.threads[t].pc.DrainUndo?
    ensures Inv(CompareExchangeStep(s, t, spurious))
  {
    var pc := s.threads[t].pc;
    Relies(s, t);
    ClaimedIsLive(s, t, Ptr(pc.holder));
    NewOneDiffers(s, t, pc.frame);
    var undone := s.(heap := AddRef(s.heap, Ptr(pc.holder), 0 - pc.diff));
    CountedComparing(s, undone, t, pc.frame, pc.want, pc.holder, 0 - pc.diff);
    Dispatched(undone, t, pc.frame, pc.want, pc.holder, pc.expected, pc.differed);
    Undone(s, CompareExchangeStep(s, t, spurious), t, pc.frame, pc.holder, pc.diff);
  }

  lemma CountedComparing(s: State, s': State, t: nat, f: Frame, want: nat, h: nat, d: int)
    requires Comparing(s, t, f, want, h) && Ptr(h) < |s.heap| && s'.heap == AddRef(s.heap, Ptr(h), d)
    ensures Comparing(s', t, f, want, h)
  {
  }

  /** Taking speculative units back: the holder's own unit keeps the count positive. */
  lemma Undone(s: State, s': State, t: nat, f: Frame, h: nat, diff: nat)
    requires Inv(s) && t < |s.threads| && 0 < Ptr(h) < |s.heap| && s.heap[Ptr(h)].live
    requires s.threads[t].pc.DrainUndo? && s.threads[t].pc.frame == f && s.threads[t].pc.holder == h && s.threads[t].pc.diff == diff
    requires |s'.threads| == |s.threads| && s'.threads == s.threads[t := s'.threads[t]]
    requires s' == s.(heap := AddRef(s.heap, Ptr(h), 0 - diff), threads := s'.threads)
    requires forall kind, b :: Units(kind, s'.threads[t].pc, b) == FrameUnits(kind, f, b) + Hold(kind, h, b)
    requires ThreadOk(s', t, s'.threads[t].pc) == true
    requires Pending(s'.threads[t].pc) == [] && s'.threads[t].results == s.threads[t].results
    ensures Inv(s')
  {
    UndoneIsFair(s, s', t, f, h, diff, 0 - diff);
    CountingStep(s, s', t, Ptr(h), 0 - diff);
  }

  lemma UndoneIsFair(s: State, s': State, t: nat, f: Frame, h: nat, diff: nat, d: int)
    requires Inv(s) && t < |s.threads| && 0 < Ptr(h) < |s.heap| && s.heap[Ptr(h)].live
    requires s.threads[t].pc.DrainUndo? && s.threads[t].pc.frame == f && s.threads[t].pc.holder == h && s.threads[t].pc.diff == diff
    requires |s'.threads| == |s.threads| && s'.word == s.word && d == 0 - diff
    requires forall kind, b :: Units(kind, s'.threads[t].pc, b) == FrameUnits(kind, f, b) + Hold(kind, h, b)
    ensures forall b :: 0 < b < |s.heap| ==> Fair(s, s', t, Ptr(h), d, b)
    ensures FairWord(s, s', t)
  {
    NoFrameReclaim(f);
    CountCovers(s, t, Ptr(h));
  }

  lemma SwapFailed(s: State, t: nat)
    requires Inv(s) && t < |s.threads| && s.threads[t].pc.Swap?
    ensures var pc := s.threads[t].pc; Inv(Dispatch(s, t, pc.frame, pc.want, pc.holder, s.word, Installed(s) != pc.want))
  {
    var pc := s.threads[t].pc;
    Relies(s, t);
    NoFrameReclaim(pc.frame);
    OthersDiffer(s, t, pc.want, pc.holder);
    DispatchStep(s, t, pc.frame, pc.want, pc.holder, s.word, Installed(s) != pc.want);
  }

  lemma RetireStep(s: State, t: nat, spurious: bool)
    requires Inv(s) && t < |s.threads| && s.threads[t].pc.Retire?
    ensures Inv(CompareExchangeStep(s, t, spurious))
  {
    var pc := s.threads[t].pc;
    Relies(s, t);
    ClaimedIsLive(s, t, Ptr(pc.holder));
    CountCovers(s, t, Ptr(pc.holder));
    Retired(s, t, pc.holder, pc.rest);
  }

  /** The uninstalled reference goes; the caller's own access unit stays. */
  lemma Retired(s: State, t: nat, h: nat, k: Cont)
    requires Inv(s) && t < |s.threads| && s.threads[t].pc == Retire(h, k)
    requires Holding(s, h) && ContOk(s, t, k) == true && s.heap[Ptr(h)].live && s.heap[Ptr(h)].refCount >= 2
    ensures Inv(Jump(s.(heap := AddRef(s.heap, Ptr(h), -1)), t, Release(h, h, k)))
  {
    NoReclaim(k);
    CountedContOk(s, s.(heap := AddRef(s.heap, Ptr(h), -1)), t, Ptr(h), -1, k);
    CountingStep(s, Jump(s.(heap := AddRef(s.heap, Ptr(h), -1)), t, Release(h, h, k)), t, Ptr(h), -1);
  }
}
