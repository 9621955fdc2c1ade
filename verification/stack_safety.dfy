/** Invariance over whole runs, and what it means for users of the stack. */
module StackSafety {
  import opened StackMachine
  import opened StackCounts
  import opened StackInvariant
  import opened StackGet
  import opened StackCompare
  import opened StackRelease
  import opened StackEffects

  lemma GetStepOk(s: State, t: nat, spurious: bool)
    requires Inv(s) && t < |s.threads| && Room(s, t) && Getting(s.threads[t].pc)
    ensures Inv(GetStep(s, t, spurious))
  {
    match s.threads[t].pc
    case GetAdd(_) => GetAddStep(s, t, spurious);
    case GetRef(_, _) => GetRefStep(s, t, spurious);
    case GetReturn(_, _, _) => GetReturnStep(s, t, spurious);
    case GetForfeit(_, _) => GetForfeitStep(s, t, spurious);
    case SetPrev(_, _) => SetPrevStep(s, t, spurious);
  }

  lemma SwapStepOk(s: State, t: nat, spurious: bool)
    requires Inv(s) && t < |s.threads| && s.threads[t].pc.Swap?
    ensures Inv(CompareExchangeStep(s, t, spurious))
  {
    if !spurious && s.word == s.threads[t].pc.expected {
      SwapDoneStep(s, t);
    } else {
      SwapFailed(s, t);
    }
  }

  lemma CompareExchangeStepOk(s: State, t: nat, spurious: bool)
    requires Inv(s) && t < |s.threads| && Room(s, t) && (Exchanging(s.threads[t].pc) || s.threads[t].pc.Retire?)
    ensures Inv(CompareExchangeStep(s, t, spurious))
  {
    match s.threads[t].pc
    case CasEnter(_) => CasEnterStep(s, t, spurious);
    case CasAcquire(_, _) => CasAcquireStep(s, t, spurious);
    case CasRead(_, _, _, _) => CasReadStep(s, t, spurious);
    case DrainAdd(_, _, _, _) => DrainAddStep(s, t, spurious);
    case DrainCas(_, _, _, _) => DrainCasStep(s, t, spurious);
    case DrainUndo(_, _, _, _, _, _) => DrainUndoStep(s, t, spurious);
    case Swap(_, _, _, _) => SwapStepOk(s, t, spurious);
    case Retire(_, _) => RetireStep(s, t, spurious);
  }

  lemma PopStepOk(s: State, t: nat)
    requires Inv(s) && t < |s.threads| && Room(s, t)
    requires var pc := s.threads[t].pc; pc.PopAcquire? || pc.PopReacquire? || pc.PopRead? || pc.PopCopy? || pc.PopTake?
    ensures Inv(PopStep(s, t))
  {
    match s.threads[t].pc
    case PopAcquire => PopLookStep(s, t);
    case PopReacquire(_) => PopLookStep(s, t);
    case PopRead(_, _) => PopReadStep(s, t);
    case PopCopy(_) => PopCopyStep(s, t);
    case PopTake(_, _) => PopTakeStep(s, t);
  }

  /** Every enabled step, taken with room for the unit it may acquire, preserves the invariant. */
  lemma StepOk(s: State, t: nat, act: Action)
    requires Inv(s) && Enabled(s, t, act) && Room(s, t)
    ensures Inv(Next(s, t, act))
  {
    match act
    case StartPush(v, b, d) => StartPushStep(s, t, v, b, d);
    case StartPop => StartPopStep(s, t);
    case Go(spurious) =>
      var pc := s.threads[t].pc;
      if Getting(pc) {
        GetStepOk(s, t, spurious);
      } else if pc.Release? {
        ReleaseStepOk(s, t, spurious);
      } else if pc.ReleaseGlobal? {
        ReleaseGlobalStep(s, t, spurious);
      } else if pc.Unref? {
        UnrefStepOk(s, t);
      } else if pc.Free? {
        FreeStep(s, t);
      } else if pc.Retire? || Exchanging(pc) {
        CompareExchangeStepOk(s, t, spurious);
      } else {
        PopStepOk(s, t);
      }
  }
}
