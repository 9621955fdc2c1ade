/**
 * compareExchange refines an atomic strong compare-and-swap: it succeeds with
 * exactly one replacement of the expected data, and it reports failure only if
 * at some moment inside the call the installed data was not the expected one,
 * however often its weak exchanges fail spuriously or its drains are undone.
 */
module StackExchange {
  import opened Options
  import opened PackedWord
  import opened StackMachine
  import opened StackCounts
  import opened StackInvariant
  import opened StackSteps
  import opened StackCompare
  import opened StackTheorems
  import opened StackAccounting

  /** The frame of a call that has recorded a moment at which the data differed. */
  function Flagged(pc: Pc): Option<Frame> {
    match pc
    case CasRead(f, _, _, true) => Some(f)
    case DrainUndo(f, _, _, _, _, true) => Some(f)
    case Retire(_, Lost(f, true)) => Some(f)
    case Release(_, _, Lost(f, true)) => Some(f)
    case ReleaseGlobal(_, Lost(f, true)) => Some(f)
    case Unref(_, Lost(f, true)) => Some(f)
    case Free(_, Lost(f, true)) => Some(f)
    case _ => None
  }

  /** Inside compareExchange, past its first test, on behalf of this caller. */
  predicate InCall(pc: Pc, f: Frame) {
    || (Exchanging(pc) && !pc.CasEnter? && pc.frame == f)
    || (Releasing(pc) && pc.rest.Lost? && pc.rest.frame == f)
  }

  lemma FlaggedIsInCall(pc: Pc, f: Frame)
    requires Flagged(pc) == Some(f)
    ensures InCall(pc, f)
  {
  }

  /** A call that is about to report failure is flagged. */
  lemma LossIsFlagged(n: nat, s: State, t: nat)
    requires Reachable(n, s) && t < |s.threads| && Releasing(s.threads[t].pc) && s.threads[t].pc.rest.Lost?
    ensures Flagged(s.threads[t].pc) == Some(s.threads[t].pc.rest.frame)
  {
    ReachableOk(n, s);
    Relies(s, t);
  }

  lemma DispatchFlag(s: State, t: nat, f: Frame, want: nat, h: nat, e: nat, differed: bool, g: Frame)
    requires t < |s.threads|
    requires Flagged(Dispatch(s, t, f, want, h, e, differed).threads[t].pc) == Some(g)
    ensures g == f && differed && Ptr(e) != Ptr(h)
  {
  }

  /** The flag is only ever set at a moment when the installed data differs. */
  lemma ExchangeFlag(s: State, t: nat, spurious: bool, f: Frame)
    requires Inv(s) && t < |s.threads| && Exchanging(s.threads[t].pc)
    requires Flagged(CompareExchangeStep(s, t, spurious).threads[t].pc) == Some(f)
    ensures Flagged(s.threads[t].pc) == Some(f) || (InCall(s.threads[t].pc, f) && Installed(s) != Want(s, f))
  {
    var pc := s.threads[t].pc;
    Relies(s, t);
    match pc
    case CasEnter(_) =>
    case CasAcquire(_, _) =>
    case CasRead(g, want, h, _) =>
      if At(s.heap, Ptr(h)).data == want {
        PackFields(Ptr(h));
        DispatchFlag(s, t, g, want, h, Pack(Ptr(h)), false, f);
      }
    case DrainAdd(_, _, _, _) =>
    case DrainCas(g, want, h, e) =>
      if !spurious && s.word == e { DispatchFlag(s.(word := ClearCount(e)), t, g, want, h, e, false, f); }
    case DrainUndo(g, want, h, diff, e, differed) =>
      DispatchFlag(s.(heap := AddRef(s.heap, Ptr(h), 0 - diff)), t, g, want, h, e, differed, f);
    case Swap(g, want, h, e) =>
      if spurious || s.word != e { DispatchFlag(s, t, g, want, h, s.word, Installed(s) != want, f); }
  }

  lemma ReleaseFlag(s: State, t: nat, spurious: bool, f: Frame)
    requires t < |s.threads|
    ensures s.threads[t].pc.Retire? ==>
              Flagged(CompareExchangeStep(s, t, spurious).threads[t].pc) == Some(f) ==> Flagged(s.threads[t].pc) == Some(f)
    ensures Flagged(ReleaseStep(s, t, spurious).threads[t].pc) == Some(f) ==> Flagged(s.threads[t].pc) == Some(f)
    ensures Flagged(UnrefStep(s, t).threads[t].pc) == Some(f) ==> Flagged(s.threads[t].pc) == Some(f)
  {
  }

  lemma OtherFlag(s: State, t: nat, spurious: bool, f: Frame)
    requires t < |s.threads|
    ensures Flagged(GetStep(s, t, spurious).threads[t].pc) == Some(f) ==> Flagged(s.threads[t].pc) == Some(f)
    ensures Flagged(PopStep(s, t).threads[t].pc) == Some(f) ==> Flagged(s.threads[t].pc) == Some(f)
  {
  }

  lemma FlagStep(s: State, t: nat, act: Action, f: Frame)
    requires Inv(s) && Enabled(s, t, act) && |Next(s, t, act).threads| == |s.threads|
    requires Flagged(Next(s, t, act).threads[t].pc) == Some(f)
    ensures Flagged(s.threads[t].pc) == Some(f) || (InCall(s.threads[t].pc, f) && Installed(s) != Want(s, f))
  {
    if act.Go? {
      if Exchanging(s.threads[t].pc) {
        ExchangeFlag(s, t, act.spurious, f);
      } else {
        ReleaseFlag(s, t, act.spurious, f);
        OtherFlag(s, t, act.spurious, f);
      }
    }
  }

  lemma InitUnflagged(n: nat, t: nat)
    requires t < |Init(n).threads|
    ensures Flagged(Init(n).threads[t].pc) == None
  {
  }

  /** One step back from a flagged call: it was flagged already, or the data differs now. */
  lemma FlaggedBefore(s: State, mover: nat, act: Action, t: nat, f: Frame)
    requires Inv(s) && Enabled(s, mover, act) && t < |Next(s, mover, act).threads|
    requires Flagged(Next(s, mover, act).threads[t].pc) == Some(f)
    ensures t < |s.threads| && InCall(s.threads[t].pc, f)
    ensures Flagged(s.threads[t].pc) == Some(f) || Installed(s) != Want(s, f)
  {
    StepAccounted(s, mover, act);
    if mover == t { FlagStep(s, t, act, f); }
    if Flagged(s.threads[t].pc) == Some(f) { FlaggedIsInCall(s.threads[t].pc, f); }
  }

  /** From state i to state j of the run, thread t is inside this call. */
  ghost predicate InCallThroughout(trace: seq<State>, i: nat, j: nat, t: nat, f: Frame)
    requires j < |trace|
  {
    forall k :: i <= k <= j ==> t < |trace[k].threads| && InCall(trace[k].threads[t].pc, f)
  }

  lemma FlaggedEarlier(n: nat, trace: seq<State>, moves: seq<Move>, j: nat, t: nat, f: Frame)
    requires IsRun(n, trace, moves) && WithinBound(trace, moves)
    requires j + 1 < |trace| && t < |trace[j + 1].threads| && Flagged(trace[j + 1].threads[t].pc) == Some(f)
    ensures t < |trace[j].threads| && InCall(trace[j].threads[t].pc, f)
    ensures Flagged(trace[j].threads[t].pc) == Some(f) || Installed(trace[j]) != Want(trace[j], f)
  {
    RunOk(n, trace, moves, j);
    FlaggedBefore(trace[j], moves[j].thread, moves[j].action, t, f);
  }

  lemma StartsUnflagged(n: nat, trace: seq<State>, moves: seq<Move>, t: nat)
    requires IsRun(n, trace, moves) && t < |trace[0].threads|
    ensures Flagged(trace[0].threads[t].pc) == None
  {
    InitUnflagged(n, t);
  }

  /** Failure is justified: i is a moment inside the flagged call at which the data differed. */
  lemma {:induction false} FailureIsJustified(n: nat, trace: seq<State>, moves: seq<Move>, j: nat, t: nat, f: Frame) returns (i: nat)
    requires IsRun(n, trace, moves) && WithinBound(trace, moves)
    requires j < |trace| && t < |trace[j].threads| && Flagged(trace[j].threads[t].pc) == Some(f)
    ensures i < j && Installed(trace[i]) != Want(trace[i], f) && InCallThroughout(trace, i, j, t, f)
  {
    FlaggedIsInCall(trace[j].threads[t].pc, f);
    if j == 0 {
      StartsUnflagged(n, trace, moves, t);
    } else {
      FlaggedEarlier(n, trace, moves, j - 1, t, f);
      i := j - 1;
      if Flagged(trace[j - 1].threads[t].pc) == Some(f) {
        i := FailureIsJustified(n, trace, moves, j - 1, t, f);
      }
    }
  }

  /** Success: the installed data was the expected one, and now is the new one's; one effect is logged. */
  lemma SuccessReplaces(n: nat, s: State, t: nat, spurious: bool)
    requires Reachable(n, s) && Enabled(s, t, Go(spurious)) && s.threads[t].pc.Swap? && Next(s, t, Go(spurious)).threads[t].pc.Retire?
    ensures var s', f := Next(s, t, Go(spurious)), s.threads[t].pc.frame;
      && Installed(s) == Want(s, f) && Ptr(s'.word) == NewOne(f) && Installed(s') == At(s.heap, NewOne(f)).data
      && |s'.log| == |s.log| + 1 && s'.log[|s.log|].thread == t && !s'.log[|s.log|].event.SawEmpty?
  {
    ReachableOk(n, s);
    var f := s.threads[t].pc.frame;
    Relies(s, t);
    NewOneDiffers(s, t, f);
    PackFields(NewOne(f));
  }
}
