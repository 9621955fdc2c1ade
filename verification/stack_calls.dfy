/** Effects and results belong to the calls that were made, with the arguments they were made with. */
module StackCalls {
  import opened Options
  import opened PackedWord
  import opened StackMachine
  import opened StackCounts
  import opened StackInvariant
  import opened StackSteps
  import opened StackSafety
  import opened StackTheorems
  import opened StackAccounting

  /** The effect a call may have: Push(v) pushes v; Pop takes something or sees the stack empty. */
  predicate Answers(call: Call, e: Event) {
    match call
    case PushCall(v) => e == Pushed(v)
    case PopCall => e.Took? || e.SawEmpty?
  }

  /** Effects, in order, answer the first calls. */
  ghost predicate AnswerAll(calls: seq<Call>, effects: seq<Event>) {
    |effects| <= |calls| && forall k :: 0 <= k < |effects| ==> Answers(calls[k], effects[k])
  }

  // ---- which call a thread is in ----

  function FrameNode(f: Frame): Option<nat> { if f.PushFrame? then Some(f.node) else None }

  function ContNode(k: Cont): Option<nat> {
    match k
    case AfterPrev(node) => Some(node)
    case Lost(f, _) => FrameNode(f)
    case _ => None
  }

  /** The private node of a Push that has not taken effect. */
  function NodeOf(pc: Pc): Option<nat> {
    if Getting(pc) then Some(pc.node)
    else if Exchanging(pc) then FrameNode(pc.frame)
    else if Releasing(pc) then ContNode(pc.rest)
    else None
  }

  /** The result a call is about to return. */
  function DoneOf(pc: Pc): Option<Event> {
    if Releasing(pc) && pc.rest.Finish? then Some(pc.rest.event) else None
  }

  /** What the thread is doing is what it was called for. */
  predicate Serves(heap: seq<Block>, pc: Pc, call: Call) {
    match call
    case PushCall(v) =>
      if NodeOf(pc).Some? then At(heap, NodeOf(pc).value).val == Some(v) else DoneOf(pc) == Some(Pushed(v))
    case PopCall => NodeOf(pc).None? && (DoneOf(pc).Some? ==> Answers(PopCall, DoneOf(pc).value))
  }

  ghost predicate ThreadCallsOk(heap: seq<Block>, th: Thread) {
    && |th.calls| == |th.results| + (if th.pc.Idle? then 0 else 1)
    && AnswerAll(th.calls, th.results)
    && (!th.pc.Idle? ==> Serves(heap, th.pc, th.calls[|th.calls| - 1]))
  }

  ghost predicate CallsOk(s: State) {
    forall t :: 0 <= t < |s.threads| ==> ThreadCallsOk(s.heap, s.threads[t])
  }

  // ---- the acting thread ----

  /** A step inside a call goes on serving it, or returns what it was about to return. */
  ghost predicate Carries(s: State, s': State, t: nat)
    requires t < |s.threads|
  {
    && |s'.threads| == |s.threads|
    && s'.threads[t].calls == s.threads[t].calls
    && (!s'.threads[t].pc.Fault? ==>
          var before, after := s.threads[t], s'.threads[t];
          if after.pc.Idle? then DoneOf(before.pc).Some? && after.results == before.results + [DoneOf(before.pc).value]
          else after.results == before.results && forall call :: Serves(s.heap, before.pc, call) ==> Serves(s'.heap, after.pc, call))
  }

  lemma GetCarries(s: State, t: nat, spurious: bool)
    requires t < |s.threads| && Getting(s.threads[t].pc)
    ensures Carries(s, GetStep(s, t, spurious), t)
  {
  }

  lemma DispatchCarries(s: State, t: nat, f: Frame, want: nat, h: nat, e: nat, differed: bool)
    requires t < |s.threads|
    ensures var before, after := s.threads[t], Dispatch(s, t, f, want, h, e, differed).threads[t];
      && after.calls == before.calls && after.results == before.results && !after.pc.Idle?
      && (!after.pc.Fault? ==> NodeOf(after.pc) == FrameNode(f) && DoneOf(after.pc) == None)
  {
  }

  lemma SwapCarries(s: State, t: nat, f: Frame, h: nat)
    requires t < |s.threads| && NodeOf(s.threads[t].pc) == FrameNode(f) && DoneOf(s.threads[t].pc) == None
    ensures Carries(s, SwapDone(s, t, f, h), t)
  {
  }

  lemma ExchangeCarries(s: State, t: nat, spurious: bool)
    requires t < |s.threads| && Exchanging(s.threads[t].pc)
    ensures Carries(s, CompareExchangeStep(s, t, spurious), t)
  {
    var pc := s.threads[t].pc;
    if pc.Swap? && !spurious && s.word == pc.expected {
      SwapCarries(s, t, pc.frame, pc.holder);
    } else {
      RetryKeepsNode(s, t, spurious);
      if FrameNode(pc.frame).Some? { ExchangeKeepsValues(s, t, spurious, FrameNode(pc.frame).value); }
    }
  }

  /** Short of success, compareExchange stays with its caller's node. */
  lemma RetryKeepsNode(s: State, t: nat, spurious: bool)
    requires t < |s.threads| && Exchanging(s.threads[t].pc)
    requires var pc := s.threads[t].pc; !(pc.Swap? && !spurious && s.word == pc.expected)
    ensures |CompareExchangeStep(s, t, spurious).threads| == |s.threads|
    ensures var before, after := s.threads[t], CompareExchangeStep(s, t, spurious).threads[t];
      && after.calls == before.calls && after.results == before.results && !after.pc.Idle?
      && (!after.pc.Fault? ==> NodeOf(after.pc) == FrameNode(before.pc.frame) && DoneOf(after.pc) == None)
  {
    match s.threads[t].pc
    case CasRead(f, want, h, differed) => DispatchCarries(s, t, f, want, h, Pack(Ptr(h)), false);
    case DrainAdd(_, _, _, _) => DrainKeepsNode(s, t, spurious);
    case DrainCas(_, _, _, _) => DrainKeepsNode(s, t, spurious);
    case DrainUndo(_, _, _, _, _, _) => DrainKeepsNode(s, t, spurious);
    case Swap(f, want, h, e) => DispatchCarries(s, t, f, want, h, s.word, Installed(s) != want);
    case _ =>
  }

  lemma DrainKeepsNode(s: State, t: nat, spurious: bool)
    requires t < |s.threads|
    requires var pc := s.threads[t].pc; pc.DrainAdd? || pc.DrainCas? || pc.DrainUndo?
    ensures |CompareExchangeStep(s, t, spurious).threads| == |s.threads|
    ensures var before, after := s.threads[t], CompareExchangeStep(s, t, spurious).threads[t];
      && after.calls == before.calls && after.results == before.results && !after.pc.Idle?
      && (!after.pc.Fault? ==> NodeOf(after.pc) == FrameNode(before.pc.frame) && DoneOf(after.pc) == None)
  {
    match s.threads[t].pc
    case DrainAdd(_, _, _, _) =>
    case DrainCas(f, want, h, e) => DispatchCarries(s.(word := ClearCount(e)), t, f, want, h, e, false);
    case DrainUndo(f, want, h, diff, e, differed) =>
      DispatchCarries(s.(heap := AddRef(s.heap, Ptr(h), 0 - diff)), t, f, want, h, e, differed);
  }

  lemma ResumeCarries(s: State, s': State, t: nat, k: Cont)
    requires t < |s.threads| == |s'.threads| && s'.threads[t] == s.threads[t]
    requires Releasing(s.threads[t].pc) && s.threads[t].pc.rest == k
    requires ContNode(k).Some? ==> At(s'.heap, ContNode(k).value).val == At(s.heap, ContNode(k).value).val
    ensures Carries(s, Resume(s', t, k), t)
  {
  }

  lemma ReleaseCarries(s: State, t: nat, spurious: bool)
    requires t < |s.threads| && (s.threads[t].pc.Release? || s.threads[t].pc.ReleaseGlobal?)
    ensures Carries(s, ReleaseStep(s, t, spurious), t)
  {
    match s.threads[t].pc
    case Release(h, e, k) => ResumeCarries(s, s.(word := Dec(e)), t, k);
    case ReleaseGlobal(h, k) => ResumeCarries(s, s.(heap := AddRef(s.heap, Ptr(h), -1)), t, k);
  }

  lemma UnrefCarries(s: State, t: nat)
    requires t < |s.threads| && (s.threads[t].pc.Unref? || s.threads[t].pc.Free?)
    ensures Carries(s, UnrefStep(s, t), t)
  {
    match s.threads[t].pc
    case Unref(b, k) => ResumeCarries(s, s.(heap := AddRef(s.heap, b, -1)), t, k);
    case Free(b, k) => ResumeCarries(s, s.(heap := Put(s.heap, b, At(s.heap, b).(live := false))), t, k);
  }

  lemma RetireCarries(s: State, t: nat, spurious: bool)
    requires t < |s.threads| && s.threads[t].pc.Retire?
    ensures Carries(s, CompareExchangeStep(s, t, spurious), t)
  {
  }

  lemma PopCarries(s: State, t: nat)
    requires t < |s.threads|
    requires var pc := s.threads[t].pc; pc.PopAcquire? || pc.PopReacquire? || pc.PopRead? || pc.PopCopy? || pc.PopTake?
    ensures Carries(s, PopStep(s, t), t)
  {
  }

  lemma GoCarries(s: State, t: nat, spurious: bool)
    requires Enabled(s, t, Go(spurious))
    ensures Carries(s, Next(s, t, Go(spurious)), t)
  {
    var pc := s.threads[t].pc;
    if Getting(pc) {
      GetCarries(s, t, spurious);
    } else if pc.Retire? {
      RetireCarries(s, t, spurious);
    } else if pc.Release? || pc.ReleaseGlobal? {
      ReleaseCarries(s, t, spurious);
    } else if pc.Unref? || pc.Free? {
      UnrefCarries(s, t);
    } else if Exchanging(pc) {
      ExchangeCarries(s, t, spurious);
    } else {
      PopCarries(s, t);
    }
  }

  // ---- the other threads' nodes ----

  /** Only Pop's move changes the value of a block, and only the allocation of a new one. */
  lemma GetKeepsValues(s: State, t: nat, spurious: bool, b: nat)
    requires t < |s.threads|
    ensures At(GetStep(s, t, spurious).heap, b).val == At(s.heap, b).val
    ensures At(ReleaseStep(s, t, spurious).heap, b).val == At(s.heap, b).val
    ensures At(UnrefStep(s, t).heap, b).val == At(s.heap, b).val
  {
  }

  lemma ExchangeKeepsValues(s: State, t: nat, spurious: bool, b: nat)
    requires t < |s.threads|
    ensures At(CompareExchangeStep(s, t, spurious).heap, b).val == At(s.heap, b).val
  {
  }

  lemma PopKeepsValues(s: State, t: nat, b: nat)
    requires t < |s.threads| && !(s.threads[t].pc.PopTake? && Ptr(s.threads[t].pc.top) == b)
    ensures At(PopStep(s, t).heap, b).val == At(s.heap, b).val
  {
  }

  /** A private node is its owner's, live, and has the value it was made with. */
  lemma NodeIsMine(s: State, j: nat)
    requires Inv(s) && j < |s.threads| && NodeOf(s.threads[j].pc).Some?
    ensures var node := NodeOf(s.threads[j].pc).value;
      0 < node < |s.heap| && s.heap[node].live && s.heap[node].stage == Private(j)
  {
    var node := NodeOf(s.threads[j].pc).value;
    Relies(s, j);
    assert Units(Claim, s.threads[j].pc, node) >= 1;
    ClaimedIsLive(s, j, node);
  }

  lemma OthersKeepValues(s: State, t: nat, act: Action, j: nat)
    requires Inv(s) && Enabled(s, t, act) && j < |s.threads| && j != t && NodeOf(s.threads[j].pc).Some?
    ensures var node := NodeOf(s.threads[j].pc).value;
      At(Next(s, t, act).heap, node).val == At(s.heap, node).val
  {
    var node := NodeOf(s.threads[j].pc).value;
    NodeIsMine(s, j);
    Relies(s, t);
    if act.Go? {
      GetKeepsValues(s, t, act.spurious, node);
      ExchangeKeepsValues(s, t, act.spurious, node);
      PopKeepsValues(s, t, node);
    }
  }

  // ---- every step ----

  lemma ActorCallsOk(s: State, t: nat, act: Action)
    requires Inv(s) && Enabled(s, t, act) && ThreadCallsOk(s.heap, s.threads[t]) && Inv(Next(s, t, act))
    ensures t < |Next(s, t, act).threads| && ThreadCallsOk(Next(s, t, act).heap, Next(s, t, act).threads[t])
  {
    if act.Go? {
      GoCarries(s, t, act.spurious);
      Relies(Next(s, t, act), t);
      CarriedOk(s, Next(s, t, act), t);
    }
  }

  lemma CarriedOk(s: State, s': State, t: nat)
    requires t < |s.threads| && Carries(s, s', t) && !s'.threads[t].pc.Fault? && !s.threads[t].pc.Idle?
    requires ThreadCallsOk(s.heap, s.threads[t])
    ensures ThreadCallsOk(s'.heap, s'.threads[t])
  {
  }

  lemma StepCallsOk(s: State, t: nat, act: Action)
    requires Inv(s) && CallsOk(s) && Enabled(s, t, act) && Room(s, t)
    ensures CallsOk(Next(s, t, act))
  {
    var s' := Next(s, t, act);
    StepOk(s, t, act);
    ActorCallsOk(s, t, act);
    StepAccounted(s, t, act);
    forall j | 0 <= j < |s'.threads| ensures ThreadCallsOk(s'.heap, s'.threads[j]) {
      if j != t {
        assert ThreadCallsOk(s.heap, s.threads[j]);
        if NodeOf(s.threads[j].pc).Some? { OthersKeepValues(s, t, act, j); }
      }
    }
  }

  lemma {:induction false} CallsRunOk(n: nat, trace: seq<State>, moves: seq<Move>, i: nat)
    requires IsRun(n, trace, moves) && WithinBound(trace, moves) && i < |trace|
    ensures CallsOk(trace[i])
  {
    if i > 0 {
      CallsRunOk(n, trace, moves, i - 1);
      RunOk(n, trace, moves, i - 1);
      StepCallsOk(trace[i - 1], moves[i - 1].thread, moves[i - 1].action);
    }
  }

  lemma ReachableCallsOk(n: nat, s: State)
    requires Reachable(n, s)
    ensures CallsOk(s)
  {
    var trace: seq<State>, moves: seq<Move> :| IsRun(n, trace, moves) && WithinBound(trace, moves) && trace[|trace| - 1] == s;
    CallsRunOk(n, trace, moves, |trace| - 1);
  }

  /** An effect that has happened but not been returned yet answers the call, too. */
  lemma PendingAnswers(heap: seq<Block>, th: Thread)
    requires ThreadCallsOk(heap, th) && !th.pc.Fault?
    ensures AnswerAll(th.calls, th.results + Pending(th.pc))
  {
    var effects := th.results + Pending(th.pc);
    forall k | 0 <= k < |effects| ensures Answers(th.calls[k], effects[k]) {
      if k < |th.results| { assert effects[k] == th.results[k]; }
    }
  }
}
