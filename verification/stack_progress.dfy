/**
 * Progress: a thread that runs alone finishes its Push or Pop, whatever state
 * the others have left behind, in a bounded number of its own steps. An attempt
 * begun before may be lost; one begun alone is not.
 */
module StackProgress {
  import opened Sums
  import opened PackedWord
  import opened StackMachine
  import opened StackCounts
  import opened StackInvariant
  import opened StackSteps
  import opened StackEffects
  import opened StackTheorems
  import opened StackCalls
  import RingIndex

  // ---- how far a thread is from the end of its call, in steps and bounds of cascades ----

  /** compareExchange past its increment: 21..35 if the swap will go through, 61..65 if the attempt is lost. */
  function ExchangeStage(s: State, pc: Pc): nat
    requires Exchanging(pc) && !pc.CasEnter? && !pc.CasAcquire?
  {
    var w, current := s.word, Ptr(pc.holder) == Ptr(s.word);
    match pc
    case CasRead(_, want, h, _) => if current && At(s.heap, Ptr(h)).data == want then 35 else 65
    case DrainAdd(_, _, _, e) => if !current then 63 else if w == e then 29 else if Cnt(w) == 0 then 24 else 33
    case DrainCas(_, _, _, e) => if !current then 62 else if w == e then 28 else if Cnt(w) == 0 then 23 else 32
    case DrainUndo(_, _, h, _, e, _) =>
      if Ptr(e) != Ptr(h) then 61 else if !current then 64
      else if w != e then 34 else if Cnt(w) == 0 then 22 else 31
    case Swap(_, _, _, e) => if !current then 61 else if w == e then 21 else 30
  }

  /** Where a call stands once a release is over. */
  function ContStage(s: State, k: Cont): nat {
    match k
    case AfterPrev(node) => if Want(s, PushFrame(node)) == Installed(s) then 37 else 67
    case Lost(_, _) => 47
    case Won(_, _) => 6
    case Redo(_) => 45
    case Look(top, _) => if Ptr(top) == Ptr(s.word) then 39 else 69
    case Finish(_) => 0
  }

  function Stage(s: State, pc: Pc): nat {
    match pc
    case Idle => 0
    case GetAdd(_) => 46
    case GetRef(_, copy) => if Ptr(copy) == Ptr(s.word) then 45 else 75
    case GetReturn(_, copy, e) => (if Ptr(copy) == Ptr(s.word) then 43 else 73) + (if s.word == e then 0 else 1)
    case GetForfeit(_, copy) => if Ptr(copy) == Ptr(s.word) then 41 else 71
    case SetPrev(_, block) => if block == Ptr(s.word) then 40 else 70
    case CasEnter(f) => if Want(s, f) == Installed(s) then 37 else 67
    case CasAcquire(_, want) => if want == Installed(s) then 36 else 66
    case Retire(_, k) => ContStage(s, k) + 6
    case Release(_, e, k) => ContStage(s, k) + (if s.word == e then 4 else 5)
    case ReleaseGlobal(_, k) => ContStage(s, k) + 3
    case Unref(_, k) => ContStage(s, k) + 1
    case Free(_, k) => ContStage(s, k) + 1
    case PopAcquire => 40
    case PopReacquire(_) => 45
    case PopRead(top, _) => if Ptr(top) == Ptr(s.word) then 39 else 69
    case PopCopy(top) => if Ptr(top) == Ptr(s.word) then 38 else 68
    case PopTake(_, _) => 6
    case Fault(_) => 0
    case _ => ExchangeStage(s, pc)
  }

  function LiveColumn(heap: seq<Block>): (c: seq<nat>)
    ensures |c| == |heap| && forall i :: 0 <= i < |heap| ==> c[i] == if heap[i].live then 1 else 0
  {
    seq(|heap|, i requires 0 <= i < |heap| => if heap[i].live then 1 else 0)
  }

  /** How many blocks a cascade could still delete. */
  function LiveBlocks(heap: seq<Block>): nat { Sum(LiveColumn(heap)) }

  lemma LiveBound(heap: seq<Block>)
    ensures LiveBlocks(heap) <= |heap|
  {
    SumBound(LiveColumn(heap), 1);
  }

  /** Deleting in turn: the step from Unref to Free, then one live block less. */
  function CascadeRank(s: State, pc: Pc): nat { 2 * LiveBlocks(s.heap) + (if pc.Free? then 0 else 1) }

  function Rank(s: State, pc: Pc): nat { Stage(s, pc) * (2 * |s.heap| + 2) + CascadeRank(s, pc) }

  // ---- every lone step ----

  /** The step brings the thread nearer to the end of its call. */
  ghost predicate Nearer(s: State, s': State, t: nat)
    requires t < |s.threads|
  {
    && |s'.threads| == |s.threads|
    && (!s'.threads[t].pc.Fault? ==>
          || Stage(s', s'.threads[t].pc) < Stage(s, s.threads[t].pc)
          || (Stage(s', s'.threads[t].pc) == Stage(s, s.threads[t].pc)
              && CascadeRank(s', s'.threads[t].pc) < CascadeRank(s, s.threads[t].pc)))
  }

  /** What the steps leave alone that the stages look at. */
  ghost predicate SameView(s: State, s': State) {
    && Ptr(s'.word) == Ptr(s.word)
    && (forall b :: At(s'.heap, b).data == At(s.heap, b).data && At(s'.heap, b).prev == At(s.heap, b).prev)
  }

  lemma SameStages(s: State, s': State, k: Cont)
    requires SameView(s, s')
    ensures ContStage(s', k) == ContStage(s, k)
  {
  }

  lemma RefView(heap: seq<Block>, x: nat, d: int, b: nat)
    ensures At(AddRef(heap, x, d), b).data == At(heap, b).data && At(AddRef(heap, x, d), b).prev == At(heap, b).prev
  {
  }

  lemma GetNearer(s: State, t: nat)
    requires Inv(s) && t < |s.threads| && Room(s, t) && Getting(s.threads[t].pc) && !s.threads[t].pc.SetPrev?
    ensures Nearer(s, GetStep(s, t, false), t)
  {
    Relies(s, t);
    match s.threads[t].pc
    case GetAdd(_) => RoomForUnit(s, t);
    case GetReturn(_, copy, e) => if s.word == e { DecFields(e); }
    case _ =>
  }

  lemma PrevNearer(s: State, t: nat)
    requires Inv(s) && t < |s.threads| && s.threads[t].pc.SetPrev?
    ensures Nearer(s, GetStep(s, t, false), t)
  {
    Relies(s, t);
    var pc, s' := s.threads[t].pc, GetStep(s, t, false);
    assert At(s'.heap, pc.node).prev == pc.block;
    assert At(s'.heap, pc.block).data == At(s.heap, pc.block).data && Installed(s') == Installed(s);
  }

  lemma PopNearer(s: State, t: nat)
    requires Inv(s) && t < |s.threads| && Room(s, t)
    requires var pc := s.threads[t].pc; pc.PopAcquire? || pc.PopReacquire? || pc.PopRead? || pc.PopCopy? || pc.PopTake?
    ensures Nearer(s, PopStep(s, t), t)
  {
    Relies(s, t);
    var pc, s' := s.threads[t].pc, PopStep(s, t);
    if pc.PopAcquire? || pc.PopReacquire? { RoomForUnit(s, t); }
    if pc.PopCopy? {
      RefView(s.heap, At(s.heap, Ptr(pc.top)).prev, 1, Ptr(pc.top));
      RefView(s.heap, At(s.heap, Ptr(pc.top)).prev, 1, Ptr(s.word));
    }
  }

  /** After a release the call goes on where the continuation says. */
  lemma ResumeNearer(s: State, t: nat, k: Cont)
    requires t < |s.threads|
    ensures |Resume(s, t, k).threads| == |s.threads|
    ensures Stage(Resume(s, t, k), Resume(s, t, k).threads[t].pc) <= ContStage(s, k)
  {
  }

  lemma ReleaseNearer(s: State, t: nat)
    requires Inv(s) && t < |s.threads| && (s.threads[t].pc.Release? || s.threads[t].pc.ReleaseGlobal?)
    ensures Nearer(s, ReleaseStep(s, t, false), t)
  {
    Relies(s, t);
    match s.threads[t].pc
    case Release(h, e, k) =>
      if s.word == e {
        DecFields(e);
        ResumeNearer(s.(word := Dec(e)), t, k);
        SameStages(s, s.(word := Dec(e)), k);
      }
    case ReleaseGlobal(h, k) =>
      var s' := s.(heap := AddRef(s.heap, Ptr(h), -1));
      forall b ensures At(s'.heap, b).data == At(s.heap, b).data && At(s'.heap, b).prev == At(s.heap, b).prev {
        RefView(s.heap, Ptr(h), -1, b);
      }
      ResumeNearer(s', t, k);
      SameStages(s, s', k);
  }

  lemma UnrefNearer(s: State, t: nat)
    requires Inv(s) && t < |s.threads| && s.threads[t].pc.Unref?
    ensures Nearer(s, UnrefStep(s, t), t)
  {
    Relies(s, t);
    var b, k := s.threads[t].pc.block, s.threads[t].pc.rest;
    var s' := s.(heap := AddRef(s.heap, b, -1));
    forall a ensures At(s'.heap, a).data == At(s.heap, a).data && At(s'.heap, a).prev == At(s.heap, a).prev { RefView(s.heap, b, -1, a); }
    ResumeNearer(s', t, k);
    SameStages(s, s', k);
    assert LiveColumn(s'.heap) == LiveColumn(s.heap);
  }

  lemma FreeNearer(s: State, t: nat)
    requires Inv(s) && t < |s.threads| && s.threads[t].pc.Free?
    ensures Nearer(s, UnrefStep(s, t), t)
  {
    Relies(s, t);
    var b, k := s.threads[t].pc.block, s.threads[t].pc.rest;
    LastOne(s, t, b, k);
    var s' := s.(heap := Put(s.heap, b, At(s.heap, b).(live := false)));
    ResumeNearer(s', t, k);
    SameStages(s, s', k);
    assert LiveColumn(s'.heap) == LiveColumn(s.heap)[b := 0];
    SumUpdate(LiveColumn(s.heap), b, 0);
  }

  // ---- compareExchange ----

  lemma EnterNearer(s: State, t: nat)
    requires Inv(s) && t < |s.threads| && Room(s, t) && (s.threads[t].pc.CasEnter? || s.threads[t].pc.CasAcquire?)
    ensures Nearer(s, CompareExchangeStep(s, t, false), t)
  {
    Relies(s, t);
    if s.threads[t].pc.CasAcquire? { RoomForUnit(s, t); }
  }

  lemma ReadNearer(s: State, t: nat)
    requires Inv(s) && t < |s.threads| && s.threads[t].pc.CasRead?
    ensures Nearer(s, CompareExchangeStep(s, t, false), t)
  {
    Relies(s, t);
    PackFields(Ptr(s.threads[t].pc.holder));
  }

  lemma DrainNearer(s: State, t: nat)
    requires Inv(s) && t < |s.threads| && (s.threads[t].pc.DrainAdd? || s.threads[t].pc.DrainUndo?)
    ensures Nearer(s, CompareExchangeStep(s, t, false), t)
  {
    Relies(s, t);
    if s.threads[t].pc.DrainUndo? && Ptr(s.word) == Ptr(s.threads[t].pc.expected) && Cnt(s.word) == Cnt(s.threads[t].pc.expected) {
      SameFields(s.word, s.threads[t].pc.expected);
    }
  }

  lemma DrainCasNearer(s: State, t: nat)
    requires Inv(s) && t < |s.threads| && s.threads[t].pc.DrainCas?
    ensures Nearer(s, CompareExchangeStep(s, t, false), t)
  {
    Relies(s, t);
    ClearFields(s.word);
  }

  lemma SwapNearer(s: State, t: nat)
    requires Inv(s) && t < |s.threads| && s.threads[t].pc.Swap?
    ensures Nearer(s, CompareExchangeStep(s, t, false), t)
  {
    Relies(s, t);
    var pc := s.threads[t].pc;
    if s.word == pc.expected {
      SwapDoneNearer(s, t, pc.frame, pc.holder);
    } else {
      SwapFailedNearer(s, t, pc.frame, pc.want, pc.holder, pc.expected);
    }
  }

  /** After a successful swap at most twelve stages are left. */
  lemma SwapDoneNearer(s: State, t: nat, f: Frame, h: nat)
    requires t < |s.threads|
    ensures var s' := SwapDone(s, t, f, h);
      |s'.threads| == |s.threads| && (!s'.threads[t].pc.Fault? ==> Stage(s', s'.threads[t].pc) <= 12)
  {
  }

  lemma SwapFailedNearer(s: State, t: nat, f: Frame, want: nat, h: nat, e: nat)
    requires t < |s.threads| && s.threads[t].pc == Swap(f, want, h, e) && s.word != e && Ptr(e) == Ptr(h) && Cnt(e) == 0
    ensures Nearer(s, Dispatch(s, t, f, want, h, s.word, Installed(s) != want), t)
  {
    if Ptr(s.word) == Ptr(e) && Cnt(s.word) == Cnt(e) { SameFields(s.word, e); }
  }

  lemma RetireNearer(s: State, t: nat)
    requires Inv(s) && t < |s.threads| && s.threads[t].pc.Retire?
    ensures Nearer(s, CompareExchangeStep(s, t, false), t)
  {
    Relies(s, t);
    var h, k := s.threads[t].pc.holder, s.threads[t].pc.rest;
    var s' := s.(heap := AddRef(s.heap, Ptr(h), -1));
    forall a ensures At(s'.heap, a).data == At(s.heap, a).data && At(s'.heap, a).prev == At(s.heap, a).prev {
      RefView(s.heap, Ptr(h), -1, a);
    }
    SameStages(s, s', k);
  }

  lemma StepNearer(s: State, t: nat)
    requires Inv(s) && Enabled(s, t, Go(false)) && Room(s, t)
    ensures Nearer(s, Next(s, t, Go(false)), t)
  {
    var pc := s.threads[t].pc;
    if Getting(pc) {
      if pc.SetPrev? { PrevNearer(s, t); } else { GetNearer(s, t); }
    } else if pc.Release? || pc.ReleaseGlobal? {
      ReleaseNearer(s, t);
    } else if pc.Unref? {
      UnrefNearer(s, t);
    } else if pc.Free? {
      FreeNearer(s, t);
    } else if pc.Retire? {
      RetireNearer(s, t);
    } else if Exchanging(pc) {
      match pc
      case CasRead(_, _, _, _) => ReadNearer(s, t);
      case DrainAdd(_, _, _, _) => DrainNearer(s, t);
      case DrainUndo(_, _, _, _, _, _) => DrainNearer(s, t);
      case DrainCas(_, _, _, _) => DrainCasNearer(s, t);
      case Swap(_, _, _, _) => SwapNearer(s, t);
      case _ => EnterNearer(s, t);
    } else {
      PopNearer(s, t);
    }
  }

  // ---- to the end of the call ----

  /** Inside a call the heap has no new addresses. */
  lemma GetKeepsSize(s: State, t: nat)
    requires Inv(s) && t < |s.threads|
    ensures Getting(s.threads[t].pc) ==> |GetStep(s, t, false).heap| == |s.heap|
    ensures s.threads[t].pc.Release? || s.threads[t].pc.ReleaseGlobal? ==> |ReleaseStep(s, t, false).heap| == |s.heap|
    ensures s.threads[t].pc.Unref? || s.threads[t].pc.Free? ==> |UnrefStep(s, t).heap| == |s.heap|
  {
    Relies(s, t);
  }

  lemma ExchangeKeepsSize(s: State, t: nat)
    requires Inv(s) && t < |s.threads| && (Exchanging(s.threads[t].pc) || s.threads[t].pc.Retire?)
    ensures |CompareExchangeStep(s, t, false).heap| == |s.heap|
  {
    Relies(s, t);
  }

  lemma PopKeepsSize(s: State, t: nat)
    requires Inv(s) && t < |s.threads|
    ensures |PopStep(s, t).heap| == |s.heap|
  {
    Relies(s, t);
    var pc := s.threads[t].pc;
    if pc.PopCopy? { assert NodeOk(s.heap, Ptr(pc.top)); ClaimedIsLive(s, t, Ptr(pc.top)); }
  }

  lemma GoKeepsSize(s: State, t: nat)
    requires Inv(s) && Enabled(s, t, Go(false))
    ensures |Next(s, t, Go(false)).heap| == |s.heap|
  {
    GetKeepsSize(s, t);
    PopKeepsSize(s, t);
    if Exchanging(s.threads[t].pc) || s.threads[t].pc.Retire? { ExchangeKeepsSize(s, t); }
  }

  /** The stages in lexicographic order, as one number. */
  lemma NearerIsLess(s: State, s': State, t: nat)
    requires t < |s.threads| && Nearer(s, s', t) && !s'.threads[t].pc.Fault? && |s'.heap| == |s.heap|
    ensures Rank(s', s'.threads[t].pc) < Rank(s, s.threads[t].pc)
  {
    var n, a, b := 2 * |s.heap| + 2, Stage(s', s'.threads[t].pc), Stage(s, s.threads[t].pc);
    LiveBound(s'.heap);
    if a < b { RingIndex.MulStep(a, b, n); }
  }

  lemma RankBound(s: State, pc: Pc)
    ensures Rank(s, pc) < 76 * (2 * |s.heap| + 2)
  {
    LiveBound(s.heap);
    StageBound(s, pc);
    if Stage(s, pc) < 75 { RingIndex.MulStep(Stage(s, pc), 75, 2 * |s.heap| + 2); }
  }

  lemma StageBound(s: State, pc: Pc)
    ensures Stage(s, pc) <= 75
  {
  }

  lemma ReachStep(n: nat, s: State, t: nat, act: Action)
    requires Reachable(n, s) && Enabled(s, t, act) && Room(s, t)
    ensures Reachable(n, Next(s, t, act))
  {
    var trace: seq<State>, moves: seq<Move> :| IsRun(n, trace, moves) && WithinBound(trace, moves) && trace[|trace| - 1] == s;
    ExtendRun(n, trace, moves, s, t, act);
    var trace' := trace + [Next(s, t, act)];
    assert trace'[|trace'| - 1] == Next(s, t, act);
  }

  lemma ExtendRun(n: nat, trace: seq<State>, moves: seq<Move>, s: State, t: nat, act: Action)
    requires IsRun(n, trace, moves) && WithinBound(trace, moves) && trace[|trace| - 1] == s
    requires Enabled(s, t, act) && Room(s, t)
    ensures IsRun(n, trace + [Next(s, t, act)], moves + [Move(t, act)])
    ensures WithinBound(trace + [Next(s, t, act)], moves + [Move(t, act)])
  {
    var trace', moves' := trace + [Next(s, t, act)], moves + [Move(t, act)];
    assert trace'[0] == trace[0];
    forall i | 0 <= i < |moves'|
      ensures Enabled(trace'[i], moves'[i].thread, moves'[i].action)
      ensures trace'[i + 1] == Next(trace'[i], moves'[i].thread, moves'[i].action)
    {
      if i < |moves| { assert trace'[i] == trace[i] && moves'[i] == moves[i] && trace'[i + 1] == trace[i + 1]; }
    }
    forall i | 0 <= i < |moves'| && moves'[i].thread < |trace'[i].threads| ensures Room(trace'[i], moves'[i].thread) {
      if i < |moves| { assert trace'[i] == trace[i] && moves'[i] == moves[i]; }
    }
  }

  lemma ReachableThreads(n: nat, s: State)
    requires Reachable(n, s)
    ensures |s.threads| == n
  {
    var trace: seq<State>, moves: seq<Move> :| IsRun(n, trace, moves) && WithinBound(trace, moves) && trace[|trace| - 1] == s;
    ThreadsStay(n, trace, moves, |trace| - 1);
  }

  /** The states of thread t running alone, without spurious failures. */
  ghost predicate Alone(trace: seq<State>, t: nat) {
    |trace| > 0 && forall i :: 0 <= i < |trace| - 1 ==> Enabled(trace[i], t, Go(false)) && trace[i + 1] == Next(trace[i], t, Go(false))
  }

  /**
   * Lock freedom of Push and Pop, in the form of obstruction freedom with a
   * bound: from every reachable state of up to 500 threads, a call whose thread
   * runs alone returns, in fewer than 76 * (2 * |heap| + 2) of its steps.
   */
  lemma {:induction false} LoneCallReturns(n: nat, s: State, t: nat) returns (trace: seq<State>)
    requires n <= 500 && Reachable(n, s) && t < |s.threads| && !s.threads[t].pc.Idle?
    ensures Alone(trace, t) && trace[0] == s && |trace| - 1 <= Rank(s, s.threads[t].pc) < 76 * (2 * |s.heap| + 2)
    ensures var s' := trace[|trace| - 1];
      |s'.threads| == |s.threads| && s'.threads[t].pc.Idle? && |s'.threads[t].results| == |s.threads[t].results| + 1
    decreases Rank(s, s.threads[t].pc)
  {
    RankBound(s, s.threads[t].pc);
    var s' := LoneStep(n, s, t);
    if s'.threads[t].pc.Idle? {
      trace := [s, s'];
    } else {
      var rest := LoneCallReturns(n, s', t);
      trace := [s] + rest;
      forall i | 0 <= i < |trace| - 1 ensures Enabled(trace[i], t, Go(false)) && trace[i + 1] == Next(trace[i], t, Go(false)) {
        if i > 0 { assert trace[i] == rest[i - 1]; }
      }
    }
  }

  lemma LoneStep(n: nat, s: State, t: nat) returns (s': State)
    requires n <= 500 && Reachable(n, s) && t < |s.threads| && !s.threads[t].pc.Idle?
    ensures Enabled(s, t, Go(false)) && s' == Next(s, t, Go(false)) && Reachable(n, s')
    ensures |s'.threads| == |s.threads| && |s'.heap| == |s.heap| && Rank(s', s'.threads[t].pc) < Rank(s, s.threads[t].pc)
    ensures |s'.threads[t].results| == |s.threads[t].results| + (if s'.threads[t].pc.Idle? then 1 else 0)
  {
    ReachableOk(n, s);
    ReachableThreads(n, s);
    Relies(s, t);
    RoomForFew(s, t);
    s' := Next(s, t, Go(false));
    ReachStep(n, s, t, Go(false));
    ReachableOk(n, s');
    StepNearer(s, t);
    Relies(s', t);
    GoKeepsSize(s, t);
    NearerIsLess(s, s', t);
    GoCarries(s, t, false);
  }
}
