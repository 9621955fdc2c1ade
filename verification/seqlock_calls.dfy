/** Stored messages and loaded ones belong to the calls that were made, and loads are never behind finished stores. */
module SeqLockCalls {
  import opened Options
  import opened SeqLockMachine
  import opened SeqLockProof
  import opened SeqLockTheorems

  predicate Answers(call: Call, o: Outcome) {
    match call
    case StoreCall(j, m) => o.Stored? && o.cell == j && o.m == m
    case LoadCall(j) => o.Loaded? && o.cell == j
  }

  /** What the thread is doing is what it was called for. */
  predicate Serves(pc: Pc, call: Call) {
    match pc
    case Idle => false
    case LockLoad(j, m) => call == StoreCall(j, m)
    case LockCas(j, m, _) => call == StoreCall(j, m)
    case Copy(j, m, _, _) => call == StoreCall(j, m)
    case SetSize(j, m, _) => call == StoreCall(j, m)
    case Unlock(j, m, _) => call == StoreCall(j, m)
    case LoadSeq(j) => call == LoadCall(j)
    case ReadSize(j, _, _) => call == LoadCall(j)
    case ReadData(j, _, _, _, _) => call == LoadCall(j)
    case Validate(j, _, _, _) => call == LoadCall(j)
  }

  ghost predicate CallsOk(th: Thread) {
    && |th.calls| == |th.results| + (if th.pc.Idle? then 0 else 1)
    && (forall k :: 0 <= k < |th.results| ==> Answers(th.calls[k], th.results[k]))
    && (!th.pc.Idle? ==> Serves(th.pc, th.calls[|th.calls| - 1]))
  }

  /** Some call has returned from storing message number k of cell j. */
  ghost predicate HasStorer(s: State, j: nat, k: nat)
    requires j < |s.cells| && k < |s.cells[j].stores|
  {
    exists t, i :: 0 <= t < |s.threads| && 0 <= i < |s.threads[t].results| && s.threads[t].results[i] == Stored(j, s.cells[j].stores[k], k)
  }

  ghost predicate HistoryOk(s: State) {
    && (forall t :: 0 <= t < |s.threads| ==> CallsOk(s.threads[t]))
    && (forall j, k :: 0 <= j < |s.cells| && 0 < k < |s.cells[j].stores| ==> HasStorer(s, j, k))
  }

  // ---- steps ----

  /** How a step of a thread adds to its history. */
  ghost predicate Continues(s: State, s': State, t: nat)
    requires t < |s.threads|
  {
    && |s'.threads| == |s.threads| && s'.threads == s.threads[t := s'.threads[t]] && |s'.cells| == |s.cells|
    && s.threads[t].results <= s'.threads[t].results
    && (CallsOk(s.threads[t]) ==> CallsOk(s'.threads[t]))
    && (forall j :: 0 <= j < |s.cells| ==>
          s'.cells[j].stores == s.cells[j].stores
          || (|s'.cells[j].stores| == |s.cells[j].stores| + 1 && s.cells[j].stores <= s'.cells[j].stores
              && |s'.threads[t].results| == |s.threads[t].results| + 1
              && s'.threads[t].results[|s.threads[t].results|] == Stored(j, s'.cells[j].stores[|s.cells[j].stores|], |s.cells[j].stores|)))
  }

  lemma StoreContinues(s: State, t: nat, spurious: bool)
    requires t < |s.threads| && InBounds(s, t) && Storing(s.threads[t].pc)
    ensures Continues(s, StoreStep(s, t, spurious), t)
  {
  }

  lemma LoadContinues(s: State, t: nat)
    requires t < |s.threads| && InBounds(s, t) && !Storing(s.threads[t].pc) && !s.threads[t].pc.Idle?
    ensures Continues(s, LoadStep(s, t), t)
  {
  }

  lemma StepContinues(s: State, t: nat, act: Action)
    requires Enabled(s, t, act) && InBounds(s, t)
    ensures Continues(s, Next(s, t, act), t)
  {
    if act.Go? {
      if Storing(s.threads[t].pc) { StoreContinues(s, t, act.spurious); } else { LoadContinues(s, t); }
    }
  }

  lemma ContinuesOk(s: State, s': State, t: nat)
    requires HistoryOk(s) && t < |s.threads| && Continues(s, s', t)
    ensures HistoryOk(s')
  {
    forall j, k | 0 <= j < |s'.cells| && 0 < k < |s'.cells[j].stores| ensures HasStorer(s', j, k) {
      if k < |s.cells[j].stores| {
        assert HasStorer(s, j, k);
        var u, i :| 0 <= u < |s.threads| && 0 <= i < |s.threads[u].results| && s.threads[u].results[i] == Stored(j, s.cells[j].stores[k], k);
        assert s'.threads[u].results[i] == s.threads[u].results[i];
      }
    }
  }

  lemma {:induction false} HistoryRunOk(init: State, trace: seq<State>, moves: seq<Move>, i: nat)
    requires IsInit(init) && IsRun(init, trace, moves) && i < |trace|
    ensures HistoryOk(trace[i])
  {
    if i > 0 {
      HistoryRunOk(init, trace, moves, i - 1);
      StepContinues(trace[i - 1], moves[i - 1].thread, moves[i - 1].action);
      ContinuesOk(trace[i - 1], trace[i], moves[i - 1].thread);
    }
  }

  // ---- what callers may rely on ----

  /** Every returned call has a result of its kind, for its cell, a store the one for its own message. */
  lemma CallsAreAnswered(init: State, trace: seq<State>, moves: seq<Move>, i: nat, t: nat)
    requires IsInit(init) && IsRun(init, trace, moves) && i < |trace| && t < |trace[i].threads|
    ensures var th := trace[i].threads[t];
      && |th.calls| == |th.results| + (if th.pc.Idle? then 0 else 1)
      && forall k :: 0 <= k < |th.results| ==> Answers(th.calls[k], th.results[k])
  {
    HistoryRunOk(init, trace, moves, i);
    assert CallsOk(trace[i].threads[t]);
  }

  /** Message number k > 0 of a cell is the argument of a Store call on that cell that has returned. */
  lemma StoreHasItsCall(init: State, trace: seq<State>, moves: seq<Move>, i: nat, j: nat, k: nat) returns (t: nat, m: nat)
    requires IsInit(init) && IsRun(init, trace, moves) && i < |trace|
    requires j < |trace[i].cells| && 0 < k < |trace[i].cells[j].stores|
    ensures t < |trace[i].threads| && m < |trace[i].threads[t].results| <= |trace[i].threads[t].calls|
    ensures var th, x := trace[i].threads[t], trace[i].cells[j].stores[k];
      th.calls[m] == StoreCall(j, x) && th.results[m] == Stored(j, x, k)
  {
    HistoryRunOk(init, trace, moves, i);
    var s := trace[i];
    assert HasStorer(s, j, k);
    t, m :| 0 <= t < |s.threads| && 0 <= m < |s.threads[t].results| && s.threads[t].results[m] == Stored(j, s.cells[j].stores[k], k);
    assert CallsOk(s.threads[t]) && Answers(s.threads[t].calls[m], s.threads[t].results[m]);
  }

  // ---- real time ----

  /** The count at the first reading of the load the thread is in. */
  function Began(pc: Pc): Option<nat> {
    match pc
    case ReadSize(_, _, from) => Some(from)
    case ReadData(_, _, from, _, _) => Some(from)
    case Validate(_, _, from, _) => Some(from)
    case _ => None
  }

  /** Whatever thread t has loaded since state s, or is loading, is at least as new as the contents of s. */
  ghost predicate Fresh(s: State, s': State, t: nat) {
    && |s'.cells| == |s.cells| && t < |s.threads| == |s'.threads| && |s.threads[t].results| <= |s'.threads[t].results|
    && (forall j :: 0 <= j < |s.cells| ==> s.cells[j].total <= s'.cells[j].total)
    && (Began(s'.threads[t].pc).Some? ==>
          s'.threads[t].pc.j < |s.cells| && s.cells[s'.threads[t].pc.j].total <= Began(s'.threads[t].pc).value)
    && (forall k :: |s.threads[t].results| <= k < |s'.threads[t].results| && s'.threads[t].results[k].Loaded? ==>
          s'.threads[t].results[k].cell < |s.cells| && s.cells[s'.threads[t].results[k].cell].total <= s'.threads[t].results[k].from)
  }

  lemma StaysFresh(s0: State, s: State, t: nat, u: nat, act: Action)
    requires Inv(s) && Enabled(s, u, act) && InBounds(s, u) && Fresh(s0, s, t)
    ensures Fresh(s0, Next(s, u, act), t)
  {
    Relies(s, t);
    StepContinues(s, u, act);
    forall j | 0 <= j < |s0.cells| ensures s0.cells[j].total <= Next(s, u, act).cells[j].total { StoresStay(s, u, act, j); }
    if u == t { LoaderStaysFresh(s0, s, t, act); }
  }

  lemma LoaderStaysFresh(s0: State, s: State, t: nat, act: Action)
    requires Enabled(s, t, act) && InBounds(s, t) && Fresh(s0, s, t)
    ensures var th := Next(s, t, act).threads[t];
      && (Began(th.pc).Some? ==> th.pc.j < |s0.cells| && s0.cells[th.pc.j].total <= Began(th.pc).value)
      && (th.results == s.threads[t].results
          || (|th.results| == |s.threads[t].results| + 1 && th.results[..|s.threads[t].results|] == s.threads[t].results
              && var o := th.results[|s.threads[t].results|];
                 o.Loaded? ==> o.cell < |s0.cells| && s0.cells[o.cell].total <= o.from))
  {
  }

  /**
   * A load that begins at state a or later returns nothing older than what was
   * in the cell at state a: with LoadIsSnapshot, a message stored last by then
   * or one stored since.
   */
  lemma {:induction false} LoadIsFresh(init: State, trace: seq<State>, moves: seq<Move>, a: nat, b: nat, t: nat)
    requires IsInit(init) && IsRun(init, trace, moves) && a <= b < |trace|
    requires t < |trace[a].threads| && trace[a].threads[t].pc.Idle?
    ensures Fresh(trace[a], trace[b], t)
    decreases b
  {
    if a < b {
      LoadIsFresh(init, trace, moves, a, b - 1, t);
      RunOk(init, trace, moves, b - 1);
      FreshAfter(init, trace, moves, trace[a], b - 1, t);
    } else {
      StartsFresh(trace[a], t);
    }
  }

  lemma StartsFresh(s: State, t: nat)
    requires t < |s.threads| && s.threads[t].pc.Idle?
    ensures Fresh(s, s, t)
  {
  }

  lemma FreshAfter(init: State, trace: seq<State>, moves: seq<Move>, s0: State, b: nat, t: nat)
    requires IsRun(init, trace, moves) && b < |moves| && Inv(trace[b]) && Fresh(s0, trace[b], t) == true
    ensures Fresh(s0, trace[b + 1], t)
  {
    var s, s', u, act := trace[b], trace[b + 1], moves[b].thread, moves[b].action;
    StaysFresh(s0, s, t, u, act);
    assert s' == Next(s, u, act);
  }
}
