/**
 * The stack is linearizable: the log of effects is a legal sequential history,
 * every call has exactly one effect, inside the call, and returns its result.
 */
module StackLinearizability {
  import opened Options
  import opened PackedWord
  import opened StackMachine
  import opened StackInvariant
  import opened StackFrame
  import opened StackSteps
  import opened StackSafety
  import opened StackTheorems
  import opened StackAccounting
  import opened StackCalls

  /** Following prev_ from block b down to the sentinel yields these values. */
  predicate Lists(heap: seq<Block>, b: nat, values: seq<Value>)
    decreases |values|
  {
    && b < |heap| && heap[b].live
    && (if values == [] then heap[b].data == 0
        else heap[b].data != 0 && heap[b].val == Some(values[0]) && Lists(heap, heap[b].prev, values[1..]))
  }

  /** The abstract stack: what memory lists from the installed block. */
  predicate Represents(s: State, stack: seq<Value>) { Lists(s.heap, Ptr(s.word), stack) }

  /**
   * In every reachable state the memory represents exactly what the log leaves
   * on the stack, and thread by thread the log holds the effects of the calls
   * made: of all returned ones and possibly of the current one, in order, each
   * with the value it was called with.
   */
  lemma LogIsLegal(n: nat, s: State)
    requires Reachable(n, s)
    ensures Replay(s.log).Some? && Represents(s, Replay(s.log).value)
    ensures forall t :: 0 <= t < |s.threads| ==> LogAnswers(s.log, s.threads[t], t)
  {
    ReachableOk(n, s);
    ReachableCallsOk(n, s);
    LogIsListed(s);
    forall t | 0 <= t < |s.threads| ensures LogAnswers(s.log, s.threads[t], t) { CallsAreAnswered(s, t); }
  }

  ghost predicate LogAnswers(log: seq<Entry>, th: Thread, t: nat) {
    var effects := Project(log, t);
    && AnswerAll(th.calls, effects)
    && |th.calls| == |th.results| + (if th.pc.Idle? then 0 else 1)
    && |th.results| <= |effects| && effects[..|th.results|] == th.results
  }

  lemma CallsAreAnswered(s: State, t: nat)
    requires Inv(s) && CallsOk(s) && t < |s.threads|
    ensures LogAnswers(s.log, s.threads[t], t)
  {
    Relies(s, t);
    assert ThreadCallsOk(s.heap, s.threads[t]) && ResultsOk(s, t);
    PendingAnswers(s.heap, s.threads[t]);
  }

  lemma LogIsListed(s: State)
    requires Inv(s)
    ensures Replay(s.log).Some? && Represents(s, Replay(s.log).value)
  {
    ChainLists(s, 0);
    assert Replay(s.log).value[0..] == Replay(s.log).value;
  }

  lemma {:induction false} ChainLists(s: State, i: nat)
    requires Inv(s) && i < |s.chain|
    ensures Lists(s.heap, s.chain[i], Replay(s.log).value[i..])
    decreases |s.chain| - i
  {
    if i < |s.chain| - 1 {
      ChainLists(s, i + 1);
      assert Replay(s.log).value[i..][1..] == Replay(s.log).value[i + 1..];
    }
  }

  /** Memory lists at most one sequence of values. */
  lemma {:induction false} ListsOne(heap: seq<Block>, b: nat, x: seq<Value>, y: seq<Value>)
    requires Lists(heap, b, x) && Lists(heap, b, y)
    ensures x == y
    decreases |x|
  {
    if x != [] {
      ListsOne(heap, heap[b].prev, x[1..], y[1..]);
      assert x == [x[0]] + x[1..];
      assert y == [y[0]] + y[1..];
    }
  }

  /**
   * What one step of thread t does to the sequential stack: nothing visible, or
   * the effect of the call t is in, which had none before.
   */
  ghost predicate StackStep(s: State, t: nat, s': State, stack: seq<Value>)
    requires t < |s.threads|
  {
    && |s'.threads| == |s.threads|
    && if s'.log == s.log then Represents(s', stack) else
       && |s.threads[t].calls| > 0
       && exists e :: s'.log == s.log + [Entry(t, e)] && Pending(s.threads[t].pc) == [] && Pending(s'.threads[t].pc) == [e]
                   && Applies(s.threads[t].calls[|s.threads[t].calls| - 1], e, stack, s')
  }

  /** Push(v) puts v on top, Pop takes the top away or finds nothing there. */
  ghost predicate Applies(call: Call, e: Event, stack: seq<Value>, s': State) {
    match call
    case PushCall(v) => e == Pushed(v) && Represents(s', [v] + stack)
    case PopCall =>
      if stack == [] then e == SawEmpty && Represents(s', []) else e == Took(stack[0]) && Represents(s', stack[1..])
  }

  /** Every step of every thread is a step of the sequential stack. */
  lemma StepRefinesStack(n: nat, s: State, t: nat, act: Action, stack: seq<Value>)
    requires Reachable(n, s) && Enabled(s, t, act) && Room(s, t) && Represents(s, stack)
    ensures StackStep(s, t, Next(s, t, act), stack)
  {
    ReachableOk(n, s);
    ReachableCallsOk(n, s);
    var s' := Next(s, t, act);
    StepOk(s, t, act);
    StepCallsOk(s, t, act);
    StepAccounted(s, t, act);
    EffectConsumed(s, s', t);
    LogIsListed(s);
    LogIsListed(s');
    ListsOne(s.heap, Ptr(s.word), stack, Replay(s.log).value);
    if s'.log != s.log {
      var e :| s'.log == s.log + [Entry(t, e)] && Pending(s.threads[t].pc) == [] && Pending(s'.threads[t].pc) == [e];
      GoCarries(s, t, act.spurious);
      Relies(s', t);
      EffectApplies(s, s', t, e);
    }
  }

  lemma EffectApplies(s: State, s': State, t: nat, e: Event)
    requires t < |s.threads| == |s'.threads| && s'.log == s.log + [Entry(t, e)]
    requires Replay(s.log).Some? && Replay(s'.log).Some? && Represents(s', Replay(s'.log).value)
    requires CallsOk(s') && s'.threads[t].calls == s.threads[t].calls && !s'.threads[t].pc.Fault?
    requires Pending(s'.threads[t].pc) == [e]
    ensures |s.threads[t].calls| > 0
    ensures Applies(s.threads[t].calls[|s.threads[t].calls| - 1], e, Replay(s.log).value, s')
  {
    assert s'.log[..|s'.log| - 1] == s.log;
    var th := s'.threads[t];
    assert ThreadCallsOk(s'.heap, th);
    PendingAnswers(s'.heap, th);
    assert (th.results + [e])[|th.results|] == e;
  }

  /**
   * A step has at most one effect; it is the acting thread's, which had none
   * pending and now has that one; and a call returns only its pending effect.
   */
  lemma EffectInsideCall(n: nat, s: State, t: nat, act: Action)
    requires Reachable(n, s) && Enabled(s, t, act) && Room(s, t)
    ensures |Next(s, t, act).threads| == |s.threads|
    ensures var s' := Next(s, t, act);
      && (s'.log == s.log
          || (exists e :: s'.log == s.log + [Entry(t, e)] && Pending(s.threads[t].pc) == [] && Pending(s'.threads[t].pc) == [e]))
      && (s'.threads[t].results == s.threads[t].results
          || (s'.threads[t].pc.Idle? && s'.threads[t].results == s.threads[t].results + Pending(s.threads[t].pc)
              && |Pending(s.threads[t].pc)| == 1))
    ensures act.Go? ==> Next(s, t, act).threads[t].calls == s.threads[t].calls
    ensures act.StartPop? ==> Next(s, t, act).threads[t].calls == s.threads[t].calls + [PopCall]
    ensures act.StartPush? ==> Next(s, t, act).threads[t].calls == s.threads[t].calls + [PushCall(act.value)]
  {
    ReachableOk(n, s);
    StepOk(s, t, act);
    StepAccounted(s, t, act);
    EffectConsumed(s, Next(s, t, act), t);
    if act.Go? { GoCarries(s, t, act.spurious); }
  }

  lemma EffectConsumed(s: State, s': State, t: nat)
    requires t < |s.threads| && Accounted(s, s', t) && ResultsOk(s, t) && ResultsOk(s', t)
    ensures s'.log == s.log
         || (exists e :: s'.log == s.log + [Entry(t, e)] && Pending(s.threads[t].pc) == [] && Pending(s'.threads[t].pc) == [e])
    ensures s'.threads[t].results == s.threads[t].results
         || (s'.threads[t].pc.Idle? && s'.threads[t].results == s.threads[t].results + Pending(s.threads[t].pc)
             && |Pending(s.threads[t].pc)| == 1)
  {
    var before, after := s.threads[t], s'.threads[t];
    if s'.log != s.log {
      var e :| s'.log == s.log + [Entry(t, e)];
      assert s'.log[..|s'.log| - 1] == s.log;
      assert (before.results + Pending(before.pc)) + [e] == before.results + (Pending(before.pc) + [e]);
      Cancel(before.results, Pending(before.pc) + [e], Pending(after.pc));
    } else if after.results != before.results {
      assert before.results + Pending(before.pc) == after.results;
    }
  }

  lemma Cancel<T>(a: seq<T>, x: seq<T>, y: seq<T>)
    requires a + x == a + y
    ensures x == y
  {
    assert x == (a + x)[|a|..];
    assert y == (a + y)[|a|..];
  }

  /** Pop reports an empty stack only if it was empty when it looked at the head. */
  lemma EmptyWhenSeen(n: nat, s: State, t: nat, act: Action)
    requires Reachable(n, s) && Enabled(s, t, act) && Room(s, t)
    requires Next(s, t, act).log == s.log + [Entry(t, SawEmpty)]
    ensures Represents(s, [])
    ensures s.threads[t].pc.PopAcquire? || s.threads[t].pc.PopReacquire?
  {
    ReachableOk(n, s);
    LogIsListed(s);
    StepOk(s, t, act);
    var s' := Next(s, t, act);
    assert s'.log[..|s'.log| - 1] == s.log && s'.log[|s'.log| - 1] == Entry(t, SawEmpty);
    OnlyLookersSeeEmpty(s, t, act);
  }

  lemma OnlyLookersSeeEmpty(s: State, t: nat, act: Action)
    requires t < |s.threads| && Next(s, t, act).log == s.log + [Entry(t, SawEmpty)]
    ensures s.threads[t].pc.PopAcquire? || s.threads[t].pc.PopReacquire?
  {
    var log := Next(s, t, act).log;
    assert |log| == |s.log| + 1 && log[|s.log|] == Entry(t, SawEmpty);
  }

  // ---- each pushed element is popped at most once ----

  function PushedValues(log: seq<Entry>): multiset<Value> {
    if log == [] then multiset{} else
      var rest := PushedValues(log[..|log| - 1]);
      if log[|log| - 1].event.Pushed? then rest + multiset{log[|log| - 1].event.value} else rest
  }

  function TakenValues(log: seq<Entry>): multiset<Value> {
    if log == [] then multiset{} else
      var rest := TakenValues(log[..|log| - 1]);
      if log[|log| - 1].event.Took? then rest + multiset{log[|log| - 1].event.value} else rest
  }

  /** Elements are neither lost nor duplicated: pushed = taken + still on the stack. */
  lemma {:induction false} ElementsConserved(log: seq<Entry>)
    requires Replay(log).Some?
    ensures PushedValues(log) == TakenValues(log) + multiset(Replay(log).value)
  {
    if log != [] {
      var rest := log[..|log| - 1];
      ElementsConserved(rest);
      match log[|log| - 1].event
      case Pushed(v) => PushConserves(log, v);
      case Took(v) => TakeConserves(log, v);
      case SawEmpty =>
    }
  }

  lemma PushConserves(log: seq<Entry>, v: Value)
    requires log != [] && log[|log| - 1].event == Pushed(v) && Replay(log).Some?
    requires Replay(log[..|log| - 1]).Some?
    requires PushedValues(log[..|log| - 1]) == TakenValues(log[..|log| - 1]) + multiset(Replay(log[..|log| - 1]).value)
    ensures PushedValues(log) == TakenValues(log) + multiset(Replay(log).value)
  {
    OneOnTop(v, Replay(log[..|log| - 1]).value);
  }

  lemma TakeConserves(log: seq<Entry>, v: Value)
    requires log != [] && log[|log| - 1].event == Took(v) && Replay(log).Some?
    requires Replay(log[..|log| - 1]).Some?
    requires PushedValues(log[..|log| - 1]) == TakenValues(log[..|log| - 1]) + multiset(Replay(log[..|log| - 1]).value)
    ensures PushedValues(log) == TakenValues(log) + multiset(Replay(log).value)
  {
    var before := Replay(log[..|log| - 1]).value;
    assert before == [v] + before[1..];
    OneOnTop(v, before[1..]);
  }

  lemma OneOnTop(v: Value, values: seq<Value>)
    ensures multiset([v] + values) == multiset{v} + multiset(values)
  {
  }

  // ---- what a step may do to a block that stays live ----

  ghost predicate HeapStep(s: State, s': State, t: nat, b: nat)
    requires b < |s.heap|
  {
    b < |s'.heap| && (s'.heap[b].live ==> Keeps(s.heap[b], s'.heap[b], t))
  }

  lemma GetHeap(s: State, t: nat, spurious: bool, b: nat)
    requires Inv(s) && t < |s.threads| && b < |s.heap| && s.heap[b].live
    ensures HeapStep(s, GetStep(s, t, spurious), t, b)
  {
    Relies(s, t);
  }

  lemma SwapHeap(s: State, t: nat, f: Frame, h: nat, b: nat)
    requires Inv(s) && t < |s.threads| && b < |s.heap| && s.heap[b].live
    requires FrameOk(s, t, f) && Ptr(h) == Ptr(s.word)
    ensures HeapStep(s, SwapDone(s, t, f, h), t, b)
  {
    assert s.heap[s.chain[0]].stage == Listed;
  }

  lemma CompareExchangeHeap(s: State, t: nat, spurious: bool, b: nat)
    requires Inv(s) && t < |s.threads| && b < |s.heap| && s.heap[b].live
    ensures HeapStep(s, CompareExchangeStep(s, t, spurious), t, b)
  {
    var pc := s.threads[t].pc;
    if pc.Swap? && !spurious && s.word == pc.expected {
      Relies(s, t);
      SwapHeap(s, t, pc.frame, pc.holder, b);
    } else {
      RetryHeap(s, t, spurious, b);
    }
  }

  lemma RetryHeap(s: State, t: nat, spurious: bool, b: nat)
    requires t < |s.threads| && b < |s.heap| && s.heap[b].live
    requires var pc := s.threads[t].pc; !(pc.Swap? && !spurious && s.word == pc.expected)
    ensures HeapStep(s, CompareExchangeStep(s, t, spurious), t, b)
  {
  }

  lemma ReleaseHeap(s: State, t: nat, spurious: bool, b: nat)
    requires t < |s.threads| && b < |s.heap| && s.heap[b].live
    ensures HeapStep(s, ReleaseStep(s, t, spurious), t, b) && HeapStep(s, UnrefStep(s, t), t, b)
  {
  }

  lemma PopHeap(s: State, t: nat, b: nat)
    requires Inv(s) && t < |s.threads| && b < |s.heap| && s.heap[b].live
    ensures HeapStep(s, PopStep(s, t), t, b)
  {
    Relies(s, t);
  }

  lemma StepHeap(s: State, t: nat, act: Action, b: nat)
    requires Inv(s) && Enabled(s, t, act) && b < |s.heap| && s.heap[b].live
    ensures HeapStep(s, Next(s, t, act), t, b)
  {
    if act.Go? {
      GetHeap(s, t, act.spurious, b);
      CompareExchangeHeap(s, t, act.spurious, b);
      ReleaseHeap(s, t, act.spurious, b);
      PopHeap(s, t, b);
    }
  }

  /**
   * ABA: while a published node is live its data and prev_ are fixed, so a
   * pop that compared equal installs the right successor however often the
   * node has been uncovered; and a removed node never becomes the head again.
   */
  lemma PublishedIsStable(n: nat, s: State, t: nat, act: Action, b: nat)
    requires Reachable(n, s) && Enabled(s, t, act) && Room(s, t)
    requires 0 < b < |s.heap| && s.heap[b].live && !s.heap[b].stage.Private?
    ensures b < |Next(s, t, act).heap|
    ensures var s' := Next(s, t, act);
      && (s'.heap[b].live ==> s'.heap[b].prev == s.heap[b].prev && s'.heap[b].data == s.heap[b].data && !s'.heap[b].stage.Private?)
      && (s.heap[b].stage.Popped? ==> b != Ptr(s.word) && b != Ptr(s'.word) && (s'.heap[b].live ==> s'.heap[b].stage.Popped?))
  {
    ReachableOk(n, s);
    StepHeap(s, t, act, b);
    StepOk(s, t, act);
    HeadIsListed(s);
    HeadIsListed(Next(s, t, act));
  }

  lemma HeadIsListed(s: State)
    requires Inv(s)
    ensures Block?(s, Ptr(s.word)) && s.heap[Ptr(s.word)].live && s.heap[Ptr(s.word)].stage == Listed
  {
    assert s.heap[s.chain[0]].stage == Listed;
  }
}
