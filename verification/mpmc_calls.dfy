/** Tickets, elements and results belong to the calls that were made, with the arguments they were made with. */
module MpmcCalls {
  import opened Options
  import opened Pigeonhole
  import opened RingIndex
  import opened RingArithmetic
  import opened MpmcMachine
  import opened MpmcInvariant
  import opened MpmcSteps
  import opened MpmcTheorems

  /** The result a call may have. */
  predicate Answers(call: Call, r: Result) {
    match call
    case EnqueueCall(x) => r.Enqueued? && r.value == x
    case TryEnqueueCall(x) => r.Full? || (r.Enqueued? && r.value == x)
    case DequeueCall => r.Dequeued?
    case TryDequeueCall => r.Empty? || r.Dequeued?
  }

  /** What the thread is doing is what it was called for. */
  predicate Serves(pc: Pc, call: Call) {
    match pc
    case EnqueueTicket(x) => call == EnqueueCall(x)
    case EnqueueWait(x, _) => call == EnqueueCall(x)
    case EnqueueConstruct(x, _) => call == EnqueueCall(x) || call == TryEnqueueCall(x)
    case EnqueueStore(x, _) => call == EnqueueCall(x) || call == TryEnqueueCall(x)
    case TryEnqueueLoad(x) => call == TryEnqueueCall(x)
    case TryEnqueueCheck(x, _) => call == TryEnqueueCall(x)
    case TryEnqueueClaim(x, _) => call == TryEnqueueCall(x)
    case TryEnqueueReload(x, _, _) => call == TryEnqueueCall(x)
    case DequeueTicket => call.DequeueCall?
    case DequeueWait(_) => call.DequeueCall?
    case DequeueMove(_) => call.DequeueCall? || call.TryDequeueCall?
    case DequeueDestroy(_, _) => call.DequeueCall? || call.TryDequeueCall?
    case DequeueStore(_, _) => call.DequeueCall? || call.TryDequeueCall?
    case TryDequeueLoad => call.TryDequeueCall?
    case TryDequeueCheck(_) => call.TryDequeueCall?
    case TryDequeueClaim(_) => call.TryDequeueCall?
    case TryDequeueReload(_, _) => call.TryDequeueCall?
    case Idle => false
    case Fault => true
  }

  /** Each returned call has an answer of its kind, and the thread is in the last one. */
  ghost predicate CallsOk(th: Thread) {
    && |th.calls| == |th.results| + (if th.pc.Idle? then 0 else 1)
    && (forall k :: 0 <= k < |th.results| ==> Answers(th.calls[k], th.results[k]))
    && (!th.pc.Idle? ==> Serves(th.pc, th.calls[|th.calls| - 1]))
  }

  /** Ticket i is the thread's: it has returned with it or is working on it. */
  ghost predicate Enqueues(th: Thread, i: nat) {
    EnqueueTicketOf(th.pc) == Some(i) || exists k :: 0 <= k < |th.results| && th.results[k].Enqueued? && th.results[k].ticket == i
  }

  ghost predicate Dequeues(th: Thread, i: nat) {
    DequeueTicketOf(th.pc) == Some(i) || exists k :: 0 <= k < |th.results| && th.results[k].Dequeued? && th.results[k].ticket == i
  }

  ghost predicate HasEnqueuer(s: State, i: nat) { exists t :: 0 <= t < |s.threads| && Enqueues(s.threads[t], i) }

  ghost predicate HasDequeuer(s: State, i: nat) { exists t :: 0 <= t < |s.threads| && Dequeues(s.threads[t], i) }

  /** Every call is answered, and every ticket issued has its thread. */
  ghost predicate HistoryOk(s: State) {
    && (forall t :: 0 <= t < |s.threads| ==> CallsOk(s.threads[t]))
    && (forall i :: 0 <= i < s.tail ==> HasEnqueuer(s, i))
    && (forall i :: 0 <= i < s.head ==> HasDequeuer(s, i))
  }

  /** How a step of a thread adds to its history. */
  ghost predicate Continues(s: State, s': State, t: nat)
    requires t < |s.threads|
  {
    && Moves(s, s', t) && s.tail <= s'.tail && s.head <= s'.head
    && (CallsOk(s.threads[t]) ==> CallsOk(s'.threads[t]))
    && (forall i :: Enqueues(s.threads[t], i) ==> Enqueues(s'.threads[t], i))
    && (forall i :: Dequeues(s.threads[t], i) ==> Dequeues(s'.threads[t], i))
    && (forall i :: s.tail <= i < s'.tail ==> Enqueues(s'.threads[t], i))
    && (forall i :: s.head <= i < s'.head ==> Dequeues(s'.threads[t], i))
  }

  lemma Kept(th: Thread, th': Thread)
    requires th.results <= th'.results
    requires EnqueueTicketOf(th.pc).Some? ==> Enqueues(th', EnqueueTicketOf(th.pc).value)
    requires DequeueTicketOf(th.pc).Some? ==> Dequeues(th', DequeueTicketOf(th.pc).value)
    ensures forall i :: Enqueues(th, i) ==> Enqueues(th', i)
    ensures forall i :: Dequeues(th, i) ==> Dequeues(th', i)
  {
    forall i | Enqueues(th, i) ensures Enqueues(th', i) {
      if k :| 0 <= k < |th.results| && th.results[k].Enqueued? && th.results[k].ticket == i { assert th'.results[k] == th.results[k]; }
    }
    forall i | Dequeues(th, i) ensures Dequeues(th', i) {
      if k :| 0 <= k < |th.results| && th.results[k].Dequeued? && th.results[k].ticket == i { assert th'.results[k] == th.results[k]; }
    }
  }

  lemma EnqueueContinues(c: Config, s: State, t: nat, spurious: bool)
    requires c.size > 0 && |s.slots| == c.size && t < |s.threads| && Enqueuing(s.threads[t].pc)
    ensures Continues(s, EnqueueStep(c, s, t, spurious), t)
  {
    var th, th' := s.threads[t], EnqueueStep(c, s, t, spurious).threads[t];
    if th.pc.EnqueueStore? { assert th'.results[|th.results|] == Enqueued(th.pc.i, th.pc.x); }
    Kept(th, th');
  }

  lemma DequeueContinues(c: Config, s: State, t: nat, spurious: bool)
    requires c.size > 0 && |s.slots| == c.size && t < |s.threads| && !Enqueuing(s.threads[t].pc)
    requires !s.threads[t].pc.Idle? && !DequeueStep(c, s, t, spurious).threads[t].pc.Fault?
    ensures Continues(s, DequeueStep(c, s, t, spurious), t)
  {
    var th, th' := s.threads[t], DequeueStep(c, s, t, spurious).threads[t];
    if th.pc.DequeueStore? { assert th'.results[|th.results|] == Dequeued(th.pc.i, th.pc.x); }
    Kept(th, th');
  }

  lemma StepHistoryOk(c: Config, s: State, t: nat, act: Action)
    requires Inv(c, s) && HistoryOk(s) && Enabled(s, t, act)
    ensures HistoryOk(Next(c, s, t, act))
  {
    StepOk(c, s, t, act);
    StepContinues(c, s, t, act);
    ContinuesOk(s, Next(c, s, t, act), t);
  }

  lemma StepContinues(c: Config, s: State, t: nat, act: Action)
    requires Inv(c, s) && Enabled(s, t, act) && Inv(c, Next(c, s, t, act))
    ensures Continues(s, Next(c, s, t, act), t)
  {
    var s' := Next(c, s, t, act);
    if act.Go? {
      if Enqueuing(s.threads[t].pc) {
        EnqueueContinues(c, s, t, act.spurious);
      } else {
        Relies(c, s', t);
        DequeueContinues(c, s, t, act.spurious);
      }
    } else {
      Kept(s.threads[t], s'.threads[t]);
    }
  }

  lemma ContinuesOk(s: State, s': State, t: nat)
    requires HistoryOk(s) && t < |s.threads| && Continues(s, s', t)
    ensures HistoryOk(s')
  {
    forall i | 0 <= i < s'.tail ensures HasEnqueuer(s', i) {
      if i < s.tail {
        assert HasEnqueuer(s, i);
        var u :| 0 <= u < |s.threads| && Enqueues(s.threads[u], i);
        assert Enqueues(s'.threads[u], i);
      } else {
        assert Enqueues(s'.threads[t], i);
      }
    }
    forall i | 0 <= i < s'.head ensures HasDequeuer(s', i) {
      if i < s.head {
        assert HasDequeuer(s, i);
        var u :| 0 <= u < |s.threads| && Dequeues(s.threads[u], i);
        assert Dequeues(s'.threads[u], i);
      } else {
        assert Dequeues(s'.threads[t], i);
      }
    }
  }

  lemma {:induction false} HistoryRunOk(c: Config, n: nat, trace: seq<State>, moves: seq<Move>, i: nat)
    requires Valid(c) && IsRun(c, n, trace, moves) && i < |trace|
    ensures HistoryOk(trace[i]) && |trace[i].threads| == n
  {
    if i > 0 {
      HistoryRunOk(c, n, trace, moves, i - 1);
      RunOk(c, n, trace, moves, i - 1);
      StepHistoryOk(c, trace[i - 1], moves[i - 1].thread, moves[i - 1].action);
      OneMoreResult(c, trace[i - 1], moves[i - 1].thread, moves[i - 1].action);
    }
  }

  lemma ReachableHistoryOk(c: Config, n: nat, s: State)
    requires Valid(c) && Reachable(c, n, s)
    ensures HistoryOk(s) && |s.threads| == n
  {
    var trace: seq<State>, moves: seq<Move> :| IsRun(c, n, trace, moves) && trace[|trace| - 1] == s;
    HistoryRunOk(c, n, trace, moves, |trace| - 1);
  }

  // ---- what callers may rely on ----

  /** Every returned call has a result of its kind, an enqueue the one for its own element. */
  lemma CallsAreAnswered(c: Config, n: nat, s: State, t: nat)
    requires Valid(c) && Reachable(c, n, s) && t < |s.threads|
    ensures var th := s.threads[t];
      && |th.calls| == |th.results| + (if th.pc.Idle? then 0 else 1)
      && forall k :: 0 <= k < |th.results| ==> Answers(th.calls[k], th.results[k])
  {
    ReachableHistoryOk(c, n, s);
    assert CallsOk(s.threads[t]);
  }

  predicate Offers(call: Call, x: Value) { call == EnqueueCall(x) || call == TryEnqueueCall(x) }

  /** Ticket i was issued to a call of Emplace or TryEmplace, and items[i] is that call's element. */
  lemma TicketHasItsElement(c: Config, n: nat, s: State, i: nat) returns (t: nat, k: nat)
    requires Valid(c) && Reachable(c, n, s) && i < s.tail
    ensures i < |s.items| && t < |s.threads| && k < |s.threads[t].calls| && Offers(s.threads[t].calls[k], s.items[i])
    ensures var th := s.threads[t];
      if k < |th.results| then th.results[k] == Enqueued(i, s.items[i]) else EnqueueTicketOf(th.pc) == Some(i)
  {
    ReachableOk(c, n, s);
    ReachableHistoryOk(c, n, s);
    assert HasEnqueuer(s, i);
    t :| 0 <= t < |s.threads| && Enqueues(s.threads[t], i);
    var th := s.threads[t];
    Relies(c, s, t);
    assert CallsOk(th);
    if EnqueueTicketOf(th.pc) == Some(i) {
      k := |th.calls| - 1;
    } else {
      k :| 0 <= k < |th.results| && th.results[k].Enqueued? && th.results[k].ticket == i;
      assert ResultOk(c, s, th.results[k]) && Answers(th.calls[k], th.results[k]);
    }
  }

  /** The dequeuer of ticket i gets the element of the Emplace or TryEmplace call that returned with ticket i. */
  lemma DequeueReturnsItsTicket(c: Config, n: nat, s: State, u: nat, m: nat) returns (t: nat, k: nat)
    requires Valid(c) && Reachable(c, n, s) && u < |s.threads| && m < |s.threads[u].results| && s.threads[u].results[m].Dequeued?
    ensures t < |s.threads| && k < |s.threads[t].results| < |s.threads[t].calls| + 1
    ensures var r := s.threads[u].results[m];
      s.threads[t].results[k] == Enqueued(r.ticket, r.value) && Offers(s.threads[t].calls[k], r.value)
  {
    ReachableOk(c, n, s);
    var r := s.threads[u].results[m];
    Relies(c, s, u);
    assert ResultOk(c, s, r);
    t, k := TicketHasItsElement(c, n, s, r.ticket);
    Relies(c, s, t);
    CallsAreAnswered(c, n, s, t);
  }

  // ---- real time ----

  /** The thread's calls from number `first` on have tickets from head and tail on. */
  ghost predicate LaterTickets(th: Thread, first: nat, head: nat, tail: nat) {
    && (forall k :: first <= k < |th.results| ==> TicketFrom(th.results[k], head, tail))
    && (|th.calls| > first ==>
          && (EnqueueTicketOf(th.pc).Some? ==> EnqueueTicketOf(th.pc).value >= tail)
          && (DequeueTicketOf(th.pc).Some? ==> DequeueTicketOf(th.pc).value >= head))
  }

  predicate TicketFrom(r: Result, head: nat, tail: nat) {
    (r.Enqueued? ==> r.ticket >= tail) && (r.Dequeued? ==> r.ticket >= head)
  }

  /** Calls begun since state s0 have tickets issued since. */
  ghost predicate Later(s0: State, s: State) {
    && s0.tail <= s.tail && s0.head <= s.head && |s.threads| == |s0.threads|
    && (forall t :: 0 <= t < |s.threads| ==>
          |s0.threads[t].calls| <= |s.threads[t].calls| && LaterTickets(s.threads[t], |s0.threads[t].calls|, s0.head, s0.tail))
  }

  lemma EnqueueLater(c: Config, s: State, t: nat, spurious: bool, first: nat, head: nat, tail: nat)
    requires c.size > 0 && |s.slots| == c.size && t < |s.threads| && Enqueuing(s.threads[t].pc) && CallsOk(s.threads[t])
    requires tail <= s.tail && head <= s.head && LaterTickets(s.threads[t], first, head, tail)
    ensures LaterTickets(EnqueueStep(c, s, t, spurious).threads[t], first, head, tail)
  {
  }

  lemma DequeueLater(c: Config, s: State, t: nat, spurious: bool, first: nat, head: nat, tail: nat)
    requires c.size > 0 && |s.slots| == c.size && t < |s.threads| && !Enqueuing(s.threads[t].pc) && CallsOk(s.threads[t])
    requires tail <= s.tail && head <= s.head && LaterTickets(s.threads[t], first, head, tail)
    ensures LaterTickets(DequeueStep(c, s, t, spurious).threads[t], first, head, tail)
  {
  }

  lemma StepLater(c: Config, s0: State, s: State, t: nat, act: Action)
    requires Inv(c, s) && HistoryOk(s) && Enabled(s, t, act) && Later(s0, s)
    ensures Later(s0, Next(c, s, t, act))
  {
    var s' := Next(c, s, t, act);
    StepOk(c, s, t, act);
    StepContinues(c, s, t, act);
    assert CallsOk(s.threads[t]) && LaterTickets(s.threads[t], |s0.threads[t].calls|, s0.head, s0.tail);
    if act.Go? {
      if Enqueuing(s.threads[t].pc) {
        EnqueueLater(c, s, t, act.spurious, |s0.threads[t].calls|, s0.head, s0.tail);
      } else {
        DequeueLater(c, s, t, act.spurious, |s0.threads[t].calls|, s0.head, s0.tail);
      }
      GoKeepsCalls(c, s, t, act.spurious);
    }
  }

  lemma GoKeepsCalls(c: Config, s: State, t: nat, spurious: bool)
    requires c.size > 0 && |s.slots| == c.size && t < |s.threads|
    ensures t < |Next(c, s, t, Go(spurious)).threads| && Next(c, s, t, Go(spurious)).threads[t].calls == s.threads[t].calls
  {
  }

  lemma {:induction false} RunLater(c: Config, n: nat, trace: seq<State>, moves: seq<Move>, a: nat, b: nat)
    requires Valid(c) && IsRun(c, n, trace, moves) && a <= b < |trace|
    ensures Later(trace[a], trace[b])
    decreases b
  {
    if a < b {
      RunLater(c, n, trace, moves, a, b - 1);
      RunOk(c, n, trace, moves, b - 1);
      HistoryRunOk(c, n, trace, moves, b - 1);
      LaterAfter(c, n, trace, moves, trace[a], b - 1);
    } else {
      HistoryRunOk(c, n, trace, moves, a);
      StartsLater(trace[a]);
    }
  }

  lemma StartsLater(s: State)
    requires HistoryOk(s)
    ensures Later(s, s)
  {
    forall t | 0 <= t < |s.threads| ensures LaterTickets(s.threads[t], |s.threads[t].calls|, s.head, s.tail) {
      assert CallsOk(s.threads[t]);
    }
  }

  lemma LaterAfter(c: Config, n: nat, trace: seq<State>, moves: seq<Move>, s0: State, b: nat)
    requires IsRun(c, n, trace, moves) && b < |moves| && Inv(c, trace[b]) && HistoryOk(trace[b]) && Later(s0, trace[b])
    ensures Later(s0, trace[b + 1])
  {
    var s, s', t, act := trace[b], trace[b + 1], moves[b].thread, moves[b].action;
    StepLater(c, s0, s, t, act);
    assert s' == Next(c, s, t, act);
  }

  /** The result of call number k of thread t, if it has returned. */
  predicate Returns(s: State, t: nat, k: nat, r: Result) {
    t < |s.threads| && k < |s.threads[t].results| && s.threads[t].results[k] == r
  }

  /** Call number k of thread t has not begun. */
  predicate NotBegun(s: State, t: nat, k: nat) { t < |s.threads| ==> |s.threads[t].calls| <= k }

  /** Tickets follow real time: a call that begins after another of its kind has returned gets the higher ticket. */
  lemma TicketsFollowTime(c: Config, n: nat, trace: seq<State>, moves: seq<Move>, a: nat, b: nat,
                          t: nat, k: nat, r: Result, u: nat, m: nat, q: Result)
    requires Valid(c) && IsRun(c, n, trace, moves) && a <= b < |trace|
    requires Returns(trace[a], t, k, r) && NotBegun(trace[a], u, m) && Returns(trace[b], u, m, q)
    ensures r.Enqueued? && q.Enqueued? ==> r.ticket < q.ticket
    ensures r.Dequeued? && q.Dequeued? ==> r.ticket < q.ticket
  {
    RunOk(c, n, trace, moves, a);
    RunLater(c, n, trace, moves, a, b);
    Relies(c, trace[a], t);
    assert ResultOk(c, trace[a], r);
    ResultBelow(c, trace[a], r);
    assert TicketFrom(q, trace[a].head, trace[a].tail);
  }

  /** A finished ticket has been issued. */
  lemma ResultBelow(c: Config, s: State, r: Result)
    requires Inv(c, s) && ResultOk(c, s, r)
    ensures (r.Enqueued? ==> r.ticket < s.tail) && (r.Dequeued? ==> r.ticket < s.head)
  {
  }

  /**
   * First in, first out: of two elements, the second enqueued by a call that
   * began after the first one's had returned, the second is not delivered
   * before the call that is to deliver the first has begun.
   */
  lemma FirstInFirstOut(c: Config, n: nat, trace: seq<State>, moves: seq<Move>, a: nat, b: nat, d: nat, e: nat,
                        t: nat, k: nat, first: Result, u: nat, m: nat, second: Result,
                        v: nat, i: nat, out1: Result, w: nat, j: nat, out2: Result)
    requires Valid(c) && IsRun(c, n, trace, moves) && a <= b < |trace| && d <= e < |trace|
    // the first enqueue returns before the second begins
    requires Returns(trace[a], t, k, first) && NotBegun(trace[a], u, m) && Returns(trace[b], u, m, second)
    requires first.Enqueued? && second.Enqueued?
    // their elements are delivered, the second by state d, the first by state e
    requires Returns(trace[d], w, j, out2) && out2.Dequeued? && out2.ticket == second.ticket
    requires Returns(trace[e], v, i, out1) && out1.Dequeued? && out1.ticket == first.ticket
    ensures !NotBegun(trace[d], v, i)
  {
    TicketsFollowTime(c, n, trace, moves, a, b, t, k, first, u, m, second);
    if NotBegun(trace[d], v, i) {
      TicketsFollowTime(c, n, trace, moves, d, e, w, j, out2, v, i, out1);
    }
  }

  // ---- the shipped numbering ----

  /** A returned call: thread and position among its calls. */
  datatype Returned = Returned(thread: nat, index: nat)

  predicate IsEnqueue(s: State, r: Returned) {
    r.thread < |s.threads| && r.index < |s.threads[r.thread].results| && s.threads[r.thread].results[r.index].Enqueued?
  }

  function TicketOf(s: State, r: Returned): nat
    requires IsEnqueue(s, r)
  {
    s.threads[r.thread].results[r.index].ticket
  }

  /** As shipped, with two or more slots, at most `size` enqueues ever complete, whoever makes them. */
  lemma MaskedAcceptsAtMostSize(size: nat, n: nat, s: State, accepted: seq<Returned>)
    requires size >= 2 && Reachable(Masked(size), n, s)
    requires forall i :: 0 <= i < |accepted| ==> IsEnqueue(s, accepted[i])
    requires forall i, j :: 0 <= i < j < |accepted| ==> accepted[i] != accepted[j]
    ensures |accepted| <= size
  {
    NumberingsValid(size);
    var trace: seq<State>, moves: seq<Move> :| IsRun(Masked(size), n, trace, moves) && trace[|trace| - 1] == s;
    DeliveredOnce(Masked(size), n, trace, moves, |trace| - 1);
    var tickets: seq<nat> := seq(|accepted|, i requires 0 <= i < |accepted| && IsEnqueue(s, accepted[i]) => TicketOf(s, accepted[i]));
    forall i | 0 <= i < |tickets| ensures tickets[i] < size {
      MaskedAcceptsOneLap(size, n, trace, moves, |trace| - 1, accepted[i].thread, accepted[i].index);
    }
    DistinctTickets(s, accepted, tickets);
    DistinctIsShort(tickets, size);
  }

  lemma DistinctTickets(s: State, accepted: seq<Returned>, tickets: seq<nat>)
    requires TicketsOnce(s) && |tickets| == |accepted|
    requires forall i :: 0 <= i < |accepted| ==> IsEnqueue(s, accepted[i]) && tickets[i] == TicketOf(s, accepted[i])
    requires forall i, j :: 0 <= i < j < |accepted| ==> accepted[i] != accepted[j]
    ensures forall i, j :: 0 <= i < j < |tickets| ==> tickets[i] != tickets[j]
  {
    forall i, j | 0 <= i < j < |tickets| ensures tickets[i] != tickets[j] {
      var a, b := accepted[i], accepted[j];
      assert IsEnqueue(s, a) && IsEnqueue(s, b);
      if tickets[i] == tickets[j] {
        assert SameTicket(s.threads[a.thread].results[a.index], s.threads[b.thread].results[b.index]);
      }
    }
  }

  /** As shipped, a ticket past the first lap is held by a thread that waits for ever. */
  lemma LateTicketIsWaiting(size: nat, n: nat, s: State, i: nat, enqueue: bool) returns (t: nat)
    requires size >= 2 && Reachable(Masked(size), n, s) && size <= i < (if enqueue then s.tail else s.head)
    ensures t < |s.threads| == n
    ensures (if enqueue then EnqueueTicketOf(s.threads[t].pc) else DequeueTicketOf(s.threads[t].pc)) == Some(i)
  {
    NumberingsValid(size);
    ReachableHistoryOk(Masked(size), n, s);
    assert if enqueue then HasEnqueuer(s, i) else HasDequeuer(s, i);
    t :| 0 <= t < |s.threads| && if enqueue then Enqueues(s.threads[t], i) else Dequeues(s.threads[t], i);
    ResultsAreFirstLap(size, n, s, t, i);
  }

  lemma ResultsAreFirstLap(size: nat, n: nat, s: State, t: nat, i: nat)
    requires size >= 2 && Reachable(Masked(size), n, s) && t < |s.threads| && size <= i
    ensures forall k :: 0 <= k < |s.threads[t].results| ==>
      var r := s.threads[t].results[k]; r.Enqueued? || r.Dequeued? ==> r.ticket != i
  {
    var c := Masked(size);
    NumberingsValid(size);
    MaskedIsConsecutiveIff(size, 0);
    var trace: seq<State>, moves: seq<Move> :| IsRun(c, n, trace, moves) && trace[|trace| - 1] == s;
    StalledForever(c, n, trace, moves, 0, |trace| - 1);
    ReachableOk(c, n, s);
    Relies(c, s, t);
    Split(i, size);
    forall k | 0 <= k < |s.threads[t].results| && (s.threads[t].results[k].Enqueued? || s.threads[t].results[k].Dequeued?)
      ensures s.threads[t].results[k].ticket != i
    {
      assert ResultOk(c, s, s.threads[t].results[k]);
      assert s.slots[SlotOf(c, i)].stores <= 2;
    }
  }

  /** The threads holding the tickets size, ..., size + m - 1. */
  lemma {:induction false} Waiters(size: nat, n: nat, s: State, m: nat, enqueue: bool) returns (waiters: seq<nat>)
    requires size >= 2 && Reachable(Masked(size), n, s) && size + m <= (if enqueue then s.tail else s.head)
    ensures |waiters| == m && |s.threads| == n
    ensures forall k :: 0 <= k < m ==> waiters[k] < n
    ensures forall k :: 0 <= k < m ==> (if enqueue then EnqueueTicketOf(s.threads[waiters[k]].pc) else DequeueTicketOf(s.threads[waiters[k]].pc)) == Some(size + k)
  {
    NumberingsValid(size);
    ReachableHistoryOk(Masked(size), n, s);
    if m == 0 {
      waiters := [];
    } else {
      waiters := Waiters(size, n, s, m - 1, enqueue);
      var t := LateTicketIsWaiting(size, n, s, size + m - 1, enqueue);
      waiters := waiters + [t];
    }
  }

  /** As shipped, the ticket counters never get further than one lap and the number of threads. */
  lemma MaskedTicketsAreFew(size: nat, n: nat, s: State)
    requires size >= 2 && Reachable(Masked(size), n, s)
    ensures s.tail <= size + n && s.head <= size + n
  {
    if s.tail > size {
      var waiters := Waiters(size, n, s, s.tail - size, true);
      DistinctIsShort(waiters, n);
    }
    if s.head > size {
      var waiters := Waiters(size, n, s, s.head - size, false);
      DistinctIsShort(waiters, n);
    }
  }

  const GENERATIONS := 0x1_0000_0000 // `Generation` has 32 bits

  /**
   * As shipped, the 32 bits of `Generation` lose nothing: with fewer than
   * 2^31 - 1 slots and threads together, the truncated generations that any ticket
   * issued so far, or the next, waits for or stores are the exact ones.
   */
  lemma MaskedFitsGeneration(k: nat, bits: nat, n: nat, s: State, i: nat)
    requires 0 < k <= bits && Pow2(k) >= 2 && Reachable(Masked(Pow2(k)), n, s)
    requires Pow2(k) + n < GENERATIONS / 2 - 1 && Pow2(k) + n < Pow2(bits)
    requires i <= s.tail || i <= s.head
    ensures var g := BitAnd(i, NotMask(k, bits)) % GENERATIONS;
      && (2 * g) % GENERATIONS == 2 * Number(Masked(Pow2(k)), i)
      && (2 * g + 1) % GENERATIONS == 2 * Number(Masked(Pow2(k)), i) + 1
      && (2 * g + 2) % GENERATIONS == 2 * Number(Masked(Pow2(k)), i) + 2
  {
    MaskedTicketsAreFew(Pow2(k), n, s);
    MaskedIsShipped(k, bits, i);
    NotMaskIsFloor(i, k, bits);
    Truncates(BitAnd(i, NotMask(k, bits)));
  }

  lemma Truncates(g: nat)
    requires g < GENERATIONS / 2 - 1
    ensures g % GENERATIONS == g && (2 * g) % GENERATIONS == 2 * g
    ensures (2 * g + 1) % GENERATIONS == 2 * g + 1 && (2 * g + 2) % GENERATIONS == 2 * g + 2
  {
  }
}
