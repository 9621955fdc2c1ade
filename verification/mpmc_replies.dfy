/**
 * What a failing reply says, whichever step gives it: TryDequeue reports an
 * empty queue, and TryEmplace a full one, only if it was so at some moment
 * inside the call. And what a Try operation that runs alone replies.
 */
module MpmcReplies {
  import opened RingIndex
  import opened MpmcMachine
  import opened MpmcInvariant
  import opened MpmcSteps
  import opened MpmcTheorems
  import opened MpmcCalls
  import opened MpmcProgress

  /** The step gives thread t the result r. */
  ghost predicate Replies(s: State, s': State, t: nat, r: Result) {
    t < |s.threads| == |s'.threads| && s'.threads[t].results == s.threads[t].results + [r]
  }

  /** Both states lie inside one call of thread t. */
  ghost predicate SameCall(s: State, s': State, t: nat) {
    && t < |s.threads| == |s'.threads|
    && s.threads[t].calls == s'.threads[t].calls && s.threads[t].results == s'.threads[t].results
    && |s.threads[t].results| < |s.threads[t].calls|
  }

  /** The enqueue of ticket i has not finished. */
  predicate NotEnqueued(c: Config, s: State, i: nat) {
    c.size > 0 && |s.slots| == c.size && SlotAt(c, s, i).stores <= 2 * Lap(c, i)
  }

  /** The dequeue one lap before ticket i has not finished. */
  predicate NotVacated(c: Config, s: State, i: nat) {
    c.size > 0 && |s.slots| == c.size && Lap(c, i) > 0 && SlotAt(c, s, i).stores < 2 * Lap(c, i)
  }

  /** The slot is vacated, but the numbering skips a number there. */
  predicate AtGap(c: Config, s: State, i: nat) {
    && c.size > 0 && |s.slots| == c.size && Lap(c, i) > 0 && SlotAt(c, s, i).stores == 2 * Lap(c, i)
    && c.number(Lap(c, i)) != c.number(Lap(c, i) - 1) + 1
  }

  // ---- which steps fail ----

  lemma EnqueueFails(c: Config, s: State, t: nat, spurious: bool, r: Result)
    requires c.size > 0 && |s.slots| == c.size && t < |s.threads| && Replies(s, EnqueueStep(c, s, t, spurious), t, r) && (r.Empty? || r.Full?)
    ensures r.Full? && s.threads[t].pc.TryEnqueueReload? && s.threads[t].pc.tail == s.tail
  {
    assert EnqueueStep(c, s, t, spurious).threads[t].results[|s.threads[t].results|] == r;
  }

  lemma DequeueFails(c: Config, s: State, t: nat, spurious: bool, r: Result)
    requires c.size > 0 && |s.slots| == c.size && t < |s.threads| && Replies(s, DequeueStep(c, s, t, spurious), t, r) && (r.Empty? || r.Full?)
    ensures r.Empty? && s.threads[t].pc.TryDequeueReload? && s.threads[t].pc.head == s.head
  {
    assert DequeueStep(c, s, t, spurious).threads[t].results[|s.threads[t].results|] == r;
  }

  /** A failing reply comes after a reload that found the counter where it was. */
  lemma Fails(c: Config, s: State, u: nat, act: Action, t: nat, r: Result)
    requires c.size > 0 && |s.slots| == c.size && Enabled(s, u, act)
    requires Replies(s, Next(c, s, u, act), t, r) && (r.Empty? || r.Full?)
    ensures var pc := s.threads[t].pc;
      if r.Empty? then pc.TryDequeueReload? && pc.head == s.head else pc.TryEnqueueReload? && pc.tail == s.tail
  {
    OneMoreResult(c, s, u, act);
    assert s.threads[t].results != s.threads[t].results + [r];
    if act.Go? {
      if Enqueuing(s.threads[u].pc) { EnqueueFails(c, s, u, act.spurious, r); } else { DequeueFails(c, s, u, act.spurious, r); }
    }
  }

  // ---- the reading of the slot ----

  /** Thread t has read the slot of `ticket` at state j of this call and found the count `seen` there. */
  ghost predicate ReadAt(c: Config, s: State, s': State, t: nat, ticket: nat, seen: nat) {
    && SameCall(s, s', t) && c.size > 0 && |s.slots| == c.size && SlotAt(c, s, ticket).stores == seen
    && (s.threads[t].pc.TryDequeueCheck? || s.threads[t].pc.TryEnqueueCheck?)
  }

  lemma {:induction false} WhenRead(c: Config, n: nat, trace: seq<State>, moves: seq<Move>, i: nat, t: nat) returns (j: nat)
    requires Valid(c) && IsRun(c, n, trace, moves) && i < |trace| && t < |trace[i].threads|
    requires trace[i].threads[t].pc.TryDequeueReload? || trace[i].threads[t].pc.TryEnqueueReload?
    ensures j < i
    ensures var pc := trace[i].threads[t].pc;
      && (pc.TryDequeueReload? ==> ReadAt(c, trace[j], trace[i], t, pc.head, pc.seen) && trace[j].threads[t].pc == TryDequeueCheck(pc.head))
      && (pc.TryEnqueueReload? ==> ReadAt(c, trace[j], trace[i], t, pc.tail, pc.seen) && trace[j].threads[t].pc == TryEnqueueCheck(pc.x, pc.tail))
  {
    if i > 0 {
      var s, u, act := trace[i - 1], moves[i - 1].thread, moves[i - 1].action;
      HistoryRunOk(c, n, trace, moves, i - 1);
      OneMoreResult(c, s, u, act);
      if u == t {
        j := i - 1;
        CheckToReload(c, s, t, act);
      } else {
        j := WhenRead(c, n, trace, moves, i - 1, t);
      }
    }
  }

  lemma CheckToReload(c: Config, s: State, t: nat, act: Action)
    requires c.size > 0 && |s.slots| == c.size && Enabled(s, t, act) && CallsOk(s.threads[t])
    requires var pc' := Next(c, s, t, act).threads[t].pc; pc'.TryDequeueReload? || pc'.TryEnqueueReload?
    ensures SameCall(s, Next(c, s, t, act), t)
    ensures var pc, pc' := s.threads[t].pc, Next(c, s, t, act).threads[t].pc;
      && (pc'.TryDequeueReload? ==> pc == TryDequeueCheck(pc'.head) && pc'.seen == SlotAt(c, s, pc'.head).stores)
      && (pc'.TryEnqueueReload? ==> pc == TryEnqueueCheck(pc'.x, pc'.tail) && pc'.seen == SlotAt(c, s, pc'.tail).stores)
  {
    SeenWhenRead(c, s, t, act);
  }

  /** Counters do not go back. */
  lemma CountersGrow(c: Config, n: nat, trace: seq<State>, moves: seq<Move>, j: nat, i: nat)
    requires Valid(c) && IsRun(c, n, trace, moves) && j <= i < |trace|
    ensures trace[j].head <= trace[i].head && trace[j].tail <= trace[i].tail
  {
    RunLater(c, n, trace, moves, j, i);
  }

  lemma RunReaches(c: Config, n: nat, trace: seq<State>, moves: seq<Move>, i: nat)
    requires IsRun(c, n, trace, moves) && i < |trace|
    ensures Reachable(c, n, trace[i])
  {
    assert IsRun(c, n, trace[..i + 1], moves[..i]);
    assert trace[..i + 1][|trace[..i + 1]| - 1] == trace[i];
  }

  // ---- failures, over runs ----

  /**
   * TryDequeue reports an empty queue only if at some moment j inside the call
   * the enqueue of the ticket at the head had not finished: no call had
   * returned with that ticket.
   */
  lemma EmptyWasEmpty(c: Config, n: nat, trace: seq<State>, moves: seq<Move>, i: nat, t: nat) returns (j: nat)
    requires Valid(c) && IsRun(c, n, trace, moves) && i < |moves| && Replies(trace[i], trace[i + 1], t, Empty)
    ensures j <= i && SameCall(trace[j], trace[i], t) && NotEnqueued(c, trace[j], trace[j].head)
    ensures forall u, k :: 0 <= u < |trace[j].threads| && 0 <= k < |trace[j].threads[u].results| ==>
      !(trace[j].threads[u].results[k].Enqueued? && trace[j].threads[u].results[k].ticket == trace[j].head)
  {
    Fails(c, trace[i], moves[i].thread, moves[i].action, t, Empty);
    j := WhenRead(c, n, trace, moves, i, t);
    RunOk(c, n, trace, moves, i);
    RunOk(c, n, trace, moves, j);
    CountersGrow(c, n, trace, moves, j, i);
    Relies(c, trace[j], t);
    RunReaches(c, n, trace, moves, i);
    EmptyIsJustified(c, n, trace[i], t);
    forall u, k | 0 <= u < |trace[j].threads| && 0 <= k < |trace[j].threads[u].results|
      ensures !(trace[j].threads[u].results[k].Enqueued? && trace[j].threads[u].results[k].ticket == trace[j].head)
    {
      Relies(c, trace[j], u);
      assert ResultOk(c, trace[j], trace[j].threads[u].results[k]);
    }
  }

  /**
   * TryEmplace reports a full queue only if at some moment j inside the call the
   * dequeue one lap before the ticket at the tail had not finished, or the
   * numbering has a gap there.
   */
  lemma FullWasFull(c: Config, n: nat, trace: seq<State>, moves: seq<Move>, i: nat, t: nat) returns (j: nat)
    requires Valid(c) && IsRun(c, n, trace, moves) && i < |moves| && Replies(trace[i], trace[i + 1], t, Full)
    ensures j <= i && SameCall(trace[j], trace[i], t)
    ensures NotVacated(c, trace[j], trace[j].tail) || AtGap(c, trace[j], trace[j].tail)
  {
    Fails(c, trace[i], moves[i].thread, moves[i].action, t, Full);
    j := WhenRead(c, n, trace, moves, i, t);
    RunOk(c, n, trace, moves, i);
    RunOk(c, n, trace, moves, j);
    CountersGrow(c, n, trace, moves, j, i);
    Relies(c, trace[j], t);
    RunReaches(c, n, trace, moves, i);
    FullIsJustified(c, n, trace[i], t);
  }

  /**
   * With laps counted, TryEmplace reports a full queue only if at some moment j
   * inside the call the element one lap before was still there: no call had
   * returned from dequeuing its ticket.
   */
  lemma CountedFullWasFull(size: nat, n: nat, trace: seq<State>, moves: seq<Move>, i: nat, t: nat) returns (j: nat)
    requires size > 0 && IsRun(Counted(size), n, trace, moves) && i < |moves| && Replies(trace[i], trace[i + 1], t, Full)
    ensures j <= i && SameCall(trace[j], trace[i], t) && NotVacated(Counted(size), trace[j], trace[j].tail) && trace[j].tail >= size
    ensures forall u, k :: 0 <= u < |trace[j].threads| && 0 <= k < |trace[j].threads[u].results| ==>
      !(trace[j].threads[u].results[k].Dequeued? && trace[j].threads[u].results[k].ticket == trace[j].tail - size)
  {
    NumberingsValid(size);
    j := FullWasFull(Counted(size), n, trace, moves, i, t);
    var s := trace[j];
    RunOk(Counted(size), n, trace, moves, j);
    LapStarted(s.tail, size);
    forall u, k | 0 <= u < |s.threads| && 0 <= k < |s.threads[u].results|
      ensures !(s.threads[u].results[k].Dequeued? && s.threads[u].results[k].ticket == s.tail - size)
    {
      NotDequeuedYet(Counted(size), s, s.tail, u, k);
    }
  }

  /** While ticket i's slot is not vacated, the ticket one lap before has not been dequeued. */
  lemma NotDequeuedYet(c: Config, s: State, i: nat, u: nat, k: nat)
    requires Inv(c, s) && NotVacated(c, s, i) && i >= c.size && u < |s.threads| && k < |s.threads[u].results|
    ensures !(s.threads[u].results[k].Dequeued? && s.threads[u].results[k].ticket == i - c.size)
  {
    NextLap(i - c.size, c.size);
    Relies(c, s, u);
    assert ResultOk(c, s, s.threads[u].results[k]);
  }

  lemma LapStarted(i: nat, size: nat)
    requires size > 0 && i / size > 0
    ensures i >= size
  {
    if i < size { Compose(0, i, size); }
  }

  // ---- when the waits of Emplace and Dequeue end ----

  /** Emplace's wait ends exactly if its slot is vacated, and past the first lap the numbering has no gap there. */
  lemma EmplaceEntersIff(c: Config, n: nat, s: State, t: nat, x: Value, i: nat)
    requires Valid(c) && Reachable(c, n, s) && t < |s.threads| && s.threads[t].pc == EnqueueWait(x, i) && |s.slots| == c.size
    ensures Next(c, s, t, Go(false)) != s <==>
      SlotAt(c, s, i).stores == 2 * Lap(c, i) && (Lap(c, i) > 0 ==> c.number(Lap(c, i)) == c.number(Lap(c, i) - 1) + 1)
  {
    ReachableOk(c, n, s);
    assert SlotOk(c, s, SlotOf(c, i));
    if SlotAt(c, s, i).generation == 2 * Number(c, i) { EnqueuersTurn(c, SlotAt(c, s, i).stores, Lap(c, i)); }
  }

  /** Dequeue's wait ends exactly if the enqueue of its ticket has finished. */
  lemma DequeueEntersIff(c: Config, n: nat, s: State, t: nat, i: nat)
    requires Valid(c) && Reachable(c, n, s) && t < |s.threads| && s.threads[t].pc == DequeueWait(i) && |s.slots| == c.size
    ensures Next(c, s, t, Go(false)) != s <==> !NotEnqueued(c, s, i)
  {
    ReachableOk(c, n, s);
    Relies(c, s, t);
    assert SlotOk(c, s, SlotOf(c, i));
    DequeuersTurn(c, SlotAt(c, s, i).stores, Lap(c, i));
  }

  // ---- what a lone Try operation replies ----

  /** A lone call from its start in state s to its return. */
  ghost predicate LoneCall(c: Config, n: nat, s: State, t: nat, start: Action, trace: seq<State>) {
    && Valid(c) && Reachable(c, n, s) && |s.slots| == c.size && Enabled(s, t, start) && !start.Go?
    && Alone(c, trace, t) && trace[0] == Next(c, s, t, start)
    && t < |trace[|trace| - 1].threads| && trace[|trace| - 1].threads[t].pc.Idle?
  }

  /** What a lone TryDequeue begun in state s replies. */
  ghost function DequeueReply(c: Config, s: State): Result {
    if NotEnqueued(c, s, s.head) || s.head >= |s.items| then Empty else Dequeued(s.head, s.items[s.head])
  }

  /** What a lone TryEmplace of x begun in state s replies. */
  ghost function EnqueueReply(c: Config, s: State, x: Value): Result {
    if NotVacated(c, s, s.tail) || AtGap(c, s, s.tail) then Full else Enqueued(s.tail, x)
  }

  /** Thread t, alone since state s0, is on the way to the reply of a TryDequeue. */
  ghost predicate OnDequeue(c: Config, s0: State, s: State, t: nat) {
    && t < |s.threads| == |s0.threads| && s.items == s0.items
    && var th, r := s.threads[t], DequeueReply(c, s0);
       if th.pc.Idle? then th.results == s0.threads[t].results + [r] else
       && th.results == s0.threads[t].results
       && match th.pc
          case TryDequeueLoad => s.head == s0.head && s.slots == s0.slots
          case TryDequeueCheck(head) => head == s.head == s0.head && s.slots == s0.slots
          case TryDequeueClaim(head) => head == s.head == s0.head && r.Dequeued?
          case TryDequeueReload(head, _) => head == s.head == s0.head && r.Empty?
          case DequeueMove(i) => i == s0.head && r.Dequeued?
          case DequeueDestroy(i, _) => i == s0.head && r.Dequeued?
          case DequeueStore(i, _) => i == s0.head && r.Dequeued?
          case _ => false
  }

  ghost predicate OnEnqueue(c: Config, s0: State, s: State, t: nat, x: Value) {
    && t < |s.threads| == |s0.threads|
    && var th, r := s.threads[t], EnqueueReply(c, s0, x);
       if th.pc.Idle? then th.results == s0.threads[t].results + [r] else
       && th.results == s0.threads[t].results
       && match th.pc
          case TryEnqueueLoad(y) => y == x && s.tail == s0.tail && s.slots == s0.slots
          case TryEnqueueCheck(y, tail) => y == x && tail == s.tail == s0.tail && s.slots == s0.slots
          case TryEnqueueClaim(y, tail) => y == x && tail == s.tail == s0.tail && r.Enqueued?
          case TryEnqueueReload(y, tail, _) => tail == s.tail == s0.tail && r.Full?
          case EnqueueConstruct(y, i) => y == x && i == s0.tail && r.Enqueued?
          case EnqueueStore(y, i) => y == x && i == s0.tail && r.Enqueued?
          case _ => false
  }

  lemma DequeueStays(c: Config, s0: State, s: State, t: nat)
    requires Inv(c, s0) && Inv(c, s) && OnDequeue(c, s0, s, t) && !s.threads[t].pc.Idle?
    ensures OnDequeue(c, s0, DequeueStep(c, s, t, false), t) && !Enqueuing(s.threads[t].pc)
  {
    Relies(c, s, t);
    DeliveredIff(c, s0);
  }

  /** The generation at the head is the awaited one exactly if the element is there. */
  lemma DeliveredIff(c: Config, s: State)
    requires Inv(c, s)
    ensures SlotAt(c, s, s.head).generation == 2 * Number(c, s.head) + 1 <==> DequeueReply(c, s).Dequeued?
    ensures DequeueReply(c, s).Empty? <==> NotEnqueued(c, s, s.head)
  {
    var i := s.head;
    assert SlotOk(c, s, SlotOf(c, i));
    assert s.slots[SlotOf(c, i)].stores <= 2 * Lap(c, i) + 1;
    assert i >= s.tail ==> s.slots[SlotOf(c, i)].stores <= 2 * Lap(c, i);
    DequeuersTurn(c, SlotAt(c, s, i).stores, Lap(c, i));
  }

  lemma EnqueueStays(c: Config, s0: State, s: State, t: nat, x: Value)
    requires Inv(c, s0) && Inv(c, s) && OnEnqueue(c, s0, s, t, x) && !s.threads[t].pc.Idle?
    ensures OnEnqueue(c, s0, EnqueueStep(c, s, t, false), t, x) && Enqueuing(s.threads[t].pc)
  {
    FreeIff(c, s0);
  }

  /** The generation at the tail is the awaited one exactly if the slot is vacated and there is no gap. */
  lemma FreeIff(c: Config, s: State)
    requires Inv(c, s)
    ensures SlotAt(c, s, s.tail).generation == 2 * Number(c, s.tail) <==> !(NotVacated(c, s, s.tail) || AtGap(c, s, s.tail))
  {
    var i := s.tail;
    assert SlotOk(c, s, SlotOf(c, i));
    assert s.slots[SlotOf(c, i)].stores <= 2 * Lap(c, i);
    if SlotAt(c, s, i).generation == 2 * Number(c, i) { EnqueuersTurn(c, SlotAt(c, s, i).stores, Lap(c, i)); }
  }

  lemma {:induction false} LoneReaches(c: Config, n: nat, s: State, t: nat, start: Action, trace: seq<State>, i: nat)
    requires LoneCall(c, n, s, t, start, trace) && i < |trace|
    ensures Reachable(c, n, trace[i]) && Inv(c, trace[i])
  {
    if i == 0 {
      ReachableOk(c, n, s);
      ReachStep(c, n, s, t, start);
    } else {
      LoneReaches(c, n, s, t, start, trace, i - 1);
      ReachStep(c, n, trace[i - 1], t, Go(false));
    }
    ReachableOk(c, n, trace[i]);
  }

  lemma {:induction false} LoneDequeue(c: Config, n: nat, s: State, t: nat, trace: seq<State>, i: nat)
    requires LoneCall(c, n, s, t, StartTryDequeue, trace) && i < |trace|
    ensures OnDequeue(c, s, trace[i], t)
  {
    if i > 0 {
      LoneDequeue(c, n, s, t, trace, i - 1);
      LoneReaches(c, n, s, t, StartTryDequeue, trace, i - 1);
      ReachableOk(c, n, s);
      DequeueStays(c, s, trace[i - 1], t);
    }
  }

  lemma {:induction false} LoneEnqueue(c: Config, n: nat, s: State, t: nat, x: Value, trace: seq<State>, i: nat)
    requires LoneCall(c, n, s, t, StartTryEnqueue(x), trace) && i < |trace|
    ensures OnEnqueue(c, s, trace[i], t, x)
  {
    if i > 0 {
      LoneEnqueue(c, n, s, t, x, trace, i - 1);
      LoneReaches(c, n, s, t, StartTryEnqueue(x), trace, i - 1);
      ReachableOk(c, n, s);
      EnqueueStays(c, s, trace[i - 1], t, x);
    }
  }

  /**
   * A lone TryDequeue gets the element at the head exactly if its enqueue has
   * finished, and otherwise reports an empty queue.
   */
  lemma LoneTryDequeueReplies(c: Config, n: nat, s: State, t: nat, trace: seq<State>)
    requires LoneCall(c, n, s, t, StartTryDequeue, trace)
    ensures !NotEnqueued(c, s, s.head) ==> s.head < |s.items|
    ensures trace[|trace| - 1].threads[t].results
         == s.threads[t].results + [if NotEnqueued(c, s, s.head) then Empty else Dequeued(s.head, s.items[s.head])]
  {
    ReachableOk(c, n, s);
    DeliveredIff(c, s);
    LoneDequeue(c, n, s, t, trace, |trace| - 1);
  }

  /** A lone TryEmplace is refused exactly if its slot is not vacated or the numbering has a gap there. */
  lemma LoneTryEmplaceReplies(c: Config, n: nat, s: State, t: nat, x: Value, trace: seq<State>)
    requires LoneCall(c, n, s, t, StartTryEnqueue(x), trace)
    ensures trace[|trace| - 1].threads[t].results
         == s.threads[t].results + [if NotVacated(c, s, s.tail) || AtGap(c, s, s.tail) then Full else Enqueued(s.tail, x)]
  {
    LoneEnqueue(c, n, s, t, x, trace, |trace| - 1);
  }
}
