/** What users of the MPMC queue may rely on, in every run and for every valid lap numbering. */
module MpmcTheorems {
  import opened Options
  import opened RingIndex
  import opened RingArithmetic
  import opened MpmcMachine
  import opened MpmcInvariant
  import opened MpmcSteps

  datatype Move = Move(thread: nat, action: Action)

  ghost predicate IsRun(c: Config, n: nat, trace: seq<State>, moves: seq<Move>) {
    && c.size > 0 && |trace| == |moves| + 1
    && trace[0] == Init(c, n)
    && (forall i :: 0 <= i < |moves| ==>
          && |trace[i].slots| == c.size && Enabled(trace[i], moves[i].thread, moves[i].action)
          && trace[i + 1] == Next(c, trace[i], moves[i].thread, moves[i].action))
  }

  lemma {:induction false} RunOk(c: Config, n: nat, trace: seq<State>, moves: seq<Move>, i: nat)
    requires Valid(c) && IsRun(c, n, trace, moves) && i < |trace|
    ensures Inv(c, trace[i])
  {
    if i == 0 {
      InitOk(c, n);
    } else {
      RunOk(c, n, trace, moves, i - 1);
      StepOk(c, trace[i - 1], moves[i - 1].thread, moves[i - 1].action);
    }
  }

  /** The states of all runs of n threads. */
  ghost predicate Reachable(c: Config, n: nat, s: State) {
    exists trace: seq<State>, moves: seq<Move> :: IsRun(c, n, trace, moves) && trace[|trace| - 1] == s
  }

  lemma ReachableOk(c: Config, n: nat, s: State)
    requires Valid(c) && Reachable(c, n, s)
    ensures Inv(c, s)
  {
    var trace: seq<State>, moves: seq<Move> :| IsRun(c, n, trace, moves) && trace[|trace| - 1] == s;
    RunOk(c, n, trace, moves, |trace| - 1);
  }

  // ---- safety ----

  /** No two threads are inside the payload section of one slot. */
  lemma MutualExclusion(c: Config, n: nat, s: State, t: nat, u: nat)
    requires Valid(c) && Reachable(c, n, s) && t < |s.threads| && u < |s.threads|
    requires Section(s.threads[t].pc).Some? && Section(s.threads[u].pc).Some?
    requires SlotOf(c, Section(s.threads[t].pc).value) == SlotOf(c, Section(s.threads[u].pc).value)
    ensures t == u
  {
    ReachableOk(c, n, s);
    Relies(c, s, t);
    Relies(c, s, u);
  }

  /** Construct meets raw storage, Move a live object, Destroy a moved-from one; nothing else touches the storage. */
  lemma StorageDiscipline(c: Config, n: nat, s: State, t: nat)
    requires Valid(c) && Reachable(c, n, s) && t < |s.threads|
    ensures |s.slots| == c.size && |s.items| == s.tail
    ensures var pc := s.threads[t].pc;
      && (pc.EnqueueConstruct? ==> SlotAt(c, s, pc.i).data == Raw)
      && (pc.DequeueMove? ==> pc.i < s.tail && SlotAt(c, s, pc.i).data == Live(s.items[pc.i]))
      && (pc.DequeueDestroy? ==> SlotAt(c, s, pc.i).data == MovedFrom)
      && !pc.Fault?
  {
    ReachableOk(c, n, s);
    Relies(c, s, t);
  }

  ghost predicate TicketsOnce(s: State) {
    forall t, a, u, b ::
      0 <= t < |s.threads| && 0 <= a < |s.threads[t].results| && 0 <= u < |s.threads| && 0 <= b < |s.threads[u].results| ==>
      SameTicket(s.threads[t].results[a], s.threads[u].results[b]) ==> t == u && a == b
  }

  predicate SameTicket(r: Result, q: Result) {
    ((r.Dequeued? && q.Dequeued?) || (r.Enqueued? && q.Enqueued?)) && r.ticket == q.ticket
  }

  /** Over a whole run no ticket is enqueued twice and no ticket's element is delivered twice. */
  lemma {:induction false} DeliveredOnce(c: Config, n: nat, trace: seq<State>, moves: seq<Move>, i: nat)
    requires Valid(c) && IsRun(c, n, trace, moves) && i < |trace|
    ensures TicketsOnce(trace[i])
  {
    if i > 0 {
      RunOk(c, n, trace, moves, i - 1);
      DeliveredOnce(c, n, trace, moves, i - 1);
      OneMoreResult(c, trace[i - 1], moves[i - 1].thread, moves[i - 1].action);
      FreshDelivery(c, trace[i - 1], trace[i], moves[i - 1].thread);
    }
  }

  /** A step gives at most one result, for the ticket just finished. */
  ghost predicate Grows(s: State, s': State, t: nat)
    requires t < |s.threads|
  {
    && Moves(s, s', t)
    && (s'.threads[t].results == s.threads[t].results
        || (exists r :: s'.threads[t].results == s.threads[t].results + [r]
                     && Finishes(s.threads[t].pc, r)))
  }

  predicate Finishes(pc: Pc, r: Result) {
    && (r.Dequeued? ==> pc == DequeueStore(r.ticket, r.value))
    && (r.Enqueued? ==> pc == EnqueueStore(r.value, r.ticket))
  }

  lemma OneMoreResult(c: Config, s: State, t: nat, act: Action)
    requires c.size > 0 && |s.slots| == c.size && Enabled(s, t, act)
    ensures Grows(s, Next(c, s, t, act), t)
  {
    var s', before := Next(c, s, t, act), s.threads[t].results;
    match s.threads[t].pc
    case EnqueueStore(x, i) => if act.Go? { assert s'.threads[t].results == before + [Enqueued(i, x)]; }
    case TryEnqueueReload(_, tail, _) => if act.Go? && s.tail == tail { assert s'.threads[t].results == before + [Full]; }
    case DequeueStore(i, x) => if act.Go? { assert s'.threads[t].results == before + [Dequeued(i, x)]; }
    case TryDequeueReload(head, _) => if act.Go? && s.head == head { assert s'.threads[t].results == before + [Empty]; }
    case _ =>
  }

  lemma FreshDelivery(c: Config, s: State, s': State, t: nat)
    requires Inv(c, s) && TicketsOnce(s) && t < |s.threads| && Grows(s, s', t)
    ensures TicketsOnce(s')
  {
    if s'.threads[t].results != s.threads[t].results {
      var r :| s'.threads[t].results == s.threads[t].results + [r]
            && Finishes(s.threads[t].pc, r);
      Relies(c, s, t);
      forall u, b | 0 <= u < |s.threads| && 0 <= b < |s.threads[u].results|
        ensures !SameTicket(s.threads[u].results[b], r)
      {
        Relies(c, s, u);
        assert ResultOk(c, s, s.threads[u].results[b]);
      }
    }
  }

  // ---- failures of the Try operations ----

  /**
   * TryDequeue fails only if, when it read the slot, the enqueue of the ticket
   * at the head had not finished: `seen` is the number of stores at that read.
   */
  lemma EmptyIsJustified(c: Config, n: nat, s: State, t: nat)
    requires Valid(c) && Reachable(c, n, s) && t < |s.threads| && s.threads[t].pc.TryDequeueReload? && s.head == s.threads[t].pc.head
    ensures s.threads[t].pc.seen <= 2 * Lap(c, s.head)
  {
    ReachableOk(c, n, s);
    Relies(c, s, t);
    assert s.slots[SlotOf(c, s.head)].stores <= 2 * Lap(c, s.head) + 1;
  }

  /**
   * TryEmplace fails only if, when it read the slot, the dequeue one lap before
   * the ticket at the tail had not finished, or the numbering skips a number there.
   */
  lemma FullIsJustified(c: Config, n: nat, s: State, t: nat)
    requires Valid(c) && Reachable(c, n, s) && t < |s.threads| && s.threads[t].pc.TryEnqueueReload? && s.tail == s.threads[t].pc.tail
    ensures Lap(c, s.tail) > 0
    ensures s.threads[t].pc.seen < 2 * Lap(c, s.tail)
         || (s.threads[t].pc.seen == 2 * Lap(c, s.tail) && c.number(Lap(c, s.tail)) != c.number(Lap(c, s.tail) - 1) + 1)
  {
    ReachableOk(c, n, s);
    Relies(c, s, t);
    assert s.slots[SlotOf(c, s.tail)].stores <= 2 * Lap(c, s.tail);
  }

  /** The read the two lemmas speak of is the step just before, inside the call. */
  lemma SeenWhenRead(c: Config, s: State, t: nat, act: Action)
    requires c.size > 0 && |s.slots| == c.size && Enabled(s, t, act)
    ensures var pc, pc' := s.threads[t].pc, Next(c, s, t, act).threads[t].pc;
      && (pc'.TryDequeueReload? ==> pc == TryDequeueCheck(pc'.head) && pc'.seen == SlotAt(c, s, pc'.head).stores)
      && (pc'.TryEnqueueReload? ==> pc == TryEnqueueCheck(pc'.x, pc'.tail) && pc'.seen == SlotAt(c, s, pc'.tail).stores)
  {
    if act.Go? {
      if Enqueuing(s.threads[t].pc) { SeenByEmplace(c, s, t, act.spurious); } else { SeenByDequeue(c, s, t, act.spurious); }
    }
  }

  lemma SeenByEmplace(c: Config, s: State, t: nat, spurious: bool)
    requires c.size > 0 && |s.slots| == c.size && t < |s.threads|
    ensures var pc, pc' := s.threads[t].pc, EnqueueStep(c, s, t, spurious).threads[t].pc;
      Enqueuing(pc) ==>
      && !pc'.TryDequeueReload?
      && (pc'.TryEnqueueReload? ==> pc == TryEnqueueCheck(pc'.x, pc'.tail) && pc'.seen == SlotAt(c, s, pc'.tail).stores)
  {
  }

  lemma SeenByDequeue(c: Config, s: State, t: nat, spurious: bool)
    requires c.size > 0 && |s.slots| == c.size && t < |s.threads|
    ensures var pc, pc' := s.threads[t].pc, DequeueStep(c, s, t, spurious).threads[t].pc;
      !Enqueuing(pc) && !pc.Idle? ==>
      && !pc'.TryEnqueueReload?
      && (pc'.TryDequeueReload? ==> pc == TryDequeueCheck(pc'.head) && pc'.seen == SlotAt(c, s, pc'.head).stores)
  {
  }

  // ---- how far a lap numbering carries ----

  /** Once ticket i's slot has been emptied by the lap before, its enqueuer gets in exactly if the lap numbers are consecutive. */
  lemma ProceedsIffConsecutive(c: Config, n: nat, s: State, t: nat, x: Value, i: nat)
    requires Valid(c) && Reachable(c, n, s) && t < |s.threads| && s.threads[t].pc == EnqueueWait(x, i)
    requires |s.slots| == c.size && Lap(c, i) > 0 && SlotAt(c, s, i).stores == 2 * Lap(c, i)
    ensures Next(c, s, t, Go(false)).threads[t].pc.EnqueueConstruct? <==> c.number(Lap(c, i)) == c.number(Lap(c, i) - 1) + 1
  {
    ReachableOk(c, n, s);
    assert SlotOk(c, s, SlotOf(c, i));
  }

  /** The same for TryEmplace's check: it goes on to claim its ticket exactly if the lap numbers are consecutive. */
  lemma ClaimsIffConsecutive(c: Config, n: nat, s: State, t: nat, x: Value, i: nat)
    requires Valid(c) && Reachable(c, n, s) && t < |s.threads| && s.threads[t].pc == TryEnqueueCheck(x, i)
    requires |s.slots| == c.size && Lap(c, i) > 0 && SlotAt(c, s, i).stores == 2 * Lap(c, i)
    ensures Next(c, s, t, Go(false)).threads[t].pc.TryEnqueueClaim? <==> c.number(Lap(c, i)) == c.number(Lap(c, i) - 1) + 1
  {
    ReachableOk(c, n, s);
    assert SlotOk(c, s, SlotOf(c, i));
  }

  /** Stores change only by one, by the thread finishing a ticket of the slot. */
  ghost predicate StoresByOne(c: Config, s: State, s': State, pc: Pc, j: nat)
    requires c.size > 0 && j < |s.slots|
  {
    && |s'.slots| == |s.slots|
    && (s'.slots[j].stores == s.slots[j].stores
        || (s'.slots[j].stores == s.slots[j].stores + 1 && (pc.EnqueueStore? || pc.DequeueStore?) && SlotOf(c, pc.i) == j))
  }

  lemma EnqueueStores(c: Config, s: State, t: nat, spurious: bool, j: nat)
    requires c.size > 0 && |s.slots| == c.size && t < |s.threads| && j < c.size
    ensures StoresByOne(c, s, EnqueueStep(c, s, t, spurious), s.threads[t].pc, j)
  {
  }

  lemma DequeueStores(c: Config, s: State, t: nat, spurious: bool, j: nat)
    requires c.size > 0 && |s.slots| == c.size && t < |s.threads| && j < c.size
    ensures StoresByOne(c, s, DequeueStep(c, s, t, spurious), s.threads[t].pc, j)
  {
  }

  /** A numbering that skips a number after lap k ends the queue there: no step uses a slot again. */
  lemma StallsAtGap(c: Config, n: nat, s: State, t: nat, act: Action, k: nat, j: nat)
    requires Valid(c) && Reachable(c, n, s) && Enabled(s, t, act) && j < c.size && c.number(k + 1) != c.number(k) + 1
    requires |s.slots| == c.size && s.slots[j].stores <= 2 * (k + 1)
    ensures |Next(c, s, t, act).slots| == c.size && Next(c, s, t, act).slots[j].stores <= 2 * (k + 1)
  {
    ReachableOk(c, n, s);
    GapHolds(c, s, t, act, k, j);
  }

  lemma GapHolds(c: Config, s: State, t: nat, act: Action, k: nat, j: nat)
    requires Inv(c, s) && Enabled(s, t, act) && j < c.size && c.number(k + 1) != c.number(k) + 1
    requires s.slots[j].stores <= 2 * (k + 1)
    ensures |Next(c, s, t, act).slots| == c.size && Next(c, s, t, act).slots[j].stores <= 2 * (k + 1)
  {
    if act.Go? {
      EnqueueStores(c, s, t, act.spurious, j);
      DequeueStores(c, s, t, act.spurious, j);
    }
    Relies(c, s, t);
    assert SlotOk(c, s, j);
  }

  ghost predicate UsedUpTo(c: Config, s: State, k: nat) {
    |s.slots| == c.size && forall j :: 0 <= j < c.size ==> s.slots[j].stores <= 2 * (k + 1)
  }

  lemma StaysStalled(c: Config, s: State, t: nat, act: Action, k: nat)
    requires Inv(c, s) && Enabled(s, t, act) && c.number(k + 1) != c.number(k) + 1 && UsedUpTo(c, s, k)
    ensures UsedUpTo(c, Next(c, s, t, act), k)
  {
    StepOk(c, s, t, act);
    forall j | 0 <= j < c.size ensures Next(c, s, t, act).slots[j].stores <= 2 * (k + 1) {
      GapHolds(c, s, t, act, k, j);
    }
  }

  lemma {:induction false} StalledForever(c: Config, n: nat, trace: seq<State>, moves: seq<Move>, k: nat, i: nat)
    requires Valid(c) && IsRun(c, n, trace, moves) && c.number(k + 1) != c.number(k) + 1 && i < |trace|
    ensures UsedUpTo(c, trace[i], k)
  {
    if i > 0 {
      StalledForever(c, n, trace, moves, k, i - 1);
      RunOk(c, n, trace, moves, i - 1);
      StaysStalled(c, trace[i - 1], moves[i - 1].thread, moves[i - 1].action, k);
    }
  }

  /** The design's numbering: laps are counted. */
  function Counted(size: nat): Config { Config(size, k => k) }

  /** The shipped numbering: `i & ~(size - 1)`, which is size * (i / size). */
  function Masked(size: nat): Config { Config(size, k => size * k) }

  /** GetIndex and GetGeneration of the shipped code, with a ring of 2^k slots and tickets of n bits. */
  lemma MaskedIsShipped(k: nat, n: nat, i: nat)
    requires k <= n && i < Pow2(n)
    ensures Pow2(k) > 0
    ensures BitAnd(i, Pow2(k) - 1) == SlotOf(Masked(Pow2(k)), i)
    ensures BitAnd(i, NotMask(k, n)) == Number(Masked(Pow2(k)), i)
  {
    MaskIsMod(i, k);
    NotMaskIsLapTimesSize(i, k, n);
    MaskedNumber(Pow2(k), i);
  }

  lemma MaskedNumber(size: nat, i: nat)
    requires size > 0
    ensures SlotOf(Masked(size), i) == i % size && Number(Masked(size), i) == (i / size) * size
  {
  }

  lemma NumberingsValid(size: nat)
    requires size > 0
    ensures Valid(Counted(size)) && Valid(Masked(size))
  {
    forall k: nat, m: nat | k < m ensures size * k < size * m { MulStep(k, m, size); }
  }

  /** With laps counted, a slot's generation goes 0, 1, 2, 3, ...: the number of stores, odd exactly when full. */
  lemma CountedGenerations(size: nat, n: nat, s: State, j: nat)
    requires Reachable(Counted(size), n, s) && j < size
    ensures |s.slots| == size && s.slots[j].generation == s.slots[j].stores
    ensures s.slots[j].occupant == None ==> (s.slots[j].data.Live? <==> s.slots[j].generation % 2 == 1)
  {
    NumberingsValid(size);
    ReachableOk(Counted(size), n, s);
    FullSlotWasIssued(Counted(size), s, j);
    var i := (s.slots[j].stores / 2) * size + j;
    Compose(s.slots[j].stores / 2, j, size);
    assert s.slots[j].stores % 2 == 1 ==> SlotOf(Counted(size), i) == j && Lap(Counted(size), i) == s.slots[j].stores / 2 && i < s.tail;
    assert SlotOk(Counted(size), s, j);
  }

  /** The shipped numbering is consecutive only for a ring of one slot. */
  lemma MaskedIsConsecutiveIff(size: nat, k: nat)
    requires size > 0
    ensures Masked(size).number(k + 1) == Masked(size).number(k) + 1 <==> size == 1
  {
    assert size * (k + 1) == size * k + size;
  }

  /** As shipped, with two or more slots, every slot is used once: only the first `size` tickets are ever accepted. */
  lemma MaskedAcceptsOneLap(size: nat, n: nat, trace: seq<State>, moves: seq<Move>, i: nat, t: nat, k: nat)
    requires size >= 2 && IsRun(Masked(size), n, trace, moves)
    requires i < |trace| && t < |trace[i].threads| && k < |trace[i].threads[t].results| && trace[i].threads[t].results[k].Enqueued?
    ensures trace[i].threads[t].results[k].ticket < size
  {
    var c, s := Masked(size), trace[i];
    NumberingsValid(size);
    MaskedIsConsecutiveIff(size, 0);
    RunOk(c, n, trace, moves, i);
    StalledForever(c, n, trace, moves, 0, i);
    Relies(c, s, t);
    var r := s.threads[t].results[k];
    assert ResultOk(c, s, r);
    assert Lap(c, r.ticket) == 0;
    Split(r.ticket, size);
  }

  /** And no slot's generation ever exceeds 2. */
  lemma MaskedGenerations(size: nat, n: nat, trace: seq<State>, moves: seq<Move>, i: nat, j: nat)
    requires size >= 2 && IsRun(Masked(size), n, trace, moves) && i < |trace| && j < size
    ensures |trace[i].slots| == size && trace[i].slots[j].generation <= 2
  {
    NumberingsValid(size);
    MaskedIsConsecutiveIff(size, 0);
    RunOk(Masked(size), n, trace, moves, i);
    StalledForever(Masked(size), n, trace, moves, 0, i);
    assert SlotOk(Masked(size), trace[i], j);
  }

  // ---- a run of the shipped numbering that loses the queue ----

  lemma ReachStep(c: Config, n: nat, s: State, t: nat, act: Action)
    requires Reachable(c, n, s) && c.size > 0 && |s.slots| == c.size && Enabled(s, t, act)
    ensures Reachable(c, n, Next(c, s, t, act))
  {
    var trace: seq<State>, moves: seq<Move> :| IsRun(c, n, trace, moves) && trace[|trace| - 1] == s;
    var trace', moves' := trace + [Next(c, s, t, act)], moves + [Move(t, act)];
    forall i | 0 <= i < |moves'|
      ensures |trace'[i].slots| == c.size && Enabled(trace'[i], moves'[i].thread, moves'[i].action)
      ensures trace'[i + 1] == Next(c, trace'[i], moves'[i].thread, moves'[i].action)
    {
      if i < |moves| { assert trace'[i] == trace[i] && moves'[i] == moves[i]; }
    }
    assert IsRun(c, n, trace', moves');
  }

  /** One idle thread has enqueued and dequeued i elements; the slots from i on are fresh. */
  ghost predicate AfterRounds(c: Config, s: State, i: nat) {
    && |s.slots| == c.size && |s.threads| == 1 && s.threads[0].pc == Idle
    && s.head == s.tail == i
    && (forall j :: 0 <= j < c.size ==> s.slots[j] == if j < i then Slot(2, Raw, 2, None) else Slot(0, Raw, 0, None))
  }

  /** Enqueue one element and dequeue it again, in the first lap. */
  lemma OneRound(c: Config, s: State, i: nat, x: Value) returns (s': State)
    requires Valid(c) && Reachable(c, 1, s) && i < c.size && AfterRounds(c, s, i)
    ensures Reachable(c, 1, s') && AfterRounds(c, s', i + 1)
  {
    s' := EnqueueRound(c, s, i, x);
    s' := DequeueRound(c, s', s.slots, i, x);
  }

  lemma EnqueueRound(c: Config, s: State, i: nat, x: Value) returns (s': State)
    requires Valid(c) && Reachable(c, 1, s) && i < c.size && AfterRounds(c, s, i)
    ensures Reachable(c, 1, s') && |s'.threads| == 1 && s'.threads[0].pc == Idle && s'.head == i && s'.tail == i + 1
    ensures s'.slots == s.slots[i := Slot(1, Live(x), 1, None)]
  {
    Compose(0, i, c.size);
    s' := s;
    ReachStep(c, 1, s', 0, StartEnqueue(x)); s' := Next(c, s', 0, StartEnqueue(x));
    ReachStep(c, 1, s', 0, Go(false)); s' := Next(c, s', 0, Go(false));
    ReachStep(c, 1, s', 0, Go(false)); s' := Next(c, s', 0, Go(false));
    assert s'.slots == s.slots[i := Slot(0, Raw, 0, Some(0))];
    s' := FinishEnqueueRound(c, s', s.slots, i, x);
  }

  lemma FinishEnqueueRound(c: Config, s: State, slots: seq<Slot>, i: nat, x: Value) returns (s': State)
    requires Valid(c) && Reachable(c, 1, s) && i < c.size == |slots|
    requires |s.threads| == 1 && s.threads[0].pc == EnqueueConstruct(x, i) && s.head == i && s.tail == i + 1
    requires s.slots == slots[i := Slot(0, Raw, 0, Some(0))]
    ensures Reachable(c, 1, s') && |s'.threads| == 1 && s'.threads[0].pc == Idle && s'.head == i && s'.tail == i + 1
    ensures s'.slots == slots[i := Slot(1, Live(x), 1, None)]
  {
    Compose(0, i, c.size);
    s' := s;
    ReachStep(c, 1, s', 0, Go(false)); s' := Next(c, s', 0, Go(false));
    ReachStep(c, 1, s', 0, Go(false)); s' := Next(c, s', 0, Go(false));
  }

  lemma DequeueRound(c: Config, s: State, slots: seq<Slot>, i: nat, x: Value) returns (s': State)
    requires Valid(c) && Reachable(c, 1, s) && i < c.size == |slots|
    requires |s.threads| == 1 && s.threads[0].pc == Idle && s.head == i && s.tail == i + 1
    requires s.slots == slots[i := Slot(1, Live(x), 1, None)]
    ensures Reachable(c, 1, s') && |s'.threads| == 1 && s'.threads[0].pc == Idle && s'.head == s'.tail == i + 1
    ensures s'.slots == slots[i := Slot(2, Raw, 2, None)]
  {
    Compose(0, i, c.size);
    s' := s;
    ReachStep(c, 1, s', 0, StartDequeue); s' := Next(c, s', 0, StartDequeue);
    ReachStep(c, 1, s', 0, Go(false)); s' := Next(c, s', 0, Go(false));
    ReachStep(c, 1, s', 0, Go(false)); s' := Next(c, s', 0, Go(false));
    assert s'.slots == slots[i := Slot(1, Live(x), 1, Some(0))];
    s' := FinishRound(c, s', slots, i, x);
  }

  lemma FinishRound(c: Config, s: State, slots: seq<Slot>, i: nat, x: Value) returns (s': State)
    requires Valid(c) && Reachable(c, 1, s) && i < c.size == |slots|
    requires |s.threads| == 1 && s.threads[0].pc == DequeueMove(i) && s.head == i + 1 && s.tail == i + 1
    requires s.slots == slots[i := Slot(1, Live(x), 1, Some(0))]
    ensures Reachable(c, 1, s') && |s'.threads| == 1 && s'.threads[0].pc == Idle && s'.head == s'.tail == i + 1
    ensures s'.slots == slots[i := Slot(2, Raw, 2, None)]
  {
    Compose(0, i, c.size);
    s' := s;
    ReachStep(c, 1, s', 0, Go(false)); s' := Next(c, s', 0, Go(false));
    ReachStep(c, 1, s', 0, Go(false)); s' := Next(c, s', 0, Go(false));
    ReachStep(c, 1, s', 0, Go(false)); s' := Next(c, s', 0, Go(false));
  }

  lemma {:induction false} FirstLap(c: Config, i: nat, x: Value) returns (s: State)
    requires Valid(c) && i <= c.size
    ensures Reachable(c, 1, s) && AfterRounds(c, s, i)
  {
    if i == 0 {
      s := Init(c, 1);
      assert IsRun(c, 1, [s], []);
    } else {
      s := FirstLap(c, i - 1, x);
      s := OneRound(c, s, i - 1, x);
    }
  }

  /**
   * The shipped queue fails its purpose: after `size` elements have gone through
   * one by one it is empty and idle, and yet TryEmplace reports it full.
   */
  lemma MaskedRejectsWhenEmpty(size: nat, x: Value) returns (s: State, s': State)
    requires size >= 2
    ensures Reachable(Masked(size), 1, s) && s.head == s.tail && |s.threads| == 1 && s.threads[0].pc == Idle
    ensures |s.slots| == size && forall j :: 0 <= j < size ==> s.slots[j].data == Raw
    ensures Reachable(Masked(size), 1, s') && |s'.threads| == 1 && s'.threads[0].pc == Idle && s'.threads[0].results == s.threads[0].results + [Full]
  {
    var c := Masked(size);
    NumberingsValid(size);
    s := FirstLap(c, size, x);
    Compose(1, 0, size);
    s' := s;
    ReachStep(c, 1, s', 0, StartTryEnqueue(x)); s' := Next(c, s', 0, StartTryEnqueue(x));
    ReachStep(c, 1, s', 0, Go(false)); s' := Next(c, s', 0, Go(false));
    ReachStep(c, 1, s', 0, Go(false)); s' := Next(c, s', 0, Go(false));
    ReachStep(c, 1, s', 0, Go(false)); s' := Next(c, s', 0, Go(false));
  }
}
