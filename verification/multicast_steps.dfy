/** Every step of the multicast queue preserves its invariant, and what follows for readers. */
module MulticastSteps {
  import opened RingIndex
  import opened RingArithmetic
  import opened SeqLockMachine
  import opened SeqLockProof
  import opened MulticastMachine
  import opened MulticastProof

  lemma MaskOfSize(q: Queue, x: nat)
    ensures Size(q) > 0 && BitAnd(x, IndexMask(q)) == x % Size(q)
    ensures ShiftRight(x, TrailingZeros(IndexMask(q) + 1)) == x / Size(q)
  {
    MaskIsMod(x, q.bits);
    TrailingZerosOfPow2(q.bits);
    ShiftIsDiv(x, q.bits);
  }

  /** UpdateIndexes moves a reader waiting for message k on to message k + 1. */
  lemma IndexesAdvance(q: Queue, r: Reader, k: nat)
    requires Size(q) > 0 && r.head == k % Size(q) && r.expected == 2 * (k / Size(q) + 1)
    ensures UpdateIndexes(q, r).head == (k + 1) % Size(q)
    ensures UpdateIndexes(q, r).expected == 2 * ((k + 1) / Size(q) + 1)
  {
    MaskOfSize(q, r.head + 1);
    Successor(k, Size(q));
    if r.head + 1 < Size(q) {
      Compose(0, r.head + 1, Size(q));
    } else {
      Compose(1, 0, Size(q));
    }
  }

  /** How a load step of thread t shows. */
  lemma LoadShows(s: State, t: nat)
    requires t < |s.threads| && InBounds(s, t) && !Storing(s.threads[t].pc) && !s.threads[t].pc.Idle?
    ensures var s', pc := LoadStep(s, t), s.threads[t].pc;
      && s'.cells == s.cells && s'.capacity == s.capacity
      && |s'.threads| == |s.threads| && s'.threads == s.threads[t := s'.threads[t]]
      && !Storing(s'.threads[t].pc) && (s'.threads[t].pc.Idle? || s'.threads[t].pc.j == pc.j)
      && (s'.threads[t].results == s.threads[t].results
          || (pc.Validate? && s'.threads[t].pc.Idle?
              && s'.threads[t].results == s.threads[t].results + [Loaded(pc.j, pc.seq0, pc.from, s.cells[pc.j].total, pc.bytes)]))
  {
  }

  /** How a store step of thread t shows: only Unlock adds a message to the cell. */
  lemma StoreShows(s: State, t: nat, spurious: bool)
    requires t < |s.threads| && InBounds(s, t) && Storing(s.threads[t].pc)
    ensures var s', pc := StoreStep(s, t, spurious), s.threads[t].pc;
      && |s'.threads| == |s.threads| && s'.threads == s.threads[t := s'.threads[t]]
      && pc.j < |s.cells| == |s'.cells|
      && (forall j :: 0 <= j < |s.cells| ==> s'.cells[j].stores == if pc.Unlock? && j == pc.j then s.cells[j].stores + [pc.m] else s.cells[j].stores)
      && (if pc.Unlock? then s'.threads[t].pc.Idle? else Storing(s'.threads[t].pc) && s'.threads[t].pc.j == pc.j)
  {
  }

  /** The writer's steps: until Unlock nothing shows, then the message is written. */
  lemma WriterStep(q: Queue, spurious: bool)
    requires QueueInv(q) && Allowed(q, 0, Step(spurious)) && InBounds(q.ring, 0)
    ensures QueueInv(NextQueue(q, 0, Step(spurious)))
  {
    var q', pc := NextQueue(q, 0, Step(spurious)), q.ring.threads[0].pc;
    StepOk(q.ring, 0, Go(spurious));
    StoreShows(q.ring, 0, spurious);
    var size, w := Size(q), |q.written|;
    if pc.Unlock? {
      MaskOfSize(q, q.tail + 1);
      NextTail(size, w);
      assert q'.written[..w] == q.written;
    }
    forall j | 0 <= j < size ensures CellWritten(q', j) {
      assert CellWritten(q, j);
      FiledNext(q, q', j);
    }
    forall i | 0 <= i < |q'.readers| ensures ReaderOk(q', i) {
      assert ReaderOk(q, i);
      assert q'.written[..|q.readers[i].received|] == q.written[..|q.readers[i].received|];
    }
  }

  lemma NextTail(size: nat, w: nat)
    requires size > 0
    ensures (w % size + 1) % size == (w + 1) % size
  {
    Successor(w, size);
    if w % size + 1 < size { Compose(0, w % size + 1, size); } else { Compose(1, 0, size); }
  }

  lemma FiledNext(q: Queue, q': Queue, j: nat)
    requires Size(q) > 0 && j < |q.ring.cells| && CellWritten(q, j) && q'.bits == q.bits && |q'.ring.cells| == |q.ring.cells|
    requires (q'.written == q.written && q'.ring.cells[j].stores == q.ring.cells[j].stores)
          || (|q'.written| == |q.written| + 1 && q'.written[..|q.written|] == q.written
              && q'.ring.cells[j].stores == if j == |q.written| % Size(q) then q.ring.cells[j].stores + [q'.written[|q.written|]] else q.ring.cells[j].stores)
    ensures CellWritten(q', j)
  {
    if |q'.written| == |q.written| + 1 && j == |q.written| % Size(q) {
      var x := q'.written[|q.written|];
      assert (q.ring.cells[j].stores + [x])[1..] == q.ring.cells[j].stores[1..] + [x];
    }
  }

  /** A reader's result that is 0 delivers the message it was waiting for. */
  lemma DeliversNext(q: Queue, i: nat, o: Outcome)
    requires QueueInv(q) && i < |q.readers|
    requires o.Loaded? && OutcomeOk(q.ring, o) && o.cell == q.readers[i].head && o.to == q.ring.cells[o.cell].total
    requires o.to / 2 - o.from / 2 < COUNTERS / 2 && o.to < q.readers[i].expected + COUNTERS
    requires AsInt32(o.seq0) == AsInt32(q.readers[i].expected)
    ensures |q.readers[i].received| < |q.written| && o.bytes == q.written[|q.readers[i].received|]
  {
    var size, w, k := Size(q), |q.written|, |q.readers[i].received|;
    assert ReaderOk(q, i) && CellWritten(q, o.cell);
    AnswerIsLatenessIff(q, i, o);
    LatenessIsDifference(q, i);
    LoadUndisturbed(q, o);
    FiledCount(size, q.written, o.cell);
    CountGap(size, w, k);
    FiledAt(size, q.written, k);
    var stores := q.ring.cells[o.cell].stores;
    assert stores[1..][k / size] == stores[k / size + 1];
  }

  lemma ReaderStep(q: Queue, t: nat, spurious: bool)
    requires QueueInv(q) && Timely(q, t) && t > 0 && Allowed(q, t, Step(spurious)) && InBounds(q.ring, t)
    ensures QueueInv(NextQueue(q, t, Step(spurious)))
  {
    var ring, pc, i := Next(q.ring, t, Go(spurious)), q.ring.threads[t].pc, t - 1;
    StepOk(q.ring, t, Go(spurious));
    LoadShows(q.ring, t);
    assert ReaderOk(q, i);
    if ring.threads[t].results == q.ring.threads[t].results {
      RingMoved(q, q.(ring := ring), t);
    } else {
      var o := Loaded(pc.j, pc.seq0, pc.from, q.ring.cells[pc.j].total, pc.bytes);
      assert OutcomeOk(ring, o) by { assert ring.threads[t].results[|q.ring.threads[t].results|] == o; }
      Answered(q, ring, t, o);
    }
  }

  /** A step of reader t - 1 that changes at most its own record. */
  lemma RingMoved(q: Queue, q': Queue, t: nat)
    requires QueueInv(q) && 0 < t < |q.ring.threads| && |q'.readers| == |q.readers|
    requires q' == q.(ring := q'.ring, readers := q.readers[t - 1 := q'.readers[t - 1]])
    requires Inv(q'.ring) && q'.ring.cells == q.ring.cells
    requires |q'.ring.threads| == |q.ring.threads| && q'.ring.threads == q.ring.threads[t := q'.ring.threads[t]]
    requires !Storing(q'.ring.threads[t].pc) && (q'.ring.threads[t].pc.Idle? || q'.ring.threads[t].pc.j == q'.readers[t - 1].head)
    requires ReaderOk(q', t - 1)
    ensures QueueInv(q')
  {
    forall j | 0 <= j < Size(q) ensures CellWritten(q', j) { assert CellWritten(q, j); }
    forall k | 0 <= k < |q'.readers| ensures ReaderOk(q', k) {
      if k != t - 1 { assert ReaderOk(q, k); }
    }
  }

  /** Stepping past the message it has waited for keeps the reader in step. */
  lemma PastOk(q: Queue, i: nat, m: Message)
    requires Size(q) > 0 && i < |q.readers| && ReaderOk(q, i)
    requires |q.readers[i].received| < |q.written| && q.written[|q.readers[i].received|] == m
    ensures ReaderOk(q.(readers := q.readers[i := Past(q, q.readers[i], m)]), i)
  {
    var k := |q.readers[i].received|;
    IndexesAdvance(q, q.readers[i], k);
    assert q.written[..k + 1] == q.written[..k] + [q.written[k]];
  }

  lemma Answered(q: Queue, ring: State, t: nat, o: Outcome)
    requires QueueInv(q) && 0 < t < |q.ring.threads|
    requires o.Loaded? && OutcomeOk(q.ring, o) && o.cell == q.readers[t - 1].head && o.to == q.ring.cells[o.cell].total
    requires o.to / 2 - o.from / 2 < COUNTERS / 2 && o.to < q.readers[t - 1].expected + COUNTERS
    requires Inv(ring) && ring.cells == q.ring.cells && |ring.threads| == |q.ring.threads|
    requires ring.threads == q.ring.threads[t := ring.threads[t]] && ring.threads[t].pc.Idle?
    ensures QueueInv(Settled(q.(ring := ring), t, o))
  {
    var (r, again) := Answer(q, q.readers[t - 1], o);
    var k := |q.readers[t - 1].received|;
    assert ReaderOk(q, t - 1);
    if AsInt32(o.seq0) == AsInt32(q.readers[t - 1].expected) {
      DeliversNext(q, t - 1, o);
      PastOk(q, t - 1, o.bytes);
    }
    if again { StepOk(ring, t, StartLoad(r.head)); }
    assert Answer(q.(ring := ring), q.readers[t - 1], o) == (r, again);
    RingMoved(q, Settled(q.(ring := ring), t, o), t);
  }

  lemma QueueStepOk(q: Queue, t: nat, act: Act)
    requires QueueInv(q) && Timely(q, t) && Allowed(q, t, act)
    ensures InBounds(q.ring, t) && QueueInv(NextQueue(q, t, act))
  {
    Relies(q.ring, t);
    match act
    case Write(m) =>
      StepOk(q.ring, 0, StartStore(q.tail, m));
      WriteStarted(q, m);
    case StartRead(blocking) =>
      assert ReaderOk(q, t - 1);
      StepOk(q.ring, t, StartLoad(q.readers[t - 1].head));
      RingMoved(q, NextQueue(q, t, act), t);
    case Advance =>
      assert ReaderOk(q, t - 1);
      PastOk(q, t - 1, q.readers[t - 1].read.value);
      RingMoved(q, NextQueue(q, t, act), t);
    case Step(spurious) =>
      if t == 0 { WriterStep(q, spurious); } else { ReaderStep(q, t, spurious); }
  }

  lemma WriteStarted(q: Queue, m: Message)
    requires QueueInv(q) && Allowed(q, 0, Write(m)) && InBounds(q.ring, 0)
    requires Inv(Next(q.ring, 0, StartStore(q.tail, m)))
    ensures QueueInv(NextQueue(q, 0, Write(m)))
  {
    var q' := NextQueue(q, 0, Write(m));
    forall j | 0 <= j < Size(q) ensures CellWritten(q', j) { assert CellWritten(q, j); }
    forall k | 0 <= k < |q'.readers| ensures ReaderOk(q', k) { assert ReaderOk(q, k); }
  }
}
