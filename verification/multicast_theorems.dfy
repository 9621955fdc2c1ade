/** What the Writer and the Readers of a multicast queue may rely on, in every run. */
module MulticastTheorems {
  import opened Options
  import opened RingIndex
  import opened RingArithmetic
  import opened SeqLockMachine
  import opened SeqLockProof
  import opened MulticastMachine
  import opened MulticastProof
  import opened MulticastSteps

  datatype QueueMove = QueueMove(thread: nat, act: Act)

  /** A run, of any length, in which every load is made in time. */
  ghost predicate IsQueueRun(init: Queue, trace: seq<Queue>, moves: seq<QueueMove>) {
    && |trace| == |moves| + 1 && trace[0] == init
    && (forall i :: 0 <= i < |moves| ==>
          && Timely(trace[i], moves[i].thread) && Allowed(trace[i], moves[i].thread, moves[i].act) && InBounds(trace[i].ring, moves[i].thread)
          && trace[i + 1] == NextQueue(trace[i], moves[i].thread, moves[i].act))
  }

  lemma InitQueueOk(bits: nat, capacity: nat, blank: seq<Byte>, readers: nat)
    requires |blank| == capacity
    ensures QueueInv(InitQueue(bits, capacity, blank, readers))
  {
    var q := InitQueue(bits, capacity, blank, readers);
    var size := Size(q);
    Pow2Positive(bits);
    Compose(0, 0, size);
    forall j | 0 <= j < size ensures CellWritten(q, j) && CellOk(q.ring, j) {}
    forall i | 0 <= i < readers ensures ReaderOk(q, i) {}
  }

  lemma {:induction false} QueueRunOk(init: Queue, trace: seq<Queue>, moves: seq<QueueMove>, i: nat)
    requires QueueInv(init) && IsQueueRun(init, trace, moves) && i < |trace|
    ensures QueueInv(trace[i])
  {
    if i > 0 {
      QueueRunOk(init, trace, moves, i - 1);
      QueueStepOk(trace[i - 1], moves[i - 1].thread, moves[i - 1].act);
    }
  }

  /** Some run leads from the one queue to the other. */
  ghost predicate Leads(base: Queue, q: Queue) {
    exists trace: seq<Queue>, moves: seq<QueueMove> :: IsQueueRun(base, trace, moves) && trace[|trace| - 1] == q
  }

  lemma LeadsOk(base: Queue, q: Queue)
    requires QueueInv(base) && Leads(base, q)
    ensures QueueInv(q)
  {
    var trace: seq<Queue>, moves: seq<QueueMove> :| IsQueueRun(base, trace, moves) && trace[|trace| - 1] == q;
    QueueRunOk(base, trace, moves, |trace| - 1);
  }

  /** The states of all runs on a fresh queue with n readers. */
  ghost predicate QueueReachable(bits: nat, blank: seq<Byte>, n: nat, q: Queue) {
    Leads(InitQueue(bits, |blank|, blank, n), q)
  }

  lemma QueueReachableOk(bits: nat, blank: seq<Byte>, n: nat, q: Queue)
    requires QueueReachable(bits, blank, n, q)
    ensures QueueInv(q)
  {
    InitQueueOk(bits, |blank|, blank, n);
    LeadsOk(InitQueue(bits, |blank|, blank, n), q);
  }

  // ---- delivery ----

  /**
   * Whatever the interleaving, the k messages reader r has read are exactly the
   * first k written, and its indexes say so.
   */
  lemma DeliversPrefix(bits: nat, capacity: nat, blank: seq<Byte>, readers: nat,
                       trace: seq<Queue>, moves: seq<QueueMove>, i: nat, r: nat)
    requires |blank| == capacity && IsQueueRun(InitQueue(bits, capacity, blank, readers), trace, moves)
    requires i < |trace| && r < |trace[i].readers|
    ensures var q, reader := trace[i], trace[i].readers[r];
      var k := |reader.received|;
      && k <= |q.written| && reader.received == q.written[..k] && Size(q) > 0
      && reader.head == k % Size(q) && reader.expected == 2 * (k / Size(q) + 1)
  {
    InitQueueOk(bits, capacity, blank, readers);
    QueueRunOk(InitQueue(bits, capacity, blank, readers), trace, moves, i);
    assert ReaderOk(trace[i], r);
  }

  /** During the first 2^31 - 1 rounds of messages no load is too late, and during the first 2^30 - 1 the casts are exact. */
  lemma FewRoundsAreTimely(bits: nat, blank: seq<Byte>, n: nat, q: Queue, i: nat)
    requires QueueReachable(bits, blank, n, q) && i < |q.readers|
    ensures 0 < Size(q) && q.readers[i].head < |q.ring.cells| && |q.ring.threads| == |q.readers| + 1
    ensures |q.written| / Size(q) < COUNTERS / 2 - 1 ==> Timely(q, i + 1)
    ensures |q.written| / Size(q) < COUNTERS / 4 - 1 ==> SameBlock(q, i)
  {
    QueueReachableOk(bits, blank, n, q);
    var j := q.readers[i].head;
    assert ReaderOk(q, i) && CellWritten(q, j) && CellOk(q.ring, j);
    FiledCount(Size(q), q.written, j);
    LatenessIsDifference(q, i);
    LatenessAtLeast(Size(q), |q.written|, |q.readers[i].received|);
    FewerRounds(|q.readers[i].received|, |q.written|, Size(q));
    SmallCounters(|q.written| / Size(q), q.ring.cells[j].total, q.readers[i].expected);
  }

  lemma FewerRounds(k: nat, w: nat, size: nat)
    requires size > 0 && k <= w
    ensures k / size <= w / size
  {
    Split(k, size);
    Split(w, size);
    if w / size < k / size { MulStep(w / size, k / size, size); }
  }

  lemma SmallCounters(rounds: nat, total: nat, expected: nat)
    requires 2 <= expected <= total + 2 && expected <= 2 * (rounds + 1) && total <= 2 * (rounds + 1) + 1
    ensures rounds < COUNTERS / 2 - 1 ==> total / 2 < COUNTERS / 2 && total < expected + COUNTERS
    ensures rounds < COUNTERS / 4 - 1 ==> (total + COUNTERS / 2) / COUNTERS == (expected + COUNTERS / 2) / COUNTERS
  {
  }

  // ---- TryRead and Read ----

  /** What TryRead computes if reader i's load validates now. */
  function Result(q: Queue, i: nat): int
    requires i < |q.readers| && q.readers[i].head < |q.ring.cells|
  {
    AsInt32(q.ring.cells[q.readers[i].head].seq0) - AsInt32(q.readers[i].expected)
  }

  /** Thread t's step validates a load. */
  ghost predicate Validates(q: Queue, t: nat, spurious: bool) {
    t < |q.ring.threads| && InBounds(q.ring, t) && |Next(q.ring, t, Go(spurious)).threads| == |q.ring.threads|
    && Next(q.ring, t, Go(spurious)).threads[t].results != q.ring.threads[t].results
  }

  /**
   * The answer of TryRead, and what Read does with it: w messages written and k
   * read at the moment the load validates. The answer is the closed form if and
   * only if both counters lie in the same block; it is 0 if and only if the
   * closed form is, and then message k is delivered.
   */
  lemma ReadAnswers(bits: nat, blank: seq<Byte>, n: nat, q: Queue, t: nat, spurious: bool)
    requires QueueReachable(bits, blank, n, q) && Timely(q, t) && t > 0 && Allowed(q, t, Step(spurious)) && Validates(q, t, spurious)
    ensures |q.readers[t - 1].received| <= |q.written| && 0 < Size(q) && q.readers[t - 1].head < |q.ring.cells|
    ensures Result(q, t - 1) == Lateness(Size(q), |q.written|, |q.readers[t - 1].received|) <==> SameBlock(q, t - 1)
    ensures Result(q, t - 1) == 0 <==> Lateness(Size(q), |q.written|, |q.readers[t - 1].received|) == 0
    ensures |NextQueue(q, t, Step(spurious)).readers| == |q.readers|
    ensures var r, r' := q.readers[t - 1], NextQueue(q, t, Step(spurious)).readers[t - 1];
      var k, a := |r.received|, Result(q, t - 1);
      && (r.blocking && a < 0 ==> r' == r)
      && (!(r.blocking && a < 0) ==> r'.answers == r.answers + [a])
      && (a == 0 ==> k < |q.written| && if r.blocking then r'.received == r.received + [q.written[k]] else r'.read == Some(q.written[k]))
      && (a != 0 || !r.blocking ==> r'.received == r.received)
  {
    QueueReachableOk(bits, blank, n, q);
    LoadAnswers(q, t, spurious);
  }

  lemma LoadAnswers(q: Queue, t: nat, spurious: bool)
    requires QueueInv(q) && Timely(q, t) && t > 0 && Allowed(q, t, Step(spurious)) && Validates(q, t, spurious)
    ensures |q.readers[t - 1].received| <= |q.written| && 0 < Size(q) && q.readers[t - 1].head < |q.ring.cells|
    ensures Result(q, t - 1) == Lateness(Size(q), |q.written|, |q.readers[t - 1].received|) <==> SameBlock(q, t - 1)
    ensures Result(q, t - 1) == 0 <==> Lateness(Size(q), |q.written|, |q.readers[t - 1].received|) == 0
    ensures Result(q, t - 1) == 0 ==>
      |q.readers[t - 1].received| < |q.written| && q.ring.threads[t].pc.bytes == q.written[|q.readers[t - 1].received|]
    ensures var r := q.readers[t - 1];
      var o := Loaded(r.head, q.ring.cells[r.head].seq0, q.ring.threads[t].pc.from, q.ring.cells[r.head].total, q.ring.threads[t].pc.bytes);
      NextQueue(q, t, Step(spurious)).readers == q.readers[t - 1 := Answer(q, r, o).0]
  {
    var o := ValidLoad(q, t, spurious);
    AnswerIsLatenessIff(q, t - 1, o);
    if AsInt32(o.seq0) == AsInt32(q.readers[t - 1].expected) { DeliversNext(q, t - 1, o); }
  }

  /** The load that the step validates. */
  lemma ValidLoad(q: Queue, t: nat, spurious: bool) returns (o: Outcome)
    requires QueueInv(q) && t > 0 && Allowed(q, t, Step(spurious)) && Validates(q, t, spurious)
    ensures AtValidation(q, t) && q.readers[t - 1].head < |q.ring.cells|
    ensures var r, pc := q.readers[t - 1], q.ring.threads[t].pc;
      && pc.j == r.head && o == Loaded(r.head, q.ring.cells[r.head].seq0, pc.from, q.ring.cells[r.head].total, pc.bytes)
      && NextQueue(q, t, Step(spurious)).readers == q.readers[t - 1 := Answer(q, r, o).0]
    ensures OutcomeOk(q.ring, o)
  {
    var ring, pc := Next(q.ring, t, Go(spurious)), q.ring.threads[t].pc;
    StepOk(q.ring, t, Go(spurious));
    LoadShows(q.ring, t);
    assert ReaderOk(q, t - 1) && CellOk(q.ring, pc.j);
    o := Loaded(pc.j, pc.seq0, pc.from, q.ring.cells[pc.j].total, pc.bytes);
    assert OutcomeOk(ring, o) by { assert ring.threads[t].results[|q.ring.threads[t].results|] == o; }
  }

  /** What reader i's answer says, with the counters of its cell, w messages written and k read. */
  ghost predicate AnswerFacts(q: Queue, i: nat, total: nat, expected: nat, w: nat, k: nat)
    requires i < |q.readers| && q.readers[i].head < |q.ring.cells| && 0 < Size(q) && k <= w
  {
    var a, late := Result(q, i), Lateness(Size(q), w, k);
    && total - expected == late
    && (a == late <==> SameBlock(q, i))
    && (a == 0 <==> total % COUNTERS == expected % COUNTERS)
    && (a == 0 ==> k < w && (late == 0 <==> total < expected + COUNTERS))
    && (k == w ==> (a > 0 <==> expected % COUNTERS == COUNTERS / 2))
    && (a > 0 ==> (late > 0 <==> k < w))
  }

  /** These bytes are the newest message of message k's cell, which is message k itself if it has not been overtaken. */
  ghost predicate Brings(bytes: Message, size: nat, written: seq<Message>, k: nat)
    requires size > 0 && k < |written|
  {
    var m := Newest(size, |written|, k);
    m < |written| && bytes == written[m] && (m == k <==> Lateness(size, |written|, k) == 0)
  }

  /** Read has taken these bytes for the next message, or TryRead offers them as such. */
  predicate Delivers(r: Reader, r': Reader, bytes: Message) {
    if r.blocking then r'.received == r.received + [bytes] else r'.read == Some(bytes)
  }

  /**
   * The answer at any lag: nothing is asked but that fewer than 2^31 stores
   * complete during the load. It is 0 exactly if the counters agree modulo 2^32;
   * what the load has brought is the newest message of the cell, and that is
   * message k, the awaited one, exactly if the reader is fewer than 2^31 rounds
   * behind. Before message k is written the answer is positive exactly if the
   * expected counter is 2^31 modulo 2^32.
   */
  lemma AnswersAtAnyLag(bits: nat, blank: seq<Byte>, n: nat, q: Queue, t: nat, spurious: bool)
    requires QueueReachable(bits, blank, n, q) && ShortLoad(q, t) && t > 0 && Allowed(q, t, Step(spurious)) && Validates(q, t, spurious)
    ensures AtValidation(q, t) && |q.readers[t - 1].received| <= |q.written| && 0 < Size(q) && q.readers[t - 1].head < |q.ring.cells|
    ensures AnswerFacts(q, t - 1, q.ring.cells[q.readers[t - 1].head].total, q.readers[t - 1].expected, |q.written|, |q.readers[t - 1].received|)
    ensures |q.readers[t - 1].received| < |q.written| ==>
      Brings(q.ring.threads[t].pc.bytes, Size(q), q.written, |q.readers[t - 1].received|)
    ensures |NextQueue(q, t, Step(spurious)).readers| == |q.readers|
    ensures Result(q, t - 1) == 0 ==>
      Delivers(q.readers[t - 1], NextQueue(q, t, Step(spurious)).readers[t - 1], q.ring.threads[t].pc.bytes)
  {
    QueueReachableOk(bits, blank, n, q);
    var i, w, k := t - 1, |q.written|, |q.readers[t - 1].received|;
    var o := ValidLoad(q, t, spurious);
    AnswerIsLatenessIff(q, i, o);
    LoadUndisturbed(q, o);
    CastIsModular(o.to);
    AnswerMeans(Size(q), w, k);
    if k < w {
      LoadBringsNewest(q, i, o);
      NewestIsAwaited(Size(q), w, k);
    } else {
      assert ReaderOk(q, i);
      TwoBelow(o.to, q.readers[i].expected);
    }
  }

  lemma NewestIsAwaited(size: nat, w: nat, k: nat)
    requires size > 0 && k < w
    ensures Newest(size, w, k) == k <==> Lateness(size, w, k) == 0
  {
    var rounds := (w - 1 - k) / size;
    if rounds > 0 { MulStep(0, rounds, size); }
  }

  /** With the counter 2 below the expected one, the casts differ by -2, except at 2^31. */
  lemma TwoBelow(total: nat, expected: nat)
    requires expected == total + 2 && total % 2 == 0
    ensures AsInt32(total) - AsInt32(expected) > 0 <==> expected % COUNTERS == COUNTERS / 2
    ensures AsInt32(total) != AsInt32(expected)
  {
  }

  /** What the answer tells: -2 not there yet, 0 in place, positive overwritten; nothing else is possible. */
  lemma AnswerMeans(size: nat, w: nat, k: nat)
    requires size > 0 && k <= w
    ensures Lateness(size, w, k) >= -2 && Lateness(size, w, k) % 2 == 0
    ensures Lateness(size, w, k) < 0 <==> w == k
    ensures Lateness(size, w, k) == 0 <==> k < w <= k + size
    ensures Lateness(size, w, k) > 0 <==> k + size < w
  {
    if w > k {
      var d := w - 1 - k;
      Split(d, size);
      if d >= size && d / size == 0 { assert false; }
      if d < size { Compose(0, d, size); }
    }
  }

  /** Message k is in place, as the last one of its cell, exactly when the answer is 0. */
  lemma ZeroIffInPlace(bits: nat, blank: seq<Byte>, n: nat, q: Queue, k: nat)
    requires QueueReachable(bits, blank, n, q) && k < |q.written|
    ensures 0 < Size(q) == |q.ring.cells| && |q.ring.cells[k % Size(q)].stores| > 0
    ensures Lateness(Size(q), |q.written|, k) == 0 <==> |q.ring.cells[k % Size(q)].stores| == k / Size(q) + 2
    ensures Lateness(Size(q), |q.written|, k) == 0 ==> Last(q.ring.cells[k % Size(q)]) == q.written[k]
  {
    QueueReachableOk(bits, blank, n, q);
    InPlace(q, k);
  }

  lemma InPlace(q: Queue, k: nat)
    requires QueueInv(q) && k < |q.written|
    ensures 0 < Size(q) == |q.ring.cells| && |q.ring.cells[k % Size(q)].stores| > 0
    ensures Lateness(Size(q), |q.written|, k) == 0 <==> |q.ring.cells[k % Size(q)].stores| == k / Size(q) + 2
    ensures Lateness(Size(q), |q.written|, k) == 0 ==> Last(q.ring.cells[k % Size(q)]) == q.written[k]
  {
    var size, j := Size(q), k % Size(q);
    assert CellWritten(q, j);
    FiledCount(size, q.written, j);
    CountGap(size, |q.written|, k);
    LastFiled(size, q.written, q.ring.cells[j].stores, k);
  }

  lemma LastFiled(size: nat, written: seq<Message>, stores: seq<Message>, k: nat)
    requires size > 0 && k < |written| && stores != [] && stores[1..] == Filed(size, written, k % size)
    ensures |stores| == k / size + 2 ==> stores[|stores| - 1] == written[k]
  {
    FiledAt(size, written, k);
    assert |stores| == k / size + 2 ==> stores[1..][k / size] == stores[|stores| - 1];
  }

  /** More messages never make a reader less late. */
  lemma LateMonotone(size: nat, v: nat, w: nat, k: nat)
    requires size > 0 && k <= v <= w
    ensures Lateness(size, v, k) <= Lateness(size, w, k)
  {
    if k < v {
      var d, e := v - 1 - k, w - 1 - k;
      Split(d, size);
      Split(e, size);
      if e / size < d / size { MulStep(e / size, d / size, size); }
    }
  }

  lemma WrittenGrows(q: Queue, t: nat, act: Act)
    requires Allowed(q, t, act) && InBounds(q.ring, t)
    ensures |q.written| <= |NextQueue(q, t, act).written|
    ensures NextQueue(q, t, act).written[..|q.written|] == q.written
    ensures NextQueue(q, t, act).bits == q.bits
  {
  }

  lemma {:induction false} WrittenStays(init: Queue, trace: seq<Queue>, moves: seq<QueueMove>, a: nat, b: nat)
    requires IsQueueRun(init, trace, moves) && a <= b < |trace|
    ensures trace[b].bits == trace[a].bits && trace[a].written <= trace[b].written
  {
    if a < b {
      WrittenStays(init, trace, moves, a, b - 1);
      WrittenGrows(trace[b - 1], moves[b - 1].thread, moves[b - 1].act);
    }
  }

  /** Late once, late for good: the closed form for one message never falls. */
  lemma LateForever(bits: nat, blank: seq<Byte>, n: nat, trace: seq<Queue>, moves: seq<QueueMove>, a: nat, b: nat, k: nat)
    requires IsQueueRun(InitQueue(bits, |blank|, blank, n), trace, moves) && a <= b < |trace|
    requires k <= |trace[a].written|
    ensures Size(trace[a]) > 0 && trace[b].bits == trace[a].bits && k <= |trace[b].written|
    ensures Lateness(Size(trace[a]), |trace[a].written|, k) <= Lateness(Size(trace[a]), |trace[b].written|, k)
  {
    WrittenStays(InitQueue(bits, |blank|, blank, n), trace, moves, a, b);
    Pow2Positive(trace[a].bits);
    LateMonotone(Size(trace[a]), |trace[a].written|, |trace[b].written|, k);
  }

  /** Step m of the run gives reader i the answer x. */
  ghost predicate Gives(trace: seq<Queue>, m: nat, i: nat, x: int) {
    && m + 1 < |trace| && i < |trace[m].readers| == |trace[m + 1].readers|
    && trace[m + 1].readers[i].answers == trace[m].readers[i].answers + [x]
  }

  /** An answer comes from the reader's own validated load. */
  lemma AnswerGiven(q: Queue, t: nat, act: Act, i: nat, x: int)
    requires QueueInv(q) && Timely(q, t) && Allowed(q, t, act) && InBounds(q.ring, t) && i < |q.readers|
    requires |NextQueue(q, t, act).readers| == |q.readers| && NextQueue(q, t, act).readers[i].answers == q.readers[i].answers + [x]
    ensures t == i + 1 && act.Step? && Validates(q, t, act.spurious)
    ensures q.readers[i].head < |q.ring.cells| && x == Result(q, i)
  {
    StepGiven(q, t, act, i, x);
    LoadAnswers(q, t, act.spurious);
    assert (q.readers[i].answers + [x])[|q.readers[i].answers|] == x;
  }

  lemma StepGiven(q: Queue, t: nat, act: Act, i: nat, x: int)
    requires QueueInv(q) && Allowed(q, t, act) && InBounds(q.ring, t) && i < |q.readers|
    requires |NextQueue(q, t, act).readers| == |q.readers| && NextQueue(q, t, act).readers[i].answers == q.readers[i].answers + [x]
    ensures t == i + 1 && act.Step? && Validates(q, t, act.spurious)
  {
    assert q.readers[i].answers != q.readers[i].answers + [x];
    if t > 0 && act.Step? { LoadShows(q.ring, t); }
  }

  /**
   * Once a reader has been told that it is late for a message that is written,
   * no later answer for that message is 0; and while the casts are exact, none
   * is smaller. (For a message not yet written the answer may be positive and a
   * later one 0: see LateThenRead.)
   */
  lemma LateAnswers(bits: nat, blank: seq<Byte>, n: nat, trace: seq<Queue>, moves: seq<QueueMove>, a: nat, b: nat, i: nat, x: int, y: int)
    requires IsQueueRun(InitQueue(bits, |blank|, blank, n), trace, moves) && a < b
    requires Gives(trace, a, i, x) && Gives(trace, b, i, y)
    requires |trace[a].readers[i].received| == |trace[b].readers[i].received|
    ensures trace[a].readers[i].head < |trace[a].ring.cells| && trace[b].readers[i].head < |trace[b].ring.cells|
    ensures SameBlock(trace[a], i) && SameBlock(trace[b], i) ==> x <= y
    ensures x > 0 && |trace[a].readers[i].received| < |trace[a].written| ==> y != 0
  {
    AnswerInRun(bits, blank, n, trace, moves, a, i, x);
    AnswerInRun(bits, blank, n, trace, moves, b, i, y);
    LateForever(bits, blank, n, trace, moves, a, b, |trace[a].readers[i].received|);
    AnswerMeans(Size(trace[a]), |trace[a].written|, |trace[a].readers[i].received|);
  }

  lemma AnswerInRun(bits: nat, blank: seq<Byte>, n: nat, trace: seq<Queue>, moves: seq<QueueMove>, m: nat, i: nat, x: int)
    requires IsQueueRun(InitQueue(bits, |blank|, blank, n), trace, moves) && Gives(trace, m, i, x)
    ensures var q := trace[m];
      && q.readers[i].head < |q.ring.cells| && |q.readers[i].received| <= |q.written| && 0 < Size(q)
      && (SameBlock(q, i) ==> x == Lateness(Size(q), |q.written|, |q.readers[i].received|))
      && (x == 0 <==> Lateness(Size(q), |q.written|, |q.readers[i].received|) == 0)
  {
    InitQueueOk(bits, |blank|, blank, n);
    QueueRunOk(InitQueue(bits, |blank|, blank, n), trace, moves, m);
    AnswerGiven(trace[m], moves[m].thread, moves[m].act, i, x);
    LoadAnswers(trace[m], i + 1, moves[m].act.spurious);
  }

  /** UpdateIndexes after a TryRead that answered 0 counts message k as read and waits for message k + 1. */
  lemma AdvanceReads(bits: nat, blank: seq<Byte>, n: nat, q: Queue, t: nat)
    requires QueueReachable(bits, blank, n, q) && Allowed(q, t, Advance)
    ensures InBounds(q.ring, t) && 0 < Size(q) && |q.readers[t - 1].received| < |q.written|
    ensures |NextQueue(q, t, Advance).readers| == |q.readers|
    ensures var k, r' := |q.readers[t - 1].received|, NextQueue(q, t, Advance).readers[t - 1];
      && r'.received == q.readers[t - 1].received + [q.written[k]] && r'.read.None? && r'.answers == q.readers[t - 1].answers
      && r'.head == (k + 1) % Size(q) && r'.expected == 2 * ((k + 1) / Size(q) + 1)
  {
    QueueReachableOk(bits, blank, n, q);
    Relies(q.ring, t);
    assert ReaderOk(q, t - 1);
    IndexesAdvance(q, q.readers[t - 1], |q.readers[t - 1].received|);
  }

  // ---- the Writer never waits ----

  /** Unless the Writer holds its lock, a cell is unlocked and its counter even. */
  lemma Unlocked(q: Queue, j: nat)
    requires QueueInv(q) && j < |q.ring.cells|
    requires var pc := q.ring.threads[0].pc; pc.Idle? || pc.LockLoad? || pc.LockCas?
    ensures q.ring.cells[j].owner == None && !IsLocked(q.ring.cells[j].seq0)
    ensures |q.ring.cells[j].stores| > 0 && q.ring.cells[j].size == |Last(q.ring.cells[j])|
    ensures q.ring.cells[j].total == 2 * (|q.ring.cells[j].stores| - 1) && q.ring.cells[j].seq0 == q.ring.cells[j].total % COUNTERS
  {
    assert CellOk(q.ring, j);
    BumpTotal(q.ring.cells[j].total);
  }

  /** The steps of a Write left, if no compare-exchange fails spuriously. */
  function WriteStepsLeft(q: Queue, pc: Pc): nat {
    match pc
    case LockLoad(_, m) => |m| + 6
    case LockCas(j, m, seq0) => |m| + (if j < |q.ring.cells| && seq0 == q.ring.cells[j].seq0 then 4 else 5)
    case Copy(_, m, _, pos) => if pos <= |m| then |m| - pos + 3 else 0
    case SetSize(_, _, _) => 2
    case Unlock(_, _, _) => 1
    case _ => 0
  }

  /**
   * The Writer is never held up by the Readers: each of its steps brings Write
   * nearer to its end, and no step of a Reader takes it further away.
   */
  lemma WriterNeverWaits(bits: nat, blank: seq<Byte>, n: nat, q: Queue, t: nat, act: Act)
    requires QueueReachable(bits, blank, n, q) && Allowed(q, t, act)
    ensures InBounds(q.ring, t) && |q.ring.threads| == |NextQueue(q, t, act).ring.threads| > 0
    ensures t == 0 && act == Step(false) ==>
      WriteStepsLeft(NextQueue(q, t, act), NextQueue(q, t, act).ring.threads[0].pc) < WriteStepsLeft(q, q.ring.threads[0].pc)
    ensures t > 0 ==>
      WriteStepsLeft(NextQueue(q, t, act), NextQueue(q, t, act).ring.threads[0].pc) == WriteStepsLeft(q, q.ring.threads[0].pc)
  {
    QueueReachableOk(bits, blank, n, q);
    Relies(q.ring, t);
    if t == 0 {
      var pc := q.ring.threads[0].pc;
      if pc.LockLoad? || pc.LockCas? { Unlocked(q, pc.j); }
      if act == Step(false) { WriteStepNearer(q); }
    } else if act.Step? {
      LoadShows(q.ring, t);
    }
  }

  lemma WriteStepNearer(q: Queue)
    requires QueueInv(q) && q.ring.threads != [] && Storing(q.ring.threads[0].pc) && InBounds(q.ring, 0)
    requires var pc := q.ring.threads[0].pc; pc.LockLoad? || pc.LockCas? ==> !IsLocked(q.ring.cells[pc.j].seq0)
    ensures |NextQueue(q, 0, Step(false)).ring.threads| == |q.ring.threads|
    ensures WriteStepsLeft(NextQueue(q, 0, Step(false)), NextQueue(q, 0, Step(false)).ring.threads[0].pc)
          < WriteStepsLeft(q, q.ring.threads[0].pc)
  {
    Relies(q.ring, 0);
  }
}
