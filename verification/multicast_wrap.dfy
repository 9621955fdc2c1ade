/**
 * Where TryRead's arithmetic ends.
 *
 * The casts: a run in which Writer and Reader keep in
 * step for 2^30 - 1 rounds, so that the counter of the next cell is 2^31 - 2
 * and the one the reader expects is 2^31. The difference of the two int32_t
 * values is then 2^32 - 2, more than an int can hold (undefined behaviour in
 * the source); computed without overflow it makes Read give up as late on a
 * message that is not even written.
 *
 * The modulus: a run in which the Reader falls exactly 2^31 rounds behind, so
 * that the counters agree again, and TryRead delivers the wrong message.
 */
module MulticastWrap {
  import opened RingIndex
  import opened RingArithmetic
  import opened SeqLockMachine
  import opened SeqLockProof
  import opened MulticastMachine
  import opened MulticastProof
  import opened MulticastSteps
  import opened MulticastTheorems

  /** A run goes on with any allowed step that is in time. */
  lemma ExtendRun(base: Queue, trace: seq<Queue>, moves: seq<QueueMove>, t: nat, act: Act)
    requires IsQueueRun(base, trace, moves)
    requires var q := trace[|trace| - 1]; Timely(q, t) && Allowed(q, t, act) && InBounds(q.ring, t)
    ensures IsQueueRun(base, trace + [NextQueue(trace[|trace| - 1], t, act)], moves + [QueueMove(t, act)])
  {
    var trace', moves' := trace + [NextQueue(trace[|trace| - 1], t, act)], moves + [QueueMove(t, act)];
    forall i | 0 <= i < |moves'|
      ensures Timely(trace'[i], moves'[i].thread) && Allowed(trace'[i], moves'[i].thread, moves'[i].act)
      ensures InBounds(trace'[i].ring, moves'[i].thread) && trace'[i + 1] == NextQueue(trace'[i], moves'[i].thread, moves'[i].act)
    {
      if i < |moves| { assert trace'[i] == trace[i] && moves'[i] == moves[i]; }
    }
  }

  ghost predicate From(base: Queue, q: Queue) { QueueInv(base) && Leads(base, q) }

  lemma LeadStep(base: Queue, q: Queue, t: nat, act: Act)
    requires From(base, q) && Timely(q, t) && Allowed(q, t, act)
    ensures InBounds(q.ring, t) && From(base, NextQueue(q, t, act))
  {
    LeadsOk(base, q);
    Relies(q.ring, t);
    var trace: seq<Queue>, moves: seq<QueueMove> :| IsQueueRun(base, trace, moves) && trace[|trace| - 1] == q;
    ExtendRun(base, trace, moves, t, act);
    assert (trace + [NextQueue(q, t, act)])[|trace + [NextQueue(q, t, act)]| - 1] == NextQueue(q, t, act);
  }

  /** One reader; nobody is in a call. */
  ghost predicate AtRest(base: Queue, q: Queue) {
    && From(base, q) && |q.readers| == 1 && |q.ring.threads| == 2
    && q.ring.threads[0].pc.Idle? && q.ring.threads[1].pc.Idle?
  }

  // ---- one Write ----

  /** The Writer has begun and seen its cell unlocked. */
  lemma WriteBegins(base: Queue, q: Queue, m: Message) returns (q': Queue)
    requires AtRest(base, q) && |m| <= q.ring.capacity
    ensures From(base, q') && q'.readers == q.readers && q'.written == q.written && q'.bits == q.bits
    ensures |q'.ring.threads| == 2 && q'.ring.threads[1] == q.ring.threads[1] && q'.ring.capacity == q.ring.capacity
    ensures var pc := q'.ring.threads[0].pc; pc.LockCas? && pc.m == m && pc.j < |q'.ring.cells| && pc.seq0 == q'.ring.cells[pc.j].seq0
  {
    LeadsOk(base, q);
    LeadStep(base, q, 0, Write(m));
    q' := NextQueue(q, 0, Write(m));
    LeadsOk(base, q');
    Unlocked(q', q.tail);
    LeadStep(base, q', 0, Step(false));
    q' := NextQueue(q', 0, Step(false));
  }

  /** The Writer has locked its cell. */
  lemma WriteLocks(base: Queue, q: Queue, m: Message) returns (q': Queue)
    requires AtRest(base, q) && |m| <= q.ring.capacity
    ensures From(base, q') && q'.readers == q.readers && q'.written == q.written && q'.bits == q.bits
    ensures |q'.ring.threads| == 2 && q'.ring.threads[1] == q.ring.threads[1] && q'.ring.capacity == q.ring.capacity
    ensures q'.ring.threads[0].pc.Copy? && q'.ring.threads[0].pc.m == m && q'.ring.threads[0].pc.pos == 0
  {
    q' := WriteBegins(base, q, m);
    LeadStep(base, q', 0, Step(false));
    q' := NextQueue(q', 0, Step(false));
  }

  /** A message of at most one byte has been written. */
  lemma WriteOne(base: Queue, q: Queue, m: Message) returns (q': Queue)
    requires AtRest(base, q) && |m| <= q.ring.capacity && |m| <= 1
    ensures AtRest(base, q') && q'.readers == q.readers && q'.written == q.written + [m] && q'.bits == q.bits && q'.ring.capacity == q.ring.capacity
  {
    q' := WriteLocks(base, q, m);
    if |m| == 1 {
      LeadStep(base, q', 0, Step(false));
      q' := NextQueue(q', 0, Step(false));
    }
    q' := WriteFinishes(base, q, q', m);
  }

  lemma WriteFinishes(base: Queue, q: Queue, copied: Queue, m: Message) returns (q': Queue)
    requires AtRest(base, q) && From(base, copied)
    requires copied.readers == q.readers && copied.written == q.written && copied.bits == q.bits
    requires |copied.ring.threads| == 2 && copied.ring.threads[1] == q.ring.threads[1] && copied.ring.capacity == q.ring.capacity
    requires copied.ring.threads[0].pc.Copy? && copied.ring.threads[0].pc.m == m && copied.ring.threads[0].pc.pos == |m|
    ensures AtRest(base, q') && q'.readers == q.readers && q'.written == q.written + [m] && q'.bits == q.bits && q'.ring.capacity == q.ring.capacity
  {
    LeadStep(base, copied, 0, Step(false));
    q' := NextQueue(copied, 0, Step(false));
    LeadStep(base, q', 0, Step(false));
    q' := NextQueue(q', 0, Step(false));
    LeadStep(base, q', 0, Step(false));
    q' := NextQueue(q', 0, Step(false));
  }

  // ---- one Read ----

  /** Read has come to the validation of its load; nothing has changed meanwhile. */
  ghost predicate Validating(q: Queue, q': Queue)
    requires |q.readers| == 1 && |q.ring.threads| > 0
  {
    && q'.ring.cells == q.ring.cells && q'.ring.capacity == q.ring.capacity && q'.written == q.written && q'.bits == q.bits
    && |q'.ring.threads| == 2 && q'.ring.threads[0] == q.ring.threads[0] && |q'.readers| == 1
    && q'.readers[0].head == q.readers[0].head < |q.ring.cells| && q'.readers[0].expected == q.readers[0].expected
    && q'.readers[0].received == q.readers[0].received && q'.readers[0].answers == q.readers[0].answers && q'.readers[0].blocking
    && var cell := q.ring.cells[q.readers[0].head];
       q'.ring.threads[1].pc == Validate(q.readers[0].head, cell.seq0, cell.total, [])
  }

  lemma ReadBegins(base: Queue, q: Queue) returns (q': Queue)
    requires AtRest(base, q) && q.readers[0].head < |q.ring.cells|
    ensures From(base, q') && |q'.readers| == 1 && |q'.ring.threads| == 2
    ensures var j := q.readers[0].head;
      && q'.ring.threads[1].pc == ReadSize(j, q.ring.cells[j].seq0, q.ring.cells[j].total)
      && q' == q.(ring := q.ring.(threads := q'.ring.threads), readers := [q'.readers[0]])
      && q'.ring.threads[0] == q.ring.threads[0]
      && q'.readers[0] == q.readers[0].(blocking := true, calls := q'.readers[0].calls)
  {
    LeadStep(base, q, 1, StartRead(true));
    q' := NextQueue(q, 1, StartRead(true));
    LeadStep(base, q', 1, Step(false));
    q' := NextQueue(q', 1, Step(false));
  }

  lemma ReadLoads(base: Queue, q: Queue) returns (q': Queue)
    requires AtRest(base, q) && q.readers[0].head < |q.ring.cells| && q.ring.cells[q.readers[0].head].size == 0
    ensures From(base, q') && Validating(q, q')
  {
    q' := ReadBegins(base, q);
    LeadStep(base, q', 1, Step(false));
    q' := NextQueue(q', 1, Step(false));
    LeadStep(base, q', 1, Step(false));
    q' := NextQueue(q', 1, Step(false));
  }

  /** The load validates: Read answers the difference, if that is not negative. */
  lemma ReadEnds(base: Queue, q: Queue, q': Queue) returns (q'': Queue)
    requires AtRest(base, q) && |q.readers| == 1 && From(base, q') && Validating(q, q')
    requires q.ring.cells[q.readers[0].head].total < q.readers[0].expected + COUNTERS
    requires Result(q, 0) >= 0
    ensures AtRest(base, q'') && q''.written == q.written && q''.bits == q.bits
    ensures q''.readers[0].answers == q.readers[0].answers + [Result(q, 0)]
    ensures |q''.readers[0].received| == |q.readers[0].received| + (if Result(q, 0) == 0 then 1 else 0)
    ensures q''.ring.capacity == q.ring.capacity && Answering(base, q', q'', Result(q, 0))
  {
    LeadsOk(base, q');
    LeadStep(base, q', 1, Step(false));
    q'' := Concluded(q, q');
  }

  lemma Concluded(q: Queue, q': Queue) returns (q'': Queue)
    requires |q.readers| == 1 && |q.ring.threads| == 2 && q.ring.threads[0].pc.Idle? && QueueInv(q') && Validating(q, q')
    requires Result(q, 0) >= 0
    ensures InBounds(q'.ring, 1) && q'' == NextQueue(q', 1, Step(false))
    ensures |q''.readers| == 1 && |q''.ring.threads| == 2 && q''.ring.threads[0].pc.Idle? && q''.ring.threads[1].pc.Idle?
    ensures q''.written == q.written && q''.bits == q.bits
    ensures q''.readers[0].answers == q.readers[0].answers + [Result(q, 0)]
    ensures q''.readers[0].received == q.readers[0].received + (if Result(q, 0) == 0 then [[]] else [])
    ensures q''.ring.capacity == q.ring.capacity
  {
    Unlocked(q', q.readers[0].head);
    LoadShows(q'.ring, 1);
    q'' := NextQueue(q', 1, Step(false));
  }

  // ---- Writer and Reader in step ----

  /** k empty messages written and read. */
  ghost predicate InStep(base: Queue, q: Queue, k: nat) {
    && AtRest(base, q) && q.bits == base.bits && |q.written| == k == |q.readers[0].received|
    && (forall i :: 0 <= i < k ==> q.written[i] == [])
  }

  lemma OneMessage(base: Queue, q: Queue, k: nat) returns (q': Queue)
    requires InStep(base, q, k)
    ensures InStep(base, q', k + 1)
  {
    var written := WriteOne(base, q, []);
    var j := CurrentMessage(base, written, k);
    var loaded := ReadLoads(base, written);
    q' := ReadEnds(base, written, loaded);
  }

  /** The message just written is in its cell, and the reader's counter is the cell's. */
  lemma CurrentMessage(base: Queue, q: Queue, k: nat) returns (j: nat)
    requires AtRest(base, q) && |q.written| == k + 1 && q.written[k] == [] && |q.readers[0].received| == k
    ensures j == q.readers[0].head < |q.ring.cells|
    ensures q.ring.cells[j].size == 0 && q.ring.cells[j].total == q.readers[0].expected && Result(q, 0) == 0
  {
    LeadsOk(base, q);
    j := q.readers[0].head;
    assert ReaderOk(q, 0);
    Unlocked(q, j);
    LatenessIsDifference(q, 0);
    AnswerMeans(Size(q), k + 1, k);
    InPlace(q, k);
    CastIsModular(q.ring.cells[j].total);
  }

  /** A fresh queue with one reader. */
  function Start(bits: nat, blank: seq<Byte>): Queue { InitQueue(bits, |blank|, blank, 1) }

  lemma StartsAtRest(bits: nat, blank: seq<Byte>)
    ensures AtRest(Start(bits, blank), Start(bits, blank))
  {
    var q := Start(bits, blank);
    InitQueueOk(bits, |blank|, blank, 1);
    assert IsQueueRun(q, [q], []) && [q][|[q]| - 1] == q;
  }

  lemma {:induction false} Rounds(bits: nat, blank: seq<Byte>, k: nat) returns (q: Queue)
    ensures InStep(Start(bits, blank), q, k)
  {
    StartsAtRest(bits, blank);
    q := Start(bits, blank);
    if k > 0 {
      q := Rounds(bits, blank, k - 1);
      q := OneMessage(Start(bits, blank), q, k - 1);
    }
  }

  /**
   * Not all is well for ever: after 2^30 - 1 rounds in step, Read gives up as
   * late on message number |written|, which nobody has written.
   */
  lemma ReadGivesUpEarly(bits: nat, blank: seq<Byte>) returns (q: Queue, loaded: Queue, q': Queue)
    ensures QueueReachable(bits, blank, 1, q) && |q.readers| == 1 && |q.readers[0].received| == |q.written|
    ensures q.readers[0].head < |q.ring.cells| && q.readers[0].expected == COUNTERS / 2
    ensures q.ring.cells[q.readers[0].head].total == COUNTERS / 2 - 2
    ensures QueueReachable(bits, blank, 1, q') && |q'.readers| == 1 && q'.written == q.written
    ensures q'.readers[0].answers == q.readers[0].answers + [COUNTERS - 2] && q'.readers[0].received == q.readers[0].received
    ensures AtRest(Start(bits, blank), q') && Answering(Start(bits, blank), loaded, q', COUNTERS - 2)
    ensures loaded.readers[0].received == q'.readers[0].received
  {
    Pow2Positive(bits);
    var base, laps := Start(bits, blank), COUNTERS / 4 - 1;
    q := Rounds(bits, blank, laps * Pow2(bits));
    FullRounds(base, q, laps);
    loaded := ReadLoads(base, q);
    q' := ReadEnds(base, q, loaded);
    LeadsOk(base, q);
    LeadsOk(base, q');
    assert ReaderOk(q, 0) && ReaderOk(q', 0);
  }

  // ---- late, and then not ----

  /** The step from q, in which the reader answers x. */
  ghost predicate Answering(base: Queue, q: Queue, q': Queue, x: int) {
    && From(base, q) && Timely(q, 1) && Allowed(q, 1, Step(false)) && InBounds(q.ring, 1) && q' == NextQueue(q, 1, Step(false))
    && |q.readers| == 1 == |q'.readers| && q'.readers[0].answers == q.readers[0].answers + [x]
  }

  /** The run to the answer x, ending with it. */
  lemma RunToAnswer(base: Queue, q: Queue, q': Queue, x: int) returns (trace: seq<Queue>, moves: seq<QueueMove>)
    requires Answering(base, q, q', x)
    ensures IsQueueRun(base, trace, moves) && |trace| >= 2 && trace[|trace| - 2] == q && trace[|trace| - 1] == q'
    ensures Gives(trace, |trace| - 2, 0, x)
  {
    trace, moves :| IsQueueRun(base, trace, moves) && trace[|trace| - 1] == q;
    ExtendRun(base, trace, moves, 1, Step(false));
    trace, moves := trace + [q'], moves + [QueueMove(1, Step(false))];
  }

  /** One run continued by another. */
  lemma JoinRuns(base: Queue, trace: seq<Queue>, moves: seq<QueueMove>, trace': seq<Queue>, moves': seq<QueueMove>)
    requires IsQueueRun(base, trace, moves) && IsQueueRun(trace[|trace| - 1], trace', moves')
    ensures IsQueueRun(base, trace + trace'[1..], moves + moves')
  {
    var whole, all := trace + trace'[1..], moves + moves';
    forall i | 0 <= i < |all|
      ensures Timely(whole[i], all[i].thread) && Allowed(whole[i], all[i].thread, all[i].act)
      ensures InBounds(whole[i].ring, all[i].thread) && whole[i + 1] == NextQueue(whole[i], all[i].thread, all[i].act)
    {
      if i < |moves| {
        assert whole[i] == trace[i] && whole[i + 1] == trace[i + 1] && all[i] == moves[i];
      } else {
        var j := i - |moves|;
        assert whole[i] == trace'[j] && whole[i + 1] == trace'[j + 1] && all[i] == moves'[j];
      }
    }
  }

  /**
   * A run, every load in time, in which a reader is told that it is late and
   * then, with no UpdateIndexes in between, gets the message it was waiting for.
   */
  lemma LateThenRead(bits: nat, blank: seq<Byte>) returns (trace: seq<Queue>, moves: seq<QueueMove>, a: nat, b: nat)
    ensures IsQueueRun(Start(bits, blank), trace, moves) && a < b
    ensures Gives(trace, a, 0, COUNTERS - 2) && Gives(trace, b, 0, 0)
    ensures |trace[a].written| == |trace[a].readers[0].received| == |trace[b].readers[0].received|
  {
    var base := Start(bits, blank);
    var q, loaded, late := ReadGivesUpEarly(bits, blank);
    var before, first := RunToAnswer(base, loaded, late, COUNTERS - 2);
    var again, read := ReadAfterAll(base, late);
    var after, second := RunToAnswer(late, again, read, 0);
    JoinRuns(base, before, first, after, second);
    trace, moves, a, b := before + after[1..], first + second, |before| - 2, |before| + |after| - 3;
    assert trace[a] == loaded && trace[a + 1] == late && trace[b] == again && trace[b + 1] == read;
    LeadsOk(base, loaded);
    assert ReaderOk(loaded, 0);
  }

  /** The message is written, and Read gets it. */
  lemma ReadAfterAll(base: Queue, late: Queue) returns (again: Queue, read: Queue)
    requires AtRest(base, late) && |late.written| == |late.readers[0].received|
    ensures Answering(late, again, read, 0) && again.readers[0].received == late.readers[0].received
  {
    LeadsOk(base, late);
    assert IsQueueRun(late, [late], []) && [late][|[late]| - 1] == late;
    var written := WriteOne(late, late, []);
    var j := CurrentMessage(late, written, |late.written|);
    again := ReadLoads(late, written);
    read := ReadEnds(late, written, again);
  }

  lemma FullRounds(base: Queue, q: Queue, laps: nat)
    requires Size(base) > 0 && InStep(base, q, laps * Size(base)) && 0 < laps == COUNTERS / 4 - 1
    ensures q.readers[0].head < |q.ring.cells| && q.readers[0].expected == COUNTERS / 2
    ensures var cell := q.ring.cells[q.readers[0].head]; cell.total == COUNTERS / 2 - 2 && cell.size == 0
    ensures Result(q, 0) == COUNTERS - 2
  {
    LeadsOk(base, q);
    AtCellZero(q, laps);
    Unlocked(q, 0);
    LastRound(Size(base), q.written, q.ring.cells[0].stores, laps);
  }

  /** After full rounds a reader is back at cell 0. */
  lemma AtCellZero(q: Queue, laps: nat)
    requires QueueInv(q) && |q.readers| == 1 && |q.readers[0].received| == laps * Size(q)
    ensures q.readers[0].head == 0 < |q.ring.cells| && q.readers[0].expected == 2 * (laps + 1)
    ensures Size(q) > 0 && CellWritten(q, 0)
  {
    assert ReaderOk(q, 0);
    Compose(laps, 0, Size(q));
  }

  /** After full rounds of empty messages, the last message of cell 0 is empty. */
  lemma LastRound(size: nat, written: seq<Message>, stores: seq<Message>, laps: nat)
    requires size > 0 && laps > 0 && |written| == laps * size && forall i :: 0 <= i < |written| ==> written[i] == []
    requires stores != [] && stores[1..] == Filed(size, written, 0)
    ensures |stores| == laps + 1 && stores[|stores| - 1] == []
  {
    var k := (laps - 1) * size;
    assert k + size == laps * size;
    Compose(laps - 1, 0, size);
    Compose(laps, 0, size);
    FiledCount(size, written, 0);
    FiledAt(size, written, k);
    assert stores[1..][laps - 1] == stores[laps];
  }

  // ---- the Reader 2^31 rounds behind ----

  const HALF := 0x8000_0000 // 2^31

  /** The Writer has written x and then empty messages, k in all; the Reader has read nothing. */
  ghost predicate Ahead(base: Queue, q: Queue, x: Byte, k: nat) {
    && AtRest(base, q) && q.bits == base.bits && |q.written| == k && q.readers[0].received == []
    && (forall i :: 0 <= i < k ==> q.written[i] == if i == 0 then [x] else [])
  }

  lemma {:induction false} Writes(bits: nat, blank: seq<Byte>, x: Byte, k: nat) returns (q: Queue)
    requires |blank| > 0
    ensures Ahead(Start(bits, blank), q, x, k) && q.ring.capacity == |blank|
  {
    StartsAtRest(bits, blank);
    q := Start(bits, blank);
    if k > 0 {
      q := Writes(bits, blank, x, k - 1);
      q := WriteOne(Start(bits, blank), q, if k == 1 then [x] else []);
    }
  }

  /**
   * The bound on a reader's lag is exact: 2^31 rounds behind, with a load that
   * nobody disturbs, Read takes the message in the cell for the one it awaits.
   */
  lemma LagMisdelivers(bits: nat, blank: seq<Byte>, x: Byte) returns (q: Queue, q': Queue)
    requires |blank| > 0
    ensures QueueReachable(bits, blank, 1, q) && |q.readers| == 1 && |q.ring.threads| == 2 && Allowed(q, 1, Step(false))
    ensures InBounds(q.ring, 1) && q' == NextQueue(q, 1, Step(false)) && |q'.readers| == 1
    ensures q.readers[0].head < |q.ring.cells|
    ensures q.ring.cells[q.readers[0].head].total == q.readers[0].expected + COUNTERS
    ensures |q'.readers[0].received| == 1 <= |q'.written| && q'.readers[0].received[0] != q'.written[0]
  {
    Pow2Positive(bits);
    var base, k := Start(bits, blank), HALF * Pow2(bits);
    var rest := Writes(bits, blank, x, k + 1);
    Overtaken(base, rest, x, k);
    q, q' := Misdelivers(base, rest);
  }

  lemma Misdelivers(base: Queue, rest: Queue) returns (q: Queue, q': Queue)
    requires AtRest(base, rest) && rest.readers[0].head < |rest.ring.cells| && rest.ring.cells[rest.readers[0].head].size == 0
    requires rest.readers[0].received == [] && Result(rest, 0) == 0
    ensures From(base, q) && Validating(rest, q)
    ensures InBounds(q.ring, 1) && q' == NextQueue(q, 1, Step(false)) && |q'.readers| == 1
    ensures q'.readers[0].received == [[]] && q'.written == rest.written
  {
    q := ReadLoads(base, rest);
    LeadsOk(base, q);
    q' := Concluded(rest, q);
  }

  lemma Overtaken(base: Queue, q: Queue, x: Byte, k: nat)
    requires Size(base) > 0 && k == HALF * Size(base) && Ahead(base, q, x, k + 1)
    ensures q.readers[0].head < |q.ring.cells| && q.readers[0].received == [] && q.written != [] && q.written[0] == [x]
    ensures var cell := q.ring.cells[q.readers[0].head]; cell.total == q.readers[0].expected + COUNTERS && cell.size == 0
    ensures Result(q, 0) == 0
  {
    LeadsOk(base, q);
    AtCellZero(q, 0);
    Unlocked(q, 0);
    MulStep(0, HALF, Size(base));
    OneMoreRound(Size(base), q.written, q.ring.cells[0].stores, HALF);
    CountersAgree(q.ring.cells[0].total, q.readers[0].expected);
  }

  lemma CountersAgree(total: nat, expected: nat)
    requires total == expected + COUNTERS
    ensures AsInt32(total % COUNTERS) == AsInt32(expected)
  {
    CastIsModular(total);
    CastsEqualIff(total, expected);
  }

  /** Message number rounds * size is the last one of cell 0. */
  lemma OneMoreRound(size: nat, written: seq<Message>, stores: seq<Message>, rounds: nat)
    requires size > 0 && |written| == rounds * size + 1
    requires stores != [] && stores[1..] == Filed(size, written, 0)
    ensures |stores| == rounds + 2 && stores[|stores| - 1] == written[rounds * size]
  {
    var k := rounds * size;
    Compose(rounds, 0, size);
    FiledCount(size, written, 0);
    CountNext(size, k, 0);
    FiledAt(size, written, k);
    assert stores[1..][rounds] == stores[rounds + 1];
  }
}
