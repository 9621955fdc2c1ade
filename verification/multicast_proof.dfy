/** Every reader is delivered exactly the first messages written, in order, or told that it is late. */
module MulticastProof {
  import opened RingIndex
  import opened SeqLockMachine
  import opened SeqLockProof
  import opened SeqLockTheorems
  import opened MulticastMachine

  // ---- counting the stores of one cell ----

  /** How many of the first w messages go to cell j of a ring. */
  function Count(size: nat, w: nat, j: nat): nat
    requires size > 0
  {
    w / size + (if j < w % size then 1 else 0)
  }

  /** Message w goes to cell w mod size and to no other. */
  lemma CountNext(size: nat, w: nat, j: nat)
    requires j < size
    ensures Count(size, w + 1, j) == Count(size, w, j) + (if w % size == j then 1 else 0)
  {
    Successor(w, size);
  }

  /** Message k is store number k / size + 1 of its cell. */
  lemma CountAt(size: nat, k: nat)
    requires size > 0
    ensures Count(size, k, k % size) == k / size
  {
  }

  lemma {:induction false} CountMonotone(size: nat, v: nat, w: nat, j: nat)
    requires j < size && v <= w
    ensures Count(size, v, j) <= Count(size, w, j)
    decreases w
  {
    if v < w {
      CountMonotone(size, v, w - 1, j);
      CountNext(size, w - 1, j);
    }
  }

  /** The closed form: d messages after message k was due, its cell has been stored 1 + (d - 1) / size times more. */
  lemma {:induction false} CountAhead(size: nat, k: nat, d: nat)
    requires size > 0
    ensures Count(size, k + d, k % size) == k / size + (if d == 0 then 0 else 1 + (d - 1) / size)
    decreases d
  {
    if d == 0 {
      CountAt(size, k);
    } else {
      CountAhead(size, k, d - 1);
      CountNext(size, k + (d - 1), k % size);
      SameCell(size, k, d - 1);
      if d == 1 {
        Compose(0, 0, size);
      } else {
        Successor(d - 2, size);
        Split(d - 2, size);
        Split(d - 1, size);
      }
    }
  }

  lemma SumOfRemainders(size: nat, laps: nat, r: nat)
    requires r < 2 * size
    ensures (laps * size + r) % size == if r < size then r else r - size
  {
    if r < size {
      Compose(laps, r, size);
    } else {
      assert laps * size + r == (laps + 1) * size + (r - size);
      Compose(laps + 1, r - size, size);
    }
  }

  /** d messages later the ring is back at the same cell exactly when d is a number of full rounds. */
  lemma SameCell(size: nat, k: nat, d: nat)
    requires size > 0
    ensures (k + d) % size == k % size <==> d % size == 0
  {
    Split(k, size);
    Split(d, size);
    var r := k % size + d % size;
    assert k + d == (k / size + d / size) * size + r;
    SumOfRemainders(size, k / size + d / size, r);
  }

  /** The messages that go to cell j, in order. */
  function Filed(size: nat, written: seq<Message>, j: nat): seq<Message>
    requires size > 0
  {
    if written == [] then [] else
      var rest := Filed(size, written[..|written| - 1], j);
      if (|written| - 1) % size == j then rest + [written[|written| - 1]] else rest
  }

  lemma {:induction false} FiledCount(size: nat, written: seq<Message>, j: nat)
    requires j < size
    ensures |Filed(size, written, j)| == Count(size, |written|, j)
  {
    if written == [] {
      Compose(0, 0, size);
    } else {
      FiledCount(size, written[..|written| - 1], j);
      CountNext(size, |written| - 1, j);
    }
  }

  /** Message k is filed as number k / size of its cell. */
  lemma {:induction false} FiledAt(size: nat, written: seq<Message>, k: nat)
    requires size > 0 && k < |written|
    ensures k / size < |Filed(size, written, k % size)| && Filed(size, written, k % size)[k / size] == written[k]
  {
    var w := |written| - 1;
    FiledCount(size, written[..w], k % size);
    if k == w {
      CountAt(size, k);
    } else {
      FiledAt(size, written[..w], k);
    }
  }

  // ---- the invariant ----

  /** Cell j has stored, after its initial content, the messages filed for it. */
  ghost predicate CellWritten(q: Queue, j: nat)
    requires Size(q) > 0 && j < |q.ring.cells|
  {
    |q.ring.cells[j].stores| > 0 && q.ring.cells[j].stores[1..] == Filed(Size(q), q.written, j)
  }

  ghost predicate ReaderOk(q: Queue, i: nat)
    requires Size(q) > 0 && i < |q.readers|
  {
    var r := q.readers[i];
    var k := |r.received|;
    && k <= |q.written| && r.received == q.written[..k]
    && r.head == k % Size(q) && r.expected == 2 * (k / Size(q) + 1)
    && (r.read.Some? ==> k < |q.written| && r.read.value == q.written[k])
  }

  ghost predicate QueueInv(q: Queue) {
    && Size(q) > 0 && |q.ring.cells| == Size(q) && |q.ring.threads| == |q.readers| + 1
    && Inv(q.ring)
    && q.tail == |q.written| % Size(q)
    && (forall j :: 0 <= j < Size(q) ==> CellWritten(q, j))
    && (forall i :: 0 <= i < |q.readers| ==> ReaderOk(q, i))
    // only the writer stores, and it stores at the tail; readers load at their heads
    && (Storing(q.ring.threads[0].pc) || q.ring.threads[0].pc.Idle?)
    && (Storing(q.ring.threads[0].pc) ==> q.ring.threads[0].pc.j == q.tail)
    && (forall t :: 0 < t < |q.ring.threads| ==> !Storing(q.ring.threads[t].pc))
    && (forall t :: 0 < t < |q.ring.threads| && !q.ring.threads[t].pc.Idle? ==> q.ring.threads[t].pc.j == q.readers[t - 1].head)
  }

  // ---- the casts of TryRead ----

  /** The cast takes off as many multiples of 2^32 as there are, rounding at 2^31. */
  lemma CastShift(x: nat)
    ensures AsInt32(x) == x - COUNTERS * ((x + COUNTERS / 2) / COUNTERS)
  {
    var k, r := x / COUNTERS, x % COUNTERS;
    if r < COUNTERS / 2 {
      assert x + COUNTERS / 2 == COUNTERS * k + (r + COUNTERS / 2);
    } else {
      assert x + COUNTERS / 2 == COUNTERS * (k + 1) + (r - COUNTERS / 2);
    }
  }

  /** The difference of the two casts is the true difference if and only if both counters lie between the same odd multiples of 2^31. */
  lemma CastsExactIff(x: nat, y: nat)
    ensures AsInt32(x) - AsInt32(y) == x - y <==> (x + COUNTERS / 2) / COUNTERS == (y + COUNTERS / 2) / COUNTERS
  {
    CastShift(x);
    CastShift(y);
  }

  lemma CastsEqualIff(x: nat, y: nat)
    ensures AsInt32(x) == AsInt32(y) <==> x % COUNTERS == y % COUNTERS
  {
  }

  // ---- TryRead ----

  /** Thread t is a reader about to validate a load. */
  predicate AtValidation(q: Queue, t: nat) {
    0 < t < |q.ring.threads| == |q.readers| + 1 && q.ring.threads[t].pc.Validate? && q.ring.threads[t].pc.j < |q.ring.cells|
  }

  /** Fewer than 2^31 stores have completed during the load. */
  ghost predicate ShortLoad(q: Queue, t: nat) {
    AtValidation(q, t) ==>
      q.ring.cells[q.ring.threads[t].pc.j].total / 2 - q.ring.threads[t].pc.from / 2 < COUNTERS / 2
  }

  /** The reader is fewer than 2^31 rounds behind. */
  ghost predicate CloseBehind(q: Queue, t: nat) {
    AtValidation(q, t) ==> q.ring.cells[q.ring.threads[t].pc.j].total < q.readers[t - 1].expected + COUNTERS
  }

  /** A load in time. */
  ghost predicate Timely(q: Queue, t: nat) { ShortLoad(q, t) && CloseBehind(q, t) }

  /** A load in time was undisturbed. */
  lemma LoadUndisturbed(q: Queue, o: Outcome)
    requires QueueInv(q) && o.Loaded? && OutcomeOk(q.ring, o) && o.to == q.ring.cells[o.cell].total
    requires o.to / 2 - o.from / 2 < COUNTERS / 2
    ensures o.from == o.to && o.seq0 == o.to % COUNTERS && o.to == 2 * (|q.ring.cells[o.cell].stores| - 1)
    ensures o.bytes == Last(q.ring.cells[o.cell])
  {
    assert CellOk(q.ring, o.cell);
    SameCounter(o.from, o.to);
  }

  /**
   * The answer in closed form: w messages having been written when the load
   * validates, a reader waiting for message k gets -2 if message k is not
   * there yet, and otherwise twice the number of rounds it has been overtaken.
   */
  function Lateness(size: nat, w: nat, k: nat): int
    requires size > 0 && k <= w
  {
    if w == k then -2 else 2 * ((w - 1 - k) / size)
  }

  /** The closed form is the true difference of the counters. */
  lemma LatenessIsDifference(q: Queue, i: nat)
    requires QueueInv(q) && i < |q.readers|
    ensures |q.readers[i].received| <= |q.written| && 0 < Size(q) && q.readers[i].head < |q.ring.cells|
    ensures 2 * (|q.ring.cells[q.readers[i].head].stores| - 1) - q.readers[i].expected
         == Lateness(Size(q), |q.written|, |q.readers[i].received|)
  {
    var size, w, k := Size(q), |q.written|, |q.readers[i].received|;
    assert ReaderOk(q, i) && CellWritten(q, q.readers[i].head);
    FiledCount(size, q.written, q.readers[i].head);
    CountGap(size, w, k);
  }

  /** Both counters of reader i's next load lie between the same odd multiples of 2^31. */
  ghost predicate SameBlock(q: Queue, i: nat)
    requires i < |q.readers| && q.readers[i].head < |q.ring.cells|
  {
    (q.ring.cells[q.readers[i].head].total + COUNTERS / 2) / COUNTERS == (q.readers[i].expected + COUNTERS / 2) / COUNTERS
  }

  /**
   * What TryRead computes from an undisturbed load, however far the reader is
   * behind: the closed form exactly if the counters are in the same block; 0
   * exactly if they agree modulo 2^32; and then the closed form is 0, too,
   * exactly if the reader is fewer than 2^31 rounds behind.
   */
  lemma AnswerIsLatenessIff(q: Queue, i: nat, o: Outcome)
    requires QueueInv(q) && i < |q.readers|
    requires o.Loaded? && OutcomeOk(q.ring, o) && o.cell == q.readers[i].head && o.to == q.ring.cells[o.cell].total
    requires o.to / 2 - o.from / 2 < COUNTERS / 2
    ensures |q.readers[i].received| <= |q.written| && 0 < Size(q)
    ensures AsInt32(o.seq0) - AsInt32(q.readers[i].expected) == Lateness(Size(q), |q.written|, |q.readers[i].received|) <==> SameBlock(q, i)
    ensures o.to - q.readers[i].expected == Lateness(Size(q), |q.written|, |q.readers[i].received|)
    ensures AsInt32(o.seq0) == AsInt32(q.readers[i].expected) <==> o.to % COUNTERS == q.readers[i].expected % COUNTERS
    ensures AsInt32(o.seq0) == AsInt32(q.readers[i].expected) ==>
      (Lateness(Size(q), |q.written|, |q.readers[i].received|) == 0 <==> o.to < q.readers[i].expected + COUNTERS)
    ensures o.to < q.readers[i].expected + COUNTERS ==>
      (AsInt32(o.seq0) == AsInt32(q.readers[i].expected) <==> Lateness(Size(q), |q.written|, |q.readers[i].received|) == 0)
  {
    LoadUndisturbed(q, o);
    LatenessIsDifference(q, i);
    CastIsModular(o.to);
    CastsExactIff(o.to, q.readers[i].expected);
    CastsEqualIff(o.to, q.readers[i].expected);
    LatenessAtLeast(Size(q), |q.written|, |q.readers[i].received|);
    if o.to < q.readers[i].expected + COUNTERS { CloseAndCongruent(o.to, q.readers[i].expected); }
  }

  /** The number of the message that is in the cell of message k once w > k are written. */
  function Newest(size: nat, w: nat, k: nat): nat
    requires size > 0 && k < w
  {
    k + ((w - 1 - k) / size) * size
  }

  /** An undisturbed load brings the newest message of its cell. */
  lemma LoadBringsNewest(q: Queue, i: nat, o: Outcome)
    requires QueueInv(q) && i < |q.readers| && |q.readers[i].received| < |q.written|
    requires o.Loaded? && OutcomeOk(q.ring, o) && o.cell == q.readers[i].head && o.to == q.ring.cells[o.cell].total
    requires o.to / 2 - o.from / 2 < COUNTERS / 2
    ensures 0 < Size(q) && Newest(Size(q), |q.written|, |q.readers[i].received|) < |q.written|
    ensures o.bytes == q.written[Newest(Size(q), |q.written|, |q.readers[i].received|)]
  {
    var size, w, k := Size(q), |q.written|, |q.readers[i].received|;
    assert ReaderOk(q, i) && CellWritten(q, o.cell);
    LoadUndisturbed(q, o);
    FiledCount(size, q.written, o.cell);
    CountGap(size, w, k);
    NewestIsLast(size, q.written, q.ring.cells[o.cell].stores, k);
  }

  lemma NewestIsLast(size: nat, written: seq<Message>, stores: seq<Message>, k: nat)
    requires size > 0 && k < |written| && stores != [] && stores[1..] == Filed(size, written, k % size)
    requires |stores| == k / size + 2 + (|written| - 1 - k) / size
    ensures Newest(size, |written|, k) < |written| && stores[|stores| - 1] == written[Newest(size, |written|, k)]
  {
    var m := Newest(size, |written|, k);
    NewestPosition(size, |written|, k);
    FiledAt(size, written, m);
    assert stores[1..][m / size] == stores[|stores| - 1];
  }

  lemma NewestPosition(size: nat, w: nat, k: nat)
    requires size > 0 && k < w
    ensures var m := Newest(size, w, k); m < w && m % size == k % size && m / size == k / size + (w - 1 - k) / size
  {
    var rounds := (w - 1 - k) / size;
    Split(w - 1 - k, size);
    Split(k, size);
    LapsAdd(k / size, rounds, size);
    Located(Newest(size, w, k), k / size + rounds, k % size, size);
  }

  lemma LapsAdd(a: nat, b: nat, size: nat)
    ensures (a + b) * size == a * size + b * size
  {
  }

  lemma LatenessAtLeast(size: nat, w: nat, k: nat)
    requires size > 0 && k <= w
    ensures Lateness(size, w, k) >= -2
  {
  }

  lemma CastIsModular(x: nat)
    ensures AsInt32(x % COUNTERS) == AsInt32(x)
  {
  }

  lemma CloseAndCongruent(x: nat, y: nat)
    requires y <= x + 2 && x < y + COUNTERS
    ensures x % COUNTERS == y % COUNTERS <==> x == y
  {
  }

  lemma CountGap(size: nat, w: nat, k: nat)
    requires size > 0 && k <= w
    ensures Count(size, w, k % size) == k / size + (if w == k then 0 else 1 + (w - 1 - k) / size)
  {
    var d := w - k;
    CountAhead(size, k, d);
    assert k + d == w;
  }
}
