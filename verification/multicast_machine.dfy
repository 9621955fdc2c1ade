/**
 * The multicast queue: one Writer that never waits and any number of Readers,
 * over a ring of sequence-locked cells. Thread 0 of the cells is the Writer,
 * thread r + 1 is Reader r.
 */
module MulticastMachine {
  import opened Options
  import opened RingArithmetic
  import opened SeqLockMachine

  /**
   * `expected` is expected_seq_; `blocking` tells Read from TryRead. `calls`
   * (how each call was made), `answers` (results of finished calls), `read` (a message TryRead got with answer 0,
   * UpdateIndexes not yet called) and `received` (messages read and stepped
   * past) are history variables.
   */
  datatype Reader = Reader(head: nat, expected: nat, blocking: bool, calls: seq<bool>, answers: seq<int>, read: Option<Message>, received: seq<Message>)

  /** The ring has 2^bits cells; `written` is a history variable: the messages whose Write has finished. */
  datatype Queue = Queue(bits: nat, ring: State, tail: nat, written: seq<Message>, readers: seq<Reader>)

  function Size(q: Queue): nat { Pow2(q.bits) }

  function IndexMask(q: Queue): nat {
    Pow2Positive(q.bits);
    Size(q) - 1
  }

  /** `static_cast<int32_t>`. */
  function AsInt32(x: nat): int {
    if x % COUNTERS < COUNTERS / 2 then x % COUNTERS else x % COUNTERS - COUNTERS
  }

  /** `Reader::UpdateIndexes`: step the head; passing the end of the ring raises the expected counter by 2. */
  function UpdateIndexes(q: Queue, r: Reader): Reader {
    var next := r.head + 1;
    r.(head := BitAnd(next, IndexMask(q)), expected := r.expected + 2 * ShiftRight(next, TrailingZeros(IndexMask(q) + 1)))
  }

  /** The caller of a reader steps past a message exactly when TryRead has returned 0 for it. */
  datatype Act = Write(m: Message) | StartRead(blocking: bool) | Advance | Step(spurious: bool)

  predicate Allowed(q: Queue, t: nat, act: Act) {
    t < |q.ring.threads| == |q.readers| + 1 &&
    match act
    case Write(m) => t == 0 && q.tail < |q.ring.cells| && Enabled(q.ring, 0, StartStore(q.tail, m))
    case StartRead(_) => t > 0 && Enabled(q.ring, t, StartLoad(q.readers[t - 1].head))
    case Advance => t > 0 && q.ring.threads[t].pc.Idle? && q.readers[t - 1].read.Some?
    case Step(spurious) => Enabled(q.ring, t, Go(spurious))
  }

  /** UpdateIndexes once message m has been read. */
  function Past(q: Queue, r: Reader, m: Message): Reader {
    UpdateIndexes(q, r).(read := None, received := r.received + [m])
  }

  /**
   * What the reader does with a validated load: TryRead returns the
   * difference; Read steps past the message, gives up, or tries again.
   */
  function Answer(q: Queue, r: Reader, o: Outcome): (Reader, bool)
    requires o.Loaded?
  {
    var result := AsInt32(o.seq0) - AsInt32(r.expected);
    if result == 0 then
      ((if r.blocking then Past(q, r, o.bytes) else r.(read := Some(o.bytes))).(answers := r.answers + [0]), false)
    else if result < 0 && r.blocking then (r, true)
    else (r.(answers := r.answers + [result]), false)
  }

  /** Reader t - 1 acts on its validated load o. */
  function Settled(q: Queue, t: nat, o: Outcome): Queue
    requires 0 < t < |q.ring.threads| == |q.readers| + 1 && o.Loaded?
  {
    var (r, again) := Answer(q, q.readers[t - 1], o);
    q.(ring := if again then Begin(q.ring, t, LoadCall(r.head), LoadSeq(r.head)) else q.ring, readers := q.readers[t - 1 := r])
  }

  function NextQueue(q: Queue, t: nat, act: Act): Queue
    requires t < |q.ring.threads| == |q.readers| + 1 && InBounds(q.ring, t)
  {
    match act
    case Write(m) => q.(ring := Next(q.ring, t, StartStore(q.tail, m)))
    case StartRead(blocking) =>
      if t == 0 then q else
      q.(ring := Next(q.ring, t, StartLoad(q.readers[t - 1].head)),
         readers := q.readers[t - 1 := q.readers[t - 1].(blocking := blocking, calls := q.readers[t - 1].calls + [blocking])])
    case Advance =>
      if t == 0 || q.readers[t - 1].read.None? then q else
      q.(readers := q.readers[t - 1 := Past(q, q.readers[t - 1], q.readers[t - 1].read.value)])
    case Step(spurious) =>
      var pc, ring := q.ring.threads[t].pc, Next(q.ring, t, Go(spurious));
      if t == 0 then
        if pc.Unlock? then q.(ring := ring, tail := BitAnd(q.tail + 1, IndexMask(q)), written := q.written + [pc.m])
        else q.(ring := ring)
      else
        var results := ring.threads[t].results;
        if |results| == 0 || !pc.Validate? || results == q.ring.threads[t].results || !results[|results| - 1].Loaded? then q.(ring := ring)
        else
          Settled(q.(ring := ring), t, results[|results| - 1])
  }

  function InitQueue(bits: nat, capacity: nat, blank: seq<Byte>, readers: nat): Queue
    requires |blank| == capacity
  {
    var size := Pow2(bits);
    Queue(bits, Init(capacity, seq(size, _ => blank), seq(size, _ => 0), readers + 1), 0, [], seq(readers, _ => Reader(0, 2, false, [], [], None, [])))
  }
}
