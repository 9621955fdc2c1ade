/** The multicast queue as objects: the Writer's tail_ and each Reader's indexes are updated in place. */
module MulticastObject {
  import opened Options
  import opened RingArithmetic
  import opened SeqLockMachine
  import opened SeqLockObject
  import opened MulticastMachine
  import opened MulticastProof
  import opened MulticastSteps
  import opened MulticastTheorems

  class QueueReader {
    const bits: nat // the size of the queue this reader belongs to
    var head_: nat
    var expected_seq_: nat
    var blocking: bool
    var calls: seq<bool> // history, as all that follow
    var answers: seq<int>
    var read: Option<Message>
    var received: seq<Message>

    ghost function Abs(): Reader
      reads this
    {
      Reader(head_, expected_seq_, blocking, calls, answers, read, received)
    }

    constructor (bits: nat)
      ensures this.bits == bits && Abs() == Reader(0, 2, false, [], [], None, [])
    {
      this.bits := bits;
      head_, expected_seq_, blocking, calls, answers, read, received := 0, 2, false, [], [], None, [];
    }

    /** `UpdateIndexes`, after message m: a reader in step with message k is then in step with message k + 1. */
    method UpdateIndexes(ghost q: Queue, m: Message)
      requires q.bits == bits
      modifies this
      ensures Abs() == Past(q, old(Abs()), m)
      ensures forall k: nat :: Size(q) > 0 && old(head_) == k % Size(q) && old(expected_seq_) == 2 * (k / Size(q) + 1) ==>
                head_ == (k + 1) % Size(q) && expected_seq_ == 2 * ((k + 1) / Size(q) + 1)
    {
      ghost var before := Abs();
      Pow2Positive(bits);
      head_ := head_ + 1;
      expected_seq_ := expected_seq_ + ShiftRight(head_, TrailingZeros(Pow2(bits))) * 2;
      head_ := BitAnd(head_, Pow2(bits) - 1);
      read, received := None, received + [m];
      forall k: nat | Size(q) > 0 && before.head == k % Size(q) && before.expected == 2 * (k / Size(q) + 1)
        ensures head_ == (k + 1) % Size(q) && expected_seq_ == 2 * ((k + 1) / Size(q) + 1)
      {
        IndexesAdvance(q, before, k);
      }
    }

    /** The end of TryRead, or of one round of Read, for the validated load o. */
    method Conclude(ghost q: Queue, o: Outcome) returns (again: bool)
      requires q.bits == bits && o.Loaded?
      modifies this
      ensures (Abs(), again) == Answer(q, old(Abs()), o)
    {
      var result := AsInt32(o.seq0) - AsInt32(expected_seq_);
      again := false;
      if result == 0 {
        if blocking { UpdateIndexes(q, o.bytes); } else { read := Some(o.bytes); }
        answers := answers + [0];
      } else if result < 0 && blocking {
        again := true;
      } else {
        answers := answers + [result];
      }
    }
  }

  class BoundedMulticastQueue {
    const bits: nat
    const ring: SeqLockBuffer
    const readers: seq<QueueReader>
    var tail_: nat
    var written: seq<Message> // history

    ghost predicate Valid()
      reads this, readers
    {
      && (forall i :: 0 <= i < |readers| ==> readers[i].bits == bits)
      && (forall i, j :: 0 <= i < j < |readers| ==> readers[i] != readers[j])
    }

    ghost function Abs(): Queue
      reads this, ring, ring.buffer_, readers
    {
      Queue(bits, ring.Abs(), tail_, written, seq(|readers|, i reads this, readers requires 0 <= i < |readers| => readers[i].Abs()))
    }

    constructor (bits: nat, blank: seq<Byte>, readers: seq<QueueReader>)
      requires forall i :: 0 <= i < |readers| ==> readers[i].bits == bits && readers[i].Abs() == Reader(0, 2, false, [], [], None, [])
      requires forall i, j :: 0 <= i < j < |readers| ==> readers[i] != readers[j]
      ensures fresh(ring) && fresh(ring.buffer_) && this.readers == readers
      ensures Valid() && Abs() == InitQueue(bits, |blank|, blank, |readers|) && QueueInv(Abs())
    {
      this.bits, this.readers := bits, readers;
      ring := new SeqLockBuffer(|blank|, seq(Pow2(bits), _ => blank), seq(Pow2(bits), _ => 0), |readers| + 1);
      tail_, written := 0, [];
      new;
      assert Abs().readers == InitQueue(bits, |blank|, blank, |readers|).readers;
      InitQueueOk(bits, |blank|, blank, |readers|);
    }

    /** One step of Write: the Writer's thread is thread 0. */
    method Write(spurious: bool)
      requires Valid() && QueueInv(Abs()) && Allowed(Abs(), 0, Step(spurious)) && InBounds(ring.Abs(), 0)
      modifies this, ring`threads, ring.buffer_
      ensures Valid() && Abs() == NextQueue(old(Abs()), 0, Step(spurious))
    {
      var pc := ring.threads[0].pc;
      ring.Run(0, Go(spurious));
      if pc.Unlock? {
        Pow2Positive(bits);
        written := written + [pc.m];
        tail_ := BitAnd(tail_ + 1, Pow2(bits) - 1);
      }
      assert Abs().readers == old(Abs()).readers;
    }

    /** Reader t - 1 acts on its validated load o. */
    method Settle(t: nat, o: Outcome)
      requires Valid() && 0 < t < |ring.threads| == |readers| + 1 && o.Loaded?
      modifies readers, ring`threads
      ensures Valid() && Abs() == Settled(old(Abs()), t, o)
    {
      ghost var q := Abs();
      var again := readers[t - 1].Conclude(q, o);
      if again { ring.Enter(t, LoadCall(readers[t - 1].head_), LoadSeq(readers[t - 1].head_)); }
      assert Abs().readers == q.readers[t - 1 := readers[t - 1].Abs()];
    }

    /** One step of TryRead or Read by reader t - 1. */
    method Read(t: nat, spurious: bool)
      requires Valid() && QueueInv(Abs()) && t > 0 && Allowed(Abs(), t, Step(spurious)) && InBounds(ring.Abs(), t)
      modifies readers, ring`threads, ring.buffer_
      ensures Valid() && Abs() == NextQueue(old(Abs()), t, Step(spurious))
    {
      ghost var q := Abs();
      var before, validating := ring.threads[t].results, ring.threads[t].pc.Validate?;
      ring.Run(t, Go(spurious));
      assert Abs() == q.(ring := ring.Abs());
      var results := ring.threads[t].results;
      if |results| > 0 && validating && results != before && results[|results| - 1].Loaded? {
        Settle(t, results[|results| - 1]);
      }
    }

    /** One step of the Writer or of a Reader; the invariant holds throughout. */
    method Run(t: nat, act: Act)
      requires Valid() && QueueInv(Abs()) && Timely(Abs(), t) && Allowed(Abs(), t, act)
      modifies this, readers, ring`threads, ring.buffer_
      ensures Valid() && InBounds(old(Abs()).ring, t) && Abs() == NextQueue(old(Abs()), t, act) && QueueInv(Abs())
    {
      ghost var q := Abs();
      QueueStepOk(q, t, act);
      match act
      case Write(m) =>
        ring.Run(0, StartStore(tail_, m));
        assert Abs().readers == q.readers;
      case StartRead(blocking) =>
        readers[t - 1].blocking, readers[t - 1].calls := blocking, readers[t - 1].calls + [blocking];
        ring.Run(t, StartLoad(readers[t - 1].head_));
        assert Abs().readers == NextQueue(q, t, act).readers;
      case Advance =>
        readers[t - 1].UpdateIndexes(q, readers[t - 1].read.value);
        assert Abs().readers == NextQueue(q, t, act).readers;
      case Step(spurious) =>
        if t == 0 { Write(spurious); } else { Read(t, spurious); }
    }
  }
}
