/** The SPSC queue as an object: indexes, cached indexes and slots are updated in place. */
module SpscObject {
  import opened Options
  import opened RingArithmetic
  import opened SpscMachine
  import opened SpscProof
  import opened SpscTheorems

  class BoundedSPSCQueue {
    const bits: nat
    const moves: bool
    const buffer_: array<Slot>
    var tail_: nat
    var cached_head_: nat
    var head_: nat
    var cached_tail_: nat
    var producer: Producer
    var consumer: Consumer
    // history
    var front: Option<nat>
    var enqueued: seq<Value>
    var dequeued: seq<Value>
    var seenHead: nat
    var seenTail: nat
    var putCalls: seq<PutCall>
    var produced: seq<Reply>
    var getCalls: seq<GetCall>
    var consumed: seq<Reply>

    ghost function Abs(): State
      reads this, buffer_
    {
      State(bits, moves, buffer_[..], tail_, cached_head_, head_, cached_tail_, producer, consumer, front,
            enqueued, dequeued, seenHead, seenTail, putCalls, produced, getCalls, consumed)
    }

    constructor (bits: nat, moves: bool)
      ensures fresh(buffer_) && Abs() == Init(bits, moves) && Inv(Abs())
    {
      this.bits, this.moves := bits, moves;
      buffer_ := new Slot[Pow2(bits)](_ => Blank);
      tail_, cached_head_, head_, cached_tail_ := 0, 0, 0, 0;
      producer, consumer, front := Resting, Waiting, None;
      enqueued, dequeued, seenHead, seenTail := [], [], 0, 0;
      putCalls, produced, getCalls, consumed := [], [], [], [];
      new;
      assert buffer_[..] == Init(bits, moves).buffer;
      InitOk(bits, moves);
    }

    method NextIndexOf(i: nat) returns (next: nat)
      ensures next == NextIndex(Abs(), i)
      ensures forall k: nat :: i == Index(bits, k) ==> next == Index(bits, k + 1)
    {
      Pow2Positive(bits);
      next := BitAnd(i + 1, Pow2(bits) - 1);
      forall k: nat | i == Index(bits, k) ensures next == Index(bits, k + 1) { IndexNext(Abs(), k); }
    }

    /** The rest of `GetSize` once the tail is loaded; in step with the positions it is their distance. */
    method SizeFrom(tail: nat) returns (size: int)
      ensures size == GetSize(Abs(), tail, head_)
      ensures forall d: nat, e :: d <= e < d + Size(Abs()) && head_ == Index(bits, d) && tail == Index(bits, e) ==> size == e - d
    {
      size := tail - head_;
      if size < 0 { size := size + Pow2(bits); }
      forall d: nat, e | d <= e < d + Size(Abs()) && head_ == Index(bits, d) && tail == Index(bits, e) ensures size == e - d {
        GetSizeIsDistance(Abs(), d, e);
      }
    }

    method Reply(r: Reply, byProducer: bool)
      modifies this`producer, this`produced, this`consumer, this`consumed
      ensures Abs() == if byProducer then Answer(old(Abs()), r) else Deliver(old(Abs()), r)
    {
      if byProducer {
        producer, produced := Resting, produced + [r];
      } else {
        consumer, consumed := Waiting, consumed + [r];
      }
    }

    /** The next step of Emplace, or of the producer's GetSize. */
    method Produce()
      requires InBounds(Abs())
      modifies this, buffer_
      ensures Abs() == ProducerStep(old(Abs()))
    {
      match producer
      case Resting =>
      case EmplaceTail(x) =>
        var next := NextIndexOf(tail_);
        producer := if next == cached_head_ then EmplaceReload(x, tail_, next) else EmplaceConstruct(x, tail_, next);
      case EmplaceReload(x, tail, next) =>
        cached_head_, seenHead := head_, |dequeued|;
        if next == cached_head_ { Reply(Full, true); } else { producer := EmplaceConstruct(x, tail, next); }
      case EmplaceConstruct(x, tail, next) =>
        buffer_[tail] := Live(x);
        producer := EmplaceStore(x, tail, next);
      case EmplaceStore(x, tail, next) =>
        tail_, enqueued := next, enqueued + [x];
        Reply(Accepted, true);
      case AskTail => producer := AskHead(tail_);
      case AskHead(tail) =>
        var size := SizeFrom(tail);
        Reply(Sized(size), true);
    }

    method Found(call: Call, head: nat)
      modifies this
      ensures Abs() == Proceed(old(Abs()), call, head)
    {
      match call
      case Front =>
        front := Some(head);
        Reply(Pointer(head), false);
      case Drop => consumer := StoreHead(head, None);
      case Take => consumer := Move(head);
    }

    /** `element = std::move(buffer_[head])`. */
    method MoveOut()
      requires Inv(Abs()) && consumer.Move?
      modifies this`consumer, buffer_
      ensures InBounds(old(Abs())) && Abs() == ConsumerStep(old(Abs()))
    {
      MoveOk(Abs(), consumer.head);
      var head := consumer.head;
      var x := buffer_[head].value;
      if moves { buffer_[head] := MovedFrom; }
      consumer := StoreHead(head, Some(x));
    }

    method StepHead()
      requires Inv(Abs()) && consumer.StoreHead?
      modifies this
      ensures InBounds(old(Abs())) && Abs() == ConsumerStep(old(Abs()))
    {
      Relies(Abs());
      var head, took := consumer.head, consumer.took;
      assert took.Some? || Holds(Abs(), |dequeued|);
      var x := if took.Some? then took.value else buffer_[head].value;
      head_ := NextIndexOf(head);
      dequeued := dequeued + [x];
      Reply(if took.Some? then Took(x) else Dropped, false);
    }

    /** The next step of Front, of either Dequeue, or of the consumer's GetSize. */
    method Consume()
      requires Inv(Abs())
      modifies this, buffer_
      ensures InBounds(old(Abs())) && Abs() == ConsumerStep(old(Abs()))
    {
      Relies(Abs());
      match consumer
      case Waiting =>
      case LoadHead(call) =>
        if head_ == cached_tail_ { consumer := LoadTail(call, head_); } else { Found(call, head_); }
      case LoadTail(call, head) =>
        cached_tail_, seenTail := tail_, |enqueued|;
        if head == cached_tail_ { Reply(Nothing(call), false); } else { Found(call, head); }
      case Move(_) => MoveOut();
      case StoreHead(_, _) => StepHead();
      case SizeTail => consumer := SizeHead(tail_, |enqueued|);
      case SizeHead(tail, _) =>
        var size := SizeFrom(tail);
        Reply(Sized(size), false);
    }

    /** One step; the invariant holds throughout. */
    method Run(act: Action)
      requires Inv(Abs()) && Enabled(Abs(), act)
      modifies this, buffer_
      ensures InBounds(old(Abs())) && Abs() == Next(old(Abs()), act) && Inv(Abs())
    {
      StepOk(Abs(), act);
      match act
      case Emplace(x) => producer, putCalls := EmplaceTail(x), putCalls + [EmplaceCall(x)];
      case Ask => producer, putCalls := AskTail, putCalls + [AskCall];
      case Consume(call) =>
        consumer, getCalls := LoadHead(call), getCalls + [ConsumeCall(call)];
        if !call.Front? { front := None; }
      case Measure => consumer, getCalls := SizeTail, getCalls + [MeasureCall];
      case GoProducer => Produce();
      case GoConsumer => Consume();
    }
  }
}
