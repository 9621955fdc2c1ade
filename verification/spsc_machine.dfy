/**
 * The single-producer single-consumer queue as a machine of atomic steps. The
 * producer and the consumer each work on their own index and on a stale copy
 * of the other's, which they reload only when it seems to say full or empty.
 */
module SpscMachine {
  import opened Options
  import opened RingArithmetic

  type Value(==, !new)

  datatype Slot = Blank | Live(value: Value) | MovedFrom

  datatype Producer =
    | Resting
      // Emplace
    | EmplaceTail(x: Value)
    | EmplaceReload(x: Value, tail: nat, next: nat)
    | EmplaceConstruct(x: Value, tail: nat, next: nat)
    | EmplaceStore(x: Value, tail: nat, next: nat)
      // IsEmptyProducer and GetSize
    | AskTail
    | AskHead(tail: nat)

  /** The consumer's calls: Front (also IsEmptyConsumer), Dequeue() and Dequeue(element). */
  datatype Call = Front | Drop | Take

  datatype Consumer =
    | Waiting
    | LoadHead(call: Call)
    | LoadTail(call: Call, head: nat)
    | Move(head: nat)
    | StoreHead(head: nat, took: Option<Value>)
      // GetSize
    | SizeTail
    | SizeHead(tail: nat, at: nat)

  datatype PutCall = EmplaceCall(x: Value) | AskCall

  datatype GetCall = ConsumeCall(call: Call) | MeasureCall

  datatype Reply = Accepted | Full | Sized(size: int) | Nothing(call: Call) | Pointer(index: nat) | Dropped | Took(value: Value)

  /**
   * The ring has 2^bits slots; `moves` says whether T is move constructible.
   * `front` is the slot of the last pointer from Front that no Dequeue call has
   * ended. History: `enqueued` and `dequeued`, the counts `seenHead` and
   * `seenTail` at which the cached indexes were taken, and the calls begun on
   * each side with the replies given. `at` in SizeHead is the number of elements
   * enqueued at the load of the tail.
   */
  datatype State = State(
    bits: nat, moves: bool, buffer: seq<Slot>,
    tail: nat, cachedHead: nat, head: nat, cachedTail: nat,
    producer: Producer, consumer: Consumer, front: Option<nat>,
    enqueued: seq<Value>, dequeued: seq<Value>, seenHead: nat, seenTail: nat,
    putCalls: seq<PutCall>, produced: seq<Reply>, getCalls: seq<GetCall>, consumed: seq<Reply>)

  datatype Action = Emplace(x: Value) | Ask | Consume(call: Call) | Measure | GoProducer | GoConsumer

  function Size(s: State): nat { Pow2(s.bits) }

  function NextIndex(s: State, i: nat): nat {
    Pow2Positive(s.bits);
    BitAnd(i + 1, Size(s) - 1)
  }

  /** `GetSize` of two loaded indexes: a signed difference, corrected by the ring size when negative. */
  function GetSize(s: State, tail: nat, head: nat): int {
    var size := tail - head;
    if size < 0 then size + Size(s) else size
  }

  predicate Enabled(s: State, act: Action) {
    match act
    case Emplace(_) => s.producer.Resting?
    case Ask => s.producer.Resting?
    case Consume(_) => s.consumer.Waiting?
    case Measure => s.consumer.Waiting?
    case GoProducer => !s.producer.Resting?
    case GoConsumer => !s.consumer.Waiting?
  }

  function Answer(s: State, r: Reply): State {
    s.(producer := Resting, produced := s.produced + [r])
  }

  function Deliver(s: State, r: Reply): State {
    s.(consumer := Waiting, consumed := s.consumed + [r])
  }

  /** The slots the two sides address. */
  predicate InBounds(s: State) {
    && (s.producer.EmplaceConstruct? ==> s.producer.tail < |s.buffer|)
    && (s.consumer.Move? || s.consumer.StoreHead? ==> s.consumer.head < |s.buffer|)
    && (s.front.Some? ==> s.front.value < |s.buffer|)
  }

  function ProducerStep(s: State): State
    requires InBounds(s)
  {
    match s.producer
    case Resting => s
    case EmplaceTail(x) =>
      var next := NextIndex(s, s.tail);
      s.(producer := if next == s.cachedHead then EmplaceReload(x, s.tail, next) else EmplaceConstruct(x, s.tail, next))
    case EmplaceReload(x, tail, next) =>
      var s := s.(cachedHead := s.head, seenHead := |s.dequeued|);
      if next == s.cachedHead then Answer(s, Full) else s.(producer := EmplaceConstruct(x, tail, next))
    case EmplaceConstruct(x, tail, next) =>
      s.(buffer := s.buffer[tail := Live(x)], producer := EmplaceStore(x, tail, next))
    case EmplaceStore(x, tail, next) =>
      Answer(s.(tail := next, enqueued := s.enqueued + [x]), Accepted)
    case AskTail => s.(producer := AskHead(s.tail))
    case AskHead(tail) => Answer(s, Sized(GetSize(s, tail, s.head)))
  }

  /** What follows once the queue is known not to be empty. */
  function Proceed(s: State, call: Call, head: nat): State {
    match call
    case Front => Deliver(s.(front := Some(head)), Pointer(head))
    case Drop => s.(consumer := StoreHead(head, None))
    case Take => s.(consumer := Move(head))
  }

  function ConsumerStep(s: State): State
    requires InBounds(s)
  {
    match s.consumer
    case Waiting => s
    case LoadHead(call) =>
      if s.head == s.cachedTail then s.(consumer := LoadTail(call, s.head)) else Proceed(s, call, s.head)
    case LoadTail(call, head) =>
      var s := s.(cachedTail := s.tail, seenTail := |s.enqueued|);
      if head == s.cachedTail then Deliver(s, Nothing(call)) else Proceed(s, call, head)
    case Move(head) =>
      if !s.buffer[head].Live? then s else
      s.(buffer := if s.moves then s.buffer[head := MovedFrom] else s.buffer,
         consumer := StoreHead(head, Some(s.buffer[head].value)))
    case StoreHead(head, took) =>
      var x := if took.Some? then took else if s.buffer[head].Live? then Some(s.buffer[head].value) else None;
      if x.None? then s else
      Deliver(s.(head := NextIndex(s, head), dequeued := s.dequeued + [x.value]), if took.Some? then Took(x.value) else Dropped)
    case SizeTail => s.(consumer := SizeHead(s.tail, |s.enqueued|))
    case SizeHead(tail, _) => Deliver(s, Sized(GetSize(s, tail, s.head)))
  }

  function Next(s: State, act: Action): State
    requires InBounds(s)
  {
    match act
    case Emplace(x) => s.(producer := EmplaceTail(x), putCalls := s.putCalls + [EmplaceCall(x)])
    case Ask => s.(producer := AskTail, putCalls := s.putCalls + [AskCall])
    case Consume(call) =>
      s.(consumer := LoadHead(call), front := if call.Front? then s.front else None, getCalls := s.getCalls + [ConsumeCall(call)])
    case Measure => s.(consumer := SizeTail, getCalls := s.getCalls + [MeasureCall])
    case GoProducer => ProducerStep(s)
    case GoConsumer => ConsumerStep(s)
  }

  function Init(bits: nat, moves: bool): State {
    State(bits, moves, seq(Pow2(bits), _ => Blank), 0, 0, 0, 0, Resting, Waiting, None, [], [], 0, 0, [], [], [], [])
  }
}
