/** What the producer and the consumer may rely on, in every run. */
module SpscTheorems {
  import opened Options
  import opened RingIndex
  import opened RingArithmetic
  import opened SpscMachine
  import opened SpscProof

  ghost predicate IsRun(bits: nat, moves: bool, trace: seq<State>, acts: seq<Action>) {
    && |trace| == |acts| + 1 && trace[0] == Init(bits, moves)
    && (forall i :: 0 <= i < |acts| ==>
          Enabled(trace[i], acts[i]) && InBounds(trace[i]) && trace[i + 1] == Next(trace[i], acts[i]))
  }

  lemma {:induction false} RunOk(bits: nat, moves: bool, trace: seq<State>, acts: seq<Action>, i: nat)
    requires IsRun(bits, moves, trace, acts) && i < |trace|
    ensures Inv(trace[i]) && trace[i].bits == bits
  {
    if i == 0 {
      InitOk(bits, moves);
    } else {
      RunOk(bits, moves, trace, acts, i - 1);
      StepOk(trace[i - 1], acts[i - 1]);
    }
  }

  /** The states of all runs on a fresh ring of 2^bits slots. */
  ghost predicate Reachable(bits: nat, moves: bool, s: State) {
    exists trace: seq<State>, acts: seq<Action> :: IsRun(bits, moves, trace, acts) && trace[|trace| - 1] == s
  }

  lemma ReachableOk(s: State)
    requires Reachable(s.bits, s.moves, s)
    ensures Inv(s)
  {
    var trace: seq<State>, acts: seq<Action> :| IsRun(s.bits, s.moves, trace, acts) && trace[|trace| - 1] == s;
    RunOk(s.bits, s.moves, trace, acts, |trace| - 1);
  }

  lemma ReachStep(s: State, act: Action)
    requires Reachable(s.bits, s.moves, s) && Enabled(s, act)
    ensures InBounds(s) && Reachable(s.bits, s.moves, Next(s, act))
  {
    ReachableOk(s);
    Relies(s);
    var trace: seq<State>, acts: seq<Action> :| IsRun(s.bits, s.moves, trace, acts) && trace[|trace| - 1] == s;
    var trace', acts' := trace + [Next(s, act)], acts + [act];
    forall i | 0 <= i < |acts'| ensures Enabled(trace'[i], acts'[i]) && InBounds(trace'[i]) && trace'[i + 1] == Next(trace'[i], acts'[i]) {
      if i < |acts| { assert trace'[i] == trace[i] && acts'[i] == acts[i]; }
    }
    assert IsRun(s.bits, s.moves, trace', acts');
  }

  // ---- refinement ----

  /** What one step does to an abstract FIFO that holds at most room elements. */
  ghost predicate FifoStep(s: State, act: Action, s': State) {
    var q, q' := Fifo(s), Fifo(s');
    if act.GoProducer? && s.producer.EmplaceStore? then
      |q| < Size(s) - 1 && q' == q + [s.producer.x] && s'.produced == s.produced + [Accepted]
    else if act.GoConsumer? && s.consumer.StoreHead? then
      |q| > 0 && q' == q[1..] && s'.consumed == s.consumed + [if s.consumer.took.Some? then Took(q[0]) else Dropped]
    else
      q' == q
  }

  /** Every step is an enqueue at one end, a dequeue at the other, or invisible. */
  lemma RefinesFifo(s: State, act: Action)
    requires Reachable(s.bits, s.moves, s) && Enabled(s, act)
    ensures InBounds(s) && FifoStep(s, act, Next(s, act))
    ensures |Fifo(s)| <= Size(s) - 1
  {
    ReachableOk(s);
    StepRefines(s, act);
  }

  lemma StepRefines(s: State, act: Action)
    requires Inv(s) && Enabled(s, act)
    ensures InBounds(s) && FifoStep(s, act, Next(s, act))
  {
    Relies(s);
    if act.GoProducer? && s.producer.EmplaceStore? {
      AddsLast(s);
    } else if act.GoConsumer? && s.consumer.StoreHead? {
      TakesFirst(s);
    } else {
      Invisible(s, act);
    }
  }

  lemma AddsLast(s: State)
    requires Inv(s) && s.producer.EmplaceStore?
    ensures InBounds(s) && FifoStep(s, GoProducer, ProducerStep(s))
  {
    Relies(s);
    assert Fifo(ProducerStep(s)) == Fifo(s) + [s.producer.x];
  }

  lemma Invisible(s: State, act: Action)
    requires InBounds(s) && !(act.GoProducer? && s.producer.EmplaceStore?) && !(act.GoConsumer? && s.consumer.StoreHead?)
    ensures Fifo(Next(s, act)) == Fifo(s)
  {
  }

  lemma TakesFirst(s: State)
    requires Inv(s) && s.consumer.StoreHead?
    ensures InBounds(s) && Inv(ConsumerStep(s)) && FifoStep(s, GoConsumer, ConsumerStep(s))
  {
    Relies(s);
    StepHeadOk(s, s.consumer.head, s.consumer.took);
    var s' := ConsumerStep(s);
    assert s'.dequeued[|s.dequeued|] == s.enqueued[|s.dequeued|] == Fifo(s)[0];
    assert Fifo(s') == Fifo(s)[1..];
  }

  /** Values come out in the order they went in: what was dequeued is a prefix of what was enqueued, never more than the ring apart. */
  lemma DequeuedIsPrefix(bits: nat, moves: bool, trace: seq<State>, acts: seq<Action>, i: nat)
    requires IsRun(bits, moves, trace, acts) && i < |trace|
    ensures var s := trace[i];
      |s.dequeued| <= |s.enqueued| < |s.dequeued| + Pow2(bits) && s.dequeued == s.enqueued[..|s.dequeued|]
  {
    RunOk(bits, moves, trace, acts, i);
  }

  // ---- refusals ----

  /** Emplace refuses exactly when the queue is full at the moment it reloads the head. */
  lemma FullIff(s: State)
    requires Reachable(s.bits, s.moves, s) && s.producer.EmplaceReload?
    ensures InBounds(s)
    ensures ProducerStep(s).producer.Resting? <==> |Fifo(s)| == Size(s) - 1
    ensures ProducerStep(s).producer.Resting? ==> ProducerStep(s).produced == s.produced + [Full]
  {
    ReachableOk(s);
    Relies(s);
    EmplaceDecides(s);
  }

  /** Front and Dequeue report an empty queue exactly when it is empty at the moment they reload the tail. */
  lemma EmptyIff(s: State)
    requires Reachable(s.bits, s.moves, s) && s.consumer.LoadTail?
    ensures InBounds(s)
    ensures ConsumerStep(s).consumed == s.consumed + [Nothing(s.consumer.call)] <==> Fifo(s) == []
  {
    ReachableOk(s);
    Relies(s);
    IndexApart(s, |s.dequeued|, |s.enqueued|);
    var c := s.consumer;
    if Fifo(s) != [] && c.call.Front? {
      assert ConsumerStep(s).consumed[|s.consumed|] == Pointer(c.head);
      assert (s.consumed + [Nothing(c.call)])[|s.consumed|] == Nothing(c.call);
    } else if Fifo(s) != [] {
      assert |ConsumerStep(s).consumed| == |s.consumed|;
    }
  }

  // ---- what each reply says ----

  /** The step gives the producer the reply r. */
  ghost predicate Answers(s: State, act: Action, r: Reply) { InBounds(s) && Next(s, act).produced == s.produced + [r] }

  /** The step gives the consumer the reply r. */
  ghost predicate Delivers(s: State, act: Action, r: Reply) { InBounds(s) && Next(s, act).consumed == s.consumed + [r] }

  /**
   * Whatever step gives it: Emplace is refused only on a full queue, and
   * accepted by appending one element; GetSize is the length.
   */
  lemma ProducerReplies(s: State, act: Action, r: Reply)
    requires Reachable(s.bits, s.moves, s) && Enabled(s, act) && Answers(s, act, r)
    ensures r.Full? ==> |Fifo(s)| == Size(s) - 1
    ensures r.Accepted? ==> |Fifo(s)| < Size(s) - 1 && exists x :: Fifo(Next(s, act)) == Fifo(s) + [x]
    ensures r.Sized? ==> r.size == |Fifo(s)|
    ensures r.Full? || r.Accepted? || r.Sized?
  {
    ReachableOk(s);
    assert Next(s, act).produced[|s.produced|] == r;
    assert |Next(s, act).produced| == |s.produced| + 1;
    ProducerReplied(s, act);
    match s.producer
    case EmplaceReload(_, _, _) => FullIff(s);
    case EmplaceStore(x, _, _) =>
      StepRefines(s, act);
      assert Fifo(Next(s, act)) == Fifo(s) + [x];
    case AskHead(_) => ProducerSizeIsExact(s);
  }

  /** Only these steps reply to the producer. */
  lemma ProducerReplied(s: State, act: Action)
    requires InBounds(s) && |Next(s, act).produced| == |s.produced| + 1
    ensures act.GoProducer? && (s.producer.EmplaceReload? || s.producer.EmplaceStore? || s.producer.AskHead?)
  {
  }

  /**
   * Whatever step gives it: Front and Dequeue find nothing only in an empty
   * queue; the pointer from Front shows the oldest element; a Dequeue that
   * succeeds removes the oldest element and returns it if asked to.
   */
  lemma ConsumerReplies(s: State, act: Action, r: Reply)
    requires Reachable(s.bits, s.moves, s) && Enabled(s, act) && Delivers(s, act, r)
    ensures r.Nothing? ==> Fifo(s) == []
    ensures r.Pointer? ==>
      && Fifo(s) != [] && r.index < |Next(s, act).buffer| && Next(s, act).buffer[r.index] == Live(Fifo(s)[0])
      && Next(s, act).front == Some(r.index) && Fifo(Next(s, act)) == Fifo(s)
    ensures r.Took? || r.Dropped? ==> Fifo(s) != [] && Fifo(Next(s, act)) == Fifo(s)[1..]
    ensures r.Took? ==> r.value == Fifo(s)[0]
    ensures r.Nothing? || r.Pointer? || r.Took? || r.Dropped? || r.Sized?
  {
    ReachableOk(s);
    assert Next(s, act).consumed[|s.consumed|] == r;
    assert |Next(s, act).consumed| == |s.consumed| + 1;
    ConsumerReplied(s, act);
    StepRefines(s, act);
    if s.consumer.LoadHead? {
      FoundFirst(s, s.seenTail);
    } else if s.consumer.LoadTail? {
      FoundFirst(s, |s.enqueued|);
    }
  }

  /** Only these steps reply to the consumer. */
  lemma ConsumerReplied(s: State, act: Action)
    requires InBounds(s) && |Next(s, act).consumed| == |s.consumed| + 1
    ensures act.GoConsumer? && !s.consumer.Waiting?
    ensures s.consumer.LoadHead? ==> Next(s, act).consumed == s.consumed + [Pointer(s.head)] && s.head != s.cachedTail
    ensures s.consumer.LoadTail? ==>
      Next(s, act).consumed == s.consumed + [if s.consumer.head == s.tail then Nothing(s.consumer.call) else Pointer(s.consumer.head)]
    ensures s.consumer.LoadHead? || s.consumer.LoadTail? ==>
      Next(s, act).buffer == s.buffer && (s.consumer.LoadHead? || s.consumer.head != s.tail ==> Next(s, act).front == Some(if s.consumer.LoadHead? then s.head else s.consumer.head))
    ensures s.consumer.LoadHead? || s.consumer.LoadTail? || s.consumer.StoreHead? || s.consumer.SizeHead?
  {
  }

  /** Where head and tail (or its stale copy) differ, the oldest element sits at the head. */
  lemma FoundFirst(s: State, tail: nat)
    requires Inv(s) && |s.dequeued| <= tail <= |s.enqueued| && !MovedOut(s)
    ensures Index(s.bits, |s.dequeued|) == Index(s.bits, tail) <==> |s.dequeued| == tail
    ensures |s.dequeued| < tail ==>
      Fifo(s) != [] && Index(s.bits, |s.dequeued|) < |s.buffer| && s.buffer[Index(s.bits, |s.dequeued|)] == Live(Fifo(s)[0])
  {
    IndexApart(s, |s.dequeued|, tail);
    if |s.dequeued| < tail { assert Holds(s, |s.dequeued|); }
  }

  /** Without a reload, the stale copies err on the safe side only. */
  lemma StaleIsConservative(s: State)
    requires Reachable(s.bits, s.moves, s)
    ensures |Fifo(s)| <= GetSize(s, s.tail, s.cachedHead) < Size(s)
    ensures 0 <= GetSize(s, s.cachedTail, s.head) <= |Fifo(s)|
  {
    ReachableOk(s);
    GetSizeIsDistance(s, s.seenHead, |s.enqueued|);
    GetSizeIsDistance(s, |s.dequeued|, s.seenTail);
  }

  /** A ring sized for Capacity never refuses with fewer than Capacity + 1 elements in it. */
  lemma RoomForCapacity(s: State, act: Action, capacity: nat)
    requires Reachable(s.bits, s.moves, s) && Enabled(s, act) && Answers(s, act, Full)
    requires Wanted(capacity) < Pow2(SIZE_BITS) && SizeExponent(capacity) <= 30 && s.bits == SizeExponent(capacity)
    ensures |Fifo(s)| >= capacity + 1
  {
    ProducerReplies(s, act, Full);
    BufferSizeIsLeast(capacity, 0);
  }

  // ---- no race on a slot ----

  /** While the producer constructs, the consumer neither reads that slot nor holds a pointer to it. */
  lemma NoRace(s: State)
    requires Reachable(s.bits, s.moves, s) && (s.producer.EmplaceConstruct? || s.producer.EmplaceStore?)
    ensures s.consumer.Move? || s.consumer.StoreHead? ==> s.consumer.head != s.producer.tail
    ensures s.front.Some? ==> s.front.value != s.producer.tail
    ensures forall k :: |s.dequeued| <= k < |s.enqueued| ==> Index(s.bits, k) != s.producer.tail
  {
    ReachableOk(s);
    forall k | |s.dequeued| <= k < |s.enqueued| ensures Index(s.bits, k) != s.producer.tail {
      IndexApart(s, k, |s.enqueued|);
    }
  }

  /** The pointer from Front shows the oldest element until the next Dequeue, whatever the producer does. */
  lemma FrontIsOldest(s: State, act: Action)
    requires Reachable(s.bits, s.moves, s) && Enabled(s, act) && s.front.Some? && (act.Consume? ==> act.call.Front?)
    ensures InBounds(s) && Fifo(s) != [] && s.buffer[s.front.value] == Live(Fifo(s)[0])
    ensures var s' := Next(s, act);
      s'.front == s.front && Reachable(s.bits, s.moves, s') && s.front.value < |s'.buffer| && Fifo(s') != []
      && s'.buffer[s.front.value] == Live(Fifo(s)[0]) && Fifo(s')[0] == Fifo(s)[0]
  {
    ReachableOk(s);
    StepOk(s, act);
    ReachStep(s, act);
    var s' := Next(s, act);
    assert Holds(s, |s.dequeued|);
    FrontStays(s, act);
    assert Holds(s', |s'.dequeued|);
  }

  lemma FrontStays(s: State, act: Action)
    requires Inv(s) && Enabled(s, act) && InBounds(s) && s.front.Some? && (act.Consume? ==> act.call.Front?)
    ensures Next(s, act).front == s.front && Next(s, act).dequeued == s.dequeued
  {
    if act.GoConsumer? { IndexApart(s, |s.dequeued|, s.seenTail); }
  }

  // ---- GetSize ----

  /** The signed difference of the indexes, corrected, is the distance of the positions. */
  lemma GetSizeIsDistance(s: State, d: nat, e: nat)
    requires d <= e < d + Size(s)
    ensures GetSize(s, Index(s.bits, e), Index(s.bits, d)) == e - d
  {
    Pow2Positive(s.bits);
    Distance(d, e, Size(s));
  }

  /** With nobody moving, GetSize is the length of the queue. */
  lemma QuiescentSize(s: State)
    requires Reachable(s.bits, s.moves, s)
    ensures GetSize(s, s.tail, s.head) == |Fifo(s)|
  {
    ReachableOk(s);
    GetSizeIsDistance(s, |s.dequeued|, |s.enqueued|);
  }

  /** Asked by the producer, GetSize (and with it IsEmptyProducer) is exact when it loads the head. */
  lemma ProducerSizeIsExact(s: State)
    requires Reachable(s.bits, s.moves, s) && s.producer.AskHead?
    ensures InBounds(s) && ProducerStep(s).produced == s.produced + [Sized(|Fifo(s)|)]
    ensures Fifo(s) == [] <==> s.producer.tail == s.head
  {
    ReachableOk(s);
    Relies(s);
    QuiescentSize(s);
    IndexApart(s, |s.dequeued|, |s.enqueued|);
  }

  /**
   * Asked by the consumer, GetSize is the length of the queue at some moment i
   * inside the call.
   */
  lemma ConsumerSizeIsExact(bits: nat, moves: bool, trace: seq<State>, acts: seq<Action>, j: nat, size: int) returns (i: nat)
    requires IsRun(bits, moves, trace, acts) && j < |acts| && Delivers(trace[j], acts[j], Sized(size))
    ensures i < j && size == |Fifo(trace[i])|
    ensures trace[i].getCalls == trace[j].getCalls && trace[i].consumed == trace[j].consumed && !trace[i].consumer.Waiting?
  {
    var s := trace[j];
    assert Next(s, acts[j]).consumed[|s.consumed|] == Sized(size);
    assert |Next(s, acts[j]).consumed| == |s.consumed| + 1;
    ConsumerReplied(s, acts[j]);
    SizedLast(s);
    i := TailLoaded(bits, moves, trace, acts, j);
    RunOk(bits, moves, trace, acts, j);
    GetSizeIsDistance(s, |s.dequeued|, s.consumer.at);
    assert (s.consumed + [Sized(GetSize(s, s.consumer.tail, s.head))])[|s.consumed|] == Sized(size);
  }

  lemma SizedLast(s: State)
    requires InBounds(s) && !s.consumer.Waiting? && |ConsumerStep(s).consumed| == |s.consumed| + 1
    requires ConsumerStep(s).consumed[|s.consumed|].Sized?
    ensures s.consumer.SizeHead?
  {
  }

  /** Since the consumer loaded the tail, it has dequeued nothing. */
  lemma {:induction false} TailLoaded(bits: nat, moves: bool, trace: seq<State>, acts: seq<Action>, j: nat) returns (i: nat)
    requires IsRun(bits, moves, trace, acts) && j < |trace| && trace[j].consumer.SizeHead?
    ensures i < j && trace[i].consumer.SizeTail? && acts[i].GoConsumer? && trace[j].consumer.tail == trace[i].tail
    ensures |Fifo(trace[i])| == trace[j].consumer.at - |trace[j].dequeued|
    ensures trace[i].getCalls == trace[j].getCalls && trace[i].consumed == trace[j].consumed
  {
    if j > 0 {
      RunOk(bits, moves, trace, acts, j - 1);
      SizeStep(trace[j - 1], acts[j - 1]);
      i := j - 1;
      if trace[j - 1].consumer.SizeHead? { i := TailLoaded(bits, moves, trace, acts, j - 1); }
    }
  }

  /** The consumer is about to load the head because it has just loaded the tail, or because it has not moved. */
  lemma SizeStep(s: State, act: Action)
    requires Inv(s) && Enabled(s, act) && InBounds(s) && Next(s, act).consumer.SizeHead?
    ensures Next(s, act).dequeued == s.dequeued && Next(s, act).getCalls == s.getCalls && Next(s, act).consumed == s.consumed
    ensures if s.consumer.SizeHead? then Next(s, act).consumer == s.consumer
            else act.GoConsumer? && s.consumer.SizeTail? && Next(s, act).consumer == SizeHead(s.tail, |s.enqueued|)
  {
  }

  // ---- progress ----

  function PutStepsLeft(p: Producer): nat {
    match p
    case Resting => 0
    case EmplaceTail(_) => 4
    case EmplaceReload(_, _, _) => 3
    case EmplaceConstruct(_, _, _) => 2
    case EmplaceStore(_, _, _) => 1
    case AskTail => 2
    case AskHead(_) => 1
  }

  function GetStepsLeft(c: Consumer): nat {
    match c
    case Waiting => 0
    case LoadHead(_) => 4
    case LoadTail(_, _) => 3
    case Move(_) => 2
    case StoreHead(_, _) => 1
    case SizeTail => 2
    case SizeHead(_, _) => 1
  }

  /**
   * Both sides are wait-free: every step a side makes in a call brings its
   * return nearer, whatever the other side does, and none is repeated.
   */
  lemma WaitFree(s: State, act: Action)
    requires Reachable(s.bits, s.moves, s) && Enabled(s, act)
    ensures InBounds(s)
    ensures PutStepsLeft(s.producer) <= 4 && GetStepsLeft(s.consumer) <= 4
    ensures act.GoProducer? ==> PutStepsLeft(Next(s, act).producer) < PutStepsLeft(s.producer)
    ensures act.GoConsumer? ==> GetStepsLeft(Next(s, act).consumer) < GetStepsLeft(s.consumer)
    ensures act.GoProducer? || act.Emplace? || act.Ask? || Next(s, act).producer == s.producer
    ensures act.GoConsumer? || act.Consume? || act.Measure? || Next(s, act).consumer == s.consumer
  {
    ReachableOk(s);
    Relies(s);
    if s.consumer.Move? { MoveOk(s, s.consumer.head); }
    if s.consumer.StoreHead? { assert s.consumer.took.Some? || Holds(s, |s.dequeued|); }
  }
}
