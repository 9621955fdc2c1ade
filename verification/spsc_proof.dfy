/** The ring with cached indexes refines a bounded FIFO. */
module SpscProof {
  import opened Options
  import opened RingIndex
  import opened RingArithmetic
  import opened SpscMachine

  /** The slot of position k. */
  function Index(bits: nat, k: nat): nat {
    Pow2Positive(bits);
    k % Pow2(bits)
  }

  lemma IndexNext(s: State, k: nat)
    ensures Size(s) > 0 && Index(s.bits, k) < Size(s)
    ensures NextIndex(s, Index(s.bits, k)) == Index(s.bits, k + 1)
  {
    MaskIsMod(Index(s.bits, k) + 1, s.bits);
    Successor(k, Size(s));
    if Index(s.bits, k) + 1 < Size(s) { Compose(0, Index(s.bits, k) + 1, Size(s)); } else { Compose(1, 0, Size(s)); }
  }

  /** Less than a ring apart, positions share a slot only if they are equal. */
  lemma IndexApart(s: State, j: nat, k: nat)
    requires j <= k < j + Size(s)
    ensures Index(s.bits, j) == Index(s.bits, k) <==> j == k
  {
    if j < k { WithinRing(j, k, Size(s)); }
  }

  // ---- the invariant ----

  /** Element k sits in its slot. */
  predicate Holds(s: State, k: nat)
    requires k < |s.enqueued|
  {
    Index(s.bits, k) < |s.buffer| && s.buffer[Index(s.bits, k)] == Live(s.enqueued[k])
  }

  predicate ProducerOk(s: State) {
    var e := |s.enqueued|;
    match s.producer
    case Resting => true
    case EmplaceTail(_) => true
    case EmplaceReload(_, tail, next) => tail == Index(s.bits, e) && next == Index(s.bits, e + 1)
    case EmplaceConstruct(_, tail, next) => tail == Index(s.bits, e) && next == Index(s.bits, e + 1) && e + 1 < s.seenHead + Size(s)
    case EmplaceStore(x, tail, next) =>
      tail == Index(s.bits, e) && next == Index(s.bits, e + 1) && e + 1 < s.seenHead + Size(s)
      && tail < |s.buffer| && s.buffer[tail] == Live(x)
    case AskTail => true
    case AskHead(tail) => tail == Index(s.bits, e)
  }

  predicate ConsumerOk(s: State) {
    var d := |s.dequeued|;
    match s.consumer
    case LoadTail(_, head) => head == Index(s.bits, d)
    case Move(head) => head == Index(s.bits, d) && d < s.seenTail
    case StoreHead(head, took) =>
      head == Index(s.bits, d) && d < s.seenTail && d < |s.enqueued|
      && (took.Some? ==> took.value == s.enqueued[d]) && (took.None? ==> Holds(s, d))
    case SizeHead(tail, at) => tail == Index(s.bits, at) && d <= at <= |s.enqueued|
    case _ => true
  }

  /** The consumer has moved element |dequeued| out but not yet stepped past it. */
  predicate MovedOut(s: State) { s.consumer.StoreHead? && s.consumer.took.Some? }

  /** A call that ends the pointer given by Front. */
  predicate Dequeuing(c: Consumer) {
    match c
    case LoadHead(call) => !call.Front?
    case LoadTail(call, _) => !call.Front?
    case Move(_) => true
    case StoreHead(_, _) => true
    case _ => false
  }

  ghost predicate Inv(s: State) {
    var e, d := |s.enqueued|, |s.dequeued|;
    && |s.buffer| == Size(s) && Size(s) > 0
    && s.seenHead <= d <= s.seenTail <= e < s.seenHead + Size(s)
    && s.tail == Index(s.bits, e) && s.head == Index(s.bits, d)
    && s.cachedHead == Index(s.bits, s.seenHead) && s.cachedTail == Index(s.bits, s.seenTail)
    && s.dequeued == s.enqueued[..d]
    && (forall k :: d <= k < e && !(k == d && MovedOut(s)) ==> Holds(s, k))
    && ProducerOk(s) && ConsumerOk(s)
    && (s.front.Some? ==> s.front.value == Index(s.bits, d) && d < s.seenTail && !Dequeuing(s.consumer))
  }

  /** The abstract queue. */
  function Fifo(s: State): seq<Value> {
    if |s.dequeued| <= |s.enqueued| then s.enqueued[|s.dequeued|..] else []
  }

  lemma Relies(s: State)
    requires Inv(s)
    ensures InBounds(s)
  {
    IndexNext(s, |s.enqueued|);
    IndexNext(s, |s.dequeued|);
  }

  // ---- steps ----

  lemma InitOk(bits: nat, moves: bool)
    ensures Inv(Init(bits, moves))
  {
    Pow2Positive(bits);
    Compose(0, 0, Pow2(bits));
  }

  lemma EmplaceDecides(s: State)
    requires Inv(s)
    ensures NextIndex(s, s.tail) == Index(s.bits, |s.enqueued| + 1)
    ensures Index(s.bits, |s.enqueued| + 1) == s.cachedHead <==> |s.enqueued| + 1 == s.seenHead + Size(s)
    ensures Index(s.bits, |s.enqueued| + 1) == s.head <==> |s.enqueued| + 1 == |s.dequeued| + Size(s)
  {
    IndexNext(s, |s.enqueued|);
    NextOrFull(s, s.seenHead, |s.enqueued| + 1);
    NextOrFull(s, |s.dequeued|, |s.enqueued| + 1);
  }

  /** A position at most a full ring ahead shares the slot exactly when it is equal or a full ring ahead. */
  lemma NextOrFull(s: State, j: nat, k: nat)
    requires j < k <= j + Size(s)
    ensures Index(s.bits, j) == Index(s.bits, k) <==> k == j + Size(s)
  {
    if k == j + Size(s) { NextLap(j, Size(s)); } else { IndexApart(s, j, k); }
  }

  /** A step that leaves the ring and both indexes alone. */
  ghost predicate Stays(s: State, s': State) {
    && s'.bits == s.bits && s'.buffer == s.buffer && s'.tail == s.tail && s'.head == s.head
    && s'.enqueued == s.enqueued && s'.dequeued == s.dequeued && MovedOut(s') == MovedOut(s)
  }

  lemma StaysOk(s: State, s': State)
    requires Inv(s) && Stays(s, s')
    requires s'.seenHead <= |s.dequeued| <= s'.seenTail <= |s.enqueued| < s'.seenHead + Size(s)
    requires s'.cachedHead == Index(s.bits, s'.seenHead) && s'.cachedTail == Index(s.bits, s'.seenTail)
    requires ProducerOk(s') == true && ConsumerOk(s') == true
    requires s'.front.Some? ==> s'.front.value == Index(s.bits, |s.dequeued|) && |s.dequeued| < s'.seenTail && !Dequeuing(s'.consumer)
    ensures Inv(s')
  {
    forall k | |s.dequeued| <= k < |s.enqueued| && !(k == |s.dequeued| && MovedOut(s')) ensures Holds(s', k) {
      assert Holds(s, k);
    }
  }

  lemma ProducerStepOk(s: State)
    requires Inv(s) && InBounds(s)
    ensures Inv(ProducerStep(s))
  {
    var s' := ProducerStep(s);
    match s.producer
    case EmplaceTail(x) => EmplaceTailOk(s, x);
    case EmplaceReload(x, tail, next) => EmplaceReloadOk(s, x, tail, next);
    case EmplaceConstruct(x, tail, next) => ConstructOk(s, x, tail, next);
    case EmplaceStore(x, tail, next) => StoreOk(s, x, tail, next);
    case _ => StaysOk(s, s');
  }

  lemma EmplaceTailOk(s: State, x: Value)
    requires Inv(s) && s.producer == EmplaceTail(x)
    ensures InBounds(s) && Inv(ProducerStep(s))
  {
    Relies(s);
    EmplaceDecides(s);
    StaysOk(s, ProducerStep(s));
  }

  lemma EmplaceReloadOk(s: State, x: Value, tail: nat, next: nat)
    requires Inv(s) && s.producer == EmplaceReload(x, tail, next)
    ensures InBounds(s) && Inv(ProducerStep(s))
  {
    Relies(s);
    EmplaceDecides(s);
    StaysOk(s, ProducerStep(s));
  }

  lemma ConstructOk(s: State, x: Value, tail: nat, next: nat)
    requires Inv(s) && InBounds(s) && s.producer == EmplaceConstruct(x, tail, next)
    ensures Inv(ProducerStep(s))
  {
    var s', e := ProducerStep(s), |s.enqueued|;
    forall k | |s.dequeued| <= k < e ensures Index(s.bits, k) != tail && (Holds(s, k) ==> Holds(s', k)) {
      IndexApart(s, k, e);
    }
  }

  lemma StoreOk(s: State, x: Value, tail: nat, next: nat)
    requires Inv(s) && s.producer == EmplaceStore(x, tail, next)
    ensures InBounds(s) && Inv(ProducerStep(s))
  {
    Relies(s);
    var s', e := ProducerStep(s), |s.enqueued|;
    assert s'.enqueued[..|s.dequeued|] == s.enqueued[..|s.dequeued|];
    forall k | |s.dequeued| <= k <= e && !(k == |s.dequeued| && MovedOut(s')) ensures Holds(s', k) {
      if k < e { assert Holds(s, k); }
    }
  }

  lemma ConsumerStepOk(s: State)
    requires Inv(s) && InBounds(s)
    ensures Inv(ConsumerStep(s))
  {
    var s' := ConsumerStep(s);
    match s.consumer
    case LoadHead(call) => LoadHeadOk(s, call);
    case LoadTail(call, head) => LoadTailOk(s, call, head);
    case Move(head) => MoveOk(s, head);
    case StoreHead(head, took) => StepHeadOk(s, head, took);
    case _ => StaysOk(s, s');
  }

  lemma LoadHeadOk(s: State, call: Call)
    requires Inv(s) && s.consumer == LoadHead(call)
    ensures InBounds(s) && Inv(ConsumerStep(s))
  {
    Relies(s);
    IndexApart(s, |s.dequeued|, s.seenTail);
    assert |s.dequeued| < |s.enqueued| ==> Holds(s, |s.dequeued|);
    StaysOk(s, ConsumerStep(s));
  }

  lemma LoadTailOk(s: State, call: Call, head: nat)
    requires Inv(s) && s.consumer == LoadTail(call, head)
    ensures InBounds(s) && Inv(ConsumerStep(s))
  {
    Relies(s);
    IndexApart(s, |s.dequeued|, |s.enqueued|);
    assert |s.dequeued| < |s.enqueued| ==> Holds(s, |s.dequeued|);
    StaysOk(s, ConsumerStep(s));
  }

  lemma MoveOk(s: State, head: nat)
    requires Inv(s) && s.consumer == Move(head)
    ensures InBounds(s) && s.buffer[head].Live? && Inv(ConsumerStep(s))
  {
    Relies(s);
    assert Holds(s, |s.dequeued|);
    var s', d := ConsumerStep(s), |s.dequeued|;
    IndexApart(s, d, |s.enqueued|);
    forall k | d < k < |s.enqueued| ensures Holds(s', k) {
      assert Holds(s, k);
      IndexApart(s, d, k);
    }
  }

  lemma StepHeadOk(s: State, head: nat, took: Option<Value>)
    requires Inv(s) && s.consumer == StoreHead(head, took)
    ensures InBounds(s) && Inv(ConsumerStep(s))
  {
    Relies(s);
    IndexNext(s, |s.dequeued|);
    var s' := ConsumerStep(s);
    forall k | |s.dequeued| < k < |s.enqueued| ensures Holds(s', k) { assert Holds(s, k); }
  }

  lemma StepOk(s: State, act: Action)
    requires Inv(s) && Enabled(s, act)
    ensures InBounds(s) && Inv(Next(s, act))
  {
    Relies(s);
    match act
    case GoProducer => ProducerStepOk(s);
    case GoConsumer => ConsumerStepOk(s);
    case _ => StaysOk(s, Next(s, act));
  }
}
