/**
 * What is in the slots that hold no element, and so what the placement new of
 * Emplace meets: in the first round the initial content, afterwards the object
 * of the element one round before, moved from or not, which nobody destroys.
 */
module SpscStorage {
  import opened RingIndex
  import opened SpscMachine
  import opened SpscProof
  import opened SpscTheorems

  /** Element k has been consumed and its slot not been used again. */
  predicate LeftBehind(s: State, k: nat) {
    && (k < |s.dequeued| || (k == |s.dequeued| && MovedOut(s)))
    && (|s.enqueued| < k + Size(s) || (|s.enqueued| == k + Size(s) && !s.producer.EmplaceStore?))
  }

  /** Its object is still there, moved from if T can be moved and the element was taken. */
  predicate Remains(s: State, k: nat)
    requires k < |s.enqueued|
  {
    && Index(s.bits, k) < |s.buffer|
    && (s.buffer[Index(s.bits, k)] == Live(s.enqueued[k]) || (s.moves && s.buffer[Index(s.bits, k)] == MovedFrom))
  }

  /** Slot j has not been used yet. */
  predicate Unused(s: State, j: nat) { |s.enqueued| <= j < Size(s) && !(j == |s.enqueued| && s.producer.EmplaceStore?) }

  ghost predicate StorageOk(s: State) {
    && |s.buffer| == Size(s)
    && (forall j :: 0 <= j < Size(s) && Unused(s, j) ==> s.buffer[j] == Blank)
    && (forall k :: 0 <= k < |s.enqueued| && LeftBehind(s, k) ==> Remains(s, k))
  }

  lemma ConstructStorage(s: State, x: Value, tail: nat, next: nat)
    requires Inv(s) && InBounds(s) && StorageOk(s) && s.producer == EmplaceConstruct(x, tail, next)
    ensures StorageOk(ProducerStep(s))
  {
    var s', e := ProducerStep(s), |s.enqueued|;
    if e < Size(s) { Compose(0, e, Size(s)); }
    forall k | 0 <= k < e && LeftBehind(s', k) ensures Remains(s', k) {
      assert LeftBehind(s, k) && Remains(s, k);
      IndexApart(s, k, e);
    }
  }

  lemma ProducerStorage(s: State)
    requires Inv(s) && InBounds(s) && StorageOk(s)
    ensures StorageOk(ProducerStep(s))
  {
    var s' := ProducerStep(s);
    if s.producer.EmplaceConstruct? {
      ConstructStorage(s, s.producer.x, s.producer.tail, s.producer.next);
    } else {
      forall j | 0 <= j < Size(s) && Unused(s', j) ensures s'.buffer[j] == Blank { assert Unused(s, j); }
      forall k | 0 <= k < |s'.enqueued| && LeftBehind(s', k) ensures Remains(s', k) {
        assert LeftBehind(s, k) && Remains(s, k);
      }
    }
  }

  lemma MoveStorage(s: State, head: nat)
    requires Inv(s) && InBounds(s) && StorageOk(s) && s.consumer == Move(head)
    ensures StorageOk(ConsumerStep(s))
  {
    var s', d := ConsumerStep(s), |s.dequeued|;
    assert Holds(s, d);
    if d < Size(s) { Compose(0, d, Size(s)); }
    forall j | 0 <= j < Size(s) && Unused(s', j) ensures s'.buffer[j] == Blank { assert Unused(s, j); }
    forall k | 0 <= k < |s.enqueued| && LeftBehind(s', k) ensures Remains(s', k) {
      if k < d {
        assert LeftBehind(s, k) && Remains(s, k);
        IndexApart(s, k, d);
      }
    }
  }

  lemma ConsumerStorage(s: State)
    requires Inv(s) && InBounds(s) && StorageOk(s)
    ensures StorageOk(ConsumerStep(s))
  {
    var s', d := ConsumerStep(s), |s.dequeued|;
    if s.consumer.Move? {
      MoveStorage(s, s.consumer.head);
    } else {
      forall j | 0 <= j < Size(s) && Unused(s', j) ensures s'.buffer[j] == Blank { assert Unused(s, j); }
      forall k | 0 <= k < |s.enqueued| && LeftBehind(s', k) ensures Remains(s', k) {
        if k == d && !MovedOut(s) { assert Holds(s, d); } else { assert LeftBehind(s, k) && Remains(s, k); }
      }
    }
  }

  lemma {:induction false} StorageRunOk(bits: nat, moves: bool, trace: seq<State>, acts: seq<Action>, i: nat)
    requires IsRun(bits, moves, trace, acts) && i < |trace|
    ensures StorageOk(trace[i])
  {
    if i > 0 {
      StorageRunOk(bits, moves, trace, acts, i - 1);
      RunOk(bits, moves, trace, acts, i - 1);
      StepStorage(trace[i - 1], acts[i - 1]);
    }
  }

  lemma StepStorage(s: State, act: Action)
    requires Inv(s) && InBounds(s) && Enabled(s, act) && StorageOk(s)
    ensures StorageOk(Next(s, act))
  {
    var s' := Next(s, act);
    match act
    case GoProducer => ProducerStorage(s);
    case GoConsumer => ConsumerStorage(s);
    case _ =>
      forall j | 0 <= j < Size(s) && Unused(s', j) ensures s'.buffer[j] == Blank { assert Unused(s, j); }
      forall k | 0 <= k < |s.enqueued| && LeftBehind(s', k) ensures Remains(s', k) { assert LeftBehind(s, k) && Remains(s, k); }
  }

  /**
   * Storage discipline: the move takes from the live object of the oldest
   * element; the placement new meets unused storage in the first round and
   * afterwards the remains of the element one round before, long dequeued.
   */
  lemma StorageDiscipline(bits: nat, moves: bool, trace: seq<State>, acts: seq<Action>, i: nat)
    requires IsRun(bits, moves, trace, acts) && i < |trace|
    ensures var s := trace[i];
      && InBounds(s)
      && (s.consumer.Move? ==> |s.dequeued| < |s.enqueued| && s.buffer[s.consumer.head] == Live(s.enqueued[|s.dequeued|]))
      && (s.producer.EmplaceConstruct? ==>
            var e := |s.enqueued|;
            if e < Size(s) then s.buffer[s.producer.tail] == Blank
            else e - Size(s) < |s.dequeued| <= e
                 && (s.buffer[s.producer.tail] == Live(s.enqueued[e - Size(s)]) || (moves && s.buffer[s.producer.tail] == MovedFrom)))
  {
    var s := trace[i];
    RunOk(bits, moves, trace, acts, i);
    StorageRunOk(bits, moves, trace, acts, i);
    Relies(s);
    MovesStays(bits, moves, trace, acts, i);
    if s.consumer.Move? { assert Holds(s, |s.dequeued|); }
    if s.producer.EmplaceConstruct? { MeetsRemains(s); }
  }

  lemma MeetsRemains(s: State)
    requires Inv(s) && StorageOk(s) && s.producer.EmplaceConstruct?
    ensures var e := |s.enqueued|;
      if e < Size(s) then s.producer.tail < |s.buffer| && s.buffer[s.producer.tail] == Blank
      else e - Size(s) < |s.dequeued| && Index(s.bits, e - Size(s)) == s.producer.tail && Remains(s, e - Size(s))
  {
    var e := |s.enqueued|;
    if e < Size(s) {
      Compose(0, e, Size(s));
      assert Unused(s, e);
    } else {
      NextLap(e - Size(s), Size(s));
      assert LeftBehind(s, e - Size(s));
    }
  }

  lemma {:induction false} MovesStays(bits: nat, moves: bool, trace: seq<State>, acts: seq<Action>, i: nat)
    requires IsRun(bits, moves, trace, acts) && i < |trace|
    ensures trace[i].moves == moves
  {
    if i > 0 {
      MovesStays(bits, moves, trace, acts, i - 1);
      NextKeepsMoves(trace[i - 1], acts[i - 1]);
    }
  }

  lemma NextKeepsMoves(s: State, act: Action)
    requires InBounds(s)
    ensures Next(s, act).moves == s.moves
  {
  }
}
