/** Written, delivered and answered: what belongs to which call. */
module MulticastCalls {
  import opened SeqLockMachine
  import opened SeqLockCalls
  import opened MulticastMachine
  import opened MulticastProof
  import opened MulticastSteps
  import opened MulticastTheorems

  /** The k-th message written is the argument of the k-th Write; the Writer is in the last one. */
  ghost predicate WriterOk(size: nat, th: Thread, written: seq<Message>)
    requires size > 0
  {
    && |th.calls| == |written| + (if th.pc.Idle? then 0 else 1)
    && (forall k :: 0 <= k < |written| ==> th.calls[k] == StoreCall(k % size, written[k]))
    && (!th.pc.Idle? ==> Serves(th.pc, th.calls[|th.calls| - 1]))
  }

  /** Every call of a reader has one answer, Read never a negative one. */
  ghost predicate AnswersOk(pc: Pc, r: Reader) {
    && |r.calls| == |r.answers| + (if pc.Idle? then 0 else 1)
    && (forall k :: 0 <= k < |r.answers| ==> r.calls[k] ==> r.answers[k] >= 0)
    && (!pc.Idle? ==> r.calls[|r.calls| - 1] == r.blocking)
  }

  ghost predicate QueueHistoryOk(q: Queue) {
    && Size(q) > 0 && |q.ring.threads| == |q.readers| + 1
    && WriterOk(Size(q), q.ring.threads[0], q.written)
    && (forall i :: 0 <= i < |q.readers| ==> AnswersOk(q.ring.threads[i + 1].pc, q.readers[i]))
  }

  lemma WriteHistoryOk(q: Queue, act: Act)
    requires QueueInv(q) && QueueHistoryOk(q) && Allowed(q, 0, act) && InBounds(q.ring, 0)
    ensures QueueHistoryOk(NextQueue(q, 0, act))
  {
    var q' := NextQueue(q, 0, act);
    if act.Step? { StoreShows(q.ring, 0, act.spurious); }
    WriterAnswers(q, act);
    forall i | 0 <= i < |q'.readers| ensures AnswersOk(q'.ring.threads[i + 1].pc, q'.readers[i]) {
      assert AnswersOk(q.ring.threads[i + 1].pc, q.readers[i]);
    }
  }

  lemma WriterAnswers(q: Queue, act: Act)
    requires QueueInv(q) && Allowed(q, 0, act) && InBounds(q.ring, 0)
    requires WriterOk(Size(q), q.ring.threads[0], q.written)
    ensures var q' := NextQueue(q, 0, act);
      && q'.readers == q.readers && |q'.ring.threads| == |q.ring.threads| && q'.bits == q.bits
      && q'.ring.threads == q.ring.threads[0 := q'.ring.threads[0]]
      && WriterOk(Size(q), q'.ring.threads[0], q'.written)
  {
    if act.Step? {
      StoreShows(q.ring, 0, act.spurious);
      StoreKeepsCalls(q.ring, 0, act.spurious);
    }
  }

  lemma StoreKeepsCalls(s: State, t: nat, spurious: bool)
    requires t < |s.threads| && InBounds(s, t) && Storing(s.threads[t].pc)
    ensures |StoreStep(s, t, spurious).threads| == |s.threads|
    ensures var th, th' := s.threads[t], StoreStep(s, t, spurious).threads[t];
      th'.calls == th.calls && (th'.pc.Idle? || forall call :: Serves(th.pc, call) ==> Serves(th'.pc, call))
  {
  }

  lemma ReadHistoryOk(q: Queue, t: nat, act: Act)
    requires QueueInv(q) && QueueHistoryOk(q) && Allowed(q, t, act) && InBounds(q.ring, t) && t > 0
    ensures QueueHistoryOk(NextQueue(q, t, act))
  {
    var q' := NextQueue(q, t, act);
    assert AnswersOk(q.ring.threads[t].pc, q.readers[t - 1]);
    if act.Step? { LoadShows(q.ring, t); }
    ReaderAnswers(q, t, act);
    forall i | 0 <= i < |q'.readers| ensures AnswersOk(q'.ring.threads[i + 1].pc, q'.readers[i]) {
      assert AnswersOk(q.ring.threads[i + 1].pc, q.readers[i]);
    }
  }

  lemma ReaderAnswers(q: Queue, t: nat, act: Act)
    requires QueueInv(q) && Allowed(q, t, act) && InBounds(q.ring, t) && t > 0
    requires AnswersOk(q.ring.threads[t].pc, q.readers[t - 1])
    ensures var q' := NextQueue(q, t, act);
      && |q'.readers| == |q.readers| && |q'.ring.threads| == |q.ring.threads| && q'.written == q.written && q'.bits == q.bits
      && q'.ring.threads == q.ring.threads[t := q'.ring.threads[t]] && q'.readers == q.readers[t - 1 := q'.readers[t - 1]]
      && AnswersOk(q'.ring.threads[t].pc, q'.readers[t - 1])
  {
    if act.Step? { LoadShows(q.ring, t); }
  }

  lemma {:induction false} QueueHistoryRunOk(bits: nat, blank: seq<Byte>, n: nat, trace: seq<Queue>, moves: seq<QueueMove>, i: nat)
    requires IsQueueRun(InitQueue(bits, |blank|, blank, n), trace, moves) && i < |trace|
    ensures QueueHistoryOk(trace[i])
  {
    var init := InitQueue(bits, |blank|, blank, n);
    InitQueueOk(bits, |blank|, blank, n);
    if i > 0 {
      QueueHistoryRunOk(bits, blank, n, trace, moves, i - 1);
      QueueRunOk(init, trace, moves, i - 1);
      if moves[i - 1].thread == 0 {
        WriteHistoryOk(trace[i - 1], moves[i - 1].act);
      } else {
        ReadHistoryOk(trace[i - 1], moves[i - 1].thread, moves[i - 1].act);
      }
    }
  }

  /**
   * End to end: whatever the interleaving, the k-th message a reader receives
   * is the argument of the Writer's k-th Write.
   */
  lemma ReceivesWhatWasWritten(bits: nat, blank: seq<Byte>, n: nat, trace: seq<Queue>, moves: seq<QueueMove>, i: nat, r: nat, k: nat)
    requires IsQueueRun(InitQueue(bits, |blank|, blank, n), trace, moves) && i < |trace|
    requires r < |trace[i].readers| && k < |trace[i].readers[r].received|
    ensures 0 < Size(trace[i]) && |trace[i].ring.threads| > 0 && k < |trace[i].ring.threads[0].calls|
    ensures trace[i].ring.threads[0].calls[k] == StoreCall(k % Size(trace[i]), trace[i].readers[r].received[k])
  {
    QueueHistoryRunOk(bits, blank, n, trace, moves, i);
    DeliversPrefix(bits, |blank|, blank, n, trace, moves, i, r);
  }

  /** Each call of TryRead and Read has one answer, and Read's is true (0) or late. */
  lemma ReadersAreAnswered(bits: nat, blank: seq<Byte>, n: nat, trace: seq<Queue>, moves: seq<QueueMove>, i: nat, r: nat)
    requires IsQueueRun(InitQueue(bits, |blank|, blank, n), trace, moves) && i < |trace| && r < |trace[i].readers|
    ensures |trace[i].ring.threads| == |trace[i].readers| + 1
    ensures var reader := trace[i].readers[r];
      && |reader.calls| == |reader.answers| + (if trace[i].ring.threads[r + 1].pc.Idle? then 0 else 1)
      && forall k :: 0 <= k < |reader.answers| ==> reader.calls[k] ==> reader.answers[k] >= 0
  {
    QueueHistoryRunOk(bits, blank, n, trace, moves, i);
    assert AnswersOk(trace[i].ring.threads[r + 1].pc, trace[i].readers[r]);
  }
}
