/** Replies and queue contents belong to the calls that were made, with the arguments they were made with. */
module SpscCalls {
  import opened Options
  import opened SpscMachine
  import opened SpscProof
  import opened SpscTheorems

  // ---- the producer ----

  predicate PutAnswers(call: PutCall, r: Reply) {
    match call
    case EmplaceCall(_) => r.Accepted? || r.Full?
    case AskCall => r.Sized?
  }

  predicate PutServes(p: Producer, call: PutCall) {
    match p
    case Resting => false
    case EmplaceTail(x) => call == EmplaceCall(x)
    case EmplaceReload(x, _, _) => call == EmplaceCall(x)
    case EmplaceConstruct(x, _, _) => call == EmplaceCall(x)
    case EmplaceStore(x, _, _) => call == EmplaceCall(x)
    case AskTail => call.AskCall?
    case AskHead(_) => call.AskCall?
  }

  /** The elements of the accepted Emplace calls, in order. */
  function AcceptedElements(calls: seq<PutCall>, replies: seq<Reply>): seq<Value>
    requires |replies| <= |calls|
  {
    if replies == [] then [] else
      var k := |replies| - 1;
      var rest := AcceptedElements(calls, replies[..k]);
      if replies[k].Accepted? && calls[k].EmplaceCall? then rest + [calls[k].x] else rest
  }

  /** Later calls do not matter for the replies given. */
  lemma {:induction false} AcceptedMore(calls: seq<PutCall>, call: PutCall, replies: seq<Reply>)
    requires |replies| <= |calls|
    ensures AcceptedElements(calls + [call], replies) == AcceptedElements(calls, replies)
  {
    if replies != [] { AcceptedMore(calls, call, replies[..|replies| - 1]); }
  }

  ghost predicate PutsOk(p: Producer, calls: seq<PutCall>, replies: seq<Reply>, enqueued: seq<Value>) {
    && |calls| == |replies| + (if p.Resting? then 0 else 1)
    && (forall k :: 0 <= k < |replies| ==> PutAnswers(calls[k], replies[k]))
    && (!p.Resting? ==> PutServes(p, calls[|calls| - 1]))
    && enqueued == AcceptedElements(calls, replies)
  }

  lemma PutReply(p: Producer, calls: seq<PutCall>, replies: seq<Reply>, enqueued: seq<Value>, r: Reply, enqueued': seq<Value>)
    requires PutsOk(p, calls, replies, enqueued) && !p.Resting? && PutAnswers(calls[|calls| - 1], r)
    requires enqueued' == if r.Accepted? && calls[|calls| - 1].EmplaceCall? then enqueued + [calls[|calls| - 1].x] else enqueued
    ensures PutsOk(Resting, calls, replies + [r], enqueued')
  {
    assert (replies + [r])[..|replies|] == replies;
  }

  ghost predicate ProducerHistoryOk(s: State) { PutsOk(s.producer, s.putCalls, s.produced, s.enqueued) }

  lemma PutStep(s: State)
    requires InBounds(s) && ProducerHistoryOk(s)
    ensures ProducerHistoryOk(ProducerStep(s))
  {
    var s' := ProducerStep(s);
    if !s.producer.Resting? && s'.producer.Resting? {
      PutReply(s.producer, s.putCalls, s.produced, s.enqueued, s'.produced[|s.produced|], s'.enqueued);
    }
  }

  // ---- the consumer ----

  predicate GetAnswers(call: GetCall, r: Reply) {
    match call
    case MeasureCall => r.Sized?
    case ConsumeCall(Front) => r.Pointer? || r == Nothing(Front)
    case ConsumeCall(Drop) => r.Dropped? || r == Nothing(Drop)
    case ConsumeCall(Take) => r.Took? || r == Nothing(Take)
  }

  predicate GetServes(c: Consumer, call: GetCall) {
    match c
    case Waiting => false
    case LoadHead(k) => call == ConsumeCall(k)
    case LoadTail(k, _) => call == ConsumeCall(k)
    case Move(_) => call == ConsumeCall(Take)
    case StoreHead(_, took) => call == ConsumeCall(if took.Some? then Take else Drop)
    case SizeTail => call.MeasureCall?
    case SizeHead(_, _) => call.MeasureCall?
  }

  /** One entry for each successful Dequeue, with the value if it was asked for. */
  function Deliveries(replies: seq<Reply>): seq<Option<Value>> {
    if replies == [] then [] else
      var r, rest := replies[|replies| - 1], Deliveries(replies[..|replies| - 1]);
      if r.Took? then rest + [Some(r.value)] else if r.Dropped? then rest + [None] else rest
  }

  ghost predicate GetsOk(c: Consumer, calls: seq<GetCall>, replies: seq<Reply>, dequeued: seq<Value>) {
    && |calls| == |replies| + (if c.Waiting? then 0 else 1)
    && (forall k :: 0 <= k < |replies| ==> GetAnswers(calls[k], replies[k]))
    && (!c.Waiting? ==> GetServes(c, calls[|calls| - 1]))
    && |Deliveries(replies)| == |dequeued|
    && (forall k :: 0 <= k < |dequeued| ==> Deliveries(replies)[k] in {None, Some(dequeued[k])})
  }

  lemma GetReply(c: Consumer, calls: seq<GetCall>, replies: seq<Reply>, dequeued: seq<Value>, r: Reply, dequeued': seq<Value>)
    requires GetsOk(c, calls, replies, dequeued) && !c.Waiting? && GetAnswers(calls[|calls| - 1], r)
    requires if r.Took? || r.Dropped? then |dequeued'| == |dequeued| + 1 && dequeued <= dequeued' else dequeued' == dequeued
    requires r.Took? ==> dequeued'[|dequeued|] == r.value
    ensures GetsOk(Waiting, calls, replies + [r], dequeued')
  {
    assert (replies + [r])[..|replies|] == replies;
  }

  ghost predicate ConsumerHistoryOk(s: State) { GetsOk(s.consumer, s.getCalls, s.consumed, s.dequeued) }

  lemma GetStep(s: State)
    requires InBounds(s) && ConsumerHistoryOk(s)
    ensures ConsumerHistoryOk(ConsumerStep(s))
  {
    var s' := ConsumerStep(s);
    if !s.consumer.Waiting? && s'.consumer.Waiting? {
      GetReply(s.consumer, s.getCalls, s.consumed, s.dequeued, s'.consumed[|s.consumed|], s'.dequeued);
    } else {
      GetMove(s);
    }
  }

  lemma GetMove(s: State)
    requires InBounds(s) && (ConsumerStep(s).consumer.Waiting? ==> s.consumer.Waiting?)
    ensures var s' := ConsumerStep(s);
      && s'.getCalls == s.getCalls && s'.consumed == s.consumed && s'.dequeued == s.dequeued && s'.consumer.Waiting? == s.consumer.Waiting?
      && (forall call :: GetServes(s.consumer, call) ==> GetServes(s'.consumer, call))
  {
  }

  // ---- every step and every run ----

  ghost predicate HistoryOk(s: State) { ProducerHistoryOk(s) && ConsumerHistoryOk(s) }

  lemma StepHistoryOk(s: State, act: Action)
    requires Inv(s) && HistoryOk(s) && Enabled(s, act)
    ensures InBounds(s) && HistoryOk(Next(s, act))
  {
    StepOk(s, act);
    match act
    case GoProducer => PutStep(s); ProducerLeavesConsumer(s);
    case GoConsumer => GetStep(s); ConsumerLeavesProducer(s);
    case Emplace(x) => AcceptedMore(s.putCalls, EmplaceCall(x), s.produced);
    case Ask => AcceptedMore(s.putCalls, AskCall, s.produced);
    case Consume(_) =>
    case Measure =>
  }

  lemma ProducerLeavesConsumer(s: State)
    requires InBounds(s)
    ensures var s' := ProducerStep(s);
      s'.consumer == s.consumer && s'.getCalls == s.getCalls && s'.consumed == s.consumed && s'.dequeued == s.dequeued
  {
  }

  lemma ConsumerLeavesProducer(s: State)
    requires InBounds(s)
    ensures var s' := ConsumerStep(s);
      s'.producer == s.producer && s'.putCalls == s.putCalls && s'.produced == s.produced && s'.enqueued == s.enqueued
  {
  }

  lemma {:induction false} HistoryRunOk(bits: nat, moves: bool, trace: seq<State>, acts: seq<Action>, i: nat)
    requires IsRun(bits, moves, trace, acts) && i < |trace|
    ensures HistoryOk(trace[i])
  {
    if i > 0 {
      HistoryRunOk(bits, moves, trace, acts, i - 1);
      RunOk(bits, moves, trace, acts, i - 1);
      StepHistoryOk(trace[i - 1], acts[i - 1]);
    }
  }

  /**
   * End to end: every call has a reply of its kind; the elements of the
   * accepted Emplace calls, in order, are what was enqueued; the successful
   * Dequeue calls, in order, got the first of them.
   */
  lemma CallsAreAnswered(bits: nat, moves: bool, trace: seq<State>, acts: seq<Action>, i: nat)
    requires IsRun(bits, moves, trace, acts) && i < |trace|
    ensures var s := trace[i];
      && |s.putCalls| == |s.produced| + (if s.producer.Resting? then 0 else 1)
      && |s.getCalls| == |s.consumed| + (if s.consumer.Waiting? then 0 else 1)
      && (forall k :: 0 <= k < |s.produced| ==> PutAnswers(s.putCalls[k], s.produced[k]))
      && (forall k :: 0 <= k < |s.consumed| ==> GetAnswers(s.getCalls[k], s.consumed[k]))
    ensures var s := trace[i];
      var accepted, delivered := AcceptedElements(s.putCalls, s.produced), Deliveries(s.consumed);
      && |delivered| <= |accepted| < |delivered| + Size(s)
      && forall k :: 0 <= k < |delivered| ==> delivered[k] in {None, Some(accepted[k])}
  {
    HistoryRunOk(bits, moves, trace, acts, i);
    RunOk(bits, moves, trace, acts, i);
    var s := trace[i];
    forall k | 0 <= k < |s.dequeued| ensures s.dequeued[k] == s.enqueued[k] {}
  }
}
