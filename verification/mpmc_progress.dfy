/** Progress of the Try operations: a thread that runs alone finishes its TryEmplace or TryDequeue in a few steps. */
module MpmcProgress {
  import opened MpmcMachine
  import opened MpmcSteps
  import opened MpmcTheorems

  /** Upper bounds on the lone steps left; waiting and ticket states of the blocking calls have none. */
  function StepsLeft(s: State, pc: Pc): nat {
    match pc
    case TryEnqueueLoad(_) => 9
    case TryEnqueueCheck(_, tail) => if tail == s.tail then 5 else 8
    case TryEnqueueClaim(_, tail) => if tail == s.tail then 4 else 7
    case TryEnqueueReload(_, tail, _) => if tail == s.tail then 1 else 6
    case EnqueueConstruct(_, _) => 2
    case EnqueueStore(_, _) => 1
    case TryDequeueLoad => 9
    case TryDequeueCheck(head) => if head == s.head then 5 else 8
    case TryDequeueClaim(head) => if head == s.head then 4 else 7
    case TryDequeueReload(head, _) => if head == s.head then 1 else 6
    case DequeueMove(_) => 3
    case DequeueDestroy(_, _) => 2
    case DequeueStore(_, _) => 1
    case _ => 0
  }

  /** In a TryEmplace or a TryDequeue, or past the wait of a blocking call. */
  predicate NeverWaits(pc: Pc) {
    || pc.TryEnqueueLoad? || pc.TryEnqueueCheck? || pc.TryEnqueueClaim? || pc.TryEnqueueReload?
    || pc.EnqueueConstruct? || pc.EnqueueStore?
    || pc.TryDequeueLoad? || pc.TryDequeueCheck? || pc.TryDequeueClaim? || pc.TryDequeueReload?
    || pc.DequeueMove? || pc.DequeueDestroy? || pc.DequeueStore?
  }

  /** A lone step returns or leaves fewer. */
  ghost predicate Nearer(s: State, s': State, t: nat)
    requires t < |s.threads|
  {
    && |s'.threads| == |s.threads|
    && var th, th' := s.threads[t], s'.threads[t];
       if th'.pc.Idle? then |th'.results| == |th.results| + 1
       else !th'.pc.Fault? ==> NeverWaits(th'.pc) && StepsLeft(s', th'.pc) < StepsLeft(s, th.pc) && th'.results == th.results
  }

  lemma EnqueueNearer(c: Config, s: State, t: nat)
    requires c.size > 0 && |s.slots| == c.size && t < |s.threads| && NeverWaits(s.threads[t].pc) && Enqueuing(s.threads[t].pc)
    ensures Nearer(s, EnqueueStep(c, s, t, false), t)
  {
  }

  lemma DequeueNearer(c: Config, s: State, t: nat)
    requires c.size > 0 && |s.slots| == c.size && t < |s.threads| && NeverWaits(s.threads[t].pc) && !Enqueuing(s.threads[t].pc)
    ensures Nearer(s, DequeueStep(c, s, t, false), t)
  {
  }

  /** The states of thread t running alone, without spurious failures. */
  ghost predicate Alone(c: Config, trace: seq<State>, t: nat) {
    c.size > 0 && |trace| > 0
    && forall i :: 0 <= i < |trace| - 1 ==>
         |trace[i].slots| == c.size && Enabled(trace[i], t, Go(false)) && trace[i + 1] == Next(c, trace[i], t, Go(false))
  }

  /**
   * Whatever the lap numbering and the other threads have left behind, a
   * TryEmplace or TryDequeue whose thread runs alone returns within nine steps.
   */
  lemma {:induction false} LoneTryReturns(c: Config, n: nat, s: State, t: nat) returns (trace: seq<State>)
    requires Valid(c) && Reachable(c, n, s) && t < |s.threads| && NeverWaits(s.threads[t].pc)
    ensures Alone(c, trace, t) && trace[0] == s && |trace| - 1 <= StepsLeft(s, s.threads[t].pc) <= 9
    ensures var s' := trace[|trace| - 1];
      |s'.threads| == |s.threads| && s'.threads[t].pc.Idle? && |s'.threads[t].results| == |s.threads[t].results| + 1
    decreases StepsLeft(s, s.threads[t].pc)
  {
    ReachableOk(c, n, s);
    var s' := Next(c, s, t, Go(false));
    if Enqueuing(s.threads[t].pc) { EnqueueNearer(c, s, t); } else { DequeueNearer(c, s, t); }
    ReachStep(c, n, s, t, Go(false));
    ReachableOk(c, n, s');
    Relies(c, s', t);
    if s'.threads[t].pc.Idle? {
      trace := [s, s'];
    } else {
      var rest := LoneTryReturns(c, n, s', t);
      trace := [s] + rest;
      forall i | 0 <= i < |trace| - 1
        ensures |trace[i].slots| == c.size && Enabled(trace[i], t, Go(false)) && trace[i + 1] == Next(c, trace[i], t, Go(false))
      {
        if i > 0 { assert trace[i] == rest[i - 1]; }
      }
    }
  }
}
