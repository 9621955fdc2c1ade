/** Only the acting thread moves, and it accounts for what it adds to the log and to its results. */
module StackAccounting {
  import opened PackedWord
  import opened StackMachine
  import opened StackInvariant

  /** How one step may change a thread's results and the log. */
  ghost predicate Accounted(s: State, s': State, t: nat)
    requires t < |s.threads|
  {
    && |s'.threads| == |s.threads| && s'.threads == s.threads[t := s'.threads[t]]
    && (s'.log == s.log
        || (exists e :: s'.log == s.log + [Entry(t, e)]
                     && |Pending(s'.threads[t].pc)| == 1 && s'.threads[t].results == s.threads[t].results))
    && (s'.threads[t].results == s.threads[t].results
        || (s'.threads[t].pc.Idle? && |s'.threads[t].results| == |s.threads[t].results| + 1))
  }

  lemma GetAccounted(s: State, t: nat, spurious: bool)
    requires t < |s.threads|
    ensures Accounted(s, GetStep(s, t, spurious), t)
  {
  }

  lemma SwapAccounted(s: State, t: nat, f: Frame, h: nat)
    requires t < |s.threads|
    ensures Accounted(s, SwapDone(s, t, f, h), t)
  {
    var s' := SwapDone(s, t, f, h);
    var x := match f case PushFrame(node) => node case PopFrame(_, _) => Ptr(h);
    if At(s.heap, x).val.Some? {
      var v := At(s.heap, x).val.value;
      assert s'.log == s.log + [Entry(t, if f.PushFrame? then Pushed(v) else Took(v))];
    }
  }

  lemma CompareExchangeAccounted(s: State, t: nat, spurious: bool)
    requires t < |s.threads|
    ensures Accounted(s, CompareExchangeStep(s, t, spurious), t)
  {
    var pc := s.threads[t].pc;
    if pc.Swap? && !spurious && s.word == pc.expected { SwapAccounted(s, t, pc.frame, pc.holder); }
  }

  lemma ReleaseAccounted(s: State, t: nat, spurious: bool)
    requires t < |s.threads|
    ensures Accounted(s, ReleaseStep(s, t, spurious), t) && Accounted(s, UnrefStep(s, t), t)
  {
  }

  lemma PopAccounted(s: State, t: nat)
    requires t < |s.threads|
    ensures Accounted(s, PopStep(s, t), t)
  {
    var pc := s.threads[t].pc;
    if (pc.PopAcquire? || pc.PopReacquire?) && PopStep(s, t).log != s.log {
      assert PopStep(s, t).log == s.log + [Entry(t, SawEmpty)];
    }
  }

  lemma StepAccounted(s: State, t: nat, act: Action)
    requires t < |s.threads|
    ensures Accounted(s, Next(s, t, act), t)
  {
    if act.Go? {
      GetAccounted(s, t, act.spurious);
      CompareExchangeAccounted(s, t, act.spurious);
      ReleaseAccounted(s, t, act.spurious);
      PopAccounted(s, t);
    }
  }
}
