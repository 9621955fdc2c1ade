/** A thread's step leaves alone whatever the other threads rely on. */
module StackFrame {
  import opened PackedWord
  import opened StackMachine
  import opened StackCounts
  import opened StackInvariant

  /** What a step of thread t may do to a referenced block. */
  predicate Keeps(a: Block, b: Block, t: nat) {
    && b.live
    && b.data == a.data
    && (a.stage != Private(t) ==> b.prev == a.prev && b.depth == a.depth)
    && (a.stage != Private(t) && a.stage != Popped(t) ==> b.val == a.val && (b.stage == a.stage || (a.stage.Listed? && b.stage == Popped(t))))
    && (!a.stage.Private? ==> !b.stage.Private?)
    && (a.stage.Popped? ==> b.stage == a.stage)
  }

  ghost predicate Evolves(s: State, s': State, t: nat) {
    && |s.heap| <= |s'.heap|
    && (forall b :: 0 < b < |s.heap| && s.heap[b].live && Refs(s, b) > 0 ==> Keeps(s.heap[b], s'.heap[b], t))
  }

  /** Blocks with a claim by any thread are kept. */
  lemma ClaimedIsKept(s: State, s': State, t: nat, j: nat, b: nat)
    requires Inv(s) && Evolves(s, s', t) && j < |s.threads|
    requires 0 < b < |s.heap| && Units(Claim, s.threads[j].pc, b) >= 1
    ensures s.heap[b].live && Keeps(s.heap[b], s'.heap[b], t)
  {
    ClaimedIsLive(s, j, b);
  }

  lemma FrameStays(s: State, s': State, t: nat, j: nat, f: Frame)
    requires Inv(s) && Evolves(s, s', t) && j < |s.threads| && j != t
    requires FrameOk(s, j, f)
    requires forall b :: Units(Claim, s.threads[j].pc, b) >= FrameUnits(Claim, f, b)
    ensures FrameOk(s', j, f) && Want(s', f) == Want(s, f)
  {
    match f
    case PushFrame(node) =>
      ClaimedIsKept(s, s', t, j, node);
      PrevIsLive(s, node);
    case PopFrame(top, next) =>
      ClaimedIsKept(s, s', t, j, Ptr(top));
      ClaimedIsKept(s, s', t, j, next);
  }

  lemma ContStays(s: State, s': State, t: nat, j: nat, k: Cont)
    requires Inv(s) && Evolves(s, s', t) && j < |s.threads| && j != t
    requires ContOk(s, j, k)
    requires forall b :: Units(Claim, s.threads[j].pc, b) >= ContUnits(Claim, k, b)
    ensures ContOk(s', j, k)
  {
    match k
    case AfterPrev(node) => FrameStays(s, s', t, j, PushFrame(node));
    case Lost(f, _) => FrameStays(s, s', t, j, f);
    case Won(top, _) => ClaimedIsKept(s, s', t, j, Ptr(top));
    case Redo(top) => ClaimedIsKept(s, s', t, j, Ptr(top));
    case Look(top, _) => ClaimedIsKept(s, s', t, j, Ptr(top));
    case Finish(_) =>
  }

  /** Blocks a thread holds outside its frame and its continuation. */
  lemma GetterStays(s: State, s': State, t: nat, j: nat)
    requires Inv(s) && Evolves(s, s', t) && j < |s.threads| && j != t
    requires Getting(s.threads[j].pc)
    ensures ThreadOk(s', j, s.threads[j].pc)
  {
    var pc := s.threads[j].pc;
    assert ThreadOk(s, j, pc);
    ClaimedIsKept(s, s', t, j, pc.node);
    if pc.SetPrev? {
      ClaimedIsKept(s, s', t, j, pc.block);
    } else if !pc.GetAdd? {
      ClaimedIsKept(s, s', t, j, Ptr(pc.copy));
    }
  }

  lemma ComparerStays(s: State, s': State, t: nat, j: nat)
    requires Inv(s) && Evolves(s, s', t) && j < |s.threads| && j != t
    requires Exchanging(s.threads[j].pc)
    ensures ThreadOk(s', j, s.threads[j].pc)
  {
    var pc := s.threads[j].pc;
    assert ThreadOk(s, j, pc);
    FrameStays(s, s', t, j, pc.frame);
    if !pc.CasEnter? && !pc.CasAcquire? {
      ClaimedIsKept(s, s', t, j, Ptr(pc.holder));
    }
  }

  lemma ReleaserStays(s: State, s': State, t: nat, j: nat)
    requires Inv(s) && Evolves(s, s', t) && j < |s.threads| && j != t
    requires Releasing(s.threads[j].pc)
    ensures ThreadOk(s', j, s.threads[j].pc)
  {
    var pc := s.threads[j].pc;
    assert ThreadOk(s, j, pc);
    ContStays(s, s', t, j, pc.rest);
    if pc.Retire? || pc.Release? || pc.ReleaseGlobal? {
      ClaimedIsKept(s, s', t, j, Ptr(pc.holder));
    }
  }

  lemma PopperStays(s: State, s': State, t: nat, j: nat)
    requires Inv(s) && Evolves(s, s', t) && j < |s.threads| && j != t
    requires var pc := s.threads[j].pc; !Getting(pc) && !Exchanging(pc) && !Releasing(pc)
    ensures ThreadOk(s', j, s.threads[j].pc)
  {
    var pc := s.threads[j].pc;
    assert ThreadOk(s, j, pc);
    if pc.PopReacquire? || pc.PopRead? || pc.PopCopy? || pc.PopTake? {
      ClaimedIsKept(s, s', t, j, Ptr(pc.top));
    }
  }

  lemma ThreadStays(s: State, s': State, t: nat, j: nat)
    requires Inv(s) && Evolves(s, s', t) && j < |s.threads| && j != t
    ensures ThreadOk(s', j, s.threads[j].pc)
  {
    var pc := s.threads[j].pc;
    if Getting(pc) {
      GetterStays(s, s', t, j);
    } else if Exchanging(pc) {
      ComparerStays(s, s', t, j);
    } else if Releasing(pc) {
      ReleaserStays(s, s', t, j);
    } else {
      PopperStays(s, s', t, j);
    }
  }
}
