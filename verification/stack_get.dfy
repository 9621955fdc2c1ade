/** AtomicSharedPtr::get preserves the invariant, atomic step by atomic step. */
module StackGet {
  import opened PackedWord
  import opened StackMachine
  import opened StackInvariant
  import opened StackSteps

  lemma GetAddStep(s: State, t: nat, spurious: bool)
    requires Inv(s) && t < |s.threads| && Room(s, t) && s.threads[t].pc.GetAdd?
    ensures Inv(GetStep(s, t, spurious))
  {
    var s' := GetStep(s, t, spurious);
    Relies(s, t);
    RoomForUnit(s, t);
    CountingStep(s, s', t, Ptr(s.word), 0);
  }

  lemma GetRefStep(s: State, t: nat, spurious: bool)
    requires Inv(s) && t < |s.threads| && s.threads[t].pc.GetRef?
    ensures Inv(GetStep(s, t, spurious))
  {
    var s' := GetStep(s, t, spurious);
    var copy := s.threads[t].pc.copy;
    Relies(s, t);
    ClaimedIsLive(s, t, Ptr(copy));
    CountPositive(s, t, Ptr(copy));
    IncFields(copy);
    CountingStep(s, s', t, Ptr(copy), 1);
  }

  lemma GetReturnStep(s: State, t: nat, spurious: bool)
    requires Inv(s) && t < |s.threads| && s.threads[t].pc.GetReturn?
    ensures Inv(GetStep(s, t, spurious))
  {
    var s' := GetStep(s, t, spurious);
    var pc := s.threads[t].pc;
    Relies(s, t);
    if !spurious && s.word == pc.expected {
      DecFields(s.word);
      CountingStep(s, s', t, Ptr(s.word), 0);
    } else {
      ReadingStep(s, s', t);
    }
  }

  lemma GetForfeitStep(s: State, t: nat, spurious: bool)
    requires Inv(s) && t < |s.threads| && s.threads[t].pc.GetForfeit?
    ensures Inv(GetStep(s, t, spurious))
  {
    var s' := GetStep(s, t, spurious);
    var copy := s.threads[t].pc.copy;
    Relies(s, t);
    ClaimedIsLive(s, t, Ptr(copy));
    CountCovers(s, t, Ptr(copy));
    CountingStep(s, s', t, Ptr(copy), -1);
  }
}
