/** What the invariant means for users of the stack, over every run. */
module StackTheorems {
  import opened Sums
  import opened PackedWord
  import opened StackMachine
  import opened StackCounts
  import opened StackInvariant
  import opened StackSteps
  import opened StackCompare
  import opened StackSafety

  // ---- runs ----

  datatype Move = Move(thread: nat, action: Action)

  /** A run of n threads: every state follows from the one before by an enabled move. */
  ghost predicate IsRun(n: nat, trace: seq<State>, moves: seq<Move>) {
    && |trace| == |moves| + 1
    && trace[0] == Init(n)
    && (forall i :: 0 <= i < |moves| ==>
          Enabled(trace[i], moves[i].thread, moves[i].action) && trace[i + 1] == Next(trace[i], moves[i].thread, moves[i].action))
  }

  /** No access unit is acquired while 1000 are outstanding. */
  ghost predicate WithinBound(trace: seq<State>, moves: seq<Move>)
    requires |trace| == |moves| + 1
  {
    forall i :: 0 <= i < |moves| ==> moves[i].thread < |trace[i].threads| ==> Room(trace[i], moves[i].thread)
  }

  lemma IdleHasNothing(n: nat, kind: Kind, b: nat)
    ensures Total(kind, Init(n).threads, b) == 0
  {
    SumZero(Column(kind, Init(n).threads, b));
  }

  lemma InitOk(n: nat)
    ensures Inv(Init(n))
  {
    var s := Init(n);
    PackFields(1);
    assert PrevColumn(s.heap, 1) == [0, 0];
    assert Sum([0, 0]) == Sum([0, 0][..1]) && [0, 0][..1] == [0] && Sum([0]) == Sum([0][..0]);
    IdleHasNothing(n, Claim, 1);
    IdleHasNothing(n, Reclaimer, 1);
  }

  /** The invariant holds throughout every run within the bound. */
  lemma {:induction false} RunOk(n: nat, trace: seq<State>, moves: seq<Move>, i: nat)
    requires IsRun(n, trace, moves) && WithinBound(trace, moves) && i < |trace|
    ensures Inv(trace[i])
  {
    if i == 0 {
      InitOk(n);
    } else {
      RunOk(n, trace, moves, i - 1);
      StepOk(trace[i - 1], moves[i - 1].thread, moves[i - 1].action);
    }
  }

  /** The states of all runs of n threads within the bound. */
  ghost predicate Reachable(n: nat, s: State) {
    exists trace: seq<State>, moves: seq<Move> :: IsRun(n, trace, moves) && WithinBound(trace, moves) && trace[|trace| - 1] == s
  }

  lemma ReachableOk(n: nat, s: State)
    requires Reachable(n, s)
    ensures Inv(s)
  {
    var trace: seq<State>, moves: seq<Move> :| IsRun(n, trace, moves) && WithinBound(trace, moves) && trace[|trace| - 1] == s;
    RunOk(n, trace, moves, |trace| - 1);
  }

  /** A thread never has more than two access units, and at most one when it acquires another. */
  lemma AccessPerThread(pc: Pc, b: nat)
    ensures Units(Access, pc, b) <= 2
    ensures pc.GetAdd? || pc.CasAcquire? || pc.PopAcquire? || pc.PopReacquire? ==> Units(Access, pc, b) <= 1
  {
    if Releasing(pc) && pc.rest.Lost? {
    } else if Exchanging(pc) {
    }
  }

  lemma {:induction false} ThreadsStay(n: nat, trace: seq<State>, moves: seq<Move>, i: nat)
    requires IsRun(n, trace, moves) && i < |trace|
    ensures |trace[i].threads| == n
  {
    if i > 0 {
      ThreadsStay(n, trace, moves, i - 1);
      NextKeepsThreads(trace[i - 1], moves[i - 1].thread, moves[i - 1].action);
    }
  }

  lemma NextKeepsThreads(s: State, t: nat, act: Action)
    requires t < |s.threads|
    ensures |Next(s, t, act).threads| == |s.threads|
  {
    if act.Go? {
      ReleasingKeepsThreads(s, t, act.spurious);
      ExchangeKeepsThreads(s, t, act.spurious);
    }
  }

  lemma ReleasingKeepsThreads(s: State, t: nat, spurious: bool)
    requires t < |s.threads|
    ensures |GetStep(s, t, spurious).threads| == |s.threads|
    ensures |ReleaseStep(s, t, spurious).threads| == |s.threads|
    ensures |UnrefStep(s, t).threads| == |s.threads|
  {
  }

  lemma ExchangeKeepsThreads(s: State, t: nat, spurious: bool)
    requires t < |s.threads|
    ensures |CompareExchangeStep(s, t, spurious).threads| == |s.threads|
    ensures |PopStep(s, t).threads| == |s.threads|
  {
  }

  /** Up to 500 threads cannot exceed the bound, whatever they do. */
  lemma FewThreadsSuffice(n: nat, trace: seq<State>, moves: seq<Move>)
    requires IsRun(n, trace, moves) && n <= 500
    ensures WithinBound(trace, moves)
    ensures forall i :: 0 <= i < |trace| ==> Inv(trace[i])
  {
    forall i | 0 <= i < |moves| && moves[i].thread < |trace[i].threads|
      ensures Room(trace[i], moves[i].thread)
    {
      ThreadsStay(n, trace, moves, i);
      RoomForFew(trace[i], moves[i].thread);
    }
    forall i | 0 <= i < |trace| ensures Inv(trace[i]) { RunOk(n, trace, moves, i); }
  }

  lemma RoomForFew(s: State, t: nat)
    requires t < |s.threads| <= 500
    ensures Room(s, t)
  {
    AccessPerThread(s.threads[t].pc, 0);
    var others := Column(Access, s.threads, 0)[t := 0];
    SumUpdate(Column(Access, s.threads, 0), t, 0);
    forall j | 0 <= j < |others| ensures others[j] <= 2 { AccessPerThread(s.threads[j].pc, 0); }
    SumBoundAt(others, t);
  }

  /** Summands up to 2, one of them 0. */
  lemma SumBoundAt(xs: seq<nat>, t: nat)
    requires t < |xs| && xs[t] == 0 && forall j :: 0 <= j < |xs| ==> xs[j] <= 2
    ensures Sum(xs) <= 2 * |xs| - 2
  {
    SumUpdate(xs, t, 2);
    SumBound(xs[t := 2], 2);
  }

  // ---- the packed word ----

  /** The 16-bit field stays far from overflow: it counts at most the units still returnable. */
  lemma CountIsBounded(n: nat, s: State)
    requires Reachable(n, s)
    ensures Cnt(s.word) <= Total(Share, s.threads, Ptr(s.word)) <= Total(Access, s.threads, 0)
  {
    ReachableOk(n, s);
    ShareBelowAccess(s.threads, Ptr(s.word));
    AccessAnywhere(s.threads, 0, Ptr(s.word));
  }

  /** No assertion fails, the drain of over 1000 units is never entered, no freed block is retired. */
  lemma NoFault(n: nat, s: State, t: nat)
    requires Reachable(n, s) && t < |s.threads|
    ensures !s.threads[t].pc.Fault?
  {
    ReachableOk(n, s);
    Relies(s, t);
  }

  /** The pointer is replaced only while the local count is 0, and the new count starts at 0. */
  lemma ReplacedAtZero(n: nat, s: State, t: nat, act: Action)
    requires Reachable(n, s) && Enabled(s, t, act) && Room(s, t) && Ptr(Next(s, t, act).word) != Ptr(s.word)
    ensures Cnt(s.word) == 0 && Cnt(Next(s, t, act).word) == 0
    ensures s.threads[t].pc.Swap? && Next(s, t, act).threads[t].pc.Retire?
  {
    ReachableOk(n, s);
    PointerChange(s, t, act);
  }

  lemma PointerChange(s: State, t: nat, act: Action)
    requires Inv(s) && Enabled(s, t, act) && Room(s, t) && Ptr(Next(s, t, act).word) != Ptr(s.word)
    ensures Cnt(s.word) == 0 && Cnt(Next(s, t, act).word) == 0
    ensures s.threads[t].pc.Swap? && Next(s, t, act).threads[t].pc.Retire?
  {
    Relies(s, t);
    var pc := s.threads[t].pc;
    if pc.GetAdd? || pc.CasAcquire? || pc.PopAcquire? || pc.PopReacquire? { RoomForUnit(s, t); }
    if Cnt(s.word) > 0 { DecFields(s.word); }
    ClearFields(s.word);
    if pc.Swap? {
      NewOneDiffers(s, t, pc.frame);
      PackFields(NewOne(pc.frame));
    }
  }
}
