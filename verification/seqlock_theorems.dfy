/** What users of a sequence lock may rely on, in every run. */
module SeqLockTheorems {
  import opened Options
  import opened SeqLockMachine
  import opened SeqLockProof

  datatype Move = Move(thread: nat, action: Action)

  ghost predicate IsRun(init: State, trace: seq<State>, moves: seq<Move>) {
    && |trace| == |moves| + 1 && trace[0] == init
    && (forall i :: 0 <= i < |moves| ==>
          && Enabled(trace[i], moves[i].thread, moves[i].action) && InBounds(trace[i], moves[i].thread)
          && trace[i + 1] == Next(trace[i], moves[i].thread, moves[i].action))
  }

  lemma InitOk(capacity: nat, contents: seq<seq<Byte>>, sizes: seq<nat>, n: nat)
    requires |sizes| == |contents| && forall j :: 0 <= j < |contents| ==> |contents[j]| == capacity && sizes[j] <= capacity
    ensures Inv(Init(capacity, contents, sizes, n))
  {
  }

  /** Unlocked cells with some initial contents, idle threads. */
  ghost predicate IsInit(init: State) {
    exists capacity: nat, contents: seq<seq<Byte>>, sizes: seq<nat>, n: nat ::
      && |sizes| == |contents| && (forall j :: 0 <= j < |contents| ==> |contents[j]| == capacity && sizes[j] <= capacity)
      && init == Init(capacity, contents, sizes, n)
  }

  lemma {:induction false} RunOk(init: State, trace: seq<State>, moves: seq<Move>, i: nat)
    requires IsInit(init) && IsRun(init, trace, moves) && i < |trace|
    ensures Inv(trace[i])
  {
    if i == 0 {
      var capacity: nat, contents: seq<seq<Byte>>, sizes: seq<nat>, n: nat :|
        && |sizes| == |contents| && (forall j :: 0 <= j < |contents| ==> |contents[j]| == capacity && sizes[j] <= capacity)
        && init == Init(capacity, contents, sizes, n);
      InitOk(capacity, contents, sizes, n);
    } else {
      RunOk(init, trace, moves, i - 1);
      StepOk(trace[i - 1], moves[i - 1].thread, moves[i - 1].action);
    }
  }

  /** The states of all runs from a properly initialised one. */
  ghost predicate Reachable(init: State, s: State) {
    exists trace: seq<State>, moves: seq<Move> :: IsRun(init, trace, moves) && trace[|trace| - 1] == s
  }

  lemma ReachableOk(init: State, s: State)
    requires IsInit(init) && Reachable(init, s)
    ensures Inv(s)
  {
    var trace: seq<State>, moves: seq<Move> :| IsRun(init, trace, moves) && trace[|trace| - 1] == s;
    RunOk(init, trace, moves, |trace| - 1);
  }

  /** The state after thread t's next step. */
  ghost function After(init: State, s: State, t: nat): State
    requires IsInit(init) && Reachable(init, s) && t < |s.threads|
  {
    ReachableOk(init, s);
    Relies(s, t);
    Next(s, t, Go(false))
  }

  // ---- the lock ----

  /** At most one thread is between Lock and Unlock; its blind store of seq + 2 counts the cell up by exactly one. */
  lemma OneOwner(init: State, s: State, t: nat, u: nat, j: nat)
    requires IsInit(init) && Reachable(init, s) && t < |s.threads| && u < |s.threads|
    requires Owns(s.threads[t].pc, j) && Owns(s.threads[u].pc, j)
    ensures t == u && j < |s.cells| && IsLocked(s.cells[j].seq0)
    ensures s.cells[j].seq0 == Bump(s.threads[t].pc.seq0, 1)
    ensures Bump(s.threads[t].pc.seq0, 2) == Bump(s.cells[j].seq0, 1)
  {
    ReachableOk(init, s);
    Relies(s, t);
    Relies(s, u);
    assert CellOk(s, j);
    BumpTotal(s.cells[j].total);
  }

  /** The cell is locked, as seen in its counter, exactly while some thread is between Lock and Unlock. */
  lemma LockedIffOwned(init: State, s: State, j: nat)
    requires IsInit(init) && Reachable(init, s) && j < |s.cells|
    ensures IsLocked(s.cells[j].seq0) <==> exists t :: 0 <= t < |s.threads| && Owns(s.threads[t].pc, j)
  {
    ReachableOk(init, s);
    assert CellOk(s, j);
    BumpTotal(s.cells[j].total);
    if s.cells[j].owner.Some? {
      assert Owns(s.threads[s.cells[j].owner.value].pc, j);
    } else {
      forall t | 0 <= t < |s.threads| ensures !Owns(s.threads[t].pc, j) { Relies(s, t); }
    }
  }

  /** A store takes effect as a whole, at its Unlock: the cell then holds exactly its message. */
  lemma StoreTakesEffect(init: State, s: State, t: nat)
    requires IsInit(init) && Reachable(init, s) && t < |s.threads| && s.threads[t].pc.Unlock?
    ensures var pc, s' := s.threads[t].pc, After(init, s, t);
      && pc.j < |s.cells| == |s'.cells| && s'.cells[pc.j].size <= |s'.cells[pc.j].data|
      && s'.cells[pc.j].data[..s'.cells[pc.j].size] == pc.m
      && s'.cells[pc.j].stores == s.cells[pc.j].stores + [pc.m]
      && !IsLocked(s'.cells[pc.j].seq0)
  {
    ReachableOk(init, s);
    Relies(s, t);
    StepOk(s, t, Go(false));
    var pc, s' := s.threads[t].pc, Next(s, t, Go(false));
    assert CellOk(s, pc.j) && CellOk(s', pc.j);
    BumpTotal(s'.cells[pc.j].total);
  }

  // ---- snapshots ----

  /** No step forgets a store or turns a counter back. */
  lemma StoresStay(s: State, t: nat, act: Action, j: nat)
    requires Inv(s) && Enabled(s, t, act) && j < |s.cells| && InBounds(s, t)
    ensures var s' := Next(s, t, act);
      && |s'.cells| == |s.cells|
      && |s.cells[j].stores| <= |s'.cells[j].stores| && s'.cells[j].stores[..|s.cells[j].stores|] == s.cells[j].stores
      && s.cells[j].total <= s'.cells[j].total
  {
    Relies(s, t);
  }

  /**
   * Snapshots: a load during which fewer than 2^31 stores completed returns,
   * bytes and size, one message as stored: the one its counter names.
   */
  lemma LoadIsSnapshot(init: State, trace: seq<State>, moves: seq<Move>, i: nat, t: nat, k: nat)
    requires IsInit(init) && IsRun(init, trace, moves) && i < |trace|
    requires t < |trace[i].threads| && k < |trace[i].threads[t].results| && trace[i].threads[t].results[k].Loaded?
    requires var o := trace[i].threads[t].results[k]; o.to / 2 - o.from / 2 < COUNTERS / 2
    ensures var o := trace[i].threads[t].results[k];
      && o.from == o.to && o.seq0 == o.from % COUNTERS && o.cell < |trace[i].cells|
      && o.from / 2 < |trace[i].cells[o.cell].stores| && o.bytes == trace[i].cells[o.cell].stores[o.from / 2]
  {
    RunOk(init, trace, moves, i);
    var o := trace[i].threads[t].results[k];
    assert OutcomeOk(trace[i], o);
    SameCounter(o.from, o.to);
  }

  /** Equal even 32-bit counters less than 2^31 stores apart are equal counts. */
  lemma SameCounter(from: nat, to: nat)
    requires from <= to && from % COUNTERS == to % COUNTERS && to / 2 - from / 2 < COUNTERS / 2
    ensures from == to
  {
  }

  /**
   * Validation succeeds exactly when the cell was unlocked at the first read
   * and the counter has advanced by a multiple of 2^32 since. So the bound
   * above cannot be raised: after exactly 2^31 stores the load is accepted.
   */
  lemma ValidatesIff(init: State, s: State, t: nat)
    requires IsInit(init) && Reachable(init, s) && t < |s.threads| && s.threads[t].pc.Validate?
    ensures var pc, s' := s.threads[t].pc, After(init, s, t);
      && pc.j < |s.cells| && pc.from <= s.cells[pc.j].total
      && (s'.threads[t].results != s.threads[t].results <==> pc.from % 2 == 0 && (s.cells[pc.j].total - pc.from) % COUNTERS == 0)
      && (s'.threads[t].results == s.threads[t].results ==> s'.threads[t].pc == LoadSeq(pc.j))
  {
    ReachableOk(init, s);
    Relies(s, t);
    var pc := s.threads[t].pc;
    var s' := Next(s, t, Go(false));
    assert CellOk(s, pc.j);
    BumpTotal(pc.from);
    EqualIffMultiple(pc.from, s.cells[pc.j].total);
    if !IsLocked(pc.seq0) && pc.seq0 == s.cells[pc.j].seq0 {
      assert |s'.threads[t].results| == |s.threads[t].results| + 1;
    }
  }

  lemma EqualIffMultiple(from: nat, to: nat)
    requires from <= to
    ensures from % COUNTERS == to % COUNTERS <==> (to - from) % COUNTERS == 0
  {
  }

  /** A load accepted within the bound returns the cell's content at that very moment: reads are linearizable. */
  lemma LoadIsCurrent(init: State, s: State, t: nat)
    requires IsInit(init) && Reachable(init, s) && t < |s.threads| && s.threads[t].pc.Validate?
    requires After(init, s, t).threads[t].results != s.threads[t].results
    requires s.threads[t].pc.j < |s.cells| && s.cells[s.threads[t].pc.j].total / 2 - s.threads[t].pc.from / 2 < COUNTERS / 2
    ensures var cell := s.cells[s.threads[t].pc.j];
      cell.owner == None && cell.size <= |cell.data| && s.threads[t].pc.bytes == cell.data[..cell.size]
  {
    ReachableOk(init, s);
    Relies(s, t);
    ValidatesIff(init, s, t);
    var pc := s.threads[t].pc;
    EqualIffMultiple(pc.from, s.cells[pc.j].total);
    SameCounter(pc.from, s.cells[pc.j].total);
    assert CellOk(s, pc.j);
  }
}
