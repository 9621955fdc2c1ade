/** Sequence locks give readers snapshots: the invariant and its consequences. */
module SeqLockProof {
  import opened Options
  import opened RingIndex
  import opened RingArithmetic
  import opened SeqLockMachine

  function Last(cell: Cell): Message
    requires |cell.stores| > 0
  {
    cell.stores[|cell.stores| - 1]
  }

  /** The thread holds the lock of cell j. */
  predicate Owns(pc: Pc, j: nat) { (pc.Copy? || pc.SetSize? || pc.Unlock?) && pc.j == j }

  predicate CellOk(s: State, j: nat)
    requires j < |s.cells|
  {
    var cell := s.cells[j];
    && |cell.data| == s.capacity && cell.size <= s.capacity
    && |cell.stores| > 0
    && cell.seq0 == cell.total % COUNTERS
    && cell.total == 2 * (|cell.stores| - 1) + (if cell.owner.Some? then 1 else 0)
    && (cell.owner.None? ==> |Last(cell)| == cell.size && cell.data[..cell.size] == Last(cell))
    && (cell.owner.Some? ==> cell.owner.value < |s.threads| && Owns(s.threads[cell.owner.value].pc, j))
  }

  /** The owner's counter is one below the cell's, so Unlock's blind store continues the count. */
  predicate OwnerOk(s: State, t: nat, j: nat, m: Message, seq0: nat) {
    j < |s.cells| && |m| <= s.capacity && |s.cells[j].data| == s.capacity
    && s.cells[j].owner == Some(t) && seq0 < COUNTERS && s.cells[j].seq0 == Bump(seq0, 1)
  }

  predicate ThreadOk(s: State, t: nat, pc: Pc) {
    match pc
    case Idle => true
    case LockLoad(j, m) => j < |s.cells| && |m| <= s.capacity
    case LockCas(j, m, seq0) => j < |s.cells| && |m| <= s.capacity && !IsLocked(seq0)
    case Copy(j, m, seq0, pos) => OwnerOk(s, t, j, m, seq0) && pos <= |m| && s.cells[j].data[..pos] == m[..pos]
    case SetSize(j, m, seq0) => OwnerOk(s, t, j, m, seq0) && s.cells[j].data[..|m|] == m
    case Unlock(j, m, seq0) => OwnerOk(s, t, j, m, seq0) && s.cells[j].data[..|m|] == m && s.cells[j].size == |m|
    case LoadSeq(j) => j < |s.cells|
    case ReadSize(j, seq0, from) => j < |s.cells| && seq0 == from % COUNTERS && from <= s.cells[j].total
    case ReadData(j, seq0, from, size, bytes) =>
      j < |s.cells| && seq0 == from % COUNTERS && from <= s.cells[j].total && |bytes| <= size <= s.capacity
      && (Undisturbed(s, j, from) ==> size == |Last(s.cells[j])| && bytes == Last(s.cells[j])[..|bytes|])
    case Validate(j, seq0, from, bytes) =>
      j < |s.cells| && seq0 == from % COUNTERS && from <= s.cells[j].total
      && (Undisturbed(s, j, from) ==> bytes == Last(s.cells[j]))
  }

  /** Since `from`, taken while unlocked, nobody has even locked the cell. */
  predicate Undisturbed(s: State, j: nat, from: nat)
    requires j < |s.cells|
  {
    from % 2 == 0 && from == s.cells[j].total && |s.cells[j].stores| > 0
  }

  /** An undisturbed load returned the store its counter names. */
  predicate OutcomeOk(s: State, o: Outcome) {
    && (o.Stored? ==> o.cell < |s.cells| && o.number < |s.cells[o.cell].stores| && s.cells[o.cell].stores[o.number] == o.m)
    && (o.Loaded? ==>
      && o.cell < |s.cells| && o.seq0 == o.from % COUNTERS == o.to % COUNTERS && o.from % 2 == 0
      && o.from <= o.to <= s.cells[o.cell].total
      && (o.from == o.to ==> o.from / 2 < |s.cells[o.cell].stores| && o.bytes == s.cells[o.cell].stores[o.from / 2]))
  }

  ghost predicate Inv(s: State) {
    && (forall j :: 0 <= j < |s.cells| ==> CellOk(s, j))
    && (forall t :: 0 <= t < |s.threads| ==> ThreadOk(s, t, s.threads[t].pc))
    && (forall t, k :: 0 <= t < |s.threads| && 0 <= k < |s.threads[t].results| ==> OutcomeOk(s, s.threads[t].results[k]))
  }

  lemma Relies(s: State, t: nat)
    requires Inv(s) && t < |s.threads|
    ensures ThreadOk(s, t, s.threads[t].pc) && InBounds(s, t)
  {
    var pc := s.threads[t].pc;
    if pc.ReadData? { assert CellOk(s, pc.j); }
  }

  // ---- proof rules ----

  ghost predicate Moves(s: State, s': State, t: nat) {
    && t < |s.threads| && |s'.threads| == |s.threads| && s'.threads == s.threads[t := s'.threads[t]]
    && s'.capacity == s.capacity
    && (s'.threads[t].results == s.threads[t].results
        || (exists o :: s'.threads[t].results == s.threads[t].results + [o] && OutcomeOk(s', o)))
  }

  lemma LocalStep(s: State, s': State, t: nat)
    requires Inv(s) && Moves(s, s', t) && s'.cells == s.cells
    requires forall j :: Owns(s.threads[t].pc, j) ==> Owns(s'.threads[t].pc, j)
    requires ThreadOk(s', t, s'.threads[t].pc) == true
    ensures Inv(s')
  {
    forall j | 0 <= j < |s'.cells| ensures CellOk(s', j) { assert CellOk(s, j); }
    forall u | 0 <= u < |s.threads| ensures ThreadOk(s', u, s'.threads[u].pc) { Relies(s, u); }
    forall u, k | 0 <= u < |s.threads| && 0 <= k < |s'.threads[u].results|
      ensures OutcomeOk(s', s'.threads[u].results[k])
    {
      if k < |s.threads[u].results| { assert OutcomeOk(s, s.threads[u].results[k]); }
    }
  }

  /** The lock's owner t (or the one just acquiring it) rewrites cell j; unfinished loads of it are disturbed. */
  ghost predicate Rewrites(s: State, s': State, t: nat, j: nat) {
    && Moves(s, s', t) && j < |s.cells| == |s'.cells| && s'.cells == s.cells[j := s'.cells[j]]
    && s.cells[j].owner in {None, Some(t)}
    && s.cells[j].total <= s'.cells[j].total && |s.cells[j].stores| <= |s'.cells[j].stores|
    && s'.cells[j].stores[..|s.cells[j].stores|] == s.cells[j].stores
    && (s'.cells[j].total == s.cells[j].total ==> s.cells[j].total % 2 == 1)
  }

  lemma OtherThreadOk(s: State, s': State, t: nat, j: nat, u: nat)
    requires Inv(s) && Rewrites(s, s', t, j) && CellOk(s', j) && u < |s.threads| && u != t
    ensures ThreadOk(s', u, s.threads[u].pc)
  {
    Relies(s, u);
    assert CellOk(s, j);
  }

  lemma CellStep(s: State, s': State, t: nat, j: nat)
    requires Inv(s) && Rewrites(s, s', t, j) && CellOk(s', j)
    requires forall k :: k != j && Owns(s.threads[t].pc, k) ==> Owns(s'.threads[t].pc, k)
    requires ThreadOk(s', t, s'.threads[t].pc) == true
    ensures Inv(s')
  {
    forall k | 0 <= k < |s'.cells| ensures CellOk(s', k) { assert CellOk(s, k); }
    forall u | 0 <= u < |s.threads| ensures ThreadOk(s', u, s'.threads[u].pc) {
      if u != t { OtherThreadOk(s, s', t, j, u); }
    }
    forall u, k | 0 <= u < |s.threads| && 0 <= k < |s'.threads[u].results|
      ensures OutcomeOk(s', s'.threads[u].results[k])
    {
      if k < |s.threads[u].results| {
        assert OutcomeOk(s, s.threads[u].results[k]);
        OutcomeStays(s, s', t, j, s.threads[u].results[k]);
      }
    }
  }

  lemma OutcomeStays(s: State, s': State, t: nat, j: nat, o: Outcome)
    requires Rewrites(s, s', t, j) && OutcomeOk(s, o)
    ensures OutcomeOk(s', o)
  {
    if o.Loaded? && o.cell == j && o.from == o.to {
      assert s'.cells[j].stores[..|s.cells[j].stores|][o.from / 2] == s.cells[j].stores[o.from / 2];
    }
  }

  // ---- the steps ----

  lemma StoreOk(s: State, t: nat, spurious: bool)
    requires Inv(s) && t < |s.threads| && Storing(s.threads[t].pc) && InBounds(s, t)
    ensures Inv(StoreStep(s, t, spurious))
  {
    var s', pc := StoreStep(s, t, spurious), s.threads[t].pc;
    Relies(s, t);
    match pc
    case LockLoad(j, m) => LocalStep(s, s', t);
    case LockCas(j, m, seq0) =>
      if !spurious && s.cells[j].seq0 == seq0 { Acquire(s, t, j, m, seq0); } else { LocalStep(s, s', t); }
    case Copy(j, m, seq0, pos) => CopyChunk(s, t, j, m, seq0, pos);
    case SetSize(j, m, seq0) => SizeSet(s, t, j, m, seq0);
    case Unlock(j, m, seq0) => Publish(s, t, j, m, seq0);
  }

  /** The CAS from an even value finds the cell unlocked. */
  lemma Acquire(s: State, t: nat, j: nat, m: Message, seq0: nat)
    requires Inv(s) && t < |s.threads| && s.threads[t].pc == LockCas(j, m, seq0) && j < |s.cells|
    requires |m| <= s.capacity && !IsLocked(seq0) && s.cells[j].seq0 == seq0
    ensures InBounds(s, t) && Inv(StoreStep(s, t, false))
  {
    assert CellOk(s, j);
    BumpTotal(s.cells[j].total);
    CellStep(s, StoreStep(s, t, false), t, j);
  }

  /** The 32-bit counter follows the total, through the wrap-around as well. */
  lemma BumpTotal(total: nat)
    ensures Bump(total % COUNTERS, 1) == (total + 1) % COUNTERS
    ensures (total % COUNTERS) % 2 == total % 2
  {
    BumpModulo(total, COUNTERS);
    Halve(total, COUNTERS / 2);
  }

  lemma BumpModulo(total: nat, n: nat)
    requires n > 0
    ensures (total % n + 1) % n == (total + 1) % n
  {
    Successor(total, n);
    if total % n + 1 < n { Compose(0, total % n + 1, n); } else { Compose(1, 0, n); }
  }

  lemma CopyChunk(s: State, t: nat, j: nat, m: Message, seq0: nat, pos: nat)
    requires Inv(s) && t < |s.threads| && s.threads[t].pc == Copy(j, m, seq0, pos)
    requires OwnerOk(s, t, j, m, seq0) && pos <= |m| && s.cells[j].data[..pos] == m[..pos]
    ensures InBounds(s, t) && Inv(StoreStep(s, t, false))
  {
    var s' := StoreStep(s, t, false);
    assert CellOk(s, j);
    if pos == |m| {
      LocalStep(s, s', t);
    } else {
      var to := ChunkEnd(pos, |m|);
      assert s'.cells[j].data[..to] == m[..to];
      CellStep(s, s', t, j);
    }
  }

  lemma SizeSet(s: State, t: nat, j: nat, m: Message, seq0: nat)
    requires Inv(s) && t < |s.threads| && s.threads[t].pc == SetSize(j, m, seq0)
    requires OwnerOk(s, t, j, m, seq0) && s.cells[j].data[..|m|] == m
    ensures InBounds(s, t) && Inv(StoreStep(s, t, false))
  {
    assert CellOk(s, j);
    CellStep(s, StoreStep(s, t, false), t, j);
  }

  lemma Publish(s: State, t: nat, j: nat, m: Message, seq0: nat)
    requires Inv(s) && t < |s.threads| && s.threads[t].pc == Unlock(j, m, seq0)
    requires OwnerOk(s, t, j, m, seq0) && s.cells[j].data[..|m|] == m && s.cells[j].size == |m|
    ensures InBounds(s, t) && Inv(StoreStep(s, t, false))
  {
    var s' := StoreStep(s, t, false);
    assert CellOk(s, j);
    UnlockContinues(s.cells[j].total, seq0);
    assert s'.threads[t].results == s.threads[t].results + [Stored(j, m, |s.cells[j].stores|)];
    CellStep(s, s', t, j);
  }

  /** Storing the remembered counter plus 2 is the same as counting once more. */
  lemma UnlockContinues(total: nat, seq0: nat)
    requires seq0 < COUNTERS && total % COUNTERS == Bump(seq0, 1)
    ensures Bump(seq0, 2) == (total + 1) % COUNTERS
  {
    BumpTotal(total);
    assert Bump(Bump(seq0, 1), 1) == Bump(seq0, 2);
  }

  lemma LoadOk(s: State, t: nat)
    requires Inv(s) && t < |s.threads| && !Storing(s.threads[t].pc) && !s.threads[t].pc.Idle? && InBounds(s, t)
    ensures Inv(LoadStep(s, t))
  {
    var s', pc := LoadStep(s, t), s.threads[t].pc;
    Relies(s, t);
    assert CellOk(s, pc.j);
    match pc
    case LoadSeq(j) => LocalStep(s, s', t);
    case ReadSize(j, seq0, from) => LocalStep(s, s', t);
    case ReadData(j, seq0, from, size, bytes) => ReadChunk(s, t, j, seq0, from, size, bytes);
    case Validate(j, seq0, from, bytes) => Validated(s, t, j, seq0, from, bytes);
  }

  lemma ReadChunk(s: State, t: nat, j: nat, seq0: nat, from: nat, size: nat, bytes: Message)
    requires Inv(s) && t < |s.threads| && s.threads[t].pc == ReadData(j, seq0, from, size, bytes) && InBounds(s, t)
    ensures Inv(LoadStep(s, t))
  {
    Relies(s, t);
    assert CellOk(s, j);
    if |bytes| < size && Undisturbed(s, j, from) {
      var cell, to := s.cells[j], ChunkEnd(|bytes|, size);
      SliceGrows(cell.data, size, |bytes|, to);
    }
    LocalStep(s, LoadStep(s, t), t);
  }

  lemma SliceGrows(data: seq<Byte>, size: nat, from: nat, to: nat)
    requires from <= to <= size <= |data|
    ensures data[..size][..from] + data[from..to] == data[..size][..to]
  {
  }

  lemma Validated(s: State, t: nat, j: nat, seq0: nat, from: nat, bytes: Message)
    requires Inv(s) && t < |s.threads| && s.threads[t].pc == Validate(j, seq0, from, bytes) && InBounds(s, t)
    ensures Inv(LoadStep(s, t))
  {
    var s' := LoadStep(s, t);
    Relies(s, t);
    assert CellOk(s, j);
    BumpTotal(from);
    if !IsLocked(seq0) && seq0 == s.cells[j].seq0 {
      var o := Loaded(j, seq0, from, s.cells[j].total, bytes);
      assert s'.threads[t].results == s.threads[t].results + [o] && OutcomeOk(s', o);
    }
    LocalStep(s, s', t);
  }

  lemma StepOk(s: State, t: nat, act: Action)
    requires Inv(s) && Enabled(s, t, act)
    ensures InBounds(s, t) && Inv(Next(s, t, act))
  {
    Relies(s, t);
    if act.Go? {
      if Storing(s.threads[t].pc) { StoreOk(s, t, act.spurious); } else { LoadOk(s, t); }
    } else {
      LocalStep(s, Next(s, t, act), t);
    }
  }
}
