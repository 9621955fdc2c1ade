/**
 * The bound of 2^31 stores per load is exact: a run in which exactly that many
 * stores complete during one load, the counter comes round, and the load is
 * accepted although its two words come from different messages.
 */
module SeqLockWrap {
  import opened Options
  import opened SeqLockMachine
  import opened SeqLockTheorems

  lemma ReachStep(init: State, s: State, t: nat, act: Action)
    requires Reachable(init, s) && Enabled(s, t, act) && InBounds(s, t)
    ensures Reachable(init, Next(s, t, act))
  {
    var trace: seq<State>, moves: seq<Move> :| IsRun(init, trace, moves) && trace[|trace| - 1] == s;
    assert IsRun(init, trace + [Next(s, t, act)], moves + [Move(t, act)]);
  }

  /** One cell of two words, a reader and a writer. */
  function Pair(reader: Thread, cell: Cell, writer: Thread): State { State(2 * WORD, [cell], [reader, writer]) }

  function Fill(x: Byte, n: nat): (m: Message)
    ensures |m| == n && forall i :: 0 <= i < n ==> m[i] == x
  {
    seq(n, _ => x)
  }

  // ---- one store by the writer ----

  /** The writer once it has begun a store, and once it has finished it. */
  function Called(writer: Thread, m: Message): Thread { writer.(calls := writer.calls + [StoreCall(0, m)]) }

  function Done(writer: Thread, m: Message, number: nat): Thread {
    Thread(Idle, writer.calls + [StoreCall(0, m)], writer.results + [Stored(0, m, number)])
  }

  lemma Tries(init: State, reader: Thread, cell: Cell, writer: Thread, m: Message)
    requires Reachable(init, Pair(reader, cell, writer))
    requires |m| == 2 * WORD && writer.pc.Idle? && cell.seq0 % 2 == 0
    ensures Reachable(init, Pair(reader, cell, Called(writer, m).(pc := LockCas(0, m, cell.seq0))))
  {
    var s := Pair(reader, cell, writer);
    ReachStep(init, s, 1, StartStore(0, m));
    s := Pair(reader, cell, Called(writer, m).(pc := LockLoad(0, m)));
    ReachStep(init, s, 1, Go(false));
    assert Next(s, 1, Go(false)) == Pair(reader, cell, Called(writer, m).(pc := LockCas(0, m, cell.seq0)));
  }

  lemma Locks(init: State, reader: Thread, cell: Cell, writer: Thread, m: Message)
    requires Reachable(init, Pair(reader, cell, writer))
    requires |m| == 2 * WORD && writer.pc.Idle? && cell.owner == None && cell.seq0 % 2 == 0
    ensures Reachable(init, Pair(reader, cell.(seq0 := Bump(cell.seq0, 1), total := cell.total + 1, owner := Some(1)),
                                 Called(writer, m).(pc := Copy(0, m, cell.seq0, 0))))
  {
    Tries(init, reader, cell, writer, m);
    var s := Pair(reader, cell, Called(writer, m).(pc := LockCas(0, m, cell.seq0)));
    ReachStep(init, s, 1, Go(false));
    assert Next(s, 1, Go(false)) == Pair(reader, cell.(seq0 := Bump(cell.seq0, 1), total := cell.total + 1, owner := Some(1)),
                                         Called(writer, m).(pc := Copy(0, m, cell.seq0, 0)));
  }

  lemma CopiesWords(init: State, reader: Thread, cell: Cell, writer: Thread, m: Message, seq0: nat)
    requires Reachable(init, Pair(reader, cell, writer.(pc := Copy(0, m, seq0, 0))))
    requires |m| == |cell.data| == 2 * WORD
    ensures Reachable(init, Pair(reader, cell.(data := m), writer.(pc := Copy(0, m, seq0, 2 * WORD))))
  {
    var s := Pair(reader, cell, writer.(pc := Copy(0, m, seq0, 0)));
    ReachStep(init, s, 1, Go(false));
    var half := cell.(data := m[..WORD] + cell.data[WORD..]);
    assert Overwrite(cell.data, m, 0, WORD) == half.data;
    s := Pair(reader, half, writer.(pc := Copy(0, m, seq0, WORD)));
    ReachStep(init, s, 1, Go(false));
    assert Overwrite(half.data, m, WORD, 2 * WORD) == m;
    assert Next(s, 1, Go(false)) == Pair(reader, cell.(data := m), writer.(pc := Copy(0, m, seq0, 2 * WORD)));
  }

  lemma Copies(init: State, reader: Thread, cell: Cell, writer: Thread, m: Message, seq0: nat)
    requires Reachable(init, Pair(reader, cell, writer.(pc := Copy(0, m, seq0, 0))))
    requires |m| == |cell.data| == 2 * WORD
    ensures Reachable(init, Pair(reader, cell.(data := m, size := 2 * WORD), writer.(pc := Unlock(0, m, seq0))))
  {
    CopiesWords(init, reader, cell, writer, m, seq0);
    var s := Pair(reader, cell.(data := m), writer.(pc := Copy(0, m, seq0, 2 * WORD)));
    ReachStep(init, s, 1, Go(false));
    s := Pair(reader, cell.(data := m), writer.(pc := SetSize(0, m, seq0)));
    ReachStep(init, s, 1, Go(false));
    assert Next(s, 1, Go(false)) == Pair(reader, cell.(data := m, size := 2 * WORD), writer.(pc := Unlock(0, m, seq0)));
  }

  lemma OneStore(init: State, reader: Thread, cell: Cell, writer: Thread, m: Message)
    requires Reachable(init, Pair(reader, cell, writer))
    requires |m| == |cell.data| == 2 * WORD && cell.owner == None && cell.seq0 % 2 == 0 && writer.pc.Idle?
    ensures Reachable(init, Pair(reader, Cell(Bump(cell.seq0, 2), 2 * WORD, m, cell.total + 2, cell.stores + [m], None),
                                 Done(writer, m, |cell.stores|)))
  {
    Locks(init, reader, cell, writer, m);
    var locked := cell.(seq0 := Bump(cell.seq0, 1), total := cell.total + 1, owner := Some(1));
    Copies(init, reader, locked, Called(writer, m), m, cell.seq0);
    var s := Pair(reader, locked.(data := m, size := 2 * WORD), Called(writer, m).(pc := Unlock(0, m, cell.seq0)));
    ReachStep(init, s, 1, Go(false));
    assert Next(s, 1, Go(false)) == Pair(reader, Cell(Bump(cell.seq0, 2), 2 * WORD, m, cell.total + 2, cell.stores + [m], None),
                                         Done(writer, m, |cell.stores|));
  }

  /** The cell after k stores of the same message m. */
  function Stores(a: Message, m: Message, k: nat): Cell {
    Cell((2 * k) % COUNTERS, 2 * WORD, if k == 0 then a else m, 2 * k, [a] + seq(k, _ => m), None)
  }

  lemma {:induction false} ManyStores(init: State, reader: Thread, a: Message, m: Message, k: nat) returns (writer: Thread)
    requires |a| == |m| == 2 * WORD && Reachable(init, Pair(reader, Stores(a, m, 0), Thread(Idle, [], [])))
    ensures writer.pc.Idle? && Reachable(init, Pair(reader, Stores(a, m, k), writer))
  {
    writer := Thread(Idle, [], []);
    if k > 0 {
      writer := ManyStores(init, reader, a, m, k - 1);
      OneStore(init, reader, Stores(a, m, k - 1), writer, m);
      NextCell(a, m, k);
      writer := Done(writer, m, k);
    }
  }

  lemma NextCell(a: Message, m: Message, k: nat)
    requires k > 0
    ensures var c := Stores(a, m, k - 1);
      Stores(a, m, k) == Cell(Bump(c.seq0, 2), 2 * WORD, m, c.total + 2, c.stores + [m], None)
  {
    assert seq(k, _ => m) == seq(k - 1, _ => m) + [m];
    BumpTwice(k);
  }

  lemma BumpTwice(k: nat)
    requires k > 0
    ensures Bump((2 * (k - 1)) % COUNTERS, 2) == (2 * k) % COUNTERS
  {
  }

  // ---- the load around them ----

  function Start(a: Message): State
    requires |a| == 2 * WORD
  {
    Init(2 * WORD, [a], [2 * WORD], 2)
  }

  lemma Begin(a: Message)
    requires |a| == 2 * WORD
    ensures Reachable(Start(a), Pair(Thread(Idle, [], []), Stores(a, a, 0), Thread(Idle, [], [])))
  {
    var init := Start(a);
    assert a[..2 * WORD] == a && [a] + seq(0, _ => a) == [a];
    assert init.cells == [Stores(a, a, 0)];
    assert init == Pair(Thread(Idle, [], []), Stores(a, a, 0), Thread(Idle, [], []));
    assert IsRun(init, [init], []) && [init][|[init]| - 1] == init;
  }

  lemma Opening(init: State, cell: Cell, writer: Thread)
    requires Reachable(init, Pair(Thread(Idle, [], []), cell, writer))
    ensures Reachable(init, Pair(Thread(ReadSize(0, cell.seq0, cell.total), [LoadCall(0)], []), cell, writer))
  {
    var s := Pair(Thread(Idle, [], []), cell, writer);
    ReachStep(init, s, 0, StartLoad(0));
    assert [] + [LoadCall(0)] == [LoadCall(0)];
    s := Pair(Thread(LoadSeq(0), [LoadCall(0)], []), cell, writer);
    ReachStep(init, s, 0, Go(false));
    assert Next(s, 0, Go(false)) == Pair(Thread(ReadSize(0, cell.seq0, cell.total), [LoadCall(0)], []), cell, writer);
  }

  lemma FirstWord(init: State, cell: Cell, writer: Thread)
    requires Reachable(init, Pair(Thread(Idle, [], []), cell, writer))
    requires |cell.data| == cell.size == 2 * WORD
    ensures Reachable(init, Pair(Thread(ReadData(0, cell.seq0, cell.total, 2 * WORD, cell.data[..WORD]), [LoadCall(0)], []), cell, writer))
  {
    Opening(init, cell, writer);
    var s := Pair(Thread(ReadSize(0, cell.seq0, cell.total), [LoadCall(0)], []), cell, writer);
    ReachStep(init, s, 0, Go(false));
    s := Pair(Thread(ReadData(0, cell.seq0, cell.total, 2 * WORD, []), [LoadCall(0)], []), cell, writer);
    ReachStep(init, s, 0, Go(false));
    assert [] + cell.data[0..WORD] == cell.data[..WORD];
    assert Next(s, 0, Go(false)) == Pair(Thread(ReadData(0, cell.seq0, cell.total, 2 * WORD, cell.data[..WORD]), [LoadCall(0)], []), cell, writer);
  }

  lemma SecondWord(init: State, half: Message, cell: Cell, from: nat, writer: Thread)
    requires |half| == WORD && |cell.data| == 2 * WORD && cell.seq0 % 2 == 0
    requires Reachable(init, Pair(Thread(ReadData(0, cell.seq0, from, 2 * WORD, half), [LoadCall(0)], []), cell, writer))
    ensures Reachable(init, Pair(Thread(Idle, [LoadCall(0)], [Loaded(0, cell.seq0, from, cell.total, half + cell.data[WORD..])]), cell, writer))
  {
    var seq0, torn := cell.seq0, half + cell.data[WORD..];
    var s := Pair(Thread(ReadData(0, seq0, from, 2 * WORD, half), [LoadCall(0)], []), cell, writer);
    ReachStep(init, s, 0, Go(false));
    assert half + cell.data[WORD..2 * WORD] == torn;
    s := Pair(Thread(ReadData(0, seq0, from, 2 * WORD, torn), [LoadCall(0)], []), cell, writer);
    ReachStep(init, s, 0, Go(false));
    s := Pair(Thread(Validate(0, seq0, from, torn), [LoadCall(0)], []), cell, writer);
    ReachStep(init, s, 0, Go(false));
    var o := Loaded(0, seq0, from, cell.total, torn);
    assert [] + [o] == [o];
    assert Next(s, 0, Go(false)) == Pair(Thread(Idle, [LoadCall(0)], [o]), cell, writer);
  }

  /** With 2^31 stores of b during a load begun on a, the load returns half of each. */
  lemma WrapTears(x: Byte, y: Byte) returns (s: State)
    requires x != y
    ensures Reachable(Start(Fill(x, 2 * WORD)), s) && |s.cells| == 1 && |s.threads| == 2 && |s.threads[0].results| == 1
    ensures var o := s.threads[0].results[0];
      o.Loaded? && o.to / 2 - o.from / 2 == COUNTERS / 2 && o.bytes !in s.cells[0].stores
  {
    var a, b, k := Fill(x, 2 * WORD), Fill(y, 2 * WORD), COUNTERS / 2;
    Begin(a);
    FirstWord(Start(a), Stores(a, a, 0), Thread(Idle, [], []));
    var reader := Thread(ReadData(0, 0, 0, 2 * WORD, a[..WORD]), [LoadCall(0)], []);
    assert Stores(a, a, 0) == Stores(a, b, 0) by { assert seq(0, _ => a) == seq(0, _ => b); }
    var writer := ManyStores(Start(a), reader, a, b, k);
    SecondWord(Start(a), a[..WORD], Stores(a, b, k), 0, writer);
    var torn := a[..WORD] + b[WORD..];
    s := Pair(Thread(Idle, [LoadCall(0)], [Loaded(0, 0, 0, 2 * k, torn)]), Stores(a, b, k), writer);
    assert torn[0] == x && torn[WORD] == y;
    forall m | m in s.cells[0].stores ensures m != torn {
      assert m == a || m == b;
      assert a[WORD] == x && b[0] == y;
    }
  }
}
