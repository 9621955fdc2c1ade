/**
 * Cells guarded by sequence locks, as a machine of atomic steps.
 *
 * Any number of threads store messages into cells and load them, copying word
 * by word and then byte by byte while others do the same. With one cell and
 * messages of one size this is SeqLockAtomic; with a ring of cells it is the
 * buffer of the multicast queue.
 */
module SeqLockMachine {
  import opened Options

  type Byte(==, !new, 0)

  type Message = seq<Byte>

  const COUNTERS := 0x1_0000_0000 // the counter has 32 bits
  const WORD := 8 // sizeof(uintmax_t)

  function Bump(seq0: nat, d: nat): nat { (seq0 + d) % COUNTERS }

  /** `SeqLock::IsLocked`. */
  predicate IsLocked(seq0: nat) { seq0 % 2 == 1 }

  /**
   * `seq0` is the 32-bit counter; `total` (increments so far), `stores` (all
   * completed messages, the initial one first) and `owner` are history variables.
   */
  datatype Cell = Cell(seq0: nat, size: nat, data: seq<Byte>, total: nat, stores: seq<Message>, owner: Option<nat>)

  datatype Outcome = Stored(cell: nat, m: Message, number: nat) | Loaded(cell: nat, seq0: nat, from: nat, to: nat, bytes: Message)

  datatype Pc =
    | Idle
      // Store: Lock, copy, size, Unlock
    | LockLoad(j: nat, m: Message)
    | LockCas(j: nat, m: Message, seq0: nat)
    | Copy(j: nat, m: Message, seq0: nat, pos: nat)
    | SetSize(j: nat, m: Message, seq0: nat)
    | Unlock(j: nat, m: Message, seq0: nat)
      // Load: counter, size, copy, counter again; `from` is the total at the first read
    | LoadSeq(j: nat)
    | ReadSize(j: nat, seq0: nat, from: nat)
    | ReadData(j: nat, seq0: nat, from: nat, size: nat, bytes: Message)
    | Validate(j: nat, seq0: nat, from: nat, bytes: Message)

  datatype Call = StoreCall(j: nat, m: Message) | LoadCall(j: nat)

  /** `calls` is a history variable: the calls begun so far, of which `results` has the results. */
  datatype Thread = Thread(pc: Pc, calls: seq<Call>, results: seq<Outcome>)

  datatype State = State(capacity: nat, cells: seq<Cell>, threads: seq<Thread>)

  datatype Action = StartStore(j: nat, m: Message) | StartLoad(j: nat) | Go(spurious: bool)

  /** How far one atomic access of the copy reaches: whole words first, then single bytes. */
  function ChunkEnd(pos: nat, count: nat): nat {
    if pos + WORD <= count then pos + WORD else pos + 1
  }

  /** `bytes[from..to]` overwrite the same positions of the data. */
  function Overwrite(data: seq<Byte>, m: Message, from: nat, to: nat): seq<Byte>
    requires from <= to <= |m| && to <= |data|
  {
    data[..from] + m[from..to] + data[to..]
  }

  predicate Enabled(s: State, t: nat, act: Action) {
    t < |s.threads| &&
    match act
    case StartStore(j, m) => s.threads[t].pc.Idle? && j < |s.cells| && |m| <= s.capacity
    case StartLoad(j) => s.threads[t].pc.Idle? && j < |s.cells|
    case Go(_) => !s.threads[t].pc.Idle?
  }

  function Jump(s: State, t: nat, pc: Pc): State
    requires t < |s.threads|
  {
    s.(threads := s.threads[t := s.threads[t].(pc := pc)])
  }

  function Begin(s: State, t: nat, call: Call, pc: Pc): State
    requires t < |s.threads|
  {
    s.(threads := s.threads[t := s.threads[t].(pc := pc, calls := s.threads[t].calls + [call])])
  }

  function Return(s: State, t: nat, o: Outcome): State
    requires t < |s.threads|
  {
    s.(threads := s.threads[t := s.threads[t].(pc := Idle, results := s.threads[t].results + [o])])
  }

  function WithCell(s: State, j: nat, cell: Cell): State
    requires j < |s.cells|
  {
    s.(cells := s.cells[j := cell])
  }

  /** The cell a thread is working on; the bounds hold in every reachable state. */
  predicate InBounds(s: State, t: nat)
    requires t < |s.threads|
  {
    match s.threads[t].pc
    case Idle => true
    case Copy(j, m, _, pos) => j < |s.cells| && pos <= |m| <= |s.cells[j].data|
    case ReadData(j, _, _, size, bytes) => j < |s.cells| && |bytes| <= size <= |s.cells[j].data|
    case pc => pc.j < |s.cells|
  }

  predicate Storing(pc: Pc) { pc.LockLoad? || pc.LockCas? || pc.Copy? || pc.SetSize? || pc.Unlock? }

  // ---- Store ----

  function StoreStep(s: State, t: nat, spurious: bool): State
    requires t < |s.threads| && InBounds(s, t)
  {
    match s.threads[t].pc
    case LockLoad(j, m) =>
      if IsLocked(s.cells[j].seq0) then s else Jump(s, t, LockCas(j, m, s.cells[j].seq0))
    case LockCas(j, m, seq0) =>
      var cell := s.cells[j];
      if !spurious && cell.seq0 == seq0 then
        Jump(WithCell(s, j, cell.(seq0 := Bump(seq0, 1), total := cell.total + 1, owner := Some(t))), t, Copy(j, m, seq0, 0))
      else if IsLocked(cell.seq0) then Jump(s, t, LockLoad(j, m))
      else Jump(s, t, LockCas(j, m, cell.seq0))
    case Copy(j, m, seq0, pos) =>
      if pos == |m| then Jump(s, t, SetSize(j, m, seq0)) else
      var to := ChunkEnd(pos, |m|);
      Jump(WithCell(s, j, s.cells[j].(data := Overwrite(s.cells[j].data, m, pos, to))), t, Copy(j, m, seq0, to))
    case SetSize(j, m, seq0) => Jump(WithCell(s, j, s.cells[j].(size := |m|)), t, Unlock(j, m, seq0))
    case Unlock(j, m, seq0) =>
      var cell := s.cells[j];
      Return(WithCell(s, j, cell.(seq0 := Bump(seq0, 2), total := cell.total + 1, stores := cell.stores + [m], owner := None)), t,
             Stored(j, m, |cell.stores|))
    case _ => s
  }

  // ---- Load ----

  function LoadStep(s: State, t: nat): State
    requires t < |s.threads| && InBounds(s, t)
  {
    match s.threads[t].pc
    case LoadSeq(j) => Jump(s, t, ReadSize(j, s.cells[j].seq0, s.cells[j].total))
    case ReadSize(j, seq0, from) => Jump(s, t, ReadData(j, seq0, from, s.cells[j].size, []))
    case ReadData(j, seq0, from, size, bytes) =>
      if |bytes| == size then Jump(s, t, Validate(j, seq0, from, bytes)) else
      var to := ChunkEnd(|bytes|, size);
      Jump(s, t, ReadData(j, seq0, from, size, bytes + s.cells[j].data[|bytes|..to]))
    case Validate(j, seq0, from, bytes) =>
      if IsLocked(seq0) || seq0 != s.cells[j].seq0 then Jump(s, t, LoadSeq(j))
      else Return(s, t, Loaded(j, seq0, from, s.cells[j].total, bytes))
    case _ => s
  }

  function Next(s: State, t: nat, act: Action): State
    requires t < |s.threads| && InBounds(s, t)
  {
    match act
    case StartStore(j, m) => Begin(s, t, StoreCall(j, m), LockLoad(j, m))
    case StartLoad(j) => Begin(s, t, LoadCall(j), LoadSeq(j))
    case Go(spurious) => if Storing(s.threads[t].pc) then StoreStep(s, t, spurious) else LoadStep(s, t)
  }

  /** Cells holding the given messages, unlocked; idle threads. */
  function Init(capacity: nat, contents: seq<seq<Byte>>, sizes: seq<nat>, n: nat): State
    requires |sizes| == |contents| && forall j :: 0 <= j < |contents| ==> |contents[j]| == capacity && sizes[j] <= capacity
  {
    State(capacity,
          seq(|contents|, j requires 0 <= j < |contents| => Cell(0, sizes[j], contents[j], 0, [contents[j][..sizes[j]]], None)),
          seq(n, _ => Thread(Idle, [], [])))
  }
}
