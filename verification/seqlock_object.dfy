/**
 * A buffer of sequence-locked cells updated in place: each method performs the
 * next atomic access of a thread's call. One cell is a SeqLockAtomic; many are
 * the buffer of the multicast queue.
 */
module SeqLockObject {
  import opened Options
  import opened SeqLockMachine
  import opened SeqLockProof
  import opened SeqLockTheorems

  class SeqLockBuffer {
    const capacity: nat
    const buffer_: array<Cell>
    var threads: seq<Thread>

    ghost function Abs(): State
      reads this, buffer_
    {
      State(capacity, buffer_[..], threads)
    }

    constructor (capacity: nat, contents: seq<seq<Byte>>, sizes: seq<nat>, n: nat)
      requires |sizes| == |contents| && forall j :: 0 <= j < |contents| ==> |contents[j]| == capacity && sizes[j] <= capacity
      ensures fresh(buffer_) && Abs() == Init(capacity, contents, sizes, n) && Inv(Abs())
    {
      this.capacity := capacity;
      buffer_ := new Cell[|contents|](j requires 0 <= j < |contents| =>
        Cell(0, sizes[j], contents[j], 0, [contents[j][..sizes[j]]], None));
      threads := seq(n, _ => Thread(Idle, [], []));
      new;
      assert buffer_[..] == Init(capacity, contents, sizes, n).cells;
      InitOk(capacity, contents, sizes, n);
    }

    method Goto(t: nat, pc: Pc)
      requires t < |threads|
      modifies this`threads
      ensures threads == old(threads)[t := old(threads)[t].(pc := pc)]
    {
      threads := threads[t := threads[t].(pc := pc)];
    }

    method Enter(t: nat, call: Call, pc: Pc)
      requires t < |threads|
      modifies this`threads
      ensures threads == old(threads)[t := old(threads)[t].(pc := pc, calls := old(threads)[t].calls + [call])]
    {
      threads := threads[t := threads[t].(pc := pc, calls := threads[t].calls + [call])];
    }

    method Finish(t: nat, o: Outcome)
      requires t < |threads|
      modifies this`threads
      ensures threads == old(threads)[t := old(threads)[t].(pc := Idle, results := old(threads)[t].results + [o])]
    {
      threads := threads[t := threads[t].(pc := Idle, results := threads[t].results + [o])];
    }

    /** `SeqLock::Lock`: wait while the counter is odd, then raise it by a weak CAS. */
    method Lock(t: nat, spurious: bool)
      requires t < |threads| && InBounds(Abs(), t) && (threads[t].pc.LockLoad? || threads[t].pc.LockCas?)
      modifies this`threads, buffer_
      ensures Abs() == StoreStep(old(Abs()), t, spurious)
    {
      match threads[t].pc
      case LockLoad(j, m) =>
        var seq0 := buffer_[j].seq0;
        if !IsLocked(seq0) { Goto(t, LockCas(j, m, seq0)); }
      case LockCas(j, m, seq0) =>
        var cell := buffer_[j];
        if !spurious && cell.seq0 == seq0 {
          buffer_[j] := cell.(seq0 := Bump(seq0, 1), total := cell.total + 1, owner := Some(t));
          Goto(t, Copy(j, m, seq0, 0));
        } else if IsLocked(cell.seq0) {
          Goto(t, LockLoad(j, m));
        } else {
          Goto(t, LockCas(j, m, cell.seq0));
        }
    }

    /** `SeqLock::Unlock`: a blind store of the remembered counter plus 2. */
    method Unlock(t: nat)
      requires t < |threads| && InBounds(Abs(), t) && threads[t].pc.Unlock?
      modifies this`threads, buffer_
      ensures Abs() == StoreStep(old(Abs()), t, false)
    {
      var pc := threads[t].pc;
      var cell := buffer_[pc.j];
      buffer_[pc.j] := cell.(seq0 := Bump(pc.seq0, 2), total := cell.total + 1, stores := cell.stores + [pc.m], owner := None);
      Finish(t, Stored(pc.j, pc.m, |cell.stores|));
    }

    method Store(t: nat, spurious: bool)
      requires t < |threads| && InBounds(Abs(), t) && Storing(threads[t].pc)
      modifies this`threads, buffer_
      ensures Abs() == StoreStep(old(Abs()), t, spurious)
    {
      match threads[t].pc
      case Copy(j, m, seq0, pos) =>
        if pos == |m| {
          Goto(t, SetSize(j, m, seq0));
        } else {
          var to := ChunkEnd(pos, |m|);
          buffer_[j] := buffer_[j].(data := Overwrite(buffer_[j].data, m, pos, to));
          Goto(t, Copy(j, m, seq0, to));
        }
      case SetSize(j, m, seq0) =>
        buffer_[j] := buffer_[j].(size := |m|);
        Goto(t, SeqLockMachine.Unlock(j, m, seq0));
      case Unlock(_, _, _) => Unlock(t);
      case LockLoad(_, _) => Lock(t, spurious);
      case LockCas(_, _, _) => Lock(t, spurious);
    }

    method Load(t: nat)
      requires t < |threads| && InBounds(Abs(), t) && !Storing(threads[t].pc)
      modifies this`threads
      ensures Abs() == LoadStep(old(Abs()), t)
    {
      match threads[t].pc
      case LoadSeq(j) => Goto(t, ReadSize(j, buffer_[j].seq0, buffer_[j].total));
      case ReadSize(j, seq0, from) => Goto(t, ReadData(j, seq0, from, buffer_[j].size, []));
      case ReadData(j, seq0, from, size, bytes) =>
        if |bytes| == size {
          Goto(t, Validate(j, seq0, from, bytes));
        } else {
          var to := ChunkEnd(|bytes|, size);
          Goto(t, ReadData(j, seq0, from, size, bytes + buffer_[j].data[|bytes|..to]));
        }
      case Validate(j, seq0, from, bytes) =>
        if IsLocked(seq0) || seq0 != buffer_[j].seq0 {
          Goto(t, LoadSeq(j));
        } else {
          Finish(t, Loaded(j, seq0, from, buffer_[j].total, bytes));
        }
      case _ =>
    }

    /** One step of thread t; the invariant holds throughout. */
    method Run(t: nat, act: Action)
      requires Inv(Abs()) && Enabled(Abs(), t, act)
      modifies this`threads, buffer_
      ensures InBounds(old(Abs()), t) && Abs() == Next(old(Abs()), t, act) && Inv(Abs())
    {
      StepOk(Abs(), t, act);
      match act
      case StartStore(j, m) => Enter(t, StoreCall(j, m), LockLoad(j, m));
      case StartLoad(j) => Enter(t, LoadCall(j), LoadSeq(j));
      case Go(spurious) =>
        if Storing(threads[t].pc) { Store(t, spurious); } else { Load(t); }
    }
  }
}
