/**
 * The lock-free stack over AtomicSharedPtr as a machine of atomic steps.
 *
 * Any number of threads run Push and Pop. A thread is a program counter (`Pc`)
 * holding the local variables that are live there; each step of a thread
 * performs one atomic operation on the packed word or on a reference count,
 * or one access to a node. Steps of different threads interleave arbitrarily,
 * weak compare-exchanges may fail spuriously, and a freed address may be
 * handed out again by the allocator.
 */
module StackMachine {
  import opened Options
  import opened PackedWord

  type Value(==, !new)

  /** History variable of a node: its owner before publication, its taker after removal. */
  datatype Stage = Private(owner: nat) | Listed | Popped(owner: nat)

  /**
   * A control block together with the node it owns: `data` is the node's
   * address (0 for the sentinel's null data), `prev` the block its `prev_`
   * refers to (0 for null), `val` its `data_` (None once moved out). `depth` is a
   * history variable: how many nodes were below when the node was published.
   */
  datatype Block = Block(live: bool, refCount: int, data: nat, prev: nat, val: Option<Value>, stage: Stage, depth: nat)

  const NO_BLOCK := Block(false, 0, 0, 0, None, Listed, 0)

  /** Who called compareExchange, with the caller's references that survive the call. */
  datatype Frame =
    | PushFrame(node: nat)
    | PopFrame(top: nat, next: nat) // `top` is the FastSharedPtr's knownValue

  datatype Event = Pushed(value: Value) | Took(value: Value) | SawEmpty

  datatype Entry = Entry(thread: nat, event: Event)

  /** What remains to be done after a reference has been released. */
  datatype Cont =
    | AfterPrev(node: nat)
    | Lost(frame: Frame, differed: bool)
    | Won(top: nat, value: Value)
    | Redo(top: nat)
    | Look(top: nat, empty: bool)
    | Finish(event: Event)

  datatype Reason = AssertFailed | DrainEntered | EarlyReturn | RetiredLast | MovedFrom

  datatype Pc =
    | Idle
      // AtomicSharedPtr::get, called by Push
    | GetAdd(node: nat)
    | GetRef(node: nat, copy: nat)
    | GetReturn(node: nat, copy: nat, expected: nat)
    | GetForfeit(node: nat, copy: nat)
    | SetPrev(node: nat, block: nat)
      // AtomicSharedPtr::compareExchange
    | CasEnter(frame: Frame)
    | CasAcquire(frame: Frame, want: nat)
    | CasRead(frame: Frame, want: nat, holder: nat, differed: bool)
    | DrainAdd(frame: Frame, want: nat, holder: nat, expected: nat)
    | DrainCas(frame: Frame, want: nat, holder: nat, expected: nat)
    | DrainUndo(frame: Frame, want: nat, holder: nat, diff: nat, expected: nat, differed: bool)
    | Swap(frame: Frame, want: nat, holder: nat, expected: nat)
    | Retire(holder: nat, rest: Cont)
      // FastSharedPtr::destroy
    | Release(holder: nat, expected: nat, rest: Cont)
    | ReleaseGlobal(holder: nat, rest: Cont)
      // SharedPtr::unref and the deletion it may trigger
    | Unref(block: nat, rest: Cont)
    | Free(block: nat, rest: Cont)
      // Pop
    | PopAcquire
    | PopReacquire(top: nat)
    | PopRead(top: nat, empty: bool)
    | PopCopy(top: nat)
    | PopTake(top: nat, value: Value)
      // a failed assertion, or a branch that would break the protocol
    | Fault(why: Reason)

  datatype Call = PushCall(value: Value) | PopCall

  /** `calls` is a history variable: the calls begun so far, of which `results` has the results. */
  datatype Thread = Thread(pc: Pc, calls: seq<Call>, results: seq<Event>)

  /**
   * `chain` and `log` are history variables: the blocks from the installed one
   * down to the sentinel, and the operations in the order they took effect.
   */
  datatype State = State(word: nat, heap: seq<Block>, threads: seq<Thread>, chain: seq<nat>, log: seq<Entry>)

  datatype Action =
    | StartPush(value: Value, block: nat, data: nat) // the allocator's choices are in the action
    | StartPop
    | Go(spurious: bool)

  /** `AtomicSharedPtr(nullptr)`: one block with null data, installed; no thread is in a call. */
  function Init(n: nat): State {
    State(Pack(1), [NO_BLOCK, Block(true, 1, 0, 0, None, Listed, 0)], seq(n, _ => Thread(Idle, [], [])), [1], [])
  }

  function At(heap: seq<Block>, b: nat): Block {
    if b < |heap| then heap[b] else NO_BLOCK
  }

  function Put(heap: seq<Block>, b: nat, block: Block): seq<Block> {
    if b < |heap| then heap[b := block] else if b == |heap| then heap + [block] else heap
  }

  function AddRef(heap: seq<Block>, b: nat, d: int): seq<Block> {
    Put(heap, b, At(heap, b).(refCount := At(heap, b).refCount + d))
  }

  function Jump(s: State, t: nat, pc: Pc): State
    requires t < |s.threads|
  {
    s.(threads := s.threads[t := s.threads[t].(pc := pc)])
  }

  function Begin(s: State, t: nat, call: Call, pc: Pc): State
    requires t < |s.threads|
  {
    s.(threads := s.threads[t := s.threads[t].(pc := pc, calls := s.threads[t].calls + [call])])
  }

  function Record(s: State, t: nat, event: Event): State {
    s.(log := s.log + [Entry(t, event)])
  }

  /** Continue after a release; only Finish also hands a result to the caller. */
  function Resume(s: State, t: nat, k: Cont): State
    requires t < |s.threads|
  {
    match k
    case AfterPrev(node) => Jump(s, t, CasEnter(PushFrame(node)))
    case Lost(PushFrame(node), _) => Jump(s, t, GetAdd(node))
    case Lost(PopFrame(top, next), _) => Jump(s, t, Unref(next, Redo(top)))
    case Won(top, v) => Jump(s, t, PopTake(top, v))
    case Redo(top) => Jump(s, t, PopReacquire(top))
    case Look(top, empty) => Jump(s, t, PopRead(top, empty))
    case Finish(e) => s.(threads := s.threads[t := s.threads[t].(pc := Idle, results := s.threads[t].results + [e])])
  }

  /** May the machine take this action? The allocator only hands out unused addresses. */
  predicate Enabled(s: State, t: nat, act: Action) {
    t < |s.threads| &&
    match act
    case StartPush(v, b, d) =>
      && s.threads[t].pc.Idle?
      && 0 < b < ADDRESSES && b <= |s.heap| && !At(s.heap, b).live
      && d != 0 && (forall a :: 0 <= a < |s.heap| && s.heap[a].live ==> s.heap[a].data != d)
    case StartPop => s.threads[t].pc.Idle?
    case Go(_) => !s.threads[t].pc.Idle? && !s.threads[t].pc.Fault?
  }

  function Next(s: State, t: nat, act: Action): State
    requires t < |s.threads|
  {
    match act
    case StartPush(v, b, d) =>
      Begin(s.(heap := Put(s.heap, b, Block(true, 1, d, 0, Some(v), Private(t), 0))), t, PushCall(v), GetAdd(b))
    case StartPop => Begin(s, t, PopCall, PopAcquire)
    case Go(spurious) =>
      var pc := s.threads[t].pc;
      if pc.GetAdd? || pc.GetRef? || pc.GetReturn? || pc.GetForfeit? || pc.SetPrev? then GetStep(s, t, spurious)
      else if pc.Release? || pc.ReleaseGlobal? then ReleaseStep(s, t, spurious)
      else if pc.Unref? || pc.Free? then UnrefStep(s, t)
      else if pc.PopAcquire? || pc.PopReacquire? || pc.PopRead? || pc.PopCopy? || pc.PopTake? then PopStep(s, t)
      else CompareExchangeStep(s, t, spurious)
  }

  // ---- AtomicSharedPtr::get and the assignment to prev_ ----

  function GetStep(s: State, t: nat, spurious: bool): State
    requires t < |s.threads|
  {
    match s.threads[t].pc
    case GetAdd(node) =>
      Jump(s.(word := Inc(s.word)), t, GetRef(node, s.word))
    case GetRef(node, copy) =>
      if At(s.heap, Ptr(copy)).refCount == 0 then Jump(s, t, Fault(AssertFailed))
      else Jump(s.(heap := AddRef(s.heap, Ptr(copy), 1)), t, GetReturn(node, copy, Inc(copy)))
    case GetReturn(node, copy, expected) =>
      if Cnt(expected) == 0 then Jump(s, t, Fault(AssertFailed))
      else if !spurious && s.word == expected then Jump(s.(word := Dec(expected)), t, SetPrev(node, Ptr(copy)))
      else if Ptr(s.word) != Ptr(copy) || Cnt(s.word) == 0 then Jump(s, t, GetForfeit(node, copy))
      else Jump(s, t, GetReturn(node, copy, s.word))
    case GetForfeit(node, copy) =>
      if At(s.heap, Ptr(copy)).refCount == 0 then Jump(s, t, Fault(AssertFailed))
      else Jump(s.(heap := AddRef(s.heap, Ptr(copy), -1)), t, SetPrev(node, Ptr(copy)))
    case SetPrev(node, block) =>
      var former := At(s.heap, node).prev;
      var s' := s.(heap := Put(s.heap, node, At(s.heap, node).(prev := block)));
      if former == 0 then Resume(s', t, AfterPrev(node)) else Jump(s', t, Unref(former, AfterPrev(node)))
    case _ => s
  }

  // ---- AtomicSharedPtr::compareExchange ----

  /** `expected` as the caller computes it: the node pointer it last saw at the head. */
  function Want(s: State, f: Frame): nat {
    match f
    case PushFrame(node) => At(s.heap, At(s.heap, node).prev).data
    case PopFrame(top, _) => At(s.heap, Ptr(top)).data
  }

  /** The control block the caller offers as replacement. */
  function NewOne(f: Frame): nat {
    match f
    case PushFrame(node) => node
    case PopFrame(_, next) => next
  }

  /** The data pointer a load of the atomic pointer would see now. */
  function Installed(s: State): nat { At(s.heap, Ptr(s.word)).data }

  /** The head of the retry loop: leave, drain the local count, or try to swap. */
  function Dispatch(s: State, t: nat, f: Frame, want: nat, h: nat, expected: nat, differed: bool): State
    requires t < |s.threads|
  {
    if Ptr(expected) != Ptr(h) then Jump(s, t, Release(h, h, Lost(f, differed)))
    else if Cnt(expected) != 0 then Jump(s, t, DrainAdd(f, want, h, expected))
    else if Ptr(expected) == NewOne(f) then Jump(s, t, Fault(AssertFailed))
    else Jump(s, t, Swap(f, want, h, expected))
  }

  function CompareExchangeStep(s: State, t: nat, spurious: bool): State
    requires t < |s.threads|
  {
    match s.threads[t].pc
    case CasEnter(f) =>
      if Want(s, f) == At(s.heap, NewOne(f)).data then Jump(s, t, Fault(EarlyReturn))
      else Jump(s, t, CasAcquire(f, Want(s, f)))
    case CasAcquire(f, want) =>
      var known := Inc(s.word);
      var s' := s.(word := known);
      if Cnt(known) > 1000 then Jump(s', t, Fault(DrainEntered))
      else Jump(s', t, CasRead(f, want, known, Installed(s) != want))
    case CasRead(f, want, h, differed) =>
      if At(s.heap, Ptr(h)).data != want then Jump(s, t, Release(h, h, Lost(f, differed)))
      else Dispatch(s, t, f, want, h, Pack(Ptr(h)), false)
    case DrainAdd(f, want, h, expected) =>
      Jump(s.(heap := AddRef(s.heap, Ptr(h), Cnt(expected))), t, DrainCas(f, want, h, expected))
    case DrainCas(f, want, h, expected) =>
      if !spurious && s.word == expected then
        Dispatch(s.(word := ClearCount(expected)), t, f, want, h, expected, false)
      else
        Jump(s, t, DrainUndo(f, want, h, Cnt(expected), s.word, Installed(s) != want))
    case DrainUndo(f, want, h, diff, expected, differed) =>
      Dispatch(s.(heap := AddRef(s.heap, Ptr(h), 0 - diff)), t, f, want, h, expected, differed)
    case Swap(f, want, h, expected) =>
      if !spurious && s.word == expected then SwapDone(s, t, f, h)
      else Dispatch(s, t, f, want, h, s.word, Installed(s) != want)
    case Retire(h, k) =>
      var before := At(s.heap, Ptr(h)).refCount;
      if before == 0 then Jump(s, t, Fault(AssertFailed))
      else if before == 1 then Jump(s, t, Fault(RetiredLast))
      else Jump(s.(heap := AddRef(s.heap, Ptr(h), -1)), t, Release(h, h, k))
    case _ => s
  }

  /** The successful replacement: the operation takes effect here. */
  function SwapDone(s: State, t: nat, f: Frame, h: nat): State
    requires t < |s.threads|
  {
    match f
    case PushFrame(node) => (
      var block := At(s.heap, node);
      match block.val
      case None => Jump(s, t, Fault(MovedFrom))
      case Some(v) =>
        var s' := s.(word := Pack(node), heap := Put(s.heap, node, block.(stage := Listed, depth := |s.chain|)), chain := [node] + s.chain);
        Jump(Record(s', t, Pushed(v)), t, Retire(h, Finish(Pushed(v)))))
    case PopFrame(top, next) =>
      var block := At(s.heap, Ptr(h));
      match block.val
      case None => Jump(s, t, Fault(MovedFrom))
      case Some(v) =>
        var s' := s.(word := Pack(next), heap := Put(s.heap, Ptr(h), block.(stage := Popped(t))),
                     chain := if s.chain == [] then [] else s.chain[1..]);
        Jump(Record(s', t, Took(v)), t, Retire(h, Won(top, v)))
  }

  // ---- FastSharedPtr::destroy ----

  function ReleaseStep(s: State, t: nat, spurious: bool): State
    requires t < |s.threads|
  {
    match s.threads[t].pc
    case Release(h, expected, k) =>
      if !spurious && s.word == expected then Resume(s.(word := Dec(expected)), t, k)
      else if Ptr(s.word) != Ptr(h) || Cnt(s.word) == 0 then Jump(s, t, ReleaseGlobal(h, k))
      else Jump(s, t, Release(h, s.word, k))
    case ReleaseGlobal(h, k) =>
      var s' := s.(heap := AddRef(s.heap, Ptr(h), -1));
      if At(s.heap, Ptr(h)).refCount == 1 then Jump(s', t, Free(Ptr(h), k)) else Resume(s', t, k)
    case _ => s
  }

  // ---- SharedPtr::unref ----

  /** Deleting a node releases its prev_, which may cascade down the list. */
  function UnrefStep(s: State, t: nat): State
    requires t < |s.threads|
  {
    match s.threads[t].pc
    case Unref(b, k) =>
      var before := At(s.heap, b).refCount;
      var s' := s.(heap := AddRef(s.heap, b, -1));
      if before == 0 then Jump(s, t, Fault(AssertFailed))
      else if before == 1 then Jump(s', t, Free(b, k))
      else Resume(s', t, k)
    case Free(b, k) =>
      var s' := s.(heap := Put(s.heap, b, At(s.heap, b).(live := false)));
      if At(s.heap, b).prev == 0 then Resume(s', t, k) else Jump(s', t, Unref(At(s.heap, b).prev, k))
    case _ => s
  }

  // ---- UnboundedLockFreeStack::Pop ----
  // PopCopy reads prev_ and increments the successor's count in one step: prev_
  // of a published node never changes (StackLinearizability.PublishedIsStable),
  // so the increment alone is what other threads can see.

  /** `head_.getFast()`; finding the sentinel is where an empty Pop takes effect. */
  function PopLook(s: State, t: nat, former: Option<nat>): State
    requires t < |s.threads|
  {
    var known := Inc(s.word);
    var empty := Installed(s) == 0;
    var s' := s.(word := known);
    if Cnt(known) > 1000 then Jump(s', t, Fault(DrainEntered))
    else Jump(if empty then Record(s', t, SawEmpty) else s', t,
              match former
              case None => PopRead(known, empty)
              case Some(top) => Release(top, top, Look(known, empty)))
  }

  function PopStep(s: State, t: nat): State
    requires t < |s.threads|
  {
    match s.threads[t].pc
    case PopAcquire => PopLook(s, t, None)
    case PopReacquire(top) => PopLook(s, t, Some(top))
    case PopRead(top, empty) =>
      if At(s.heap, Ptr(top)).data == 0 then Jump(s, t, Release(top, top, Finish(SawEmpty)))
      else Jump(s, t, PopCopy(top))
    case PopCopy(top) =>
      var next := At(s.heap, Ptr(top)).prev;
      if At(s.heap, next).refCount == 0 then Jump(s, t, Fault(AssertFailed))
      else Jump(s.(heap := AddRef(s.heap, next, 1)), t, CasEnter(PopFrame(top, next)))
    case PopTake(top, _) =>
      var block := At(s.heap, Ptr(top));
      if block.val.None? then Jump(s, t, Fault(MovedFrom))
      else Jump(s.(heap := Put(s.heap, Ptr(top), block.(val := None))), t,
                Release(top, top, Finish(Took(block.val.value))))
    case _ => s
  }
}
