/** The inductive invariant of the stack machine. */
module StackInvariant {
  import opened Options
  import opened PackedWord
  import opened StackMachine
  import opened StackCounts

  /** The sequential stack the log of effects describes, top first; None if an entry is illegal. */
  function Replay(log: seq<Entry>): Option<seq<Value>> {
    if log == [] then Some([]) else
    match Replay(log[..|log| - 1])
    case None => None
    case Some(r) =>
      match log[|log| - 1].event
      case Pushed(v) => Some([v] + r)
      case Took(v) => if r != [] && r[0] == v then Some(r[1..]) else None
      case SawEmpty => if r == [] then Some(r) else None
  }

  /** The effects of one thread, in order. */
  function Project(log: seq<Entry>, t: nat): seq<Event> {
    if log == [] then [] else
      var rest := Project(log[..|log| - 1], t);
      if log[|log| - 1].thread == t then rest + [log[|log| - 1].event] else rest
  }

  function PendingCont(k: Cont): seq<Event> {
    match k
    case Won(_, v) => [Took(v)]
    case Look(_, empty) => if empty then [SawEmpty] else []
    case Finish(e) => [e]
    case _ => []
  }

  /** The effect of the current call, if it has happened but not been returned yet. */
  function Pending(pc: Pc): seq<Event> {
    match pc
    case Retire(_, k) => PendingCont(k)
    case Release(_, _, k) => PendingCont(k)
    case ReleaseGlobal(_, k) => PendingCont(k)
    case Unref(_, k) => PendingCont(k)
    case Free(_, k) => PendingCont(k)
    case PopRead(_, empty) => if empty then [SawEmpty] else []
    case PopTake(_, v) => [Took(v)]
    case _ => []
  }

  // ---- blocks ----

  /**
   * Conservation: the two counters of a live block together equal the
   * references to it; a dead block has none; and exactly the live blocks
   * without references have a thread, and only one, about to delete them.
   */
  predicate BlockOk(s: State, b: nat)
    requires b < |s.heap|
  {
    && (s.heap[b].live ==> s.heap[b].refCount + Local(s, b) == Refs(s, b))
    && (!s.heap[b].live ==> Refs(s, b) == 0)
    && Total(Reclaimer, s.threads, b) == (if s.heap[b].live && Refs(s, b) == 0 then 1 else 0)
  }

  predicate NodeOk(heap: seq<Block>, b: nat)
    requires b < |heap|
  {
    heap[b].live ==>
      && (heap[b].prev < |heap| && heap[b].prev != b)
      && (heap[b].prev != 0 ==> !heap[heap[b].prev].stage.Private?)
      && (heap[b].prev != 0 && !heap[b].stage.Private? ==> heap[b].depth == heap[heap[b].prev].depth + 1)
      && (heap[b].data == 0 ==> heap[b].prev == 0)
      && (heap[b].data != 0 && !heap[b].stage.Private? ==> heap[b].prev != 0)
      && (heap[b].stage.Private? ==> heap[b].data != 0 && heap[b].val.Some?)
  }

  ghost predicate HeapOk(heap: seq<Block>) {
    && 0 < |heap| <= ADDRESSES
    && !heap[0].live
    && (forall b :: 0 <= b < |heap| ==> NodeOk(heap, b))
    && (forall a, b :: 0 <= a < |heap| && 0 <= b < |heap| && heap[a].live && heap[b].live && heap[a].data == heap[b].data ==> a == b)
  }

  /** The 16-bit field never counts more than the access units still returnable. */
  predicate WordOk(s: State) {
    && s.word < WORDS
    && 0 < Ptr(s.word) < |s.heap|
    && Cnt(s.word) <= Total(Share, s.threads, Ptr(s.word))
  }

  // ---- what each thread may rely on ----

  predicate Block?(s: State, b: nat) { 0 < b < |s.heap| }

  predicate Mine(s: State, t: nat, node: nat) { Block?(s, node) && s.heap[node].stage == Private(t) }

  predicate Published(s: State, b: nat) { Block?(s, b) && !s.heap[b].stage.Private? }

  /** A FastSharedPtr on a block that has been installed, by its knownValue. */
  predicate Holding(s: State, h: nat) { Published(s, Ptr(h)) && Cnt(h) > 0 }

  predicate FrameOk(s: State, t: nat, f: Frame) {
    match f
    case PushFrame(node) => Mine(s, t, node) && s.heap[node].prev != 0
    case PopFrame(top, next) =>
      Holding(s, top) && Block?(s, next) && s.heap[Ptr(top)].data != 0 && s.heap[Ptr(top)].prev == next
  }

  predicate Taken(s: State, t: nat, top: nat, v: Value) {
    Holding(s, top) && s.heap[Ptr(top)].stage == Popped(t) && s.heap[Ptr(top)].val == Some(v)
  }

  predicate Seen(s: State, top: nat, empty: bool) {
    Holding(s, top) && (empty <==> s.heap[Ptr(top)].data == 0)
  }

  predicate ContOk(s: State, t: nat, k: Cont) {
    match k
    case AfterPrev(node) => FrameOk(s, t, PushFrame(node))
    case Lost(f, differed) => FrameOk(s, t, f) && differed
    case Won(top, v) => Taken(s, t, top, v)
    case Redo(top) => Holding(s, top)
    case Look(top, empty) => Seen(s, top, empty)
    case Finish(_) => true
  }

  predicate Comparing(s: State, t: nat, f: Frame, want: nat, h: nat) {
    FrameOk(s, t, f) && want == Want(s, f) && Holding(s, h) && s.heap[Ptr(h)].data == want
  }

  predicate ThreadOk(s: State, t: nat, pc: Pc) {
    match pc
    case Idle => true
    case GetAdd(node) => Mine(s, t, node)
    case GetRef(node, copy) => Mine(s, t, node) && Published(s, Ptr(copy)) && copy < WORDS && Cnt(copy) < 1000
    case GetReturn(node, copy, e) => Mine(s, t, node) && Published(s, Ptr(copy)) && Ptr(e) == Ptr(copy) && Cnt(e) > 0
    case GetForfeit(node, copy) => Mine(s, t, node) && Published(s, Ptr(copy))
    case SetPrev(node, block) => Mine(s, t, node) && Published(s, block)
    case CasEnter(f) => FrameOk(s, t, f)
    case CasAcquire(f, want) => FrameOk(s, t, f) && want == Want(s, f)
    case CasRead(f, want, h, differed) =>
      FrameOk(s, t, f) && want == Want(s, f) && Holding(s, h) && (differed <==> s.heap[Ptr(h)].data != want)
    case DrainAdd(f, want, h, e) => Comparing(s, t, f, want, h) && Ptr(e) == Ptr(h) && Cnt(e) > 0
    case DrainCas(f, want, h, e) => Comparing(s, t, f, want, h) && Ptr(e) == Ptr(h) && Cnt(e) > 0
    case DrainUndo(f, want, h, _, e, differed) => Comparing(s, t, f, want, h) && (Ptr(e) != Ptr(h) ==> differed)
    case Swap(f, want, h, e) => Comparing(s, t, f, want, h) && Ptr(e) == Ptr(h) && Cnt(e) == 0
    case Retire(h, k) => Holding(s, h) && ContOk(s, t, k)
    case Release(h, e, k) => Holding(s, h) && Ptr(e) == Ptr(h) && Cnt(e) > 0 && ContOk(s, t, k)
    case ReleaseGlobal(h, k) => Holding(s, h) && ContOk(s, t, k)
    case Unref(b, k) => Block?(s, b) && ContOk(s, t, k)
    case Free(b, k) => Block?(s, b) && ContOk(s, t, k)
    case PopAcquire => true
    case PopReacquire(top) => Holding(s, top)
    case PopRead(top, empty) => Seen(s, top, empty)
    case PopCopy(top) => Seen(s, top, false)
    case PopTake(top, v) => Taken(s, t, top, v)
    case Fault(_) => false
  }

  // ---- the list and the log ----

  ghost predicate ChainOk(s: State) {
    && |s.chain| > 0
    && s.chain[0] == Ptr(s.word)
    && (forall i :: 0 <= i < |s.chain| ==>
          Block?(s, s.chain[i]) && s.heap[s.chain[i]].live && s.heap[s.chain[i]].stage == Listed)
    && (forall i :: 0 <= i < |s.chain| - 1 ==>
          s.heap[s.chain[i]].data != 0 && s.heap[s.chain[i]].prev == s.chain[i + 1])
    && s.heap[s.chain[|s.chain| - 1]].data == 0
    && (forall i :: 0 <= i < |s.chain| ==> s.heap[s.chain[i]].depth == |s.chain| - 1 - i)
    && (forall i, j :: 0 <= i < j < |s.chain| ==> s.chain[i] != s.chain[j])
  }

  /** The values along the chain are what replaying the log leaves on the stack. */
  ghost predicate ContentsOk(s: State)
    requires ChainOk(s)
  {
    && Replay(s.log).Some?
    && |Replay(s.log).value| == |s.chain| - 1
    && (forall i :: 0 <= i < |s.chain| - 1 ==> s.heap[s.chain[i]].val == Some(Replay(s.log).value[i]))
  }

  /** Thread t's results so far, and its pending effect, are its part of the log. */
  predicate ResultsOk(s: State, t: nat)
    requires t < |s.threads|
  {
    Project(s.log, t) == s.threads[t].results + Pending(s.threads[t].pc)
  }

  ghost predicate Inv(s: State) {
    && HeapOk(s.heap)
    && (forall b :: 0 < b < |s.heap| ==> BlockOk(s, b))
    && WordOk(s)
    && ChainOk(s)
    && ContentsOk(s)
    && (forall t :: 0 <= t < |s.threads| ==> ThreadOk(s, t, s.threads[t].pc))
    && (forall t :: 0 <= t < |s.threads| ==> ResultsOk(s, t))
  }

  /** A step that acquires an access unit finds fewer than 1000 outstanding. */
  predicate Room(s: State, t: nat)
    requires t < |s.threads|
  {
    var pc := s.threads[t].pc;
    pc.GetAdd? || pc.CasAcquire? || pc.PopAcquire? || pc.PopReacquire? ==> Total(Access, s.threads, 0) < 1000
  }

  // ---- consequences used by every step ----

  /** Whatever a thread has a claim on is live. */
  lemma ClaimedIsLive(s: State, t: nat, b: nat)
    requires t < |s.threads| && 0 < b < |s.heap| && BlockOk(s, b)
    requires Units(Claim, s.threads[t].pc, b) >= 1
    ensures s.heap[b].live && Refs(s, b) >= 1
  {
    TotalAtLeast(Claim, s.threads, t, b);
  }

  lemma PrevIsLive(s: State, b: nat)
    requires Inv(s) && 0 < b < |s.heap| && s.heap[b].live && s.heap[b].prev != 0
    ensures 0 < s.heap[b].prev < |s.heap| && s.heap[s.heap[b].prev].live && Refs(s, s.heap[b].prev) >= 1
  {
    assert NodeOk(s.heap, b);
    PrevAtLeast(s.heap, b);
    assert BlockOk(s, s.heap[b].prev);
  }
}
