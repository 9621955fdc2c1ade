/**
 * The steps that change nodes or the abstract stack preserve the invariant:
 * allocation, linking, the successful swap, taking the value, deletion.
 */
module StackEffects {
  import opened Options
  import opened Sums
  import opened PackedWord
  import opened StackMachine
  import opened StackCounts
  import opened StackInvariant
  import opened StackFrame
  import opened StackSteps
  import opened StackRelease
  import opened StackCompare

  /** Replacing a block by one that is in order by itself keeps the heap in order. */
  lemma PutHeapOk(heap: seq<Block>, x: nat, block: Block)
    requires HeapOk(heap) && 0 < x < ADDRESSES && x <= |heap|
    requires block.live ==> NodeOk(Put(heap, x, block), x)
    requires block.live ==> forall a :: 0 <= a < |heap| && a != x && heap[a].live ==> heap[a].data != block.data
    requires x < |heap| ==> heap[x].stage.Private? || PrevRefs(heap, x) == 0 || (!block.stage.Private? && block.depth == heap[x].depth)
    ensures HeapOk(Put(heap, x, block))
  {
    var heap' := Put(heap, x, block);
    forall b | 0 <= b < |heap'| ensures NodeOk(heap', b) {
      if b != x {
        assert NodeOk(heap, b);
        if b < |heap| && heap[b].live { PrevAtLeast(heap, b); }
      }
    }
  }

  /**
   * References to b move between the word, thread t and the node x, which is
   * rewritten without touching its counters.
   */
  ghost predicate Neutral(s: State, s': State, t: nat, x: nat, b: nat)
    requires t < |s.threads| && t < |s'.threads| && x < |s.heap| && x < |s'.heap|
  {
    && Is(Ptr(s'.word), b) + Units(Claim, s'.threads[t].pc, b) + Is(s'.heap[x].prev, b)
       == Is(Ptr(s.word), b) + Units(Claim, s.threads[t].pc, b) + Is(s.heap[x].prev, b)
    && Local(s', b) == Local(s, b)
    && Units(Reclaimer, s.threads[t].pc, b) == 0 && Units(Reclaimer, s'.threads[t].pc, b) == 0
  }

  ghost predicate Rewrites(s: State, s': State, t: nat, x: nat) {
    && t < |s.threads| && |s'.threads| == |s.threads|
    && s'.threads == s.threads[t := s'.threads[t]]
    && 0 < x < |s.heap| && s.heap[x].live && |s'.heap| == |s.heap| && s'.heap == s.heap[x := s'.heap[x]]
    && s'.heap[x].refCount == s.heap[x].refCount
    && Keeps(s.heap[x], s'.heap[x], t)
  }

  lemma NeutralBlock(s: State, s': State, t: nat, x: nat, b: nat)
    requires Inv(s) && Rewrites(s, s', t, x) && 0 < b < |s.heap| && Neutral(s, s', t, x, b)
    ensures BlockOk(s', b)
  {
    Moved(s, s', t, b);
    PrevPut(s.heap, x, s'.heap[x], b);
    assert BlockOk(s, b);
  }

  /** A neutral rewriting of one node keeps everything but the abstract stack, which it leaves to show. */
  lemma RewriteEffect(s: State, s': State, t: nat, x: nat)
    requires Inv(s) && Rewrites(s, s', t, x)
    requires forall b :: 0 < b < |s.heap| ==> Neutral(s, s', t, x, b)
    requires FairWord(s, s', t) && 0 < Ptr(s'.word) < |s.heap| && (Ptr(s'.word) != Ptr(s.word) ==> Cnt(s'.word) == 0)
    requires NodeOk(s'.heap, x)
    requires ChainOk(s') && ContentsOk(s')
    requires ThreadOk(s', t, s'.threads[t].pc) == true
    requires forall j :: 0 <= j < |s.threads| ==> ResultsOk(s', j)
    ensures Inv(s')
  {
    forall b | 0 < b < |s.heap| ensures BlockOk(s', b) { NeutralBlock(s, s', t, x, b); }
    Moved(s, s', t, Ptr(s.word));
    PutHeapOk(s.heap, x, s'.heap[x]);
    EffectStep(s, s', t);
  }

  /** The same, without an effect on the abstract stack. */
  lemma RewriteStep(s: State, s': State, t: nat, x: nat)
    requires Inv(s) && Rewrites(s, s', t, x)
    requires forall b :: 0 < b < |s.heap| ==> Neutral(s, s', t, x, b)
    requires FairWord(s, s', t) && Ptr(s'.word) == Ptr(s.word)
    requires NodeOk(s'.heap, x) && s'.heap[x].stage == s.heap[x].stage && (s.heap[x].stage.Private? || s'.heap[x].depth == s.heap[x].depth)
    requires s'.chain == s.chain && s'.log == s.log
    requires ThreadOk(s', t, s'.threads[t].pc) == true
    requires s'.threads[t].results + Pending(s'.threads[t].pc) == s.threads[t].results + Pending(s.threads[t].pc)
    ensures Inv(s')
  {
    ChainStays(s, s', t);
    ResultsStay(s, s', t);
    RewriteEffect(s, s', t, x);
  }

  // ---- Push links its node to the block it has seen ----

  lemma SetPrevStep(s: State, t: nat, spurious: bool)
    requires Inv(s) && t < |s.threads| && s.threads[t].pc.SetPrev?
    ensures Inv(GetStep(s, t, spurious))
  {
    var pc := s.threads[t].pc;
    Relies(s, t);
    ClaimedIsLive(s, t, pc.node);
    Linked(s, GetStep(s, t, spurious), t, pc.node, pc.block);
  }

  lemma Linked(s: State, s': State, t: nat, node: nat, block: nat)
    requires Inv(s) && t < |s.threads| && s.threads[t].pc == SetPrev(node, block)
    requires Mine(s, t, node) && Published(s, block) && s.heap[node].live
    requires var former := s.heap[node].prev;
      s' == Jump(s.(heap := s.heap[node := s.heap[node].(prev := block)]), t,
                 if former == 0 then CasEnter(PushFrame(node)) else Unref(former, AfterPrev(node)))
    ensures Inv(s')
  {
    assert NodeOk(s.heap, node);
    RewriteStep(s, s', t, node);
  }

  // ---- Pop moves the value out of the node it has removed ----

  lemma PopTakeStep(s: State, t: nat)
    requires Inv(s) && t < |s.threads| && s.threads[t].pc.PopTake?
    ensures Inv(PopStep(s, t))
  {
    var pc := s.threads[t].pc;
    Relies(s, t);
    ClaimedIsLive(s, t, Ptr(pc.top));
    MovedOut(s, PopStep(s, t), t, pc.top, pc.value);
  }

  lemma MovedOut(s: State, s': State, t: nat, top: nat, v: Value)
    requires Inv(s) && t < |s.threads| && s.threads[t].pc == PopTake(top, v)
    requires Taken(s, t, top, v) && s.heap[Ptr(top)].live
    requires s' == Jump(s.(heap := s.heap[Ptr(top) := s.heap[Ptr(top)].(val := None)]), t, Release(top, top, Finish(Took(v))))
    ensures Inv(s')
  {
    assert NodeOk(s.heap, Ptr(top));
    RewriteStep(s, s', t, Ptr(top));
  }

  // ---- the successful swap ----

  /** The replacement goes through only on the block the caller has seen at the head. */
  lemma SwapDoneStep(s: State, t: nat)
    requires Inv(s) && t < |s.threads| && s.threads[t].pc.Swap? && s.word == s.threads[t].pc.expected
    ensures Inv(SwapDone(s, t, s.threads[t].pc.frame, s.threads[t].pc.holder))
  {
    var pc := s.threads[t].pc;
    Relies(s, t);
    NewOneDiffers(s, t, pc.frame);
    ClaimedIsLive(s, t, Ptr(pc.holder));
    match pc.frame
    case PushFrame(node) =>
      PrevIsLive(s, node);
      PushDone(s, SwapDone(s, t, pc.frame, pc.holder), t, node, pc.holder);
    case PopFrame(top, next) =>
      ClaimedIsLive(s, t, Ptr(top));
      PopDone(s, SwapDone(s, t, pc.frame, pc.holder), t, top, next, pc.holder);
  }

  /** Push: the node's prev_ is the installed block, so it extends the chain. */
  lemma PushDone(s: State, s': State, t: nat, node: nat, h: nat)
    requires Inv(s) && t < |s.threads| && s.threads[t].pc.Swap? && s.threads[t].pc.frame == PushFrame(node) && s.threads[t].pc.holder == h
    requires Mine(s, t, node) && s.heap[node].live && Holding(s, h) && s.heap[node].prev == Ptr(h) == Ptr(s.word) && Cnt(s.word) == 0
    requires s' == SwapDone(s, t, PushFrame(node), h)
    ensures Inv(s')
  {
    assert NodeOk(s.heap, node);
    Prepended(s, s', t, node, h, s.heap[node].val.value);
  }

  lemma Prepended(s: State, s': State, t: nat, node: nat, h: nat, v: Value)
    requires Inv(s) && t < |s.threads| && s.threads[t].pc.Swap? && s.threads[t].pc.frame == PushFrame(node) && s.threads[t].pc.holder == h
    requires Mine(s, t, node) && s.heap[node].live && Holding(s, h) && s.heap[node].prev == Ptr(h) == Ptr(s.word) && Cnt(s.word) == 0
    requires s.heap[node].val == Some(v)
    requires s' == s.(word := Pack(node), heap := s.heap[node := s.heap[node].(stage := Listed, depth := |s.chain|)], chain := [node] + s.chain,
                      log := s.log + [Entry(t, Pushed(v))],
                      threads := s.threads[t := s.threads[t].(pc := Retire(h, Finish(Pushed(v))))])
    ensures Inv(s')
  {
    assert NodeOk(s.heap, node);
    PackFields(node);
    ResultsRecorded(s, s', t, Pushed(v));
    PushedChain(s, s', node, v);
    RewriteEffect(s, s', t, node);
  }

  lemma PushedChain(s: State, s': State, node: nat, v: Value)
    requires Inv(s) && 0 < node < |s.heap| && s.heap[node].live && s.heap[node].stage.Private?
    requires s.heap[node].data != 0 && s.heap[node].prev == Ptr(s.word) && s.heap[node].val == Some(v)
    requires s'.heap == s.heap[node := s.heap[node].(stage := Listed, depth := |s.chain|)]
    requires Ptr(s'.word) == node && s'.chain == [node] + s.chain
    requires s'.log != [] && s'.log[..|s'.log| - 1] == s.log && s'.log[|s'.log| - 1].event == Pushed(v)
    ensures ChainOk(s') && ContentsOk(s')
  {
    forall i | 0 <= i < |s'.chain|
      ensures Block?(s', s'.chain[i]) && s'.heap[s'.chain[i]].live && s'.heap[s'.chain[i]].stage == Listed
    {
      if i > 0 { assert s'.chain[i] == s.chain[i - 1]; }
    }
    forall i | 0 <= i < |s'.chain| - 1
      ensures s'.heap[s'.chain[i]].data != 0 && s'.heap[s'.chain[i]].prev == s'.chain[i + 1]
    {
      if i > 0 { assert s'.chain[i] == s.chain[i - 1] && s'.chain[i + 1] == s.chain[i]; }
    }
    assert s'.chain[|s'.chain| - 1] == s.chain[|s.chain| - 1];
    assert Replay(s'.log).value == [v] + Replay(s.log).value;
    forall i | 0 <= i < |s'.chain| - 1
      ensures s'.heap[s'.chain[i]].val == Some(Replay(s'.log).value[i])
    {
      if i > 0 { assert s'.chain[i] == s.chain[i - 1]; }
    }
  }

  /** Pop: the block removed is the installed one and its prev_ is next on the chain. */
  lemma PopDone(s: State, s': State, t: nat, top: nat, next: nat, h: nat)
    requires Inv(s) && t < |s.threads| && s.threads[t].pc.Swap? && s.threads[t].pc.frame == PopFrame(top, next) && s.threads[t].pc.holder == h
    requires Holding(s, h) && Holding(s, top) && Block?(s, next) && s.heap[Ptr(h)].live
    requires Ptr(top) == Ptr(h) == Ptr(s.word) && Cnt(s.word) == 0 && s.heap[Ptr(h)].data != 0 && s.heap[Ptr(h)].prev == next
    requires s' == SwapDone(s, t, PopFrame(top, next), h)
    ensures Inv(s')
  {
    assert s.chain[0] == Ptr(h);
    Unlinked(s, s', t, top, next, h, Replay(s.log).value[0]);
  }

  lemma Unlinked(s: State, s': State, t: nat, top: nat, next: nat, h: nat, v: Value)
    requires Inv(s) && t < |s.threads| && s.threads[t].pc.Swap? && s.threads[t].pc.frame == PopFrame(top, next) && s.threads[t].pc.holder == h
    requires Holding(s, h) && Holding(s, top) && Block?(s, next) && s.heap[Ptr(h)].live && |s.chain| > 1 && v == Replay(s.log).value[0]
    requires Ptr(top) == Ptr(h) == Ptr(s.word) == s.chain[0] && Cnt(s.word) == 0 && s.heap[Ptr(h)].prev == next
    requires s' == s.(word := Pack(next), heap := s.heap[Ptr(h) := s.heap[Ptr(h)].(stage := Popped(t))], chain := s.chain[1..],
                      log := s.log + [Entry(t, Took(v))],
                      threads := s.threads[t := s.threads[t].(pc := Retire(h, Won(top, v)))])
    ensures Inv(s')
  {
    assert NodeOk(s.heap, Ptr(h));
    PackFields(next);
    ResultsRecorded(s, s', t, Took(v));
    PoppedChain(s, s', t, v);
    RewriteEffect(s, s', t, Ptr(h));
  }

  lemma PoppedChain(s: State, s': State, t: nat, v: Value)
    requires Inv(s) && |s.chain| > 1 && v == Replay(s.log).value[0]
    requires s'.heap == s.heap[s.chain[0] := s.heap[s.chain[0]].(stage := Popped(t))]
    requires Ptr(s'.word) == s.chain[1] && s'.chain == s.chain[1..]
    requires s'.log != [] && s'.log[..|s'.log| - 1] == s.log && s'.log[|s'.log| - 1].event == Took(v)
    ensures ChainOk(s') && ContentsOk(s')
  {
    assert forall i :: 0 <= i < |s'.chain| ==> s'.chain[i] == s.chain[i + 1] && s'.chain[i] != s.chain[0];
    assert Replay(s'.log).value == Replay(s.log).value[1..];
  }

  // ---- Pop looks at the head; finding the sentinel is its effect ----

  lemma PopLookStep(s: State, t: nat)
    requires Inv(s) && t < |s.threads| && Room(s, t)
    requires s.threads[t].pc.PopAcquire? || s.threads[t].pc.PopReacquire?
    ensures Inv(PopStep(s, t))
  {
    Relies(s, t);
    RoomForUnit(s, t);
    if s.threads[t].pc.PopAcquire? {
      Looked(s, PopStep(s, t), t, Installed(s) == 0);
    } else {
      LookedAgain(s, PopStep(s, t), t, s.threads[t].pc.top, Installed(s) == 0);
    }
  }

  lemma Looked(s: State, s': State, t: nat, empty: bool)
    requires Inv(s) && t < |s.threads| && Cnt(s.word) < 1000 && (empty <==> Installed(s) == 0)
    requires Ptr(Inc(s.word)) == Ptr(s.word) && Cnt(Inc(s.word)) == Cnt(s.word) + 1 && Inc(s.word) < WORDS
    requires s.threads[t].pc.PopAcquire?
    requires s' == s.(word := Inc(s.word), log := if empty then s.log + [Entry(t, SawEmpty)] else s.log,
                      threads := s.threads[t := s.threads[t].(pc := PopRead(Inc(s.word), empty))])
    ensures Inv(s')
  {
    LookedResults(s, s', t, empty);
    LookedOk(s, s', t, empty);
    CountingEffect(s, s', t, Ptr(s.word), 0);
  }

  lemma LookedAgain(s: State, s': State, t: nat, top: nat, empty: bool)
    requires Inv(s) && t < |s.threads| && Cnt(s.word) < 1000 && (empty <==> Installed(s) == 0)
    requires Ptr(Inc(s.word)) == Ptr(s.word) && Cnt(Inc(s.word)) == Cnt(s.word) + 1 && Inc(s.word) < WORDS
    requires s.threads[t].pc == PopReacquire(top) && Holding(s, top)
    requires s' == s.(word := Inc(s.word), log := if empty then s.log + [Entry(t, SawEmpty)] else s.log,
                      threads := s.threads[t := s.threads[t].(pc := Release(top, top, Look(Inc(s.word), empty)))])
    ensures Inv(s')
  {
    LookedResults(s, s', t, empty);
    LookedOk(s, s', t, empty);
    CountingEffect(s, s', t, Ptr(s.word), 0);
  }

  lemma LookedOk(s: State, s': State, t: nat, empty: bool)
    requires Inv(s) && t < |s.threads| && (empty <==> Installed(s) == 0) && s'.heap == s.heap
    requires Ptr(Inc(s.word)) == Ptr(s.word) && Cnt(Inc(s.word)) == Cnt(s.word) + 1
    requires t < |s'.threads| && (s.threads[t].pc.PopReacquire? ==> Holding(s, s.threads[t].pc.top))
    requires var known, pc := Inc(s.word), s.threads[t].pc;
      s'.threads[t].pc == if pc.PopReacquire? then Release(pc.top, pc.top, Look(known, empty)) else PopRead(known, empty)
    ensures ThreadOk(s', t, s'.threads[t].pc)
  {
    assert Block?(s, s.chain[0]) && s.heap[s.chain[0]].stage == Listed;
  }

  /** Seeing the sentinel is an effect on the empty stack; seeing a node is none. */
  lemma LookedResults(s: State, s': State, t: nat, empty: bool)
    requires Inv(s) && t < |s.threads| && (empty <==> Installed(s) == 0) && |s'.threads| == |s.threads|
    requires s'.threads == s.threads[t := s'.threads[t]] && s'.log == if empty then s.log + [Entry(t, SawEmpty)] else s.log
    requires s'.threads[t].results == s.threads[t].results && Pending(s.threads[t].pc) == []
    requires Pending(s'.threads[t].pc) == if empty then [SawEmpty] else []
    ensures forall j :: 0 <= j < |s.threads| ==> ResultsOk(s', j)
    ensures Replay(s'.log) == Replay(s.log)
  {
    assert Block?(s, s.chain[0]);
    if empty {
      ResultsRecorded(s, s', t, SawEmpty);
    } else {
      ResultsStay(s, s', t);
    }
  }

  lemma PopReadStep(s: State, t: nat)
    requires Inv(s) && t < |s.threads| && s.threads[t].pc.PopRead?
    ensures Inv(PopStep(s, t))
  {
    Relies(s, t);
    ReadingStep(s, PopStep(s, t), t);
  }

  lemma PopCopyStep(s: State, t: nat)
    requires Inv(s) && t < |s.threads| && s.threads[t].pc.PopCopy?
    ensures Inv(PopStep(s, t))
  {
    var top := s.threads[t].pc.top;
    Relies(s, t);
    ClaimedIsLive(s, t, Ptr(top));
    assert NodeOk(s.heap, Ptr(top));
    PrevIsLive(s, Ptr(top));
    CountPositive(s, t, s.heap[Ptr(top)].prev);
    Copied(s, t, top, s.heap[Ptr(top)].prev);
  }

  lemma Copied(s: State, t: nat, top: nat, next: nat)
    requires Inv(s) && t < |s.threads| && s.threads[t].pc == PopCopy(top) && Seen(s, top, false)
    requires next == s.heap[Ptr(top)].prev && Block?(s, next) && Refs(s, next) > 0
    ensures Inv(Jump(s.(heap := AddRef(s.heap, next, 1)), t, CasEnter(PopFrame(top, next))))
  {
    CountingStep(s, Jump(s.(heap := AddRef(s.heap, next, 1)), t, CasEnter(PopFrame(top, next))), t, next, 1);
  }

  // ---- deletion of a block ----

  lemma FreeStep(s: State, t: nat)
    requires Inv(s) && t < |s.threads| && s.threads[t].pc.Free?
    ensures Inv(UnrefStep(s, t))
  {
    var pc := s.threads[t].pc;
    Relies(s, t);
    LastOne(s, t, pc.block, pc.rest);
    Freed(s, UnrefStep(s, t), t, pc.block, pc.rest);
  }

  /** A block being deleted is live, unreferenced, and nobody else is deleting it. */
  lemma LastOne(s: State, t: nat, b: nat, k: Cont)
    requires Inv(s) && t < |s.threads| && s.threads[t].pc == Free(b, k) && 0 < b < |s.heap|
    ensures s.heap[b].live && Refs(s, b) == 0 && Total(Reclaimer, s.threads, b) == 1
  {
    assert BlockOk(s, b);
    TotalAtLeast(Reclaimer, s.threads, t, b);
  }

  lemma Freed(s: State, s': State, t: nat, b: nat, k: Cont)
    requires Inv(s) && t < |s.threads| && s.threads[t].pc == Free(b, k) && 0 < b < |s.heap|
    requires ContOk(s, t, k) == true
    requires s.heap[b].live && Refs(s, b) == 0 && Total(Reclaimer, s.threads, b) == 1
    requires var freed := s.(heap := s.heap[b := s.heap[b].(live := false)]);
      s' == if s.heap[b].prev == 0 then Resume(freed, t, k) else Jump(freed, t, Unref(s.heap[b].prev, k))
    ensures Inv(s')
  {
    var freed := s.(heap := s.heap[b := s.heap[b].(live := false)]);
    FreedContOk(s, freed, t, b, k);
    Resumed(freed, t, k);
    NoReclaim(k);
    assert NodeOk(s.heap, b);
    FreedThreadOk(s', t, s.heap[b].prev, k);
    FreedEffect(s, s', t, b, k);
  }

  lemma FreedEffect(s: State, s': State, t: nat, b: nat, k: Cont)
    requires Inv(s) && t < |s.threads| && s.threads[t].pc == Free(b, k) && 0 < b < |s.heap|
    requires s.heap[b].live && Refs(s, b) == 0 && Total(Reclaimer, s.threads, b) == 1 && NodeOk(s.heap, b)
    requires |s'.threads| == |s.threads|
    requires s' == s.(heap := s.heap[b := s.heap[b].(live := false)], threads := s.threads[t := s'.threads[t]])
    requires forall a :: Units(Claim, s'.threads[t].pc, a) == ContUnits(Claim, k, a) + (if s.heap[b].prev == 0 then 0 else Is(s.heap[b].prev, a))
    requires forall a :: Units(Reclaimer, s'.threads[t].pc, a) == 0 && ContUnits(Reclaimer, k, a) == 0
    requires forall a :: Units(Share, s'.threads[t].pc, a) == ContUnits(Share, k, a)
    requires ThreadOk(s', t, s'.threads[t].pc) == true
    requires s'.threads[t].results + Pending(s'.threads[t].pc) == s.threads[t].results + PendingCont(k)
    ensures Inv(s')
  {
    FreedBlocks(s, s', t, b, k);
    FreedWordOk(s, s', t, b);
    ChainStays(s, s', t);
    ResultsStay(s, s', t);
    EffectStep(s, s', t);
  }

  lemma FreedWordOk(s: State, s': State, t: nat, b: nat)
    requires Inv(s) && t < |s.threads| && |s'.threads| == |s.threads| && 0 < b < |s.heap|
    requires s' == s.(heap := s.heap[b := s.heap[b].(live := false)], threads := s.threads[t := s'.threads[t]])
    requires Units(Share, s'.threads[t].pc, Ptr(s.word)) == Units(Share, s.threads[t].pc, Ptr(s.word))
    ensures WordOk(s') && HeapOk(s'.heap)
  {
    PutHeapOk(s.heap, b, s'.heap[b]);
    Moved(s, s', t, Ptr(s.word));
  }

  /** What the continuation relies on is referenced, so it is not the deleted block. */
  lemma FreedContOk(s: State, freed: State, t: nat, b: nat, k: Cont)
    requires t < |s.threads| && b < |s.heap| && ContOk(s, t, k) == true
    requires freed.heap == s.heap[b := s.heap[b].(live := false)]
    ensures ContOk(freed, t, k)
  {
    match k
    case AfterPrev(_) =>
    case Lost(PushFrame(_), _) =>
    case Lost(PopFrame(_, _), _) =>
    case Won(_, _) =>
    case Redo(_) =>
    case Look(_, _) =>
    case Finish(_) =>
  }

  lemma FreedThreadOk(s': State, t: nat, prev: nat, k: Cont)
    requires t < |s'.threads| && ContOk(s', t, k) == true
    requires if prev == 0 then ThreadOk(s', t, s'.threads[t].pc) == true else s'.threads[t].pc == Unref(prev, k) && Block?(s', prev)
    ensures ThreadOk(s', t, s'.threads[t].pc)
  {
  }

  /** The deleted node's reference to its successor passes to the deleting thread. */
  lemma FreedBlocks(s: State, s': State, t: nat, b: nat, k: Cont)
    requires Inv(s) && t < |s.threads| && s.threads[t].pc == Free(b, k) && 0 < b < |s.heap|
    requires s.heap[b].live && Refs(s, b) == 0 && Total(Reclaimer, s.threads, b) == 1 && NodeOk(s.heap, b)
    requires |s'.threads| == |s.threads| && s'.threads == s.threads[t := s'.threads[t]]
    requires s'.heap == s.heap[b := s.heap[b].(live := false)] && s'.word == s.word
    requires forall a :: Units(Claim, s'.threads[t].pc, a) == ContUnits(Claim, k, a) + (if s.heap[b].prev == 0 then 0 else Is(s.heap[b].prev, a))
    requires forall a :: Units(Reclaimer, s'.threads[t].pc, a) == 0 && ContUnits(Reclaimer, k, a) == 0
    ensures forall a :: 0 < a < |s'.heap| ==> BlockOk(s', a)
  {
    forall a | 0 < a < |s'.heap| ensures BlockOk(s', a) {
      Moved(s, s', t, a);
      PrevPut(s.heap, b, s'.heap[b], a);
      assert BlockOk(s, a);
    }
  }

  // ---- starting a call ----

  lemma StartPopStep(s: State, t: nat)
    requires Inv(s) && Enabled(s, t, StartPop)
    ensures Inv(Next(s, t, StartPop))
  {
    ReadingStep(s, Begin(s, t, PopCall, PopAcquire), t);
  }

  /** Nothing refers to an address beyond the heap, nor to a free one. */
  lemma FreshIsUnreferenced(s: State, b: nat)
    requires Inv(s) && 0 < b && (b < |s.heap| ==> !s.heap[b].live)
    ensures Refs(s, b) == 0 && Total(Reclaimer, s.threads, b) == 0
  {
    if b < |s.heap| {
      assert BlockOk(s, b);
    } else {
      forall j | 0 <= j < |s.threads|
        ensures Column(Claim, s.threads, b)[j] == 0 && Column(Reclaimer, s.threads, b)[j] == 0
      {
        ClaimsInHeap(s, j, b);
      }
      SumZero(Column(Claim, s.threads, b));
      SumZero(Column(Reclaimer, s.threads, b));
      forall i | 0 <= i < |s.heap| ensures PrevColumn(s.heap, b)[i] == 0 { assert NodeOk(s.heap, i); }
      SumZero(PrevColumn(s.heap, b));
    }
  }

  lemma FrameInHeap(s: State, t: nat, f: Frame, b: nat)
    requires FrameOk(s, t, f) && b >= |s.heap|
    ensures FrameUnits(Claim, f, b) == 0 && FrameUnits(Reclaimer, f, b) == 0
  {
  }

  lemma ContInHeap(s: State, t: nat, k: Cont, b: nat)
    requires ContOk(s, t, k) && b >= |s.heap|
    ensures ContUnits(Claim, k, b) == 0 && ContUnits(Reclaimer, k, b) == 0
  {
    if k.Lost? { FrameInHeap(s, t, k.frame, b); }
  }

  lemma ClaimsInHeap(s: State, j: nat, b: nat)
    requires Inv(s) && j < |s.threads| && b >= |s.heap|
    ensures Units(Claim, s.threads[j].pc, b) == 0 && Units(Reclaimer, s.threads[j].pc, b) == 0
  {
    var pc := s.threads[j].pc;
    Relies(s, j);
    if Releasing(pc) {
      ContInHeap(s, j, pc.rest, b);
    } else if Exchanging(pc) {
      FrameInHeap(s, j, pc.frame, b);
    }
  }

  lemma StartPushStep(s: State, t: nat, v: Value, b: nat, d: nat)
    requires Inv(s) && Enabled(s, t, StartPush(v, b, d))
    ensures Inv(Next(s, t, StartPush(v, b, d)))
  {
    FreshIsUnreferenced(s, b);
    Allocated(s, Next(s, t, StartPush(v, b, d)), t, b, Block(true, 1, d, 0, Some(v), Private(t), 0));
  }

  lemma Allocated(s: State, s': State, t: nat, b: nat, block: Block)
    requires Inv(s) && t < |s.threads| && s.threads[t].pc == Idle
    requires 0 < b < ADDRESSES && b <= |s.heap| && (b < |s.heap| ==> !s.heap[b].live)
    requires block.live && block.refCount == 1 && block.data != 0 && block.prev == 0 && block.val.Some? && block.stage == Private(t)
    requires forall a :: 0 <= a < |s.heap| && s.heap[a].live ==> s.heap[a].data != block.data
    requires Refs(s, b) == 0 && Total(Reclaimer, s.threads, b) == 0
    requires |s'.threads| == |s.threads| && s' == s.(heap := Put(s.heap, b, block), threads := s.threads[t := s'.threads[t]])
    requires s'.threads[t].pc == GetAdd(b) && s'.threads[t].results == s.threads[t].results
    ensures Inv(s')
  {
    AllocatedBlocks(s, s', t, b, block);
    PutHeapOk(s.heap, b, block);
    Moved(s, s', t, Ptr(s.word));
    ChainStays(s, s', t);
    ResultsStay(s, s', t);
    EffectStep(s, s', t);
  }

  /** The new block has one reference, its creator's; the others have what they had. */
  lemma AllocatedBlocks(s: State, s': State, t: nat, b: nat, block: Block)
    requires Inv(s) && t < |s.threads| && s.threads[t].pc == Idle
    requires 0 < b <= |s.heap| && (b < |s.heap| ==> !s.heap[b].live)
    requires block.live && block.refCount == 1 && block.prev == 0
    requires Refs(s, b) == 0 && Total(Reclaimer, s.threads, b) == 0
    requires |s'.threads| == |s.threads| && s' == s.(heap := Put(s.heap, b, block), threads := s.threads[t := s'.threads[t]])
    requires s'.threads[t].pc == GetAdd(b) && s'.threads[t].results == s.threads[t].results
    ensures forall a :: 0 < a < |s'.heap| ==> BlockOk(s', a)
  {
    forall a | 0 < a < |s'.heap| ensures BlockOk(s', a) {
      Moved(s, s', t, a);
      PrevPut(s.heap, b, block, a);
      if a != b { assert BlockOk(s, a); }
    }
  }
}
