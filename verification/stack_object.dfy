/**
 * The stack as an object updated in place: the packed word, the blocks and the
 * threads' local variables are fields, and each method performs the next atomic
 * step of the operation it is named after. The methods refine the machine.
 */
module StackObject {
  import opened Options
  import opened PackedWord
  import opened StackMachine
  import opened StackCounts
  import opened StackInvariant
  import opened StackSafety
  import opened StackTheorems

  class LockFreeStack {
    var packedPtr: nat
    var heap: seq<Block>
    var threads: seq<Thread>
    var chain: seq<nat> // history
    var log: seq<Entry>   // history

    ghost function Abs(): State
      reads this
    {
      State(packedPtr, heap, threads, chain, log)
    }

    constructor (n: nat)
      ensures Abs() == Init(n) && Inv(Abs())
    {
      packedPtr := Pack(1);
      heap := [NO_BLOCK, Block(true, 1, 0, 0, None, Listed, 0)];
      threads := seq(n, _ => Thread(Idle, [], []));
      chain := [1];
      log := [];
      new;
      InitOk(n);
    }

    // ---- the atomic operations ----

    /** `packedPtr.fetch_add(1)`, returning the value before. */
    method FetchAdd() returns (before: nat)
      modifies this`packedPtr
      ensures before == old(packedPtr) && packedPtr == Inc(before)
    {
      before := packedPtr;
      packedPtr := Inc(before);
    }

    /** `packedPtr.compare_exchange_weak(expected, desired)`; `seen` is what expected holds afterwards. */
    method CompareExchangeWeak(expected: nat, desired: nat, spurious: bool) returns (ok: bool, seen: nat)
      modifies this`packedPtr
      ensures ok == (!spurious && old(packedPtr) == expected)
      ensures packedPtr == if ok then desired else old(packedPtr)
      ensures seen == old(packedPtr)
    {
      seen := packedPtr;
      ok := !spurious && packedPtr == expected;
      if ok { packedPtr := desired; }
    }

    /** `refCount.fetch_add(d)` on block b, returning the value before. */
    method FetchAddRef(b: nat, d: int) returns (before: int)
      modifies this`heap
      ensures before == At(old(heap), b).refCount && heap == AddRef(old(heap), b, d)
    {
      before := At(heap, b).refCount;
      if b < |heap| {
        heap := heap[b := heap[b].(refCount := heap[b].refCount + d)];
      } else if b == |heap| {
        heap := heap + [NO_BLOCK.(refCount := d)];
      }
    }

    method Goto(t: nat, pc: Pc)
      requires t < |threads|
      modifies this`threads
      ensures threads == old(threads)[t := old(threads)[t].(pc := pc)]
    {
      threads := threads[t := threads[t].(pc := pc)];
    }

    method Continue(t: nat, k: Cont)
      requires t < |threads|
      modifies this`threads
      ensures Abs() == Resume(old(Abs()), t, k)
    {
      match k
      case AfterPrev(node) => Goto(t, CasEnter(PushFrame(node)));
      case Lost(PushFrame(node), _) => Goto(t, GetAdd(node));
      case Lost(PopFrame(top, next), _) => Goto(t, Unref(next, Redo(top)));
      case Won(top, v) => Goto(t, PopTake(top, v));
      case Redo(top) => Goto(t, PopReacquire(top));
      case Look(top, empty) => Goto(t, PopRead(top, empty));
      case Finish(e) => threads := threads[t := threads[t].(pc := Idle, results := threads[t].results + [e])];
    }

    // ---- Push: head_.get() and the assignment to prev_ ----

    method Get(t: nat, spurious: bool)
      requires t < |threads| && Getting(threads[t].pc)
      modifies this
      ensures Abs() == GetStep(old(Abs()), t, spurious)
    {
      match threads[t].pc
      case GetAdd(node) =>
        var copy := FetchAdd();
        Goto(t, GetRef(node, copy));
      case GetRef(node, copy) =>
        if At(heap, Ptr(copy)).refCount == 0 {
          Goto(t, Fault(AssertFailed));
        } else {
          var before := FetchAddRef(Ptr(copy), 1);
          Goto(t, GetReturn(node, copy, Inc(copy)));
        }
      case GetReturn(node, copy, expected) =>
        if Cnt(expected) == 0 {
          Goto(t, Fault(AssertFailed));
        } else {
          var ok, seen := CompareExchangeWeak(expected, Dec(expected), spurious);
          if ok {
            Goto(t, SetPrev(node, Ptr(copy)));
          } else if Ptr(seen) != Ptr(copy) || Cnt(seen) == 0 {
            Goto(t, GetForfeit(node, copy));
          } else {
            Goto(t, GetReturn(node, copy, seen));
          }
        }
      case GetForfeit(node, copy) =>
        if At(heap, Ptr(copy)).refCount == 0 {
          Goto(t, Fault(AssertFailed));
        } else {
          var before := FetchAddRef(Ptr(copy), -1);
          Goto(t, SetPrev(node, Ptr(copy)));
        }
      case SetPrev(node, block) =>
        var former := At(heap, node).prev;
        heap := Put(heap, node, At(heap, node).(prev := block));
        if former == 0 {
          Continue(t, AfterPrev(node));
        } else {
          Goto(t, Unref(former, AfterPrev(node)));
        }
    }

    // ---- compareExchange ----

    method RetryLoop(t: nat, f: Frame, want: nat, h: nat, expected: nat, differed: bool)
      requires t < |threads|
      modifies this`threads
      ensures Abs() == Dispatch(old(Abs()), t, f, want, h, expected, differed)
    {
      if Ptr(expected) != Ptr(h) {
        Goto(t, Release(h, h, Lost(f, differed)));
      } else if Cnt(expected) != 0 {
        Goto(t, DrainAdd(f, want, h, expected));
      } else if Ptr(expected) == NewOne(f) {
        Goto(t, Fault(AssertFailed));
      } else {
        Goto(t, Swap(f, want, h, expected));
      }
    }

    method CompareExchange(t: nat, spurious: bool)
      requires t < |threads| && (Exchanging(threads[t].pc) || threads[t].pc.Retire?)
      modifies this
      ensures Abs() == CompareExchangeStep(old(Abs()), t, spurious)
    {
      match threads[t].pc
      case CasEnter(f) =>
        var want := match f
          case PushFrame(node) => At(heap, At(heap, node).prev).data
          case PopFrame(top, _) => At(heap, Ptr(top)).data;
        if want == At(heap, NewOne(f)).data {
          Goto(t, Fault(EarlyReturn));
        } else {
          Goto(t, CasAcquire(f, want));
        }
      case CasAcquire(f, want) =>
        var differed := At(heap, Ptr(packedPtr)).data != want;
        var before := FetchAdd();
        if Cnt(packedPtr) > 1000 {
          Goto(t, Fault(DrainEntered));
        } else {
          Goto(t, CasRead(f, want, packedPtr, differed));
        }
      case CasRead(f, want, h, differed) =>
        if At(heap, Ptr(h)).data != want {
          Goto(t, Release(h, h, Lost(f, differed)));
        } else {
          RetryLoop(t, f, want, h, Pack(Ptr(h)), false);
        }
      case DrainAdd(f, want, h, expected) =>
        var before := FetchAddRef(Ptr(h), Cnt(expected));
        Goto(t, DrainCas(f, want, h, expected));
      case DrainCas(f, want, h, expected) =>
        var differed := At(heap, Ptr(packedPtr)).data != want;
        var ok, seen := CompareExchangeWeak(expected, ClearCount(expected), spurious);
        if ok {
          RetryLoop(t, f, want, h, expected, false);
        } else {
          Goto(t, DrainUndo(f, want, h, Cnt(expected), seen, differed));
        }
      case DrainUndo(f, want, h, diff, expected, differed) =>
        var before := FetchAddRef(Ptr(h), 0 - diff);
        RetryLoop(t, f, want, h, expected, differed);
      case Swap(f, want, h, expected) =>
        Replace(t, f, want, h, expected, spurious);
      case Retire(h, k) =>
        if At(heap, Ptr(h)).refCount == 0 {
          Goto(t, Fault(AssertFailed));
        } else if At(heap, Ptr(h)).refCount == 1 {
          Goto(t, Fault(RetiredLast));
        } else {
          var before := FetchAddRef(Ptr(h), -1);
          Goto(t, Release(h, h, k));
        }
    }

    /** The exchange of the pointer itself, with its effect on the history variables. */
    method Replace(t: nat, f: Frame, want: nat, h: nat, expected: nat, spurious: bool)
      requires t < |threads| && threads[t].pc == Swap(f, want, h, expected)
      modifies this
      ensures Abs() == CompareExchangeStep(old(Abs()), t, spurious)
    {
      var node := match f case PushFrame(n) => n case PopFrame(_, _) => Ptr(h);
      if !spurious && packedPtr == expected && At(heap, node).val.None? {
        Goto(t, Fault(MovedFrom));
        return;
      }
      var differed := At(heap, Ptr(packedPtr)).data != want;
      var ok, seen := CompareExchangeWeak(expected, Pack(NewOne(f)), spurious);
      if !ok {
        RetryLoop(t, f, want, h, seen, differed);
      } else if f.PushFrame? {
        var v := At(heap, node).val.value;
        heap := Put(heap, node, At(heap, node).(stage := Listed, depth := |chain|));
        chain := [node] + chain;
        log := log + [Entry(t, Pushed(v))];
        Goto(t, Retire(h, Finish(Pushed(v))));
      } else {
        var v := At(heap, node).val.value;
        heap := Put(heap, node, At(heap, node).(stage := Popped(t)));
        chain := if chain == [] then [] else chain[1..];
        log := log + [Entry(t, Took(v))];
        Goto(t, Retire(h, Won(f.top, v)));
      }
    }

    // ---- FastSharedPtr::destroy and SharedPtr::unref ----

    method Destroy(t: nat, spurious: bool)
      requires t < |threads| && (threads[t].pc.Release? || threads[t].pc.ReleaseGlobal?)
      modifies this
      ensures Abs() == ReleaseStep(old(Abs()), t, spurious)
    {
      match threads[t].pc
      case Release(h, expected, k) =>
        var ok, seen := CompareExchangeWeak(expected, Dec(expected), spurious);
        if ok {
          Continue(t, k);
        } else if Ptr(seen) != Ptr(h) || Cnt(seen) == 0 {
          Goto(t, ReleaseGlobal(h, k));
        } else {
          Goto(t, Release(h, seen, k));
        }
      case ReleaseGlobal(h, k) =>
        var before := FetchAddRef(Ptr(h), -1);
        if before == 1 {
          Goto(t, Free(Ptr(h), k));
        } else {
          Continue(t, k);
        }
    }

    method UnrefBlock(t: nat)
      requires t < |threads| && (threads[t].pc.Unref? || threads[t].pc.Free?)
      modifies this
      ensures Abs() == UnrefStep(old(Abs()), t)
    {
      match threads[t].pc
      case Unref(b, k) =>
        if At(heap, b).refCount == 0 {
          Goto(t, Fault(AssertFailed));
        } else {
          var before := FetchAddRef(b, -1);
          if before == 1 {
            Goto(t, Free(b, k));
          } else {
            Continue(t, k);
          }
        }
      case Free(b, k) =>
        var prev := At(heap, b).prev;
        heap := Put(heap, b, At(heap, b).(live := false));
        if prev == 0 {
          Continue(t, k);
        } else {
          Goto(t, Unref(prev, k));
        }
    }

    // ---- Pop ----

    method Pop(t: nat)
      requires t < |threads|
      requires var pc := threads[t].pc; pc.PopAcquire? || pc.PopReacquire? || pc.PopRead? || pc.PopCopy? || pc.PopTake?
      modifies this
      ensures Abs() == PopStep(old(Abs()), t)
    {
      match threads[t].pc
      case PopAcquire => GetFast(t, None);
      case PopReacquire(top) => GetFast(t, Some(top));
      case PopRead(top, empty) =>
        if At(heap, Ptr(top)).data == 0 {
          Goto(t, Release(top, top, Finish(SawEmpty)));
        } else {
          Goto(t, PopCopy(top));
        }
      case PopCopy(top) =>
        var next := At(heap, Ptr(top)).prev;
        if At(heap, next).refCount == 0 {
          Goto(t, Fault(AssertFailed));
        } else {
          var before := FetchAddRef(next, 1);
          Goto(t, CasEnter(PopFrame(top, next)));
        }
      case PopTake(top, _) =>
        var block := At(heap, Ptr(top));
        if block.val.None? {
          Goto(t, Fault(MovedFrom));
        } else {
          heap := Put(heap, Ptr(top), block.(val := None));
          Goto(t, Release(top, top, Finish(Took(block.val.value))));
        }
    }

    method GetFast(t: nat, former: Option<nat>)
      requires t < |threads|
      modifies this
      ensures Abs() == PopLook(old(Abs()), t, former)
    {
      var empty := At(heap, Ptr(packedPtr)).data == 0;
      var before := FetchAdd();
      if Cnt(packedPtr) > 1000 {
        Goto(t, Fault(DrainEntered));
      } else {
        if empty { log := log + [Entry(t, SawEmpty)]; }
        if former.None? {
          Goto(t, PopRead(packedPtr, empty));
        } else {
          Goto(t, Release(former.value, former.value, Look(packedPtr, empty)));
        }
      }
    }

    /** One step of thread t, whatever it is doing; the object stays in a reachable shape. */
    method Run(t: nat, act: Action)
      requires Inv(Abs()) && Enabled(Abs(), t, act) && Room(Abs(), t)
      modifies this
      ensures Abs() == Next(old(Abs()), t, act) && Inv(Abs())
    {
      StepOk(Abs(), t, act);
      match act
      case StartPush(v, b, d) =>
        heap := Put(heap, b, Block(true, 1, d, 0, Some(v), Private(t), 0));
        threads := threads[t := threads[t].(pc := GetAdd(b), calls := threads[t].calls + [PushCall(v)])];
      case StartPop => threads := threads[t := threads[t].(pc := PopAcquire, calls := threads[t].calls + [PopCall])];
      case Go(spurious) =>
        var pc := threads[t].pc;
        if Getting(pc) {
          Get(t, spurious);
        } else if pc.Release? || pc.ReleaseGlobal? {
          Destroy(t, spurious);
        } else if pc.Unref? || pc.Free? {
          UnrefBlock(t);
        } else if pc.PopAcquire? || pc.PopReacquire? || pc.PopRead? || pc.PopCopy? || pc.PopTake? {
          Pop(t);
        } else {
          CompareExchange(t, spurious);
        }
    }
  }
}
