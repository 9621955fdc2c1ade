/**
 * The MPMC queue as an object: head_, tail_ and the ring of slots are updated
 * in place, each method performing the next atomic step of a thread's call.
 */
module MpmcObject {
  import opened Options
  import opened MpmcMachine
  import opened MpmcInvariant
  import opened MpmcSteps

  class BoundedMPMCQueue {
    const config: Config
    var head_: nat
    var tail_: nat
    const buffer: array<Slot>
    var threads: seq<Thread>
    var items: seq<Value> // history

    ghost function Abs(): State
      reads this, buffer
    {
      State(head_, tail_, buffer[..], threads, items)
    }

    constructor (c: Config, n: nat)
      requires Valid(c)
      ensures config == c && fresh(buffer) && Abs() == Init(c, n) && Inv(c, Abs())
    {
      config := c;
      head_, tail_ := 0, 0;
      buffer := new Slot[c.size](_ => Slot(0, Raw, 0, None));
      threads := seq(n, _ => Thread(Idle, [], []));
      items := [];
      new;
      assert buffer[..] == seq(c.size, _ => Slot(0, Raw, 0, None));
      InitOk(c, n);
    }

    method Goto(t: nat, pc: Pc)
      requires t < |threads|
      modifies this`threads
      ensures threads == old(threads)[t := old(threads)[t].(pc := pc)]
    {
      threads := threads[t := threads[t].(pc := pc)];
    }

    method Enter(t: nat, call: Call, pc: Pc)
      requires t < |threads|
      modifies this`threads
      ensures threads == old(threads)[t := old(threads)[t].(pc := pc, calls := old(threads)[t].calls + [call])]
    {
      threads := threads[t := threads[t].(pc := pc, calls := threads[t].calls + [call])];
    }

    method Finish(t: nat, result: Result)
      requires t < |threads|
      modifies this`threads
      ensures threads == old(threads)[t := old(threads)[t].(pc := Idle, results := old(threads)[t].results + [result])]
    {
      threads := threads[t := threads[t].(pc := Idle, results := threads[t].results + [result])];
    }

    /** Rewrite the storage of ticket i's slot. */
    method SetData(i: nat, data: Payload)
      requires config.size > 0 && buffer.Length == config.size
      modifies buffer
      ensures Abs() == old(WithSlot(config, Abs(), i, SlotAt(config, Abs(), i).(data := data)))
    {
      var index := i % config.size;
      buffer[index] := buffer[index].(data := data);
    }

    method SetOccupant(i: nat, who: Option<nat>)
      requires config.size > 0 && buffer.Length == config.size
      modifies buffer
      ensures Abs() == old(Occupy(config, Abs(), i, who))
    {
      var index := i % config.size;
      buffer[index] := buffer[index].(occupant := who);
    }

    /** `StoreGeneration`, which also ends the payload section. */
    method SetGeneration(i: nat, generation: nat)
      requires config.size > 0 && buffer.Length == config.size
      modifies buffer
      ensures Abs() == old(StoreGeneration(config, Abs(), i, generation))
    {
      var index := i % config.size;
      buffer[index] := buffer[index].(generation := generation, stores := buffer[index].stores + 1, occupant := None);
    }

    /** `LoadGeneration`. */
    method LoadGeneration(i: nat) returns (generation: nat, stores: nat)
      requires config.size > 0 && buffer.Length == config.size
      ensures generation == SlotAt(config, Abs(), i).generation && stores == SlotAt(config, Abs(), i).stores
    {
      var index := i % config.size;
      generation, stores := buffer[index].generation, buffer[index].stores;
    }

    /** Emplace and TryEmplace. */
    method Emplace(t: nat, spurious: bool)
      requires config.size > 0 && buffer.Length == config.size && t < |threads| && Enqueuing(threads[t].pc)
      modifies this, buffer
      ensures Abs() == EnqueueStep(config, old(Abs()), t, spurious)
    {
      match threads[t].pc
      case EnqueueTicket(x) =>
        var tail := tail_;
        tail_ := tail + 1;
        items := items + [x];
        Goto(t, EnqueueWait(x, tail));
      case EnqueueWait(x, i) =>
        var generation, _ := LoadGeneration(i);
        if generation == 2 * Number(config, i) {
          SetOccupant(i, Some(t));
          Goto(t, EnqueueConstruct(x, i));
        }
      case EnqueueConstruct(x, i) =>
        SetData(i, Live(x));
        Goto(t, EnqueueStore(x, i));
      case EnqueueStore(x, i) =>
        SetGeneration(i, 2 * Number(config, i) + 1);
        Finish(t, Enqueued(i, x));
      case TryEnqueueLoad(x) => Goto(t, TryEnqueueCheck(x, tail_));
      case TryEnqueueCheck(x, tail) =>
        var generation, stores := LoadGeneration(tail);
        if generation == 2 * Number(config, tail) {
          Goto(t, TryEnqueueClaim(x, tail));
        } else {
          Goto(t, TryEnqueueReload(x, tail, stores));
        }
      case TryEnqueueClaim(x, tail) =>
        if !spurious && tail_ == tail {
          tail_ := tail + 1;
          items := items + [x];
          SetOccupant(tail, Some(t));
          Goto(t, EnqueueConstruct(x, tail));
        } else {
          Goto(t, TryEnqueueCheck(x, tail_));
        }
      case TryEnqueueReload(x, tail, _) =>
        if tail_ == tail {
          Finish(t, Full);
        } else {
          Goto(t, TryEnqueueCheck(x, tail_));
        }
    }

    /** Dequeue and TryDequeue. */
    method Dequeue(t: nat, spurious: bool)
      requires config.size > 0 && buffer.Length == config.size && t < |threads|
      modifies this, buffer
      ensures Abs() == DequeueStep(config, old(Abs()), t, spurious)
    {
      match threads[t].pc
      case DequeueTicket =>
        var head := head_;
        head_ := head + 1;
        Goto(t, DequeueWait(head));
      case DequeueWait(i) =>
        var generation, _ := LoadGeneration(i);
        if generation == 2 * Number(config, i) + 1 {
          SetOccupant(i, Some(t));
          Goto(t, DequeueMove(i));
        }
      case DequeueMove(i) =>
        var data := buffer[i % config.size].data;
        if data.Live? {
          SetData(i, MovedFrom);
          Goto(t, DequeueDestroy(i, data.value));
        } else {
          Goto(t, Fault);
        }
      case DequeueDestroy(i, x) =>
        SetData(i, Raw);
        Goto(t, DequeueStore(i, x));
      case DequeueStore(i, x) =>
        SetGeneration(i, 2 * Number(config, i) + 2);
        Finish(t, Dequeued(i, x));
      case TryDequeueLoad => Goto(t, TryDequeueCheck(head_));
      case TryDequeueCheck(head) =>
        var generation, stores := LoadGeneration(head);
        if generation == 2 * Number(config, head) + 1 {
          Goto(t, TryDequeueClaim(head));
        } else {
          Goto(t, TryDequeueReload(head, stores));
        }
      case TryDequeueClaim(head) =>
        if !spurious && head_ == head {
          head_ := head + 1;
          SetOccupant(head, Some(t));
          Goto(t, DequeueMove(head));
        } else {
          Goto(t, TryDequeueCheck(head_));
        }
      case TryDequeueReload(head, _) =>
        if head_ == head {
          Finish(t, Empty);
        } else {
          Goto(t, TryDequeueCheck(head_));
        }
      case _ =>
    }

    /** One step of thread t; the invariant holds throughout. */
    method Run(t: nat, act: Action)
      requires Inv(config, Abs()) && Enabled(Abs(), t, act)
      modifies this, buffer
      ensures Abs() == Next(config, old(Abs()), t, act) && Inv(config, Abs())
    {
      StepOk(config, Abs(), t, act);
      match act
      case StartEnqueue(x) => Enter(t, EnqueueCall(x), EnqueueTicket(x));
      case StartTryEnqueue(x) => Enter(t, TryEnqueueCall(x), TryEnqueueLoad(x));
      case StartDequeue => Enter(t, DequeueCall, DequeueTicket);
      case StartTryDequeue => Enter(t, TryDequeueCall, TryDequeueLoad);
      case Go(spurious) =>
        if Enqueuing(threads[t].pc) {
          Emplace(t, spurious);
        } else {
          Dequeue(t, spurious);
        }
    }
  }
}
