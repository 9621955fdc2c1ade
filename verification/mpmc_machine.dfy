/**
 * The bounded multi-producer multi-consumer queue as a machine of atomic steps.
 *
 * Producers take tickets from tail_, consumers from head_; ticket i uses slot
 * i mod B, whose generation says whose turn it is. The generation a ticket
 * waits for is computed from a numbering of the laps, which is a parameter:
 * the shipped code masks the ticket without shifting it (lap k gets k * B),
 * the design numbers the laps 0, 1, 2, ...
 */
module MpmcMachine {
  import opened Options

  type Value(==, !new)

  /** Buffer size and lap numbering; 2 * number(lap) is the generation an enqueuer waits for. */
  datatype Config = Config(size: nat, number: nat -> nat)

  /** The lap numbers start at 0 and grow from lap to lap. */
  ghost predicate Valid(c: Config) {
    c.size > 0 && c.number(0) == 0 && forall k: nat, m: nat :: k < m ==> c.number(k) < c.number(m)
  }

  function SlotOf(c: Config, i: nat): nat
    requires c.size > 0
  {
    i % c.size
  }

  function Lap(c: Config, i: nat): nat
    requires c.size > 0
  {
    i / c.size
  }

  /** `GetGeneration(i)`. */
  function Number(c: Config, i: nat): nat
    requires c.size > 0
  {
    c.number(Lap(c, i))
  }

  /** The storage of a slot: no object, an object, or an object whose value has been moved out. */
  datatype Payload = Raw | Live(value: Value) | MovedFrom

  /** `stores` (generation stores so far) and `occupant` (thread in the payload section) are history variables. */
  datatype Slot = Slot(generation: nat, data: Payload, stores: nat, occupant: Option<nat>)

  datatype Result = Enqueued(ticket: nat, value: Value) | Full | Dequeued(ticket: nat, value: Value) | Empty

  datatype Pc =
    | Idle
    | EnqueueTicket(x: Value)
    | EnqueueWait(x: Value, i: nat)
    | EnqueueConstruct(x: Value, i: nat)
    | EnqueueStore(x: Value, i: nat)
    | TryEnqueueLoad(x: Value)
    | TryEnqueueCheck(x: Value, tail: nat)
    | TryEnqueueClaim(x: Value, tail: nat)
    | TryEnqueueReload(x: Value, tail: nat, seen: nat) // `seen`: the slot's stores when its generation was read
    | DequeueTicket
    | DequeueWait(i: nat)
    | DequeueMove(i: nat)
    | DequeueDestroy(i: nat, x: Value)
    | DequeueStore(i: nat, x: Value)
    | TryDequeueLoad
    | TryDequeueCheck(head: nat)
    | TryDequeueClaim(head: nat)
    | TryDequeueReload(head: nat, seen: nat)
    | Fault // moving out of storage that holds no object

  datatype Call = EnqueueCall(x: Value) | TryEnqueueCall(x: Value) | DequeueCall | TryDequeueCall

  /** `calls` is a history variable: the calls begun so far, of which `results` has the results. */
  datatype Thread = Thread(pc: Pc, calls: seq<Call>, results: seq<Result>)

  /** `items` is a history variable: the value enqueued under each tail ticket. */
  datatype State = State(head: nat, tail: nat, slots: seq<Slot>, threads: seq<Thread>, items: seq<Value>)

  datatype Action = StartEnqueue(x: Value) | StartTryEnqueue(x: Value) | StartDequeue | StartTryDequeue | Go(spurious: bool)

  function Init(c: Config, n: nat): State {
    State(0, 0, seq(c.size, _ => Slot(0, Raw, 0, None)), seq(n, _ => Thread(Idle, [], [])), [])
  }

  predicate Enabled(s: State, t: nat, act: Action) {
    t < |s.threads| && (if act.Go? then !s.threads[t].pc.Idle? && !s.threads[t].pc.Fault? else s.threads[t].pc.Idle?)
  }

  function Jump(s: State, t: nat, pc: Pc): State
    requires t < |s.threads|
  {
    s.(threads := s.threads[t := s.threads[t].(pc := pc)])
  }

  function Begin(s: State, t: nat, call: Call, pc: Pc): State
    requires t < |s.threads|
  {
    s.(threads := s.threads[t := s.threads[t].(pc := pc, calls := s.threads[t].calls + [call])])
  }

  function Return(s: State, t: nat, result: Result): State
    requires t < |s.threads|
  {
    s.(threads := s.threads[t := s.threads[t].(pc := Idle, results := s.threads[t].results + [result])])
  }

  /** The slot of ticket i is rewritten. */
  function WithSlot(c: Config, s: State, i: nat, slot: Slot): State
    requires c.size > 0 && |s.slots| == c.size
  {
    s.(slots := s.slots[SlotOf(c, i) := slot])
  }

  function SlotAt(c: Config, s: State, i: nat): Slot
    requires c.size > 0 && |s.slots| == c.size
  {
    s.slots[SlotOf(c, i)]
  }

  /** Thread t enters or leaves the payload section of ticket i's slot (history only). */
  function Occupy(c: Config, s: State, i: nat, who: Option<nat>): State
    requires c.size > 0 && |s.slots| == c.size
  {
    WithSlot(c, s, i, SlotAt(c, s, i).(occupant := who))
  }

  function StoreGeneration(c: Config, s: State, i: nat, generation: nat): State
    requires c.size > 0 && |s.slots| == c.size
  {
    var slot := SlotAt(c, s, i);
    WithSlot(c, s, i, slot.(generation := generation, stores := slot.stores + 1, occupant := None))
  }

  // ---- Emplace and TryEmplace ----

  function EnqueueStep(c: Config, s: State, t: nat, spurious: bool): State
    requires c.size > 0 && |s.slots| == c.size && t < |s.threads|
  {
    match s.threads[t].pc
    case EnqueueTicket(x) =>
      Jump(s.(tail := s.tail + 1, items := s.items + [x]), t, EnqueueWait(x, s.tail))
    case EnqueueWait(x, i) =>
      if SlotAt(c, s, i).generation == 2 * Number(c, i) then Jump(Occupy(c, s, i, Some(t)), t, EnqueueConstruct(x, i)) else s
    case EnqueueConstruct(x, i) =>
      Jump(WithSlot(c, s, i, SlotAt(c, s, i).(data := Live(x))), t, EnqueueStore(x, i))
    case EnqueueStore(x, i) =>
      Return(StoreGeneration(c, s, i, 2 * Number(c, i) + 1), t, Enqueued(i, x))
    case TryEnqueueLoad(x) => Jump(s, t, TryEnqueueCheck(x, s.tail))
    case TryEnqueueCheck(x, tail) =>
      if SlotAt(c, s, tail).generation == 2 * Number(c, tail) then Jump(s, t, TryEnqueueClaim(x, tail))
      else Jump(s, t, TryEnqueueReload(x, tail, SlotAt(c, s, tail).stores))
    case TryEnqueueClaim(x, tail) =>
      if !spurious && s.tail == tail then
        Jump(Occupy(c, s.(tail := tail + 1, items := s.items + [x]), tail, Some(t)), t, EnqueueConstruct(x, tail))
      else Jump(s, t, TryEnqueueCheck(x, s.tail))
    case TryEnqueueReload(x, tail, _) =>
      if s.tail == tail then Return(s, t, Full) else Jump(s, t, TryEnqueueCheck(x, s.tail))
    case _ => s
  }

  // ---- Dequeue and TryDequeue ----

  function DequeueStep(c: Config, s: State, t: nat, spurious: bool): State
    requires c.size > 0 && |s.slots| == c.size && t < |s.threads|
  {
    match s.threads[t].pc
    case DequeueTicket => Jump(s.(head := s.head + 1), t, DequeueWait(s.head))
    case DequeueWait(i) =>
      if SlotAt(c, s, i).generation == 2 * Number(c, i) + 1 then Jump(Occupy(c, s, i, Some(t)), t, DequeueMove(i)) else s
    case DequeueMove(i) => (
      match SlotAt(c, s, i).data
      case Live(x) => Jump(WithSlot(c, s, i, SlotAt(c, s, i).(data := MovedFrom)), t, DequeueDestroy(i, x))
      case _ => Jump(s, t, Fault))
    case DequeueDestroy(i, x) =>
      Jump(WithSlot(c, s, i, SlotAt(c, s, i).(data := Raw)), t, DequeueStore(i, x))
    case DequeueStore(i, x) =>
      Return(StoreGeneration(c, s, i, 2 * Number(c, i) + 2), t, Dequeued(i, x))
    case TryDequeueLoad => Jump(s, t, TryDequeueCheck(s.head))
    case TryDequeueCheck(head) =>
      if SlotAt(c, s, head).generation == 2 * Number(c, head) + 1 then Jump(s, t, TryDequeueClaim(head))
      else Jump(s, t, TryDequeueReload(head, SlotAt(c, s, head).stores))
    case TryDequeueClaim(head) =>
      if !spurious && s.head == head then Jump(Occupy(c, s.(head := head + 1), head, Some(t)), t, DequeueMove(head))
      else Jump(s, t, TryDequeueCheck(s.head))
    case TryDequeueReload(head, _) =>
      if s.head == head then Return(s, t, Empty) else Jump(s, t, TryDequeueCheck(s.head))
    case _ => s
  }

  predicate Enqueuing(pc: Pc) {
    || pc.EnqueueTicket? || pc.EnqueueWait? || pc.EnqueueConstruct? || pc.EnqueueStore?
    || pc.TryEnqueueLoad? || pc.TryEnqueueCheck? || pc.TryEnqueueClaim? || pc.TryEnqueueReload?
  }

  function Next(c: Config, s: State, t: nat, act: Action): State
    requires c.size > 0 && |s.slots| == c.size && t < |s.threads|
  {
    match act
    case StartEnqueue(x) => Begin(s, t, EnqueueCall(x), EnqueueTicket(x))
    case StartTryEnqueue(x) => Begin(s, t, TryEnqueueCall(x), TryEnqueueLoad(x))
    case StartDequeue => Begin(s, t, DequeueCall, DequeueTicket)
    case StartTryDequeue => Begin(s, t, TryDequeueCall, TryDequeueLoad)
    case Go(spurious) =>
      if Enqueuing(s.threads[t].pc) then EnqueueStep(c, s, t, spurious) else DequeueStep(c, s, t, spurious)
  }
}
