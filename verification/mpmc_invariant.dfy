/** The inductive invariant of the MPMC queue, for every valid lap numbering. */
module MpmcInvariant {
  import opened Options
  import opened RingIndex
  import opened MpmcMachine

  // ---- tickets, slots and laps ----

  /** Tickets that share a slot are ordered by their laps. */
  lemma SameSlot(c: Config, i: nat, j: nat)
    requires c.size > 0 && SlotOf(c, i) == SlotOf(c, j)
    ensures i < j <==> Lap(c, i) < Lap(c, j)
    ensures i == j <==> Lap(c, i) == Lap(c, j)
  {
    SameRemainder(i, j, c.size);
  }

  /** The generation of a slot after a number of stores: odd exactly when it holds an element. */
  function GenerationAfter(c: Config, stores: nat): nat {
    if stores == 0 then 0
    else if stores % 2 == 1 then 2 * c.number(stores / 2) + 1
    else 2 * c.number(stores / 2 - 1) + 2
  }

  lemma Compare(c: Config, k: nat, m: nat)
    requires Valid(c)
    ensures k < m ==> c.number(k) < c.number(m)
    ensures m < k ==> c.number(m) < c.number(k)
  {
  }

  /** An enqueuer of lap k recognises its turn by the generation alone. */
  lemma EnqueuersTurn(c: Config, stores: nat, k: nat)
    requires Valid(c) && GenerationAfter(c, stores) == 2 * c.number(k)
    ensures stores == 2 * k
  {
    var m := stores / 2;
    Compare(c, 0, k);
    Compare(c, m, k);
    if m > 0 {
      Compare(c, m - 1, k);
      Compare(c, m - 1, m);
    }
  }

  lemma DequeuersTurn(c: Config, stores: nat, k: nat)
    requires Valid(c)
    ensures GenerationAfter(c, stores) == 2 * c.number(k) + 1 <==> stores == 2 * k + 1
  {
    Compare(c, stores / 2, k);
  }

  // ---- who holds which ticket ----

  function EnqueueTicketOf(pc: Pc): Option<nat> {
    match pc
    case EnqueueWait(_, i) => Some(i)
    case EnqueueConstruct(_, i) => Some(i)
    case EnqueueStore(_, i) => Some(i)
    case _ => None
  }

  function DequeueTicketOf(pc: Pc): Option<nat> {
    match pc
    case DequeueWait(i) => Some(i)
    case DequeueMove(i) => Some(i)
    case DequeueDestroy(i, _) => Some(i)
    case DequeueStore(i, _) => Some(i)
    case _ => None
  }

  /** The ticket whose payload section the thread is in: between seeing its turn and storing the generation. */
  function Section(pc: Pc): Option<nat> {
    match pc
    case EnqueueConstruct(_, i) => Some(i)
    case EnqueueStore(_, i) => Some(i)
    case DequeueMove(i) => Some(i)
    case DequeueDestroy(i, _) => Some(i)
    case DequeueStore(i, _) => Some(i)
    case _ => None
  }

  /** The count of stores that lets ticket i's owner into the slot. */
  function Turn(c: Config, pc: Pc): nat
    requires c.size > 0
  {
    match Section(pc)
    case None => 0
    case Some(i) => if EnqueueTicketOf(pc).Some? then 2 * Lap(c, i) else 2 * Lap(c, i) + 1
  }

  // ---- the invariant ----

  ghost predicate SlotOk(c: Config, s: State, j: nat)
    requires c.size > 0 && j < |s.slots|
  {
    var slot := s.slots[j];
    && slot.generation == GenerationAfter(c, slot.stores)
    && (slot.occupant.None? ==>
          && (slot.stores % 2 == 0 ==> slot.data == Raw)
          && (slot.stores % 2 == 1 ==> forall i :: 0 <= i < |s.items| && SlotOf(c, i) == j && Lap(c, i) == slot.stores / 2 ==> slot.data == Live(s.items[i])))
    && (slot.occupant.Some? ==>
          var t := slot.occupant.value;
          t < |s.threads| && Section(s.threads[t].pc).Some? && SlotOf(c, Section(s.threads[t].pc).value) == j)
  }

  /** Only issued tickets have stored into their slots. */
  ghost predicate TicketsOk(c: Config, s: State)
    requires c.size > 0 && |s.slots| == c.size
  {
    && |s.items| == s.tail
    && (forall i :: i >= s.tail ==> s.slots[SlotOf(c, i)].stores <= 2 * Lap(c, i))
    && (forall i :: i >= s.head ==> s.slots[SlotOf(c, i)].stores <= 2 * Lap(c, i) + 1)
  }

  ghost predicate ThreadOk(c: Config, s: State, t: nat, pc: Pc)
    requires c.size > 0 && |s.slots| == c.size && |s.items| == s.tail
  {
    match pc
    case EnqueueWait(x, i) => i < s.tail && s.items[i] == x && SlotAt(c, s, i).stores <= 2 * Lap(c, i)
    case EnqueueConstruct(x, i) =>
      i < s.tail && s.items[i] == x && SlotAt(c, s, i) == Slot(2 * Number(c, i), Raw, 2 * Lap(c, i), Some(t))
    case EnqueueStore(x, i) =>
      i < s.tail && s.items[i] == x && SlotAt(c, s, i) == Slot(2 * Number(c, i), Live(x), 2 * Lap(c, i), Some(t))
    case TryEnqueueClaim(x, tail) =>
      tail <= s.tail && GenerationAfter(c, 2 * Lap(c, tail)) == 2 * Number(c, tail)
      && (tail == s.tail ==> SlotAt(c, s, tail).stores == 2 * Lap(c, tail))
    case TryEnqueueReload(x, tail, seen) =>
      tail <= s.tail && seen <= SlotAt(c, s, tail).stores && GenerationAfter(c, seen) != 2 * Number(c, tail)
    case TryEnqueueCheck(x, tail) => tail <= s.tail
    case DequeueWait(i) => i < s.head && SlotAt(c, s, i).stores <= 2 * Lap(c, i) + 1
    case DequeueMove(i) =>
      i < s.head && i < s.tail && SlotAt(c, s, i) == Slot(2 * Number(c, i) + 1, Live(s.items[i]), 2 * Lap(c, i) + 1, Some(t))
    case DequeueDestroy(i, x) =>
      i < s.head && i < s.tail && x == s.items[i] && SlotAt(c, s, i) == Slot(2 * Number(c, i) + 1, MovedFrom, 2 * Lap(c, i) + 1, Some(t))
    case DequeueStore(i, x) =>
      i < s.head && i < s.tail && x == s.items[i] && SlotAt(c, s, i) == Slot(2 * Number(c, i) + 1, Raw, 2 * Lap(c, i) + 1, Some(t))
    case TryDequeueCheck(head) => head <= s.head
    case TryDequeueClaim(head) => head <= s.head && (head == s.head ==> SlotAt(c, s, head).stores == 2 * Lap(c, head) + 1)
    case TryDequeueReload(head, seen) =>
      head <= s.head && seen <= SlotAt(c, s, head).stores && GenerationAfter(c, seen) != 2 * Number(c, head) + 1
    case Fault => false
    case _ => true
  }

  /** A finished call has stored into its slot; its element is the one enqueued under its ticket. */
  predicate ResultOk(c: Config, s: State, r: Result)
    requires c.size > 0 && |s.slots| == c.size
  {
    && (r.Enqueued? ==> SlotAt(c, s, r.ticket).stores > 2 * Lap(c, r.ticket))
    && (r.Dequeued? ==> SlotAt(c, s, r.ticket).stores > 2 * Lap(c, r.ticket) + 1)
    && (r.Enqueued? || r.Dequeued? ==> r.ticket < |s.items| && r.value == s.items[r.ticket])
  }

  predicate ResultsOk(c: Config, s: State, t: nat)
    requires c.size > 0 && |s.slots| == c.size && t < |s.threads|
  {
    forall k :: 0 <= k < |s.threads[t].results| ==> ResultOk(c, s, s.threads[t].results[k])
  }

  ghost predicate Inv(c: Config, s: State) {
    && Valid(c) && |s.slots| == c.size
    && TicketsOk(c, s)
    && (forall j :: 0 <= j < c.size ==> SlotOk(c, s, j))
    && (forall t :: 0 <= t < |s.threads| ==> ThreadOk(c, s, t, s.threads[t].pc) && ResultsOk(c, s, t))
    && (forall t, u :: 0 <= t < u < |s.threads| && EnqueueTicketOf(s.threads[t].pc).Some? ==>
          EnqueueTicketOf(s.threads[t].pc) != EnqueueTicketOf(s.threads[u].pc))
    && (forall t, u :: 0 <= t < u < |s.threads| && DequeueTicketOf(s.threads[t].pc).Some? ==>
          DequeueTicketOf(s.threads[t].pc) != DequeueTicketOf(s.threads[u].pc))
  }
}
