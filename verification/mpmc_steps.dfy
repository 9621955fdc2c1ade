/** Every step of the MPMC queue preserves its invariant. */
module MpmcSteps {
  import opened Options
  import opened MpmcMachine
  import opened MpmcInvariant

  /** s' differs from s in thread t only, as far as the threads go. */
  ghost predicate Moves(s: State, s': State, t: nat) {
    t < |s.threads| && |s'.threads| == |s.threads| && s'.threads == s.threads[t := s'.threads[t]]
  }

  lemma Relies(c: Config, s: State, t: nat)
    requires Inv(c, s) && t < |s.threads|
    ensures ThreadOk(c, s, t, s.threads[t].pc) && ResultsOk(c, s, t)
  {
  }

  /** The tickets thread t holds afterwards are its own from before, or freshly issued. */
  ghost predicate TicketsFrom(s: State, s': State, t: nat)
    requires t < |s.threads| && t < |s'.threads|
  {
    var pc, pc' := s.threads[t].pc, s'.threads[t].pc;
    && (EnqueueTicketOf(pc').None? || EnqueueTicketOf(pc') == EnqueueTicketOf(pc) || EnqueueTicketOf(pc') == Some(s.tail))
    && (DequeueTicketOf(pc').None? || DequeueTicketOf(pc') == DequeueTicketOf(pc) || DequeueTicketOf(pc') == Some(s.head))
  }

  lemma TicketsStayDistinct(c: Config, s: State, s': State, t: nat)
    requires Inv(c, s) && Moves(s, s', t) && TicketsFrom(s, s', t)
    ensures forall u, v :: 0 <= u < v < |s'.threads| && EnqueueTicketOf(s'.threads[u].pc).Some? ==>
              EnqueueTicketOf(s'.threads[u].pc) != EnqueueTicketOf(s'.threads[v].pc)
    ensures forall u, v :: 0 <= u < v < |s'.threads| && DequeueTicketOf(s'.threads[u].pc).Some? ==>
              DequeueTicketOf(s'.threads[u].pc) != DequeueTicketOf(s'.threads[v].pc)
  {
    forall u | 0 <= u < |s.threads|
      ensures EnqueueTicketOf(s.threads[u].pc) != Some(s.tail) && DequeueTicketOf(s.threads[u].pc) != Some(s.head)
    {
      Relies(c, s, u);
    }
  }

  /** The thread occupying a slot is in its payload section, on its turn. */
  lemma OccupantsTurn(c: Config, s: State, j: nat) returns (u: nat)
    requires Inv(c, s) && j < c.size && s.slots[j].occupant.Some?
    ensures u < |s.threads| && s.slots[j].occupant == Some(u)
    ensures Section(s.threads[u].pc).Some? && SlotOf(c, Section(s.threads[u].pc).value) == j
    ensures s.slots[j].stores == Turn(c, s.threads[u].pc)
  {
    assert SlotOk(c, s, j);
    u := s.slots[j].occupant.value;
    Relies(c, s, u);
  }

  /** When ticket i's turn has come and its owner is not inside yet, nobody is. */
  lemma NobodyInside(c: Config, s: State, i: nat, enqueue: bool)
    requires Inv(c, s)
    requires SlotAt(c, s, i).stores == 2 * Lap(c, i) + (if enqueue then 0 else 1)
    requires forall u :: 0 <= u < |s.threads| && Section(s.threads[u].pc) == Some(i) ==>
        (if enqueue then EnqueueTicketOf(s.threads[u].pc) else DequeueTicketOf(s.threads[u].pc)) != Some(i)
    ensures SlotAt(c, s, i).occupant == None
  {
    if SlotAt(c, s, i).occupant.Some? {
      var u := OccupantsTurn(c, s, SlotOf(c, i));
      SameSlot(c, i, Section(s.threads[u].pc).value);
    }
  }

  // ---- steps that change no slot ----

  /** Thread t moves on, possibly taking a new ticket; the slots stay as they are. */
  lemma LocalStep(c: Config, s: State, s': State, t: nat)
    requires Inv(c, s) && Moves(s, s', t) && TicketsFrom(s, s', t) && s'.slots == s.slots
    requires s.tail <= s'.tail && s.head <= s'.head && |s'.items| == s'.tail && s'.items[..s.tail] == s.items
    requires Section(s'.threads[t].pc) == None == Section(s.threads[t].pc)
    requires ThreadOk(c, s', t, s'.threads[t].pc) == true && ResultsOk(c, s', t)
    ensures Inv(c, s')
  {
    TicketsStayDistinct(c, s, s', t);
    forall i | 0 <= i < s.tail ensures s'.items[i] == s.items[i] { assert s'.items[..s.tail][i] == s'.items[i]; }
    forall j | 0 <= j < c.size ensures SlotOk(c, s', j) {
      assert SlotOk(c, s, j);
      FullSlotWasIssued(c, s, j);
    }
    forall u | 0 <= u < |s.threads| ensures ThreadOk(c, s', u, s'.threads[u].pc) && ResultsOk(c, s', u) {
      Relies(c, s, u);
    }
  }

  /** The element in a full slot belongs to a ticket already issued. */
  lemma FullSlotWasIssued(c: Config, s: State, j: nat)
    requires Inv(c, s) && j < c.size
    ensures s.slots[j].stores % 2 == 1 ==> forall i :: 0 <= i && SlotOf(c, i) == j && Lap(c, i) == s.slots[j].stores / 2 ==> i < s.tail
  {
  }

  // ---- steps inside a slot ----

  /**
   * Thread t rewrites slot j, where nobody else is; the number of stores
   * stays, or grows by one when t finishes its ticket there.
   */
  ghost predicate Rewrites(c: Config, s: State, s': State, t: nat, j: nat)
    requires c.size > 0
  {
    && Moves(s, s', t) && j < |s.slots| == c.size
    && |s'.slots| == c.size && s'.slots == s.slots[j := s'.slots[j]]
    && s.slots[j].occupant in {None, Some(t)}
    && s.tail <= s'.tail && s.head <= s'.head && |s'.items| == s'.tail && |s.items| == s.tail && s'.items[..s.tail] == s.items
    && (s'.slots[j].stores == s.slots[j].stores
        || (s'.slots[j].stores == s.slots[j].stores + 1
            && Section(s.threads[t].pc).Some? && SlotOf(c, Section(s.threads[t].pc).value) == j))
  }

  /** A store by t's ticket neither finishes nor spoils the turn of another ticket k. */
  lemma OtherTurns(c: Config, s: State, s': State, t: nat, j: nat, k: nat)
    requires Inv(c, s) && Rewrites(c, s, s', t, j)
    ensures var pc, n, n' := s.threads[t].pc, s.slots[SlotOf(c, k)].stores, s'.slots[SlotOf(c, k)].stores;
      && n <= n'
      && (EnqueueTicketOf(pc) != Some(k) ==> (n <= 2 * Lap(c, k) ==> n' <= 2 * Lap(c, k)) && (n == 2 * Lap(c, k) ==> n' == n))
      && (DequeueTicketOf(pc) != Some(k) ==> (n <= 2 * Lap(c, k) + 1 ==> n' <= 2 * Lap(c, k) + 1) && (n == 2 * Lap(c, k) + 1 ==> n' == n))
  {
    Relies(c, s, t);
    if SlotOf(c, k) == j && s'.slots[j].stores != s.slots[j].stores {
      SameSlot(c, Section(s.threads[t].pc).value, k);
    }
  }

  lemma OtherThreadOk(c: Config, s: State, s': State, t: nat, j: nat, u: nat)
    requires Inv(c, s) && Rewrites(c, s, s', t, j) && u < |s.threads| && u != t
    ensures ThreadOk(c, s', u, s.threads[u].pc) && ResultsOk(c, s', u)
  {
    OtherResultsOk(c, s, s', t, j, u);
    OtherPcOk(c, s, s', t, j, u);
  }

  lemma OtherResultsOk(c: Config, s: State, s': State, t: nat, j: nat, u: nat)
    requires Inv(c, s) && Rewrites(c, s, s', t, j) && u < |s.threads| && u != t
    ensures ResultsOk(c, s', u)
  {
    forall i | 0 <= i < s.tail ensures s'.items[i] == s.items[i] { assert s'.items[..s.tail][i] == s'.items[i]; }
    Relies(c, s, u);
    Relies(c, s, t);
  }

  lemma OtherPcOk(c: Config, s: State, s': State, t: nat, j: nat, u: nat)
    requires Inv(c, s) && Rewrites(c, s, s', t, j) && u < |s.threads| && u != t
    ensures ThreadOk(c, s', u, s.threads[u].pc)
  {
    var pc := s.threads[u].pc;
    if Enqueuing(pc) { OtherEnqueuerOk(c, s, s', t, j, u); } else { OtherDequeuerOk(c, s, s', t, j, u); }
  }

  lemma OtherEnqueuerOk(c: Config, s: State, s': State, t: nat, j: nat, u: nat)
    requires Inv(c, s) && Rewrites(c, s, s', t, j) && u < |s.threads| && u != t && Enqueuing(s.threads[u].pc)
    ensures ThreadOk(c, s', u, s.threads[u].pc)
  {
    Relies(c, s, u);
    Relies(c, s, t);
    match s.threads[u].pc
    case EnqueueWait(_, k) => OtherTurns(c, s, s', t, j, k);
    case TryEnqueueClaim(_, k) => OtherTurns(c, s, s', t, j, k);
    case TryEnqueueReload(_, k, _) => OtherTurns(c, s, s', t, j, k);
    case _ =>
  }

  lemma OtherDequeuerOk(c: Config, s: State, s': State, t: nat, j: nat, u: nat)
    requires Inv(c, s) && Rewrites(c, s, s', t, j) && u < |s.threads| && u != t && !Enqueuing(s.threads[u].pc)
    ensures ThreadOk(c, s', u, s.threads[u].pc)
  {
    forall i | 0 <= i < s.tail ensures s'.items[i] == s.items[i] { assert s'.items[..s.tail][i] == s'.items[i]; }
    Relies(c, s, u);
    Relies(c, s, t);
    match s.threads[u].pc
    case DequeueWait(k) => OtherTurns(c, s, s', t, j, k);
    case TryDequeueClaim(k) => OtherTurns(c, s, s', t, j, k);
    case TryDequeueReload(k, _) => OtherTurns(c, s, s', t, j, k);
    case _ =>
  }

  /** After t's store, tickets not issued yet still have their turn ahead. */
  lemma TicketsStayOk(c: Config, s: State, s': State, t: nat, j: nat)
    requires Inv(c, s) && Rewrites(c, s, s', t, j)
    ensures TicketsOk(c, s')
  {
    Relies(c, s, t);
    forall k | k >= s'.tail ensures s'.slots[SlotOf(c, k)].stores <= 2 * Lap(c, k) {
      assert s.slots[SlotOf(c, k)].stores <= 2 * Lap(c, k);
      if SlotOf(c, k) == j && s'.slots[j].stores != s.slots[j].stores { SameSlot(c, Section(s.threads[t].pc).value, k); }
    }
    forall k | k >= s'.head ensures s'.slots[SlotOf(c, k)].stores <= 2 * Lap(c, k) + 1 {
      assert s.slots[SlotOf(c, k)].stores <= 2 * Lap(c, k) + 1;
      if SlotOf(c, k) == j && s'.slots[j].stores != s.slots[j].stores { SameSlot(c, Section(s.threads[t].pc).value, k); }
    }
  }

  /** The slots t is not in keep their occupants. */
  lemma OtherSlotOk(c: Config, s: State, s': State, t: nat, j: nat, k: nat)
    requires Inv(c, s) && Rewrites(c, s, s', t, j) && k < c.size && k != j
    requires Section(s.threads[t].pc).Some? ==> SlotOf(c, Section(s.threads[t].pc).value) == j
    ensures SlotOk(c, s', k)
  {
    assert SlotOk(c, s, k);
    FullSlotWasIssued(c, s, k);
    forall i | 0 <= i < s.tail ensures s'.items[i] == s.items[i] { assert s'.items[..s.tail][i] == s'.items[i]; }
  }

  lemma SlotStep(c: Config, s: State, s': State, t: nat, j: nat)
    requires Inv(c, s) && Rewrites(c, s, s', t, j) && TicketsFrom(s, s', t)
    requires Section(s.threads[t].pc).Some? ==> SlotOf(c, Section(s.threads[t].pc).value) == j
    requires SlotOk(c, s', j)
    requires ThreadOk(c, s', t, s'.threads[t].pc) == true && ResultsOk(c, s', t)
    ensures Inv(c, s')
  {
    TicketsStayDistinct(c, s, s', t);
    TicketsStayOk(c, s, s', t, j);
    forall k | 0 <= k < c.size ensures SlotOk(c, s', k) {
      if k != j { OtherSlotOk(c, s, s', t, j, k); }
    }
    forall u | 0 <= u < |s.threads| ensures ThreadOk(c, s', u, s'.threads[u].pc) && ResultsOk(c, s', u) {
      if u != t { OtherThreadOk(c, s, s', t, j, u); }
    }
  }

  // ---- Emplace and TryEmplace ----

  /** Seeing its turn (Emplace) or claiming the ticket it saw free (TryEmplace), t enters the slot. */
  lemma EnterEnqueue(c: Config, s: State, s': State, t: nat, x: Value, i: nat)
    requires Inv(c, s) && t < |s.threads| && Section(s.threads[t].pc) == None && i <= s.tail
    requires SlotAt(c, s, i).stores == 2 * Lap(c, i) && GenerationAfter(c, 2 * Lap(c, i)) == 2 * Number(c, i)
    requires i == s.tail || EnqueueTicketOf(s.threads[t].pc) == Some(i)
    requires i < s.tail ==> s'.items == s.items && s'.tail == s.tail && s.items[i] == x
    requires i == s.tail ==> s'.items == s.items + [x] && s'.tail == s.tail + 1
    requires s' == Jump(Occupy(c, s.(tail := s'.tail, items := s'.items), i, Some(t)), t, EnqueueConstruct(x, i))
    ensures Inv(c, s')
  {
    forall u | 0 <= u < |s.threads| && Section(s.threads[u].pc) == Some(i)
      ensures EnqueueTicketOf(s.threads[u].pc) != Some(i)
    {
      Relies(c, s, u);
    }
    NobodyInside(c, s, i, true);
    assert SlotOk(c, s, SlotOf(c, i));
    assert ResultsOk(c, s, t);
    SlotStep(c, s, s', t, SlotOf(c, i));
  }

  lemma EnqueueOk(c: Config, s: State, t: nat, spurious: bool)
    requires Inv(c, s) && t < |s.threads| && Enqueuing(s.threads[t].pc)
    ensures Inv(c, EnqueueStep(c, s, t, spurious))
  {
    var s' := EnqueueStep(c, s, t, spurious);
    Relies(c, s, t);
    match s.threads[t].pc
    case EnqueueTicket(x) =>
      assert s.slots[SlotOf(c, s.tail)].stores <= 2 * Lap(c, s.tail);
      LocalStep(c, s, s', t);
    case EnqueueWait(x, i) =>
      if SlotAt(c, s, i).generation == 2 * Number(c, i) {
        assert SlotOk(c, s, SlotOf(c, i));
        EnqueuersTurn(c, SlotAt(c, s, i).stores, Lap(c, i));
        EnterEnqueue(c, s, s', t, x, i);
      }
    case EnqueueConstruct(x, i) => assert SlotOk(c, s, SlotOf(c, i)); SlotStep(c, s, s', t, SlotOf(c, i));
    case EnqueueStore(x, i) => FinishEnqueue(c, s, t, x, i);
    case TryEnqueueLoad(x) => LocalStep(c, s, s', t);
    case TryEnqueueCheck(x, tail) => CheckEnqueue(c, s, t, x, tail);
    case TryEnqueueClaim(x, tail) =>
      if !spurious && s.tail == tail {
        EnterEnqueue(c, s, s', t, x, tail);
      } else {
        LocalStep(c, s, s', t);
      }
    case TryEnqueueReload(x, tail, _) => LocalStep(c, s, s', t);
  }

  /** The generation read tells whether the slot is free for ticket `tail`, as long as that is not taken. */
  lemma CheckEnqueue(c: Config, s: State, t: nat, x: Value, tail: nat)
    requires Inv(c, s) && t < |s.threads| && s.threads[t].pc == TryEnqueueCheck(x, tail)
    ensures Inv(c, EnqueueStep(c, s, t, false))
  {
    Relies(c, s, t);
    assert SlotOk(c, s, SlotOf(c, tail));
    if SlotAt(c, s, tail).generation == 2 * Number(c, tail) {
      EnqueuersTurn(c, SlotAt(c, s, tail).stores, Lap(c, tail));
    }
    LocalStep(c, s, EnqueueStep(c, s, t, false), t);
  }

  lemma FinishEnqueue(c: Config, s: State, t: nat, x: Value, i: nat)
    requires Inv(c, s) && t < |s.threads| && s.threads[t].pc == EnqueueStore(x, i)
    ensures Inv(c, EnqueueStep(c, s, t, false))
  {
    var s' := EnqueueStep(c, s, t, false);
    Relies(c, s, t);
    forall k | 0 <= k < |s.items| && SlotOf(c, k) == SlotOf(c, i) && Lap(c, k) == Lap(c, i)
      ensures k == i
    {
      SameSlot(c, k, i);
    }
    SlotStep(c, s, s', t, SlotOf(c, i));
  }

  // ---- Dequeue and TryDequeue ----

  lemma EnterDequeue(c: Config, s: State, s': State, t: nat, i: nat)
    requires Inv(c, s) && t < |s.threads| && Section(s.threads[t].pc) == None && i <= s.head
    requires SlotAt(c, s, i).stores == 2 * Lap(c, i) + 1
    requires i == s.head || DequeueTicketOf(s.threads[t].pc) == Some(i)
    requires s'.head == if i == s.head then s.head + 1 else s.head
    requires s' == Jump(Occupy(c, s.(head := s'.head), i, Some(t)), t, DequeueMove(i))
    ensures Inv(c, s')
  {
    forall u | 0 <= u < |s.threads| && Section(s.threads[u].pc) == Some(i)
      ensures DequeueTicketOf(s.threads[u].pc) != Some(i)
    {
      Relies(c, s, u);
    }
    NobodyInside(c, s, i, false);
    assert SlotOk(c, s, SlotOf(c, i));
    FullSlotWasIssued(c, s, SlotOf(c, i));
    assert ResultsOk(c, s, t);
    SlotStep(c, s, s', t, SlotOf(c, i));
  }

  lemma DequeueOk(c: Config, s: State, t: nat, spurious: bool)
    requires Inv(c, s) && t < |s.threads| && !Enqueuing(s.threads[t].pc) && !s.threads[t].pc.Idle? && !s.threads[t].pc.Fault?
    ensures Inv(c, DequeueStep(c, s, t, spurious))
  {
    var s' := DequeueStep(c, s, t, spurious);
    Relies(c, s, t);
    match s.threads[t].pc
    case DequeueTicket =>
      assert s.slots[SlotOf(c, s.head)].stores <= 2 * Lap(c, s.head) + 1;
      LocalStep(c, s, s', t);
    case DequeueWait(i) =>
      if SlotAt(c, s, i).generation == 2 * Number(c, i) + 1 {
        assert SlotOk(c, s, SlotOf(c, i));
        DequeuersTurn(c, SlotAt(c, s, i).stores, Lap(c, i));
        EnterDequeue(c, s, s', t, i);
      }
    case DequeueMove(i) => WorkDequeue(c, s, t, i);
    case DequeueDestroy(i, _) => WorkDequeue(c, s, t, i);
    case DequeueStore(i, x) => FinishDequeue(c, s, t, i, x);
    case TryDequeueLoad => LocalStep(c, s, s', t);
    case TryDequeueCheck(head) => CheckDequeue(c, s, t, head);
    case TryDequeueClaim(head) =>
      if !spurious && s.head == head {
        EnterDequeue(c, s, s', t, head);
      } else {
        LocalStep(c, s, s', t);
      }
    case TryDequeueReload(head, _) => LocalStep(c, s, s', t);
  }

  lemma WorkDequeue(c: Config, s: State, t: nat, i: nat)
    requires Inv(c, s) && t < |s.threads|
    requires var pc := s.threads[t].pc; (pc.DequeueMove? || pc.DequeueDestroy?) && pc.i == i
    ensures Inv(c, DequeueStep(c, s, t, false))
  {
    Relies(c, s, t);
    assert SlotOk(c, s, SlotOf(c, i));
    SlotStep(c, s, DequeueStep(c, s, t, false), t, SlotOf(c, i));
  }

  lemma CheckDequeue(c: Config, s: State, t: nat, head: nat)
    requires Inv(c, s) && t < |s.threads| && s.threads[t].pc == TryDequeueCheck(head)
    ensures Inv(c, DequeueStep(c, s, t, false))
  {
    Relies(c, s, t);
    assert SlotOk(c, s, SlotOf(c, head));
    DequeuersTurn(c, SlotAt(c, s, head).stores, Lap(c, head));
    LocalStep(c, s, DequeueStep(c, s, t, false), t);
  }

  lemma FinishDequeue(c: Config, s: State, t: nat, i: nat, x: Value)
    requires Inv(c, s) && t < |s.threads| && s.threads[t].pc == DequeueStore(i, x)
    ensures Inv(c, DequeueStep(c, s, t, false))
  {
    Relies(c, s, t);
    SlotStep(c, s, DequeueStep(c, s, t, false), t, SlotOf(c, i));
  }

  /** Every enabled step preserves the invariant, whatever the lap numbering. */
  lemma StepOk(c: Config, s: State, t: nat, act: Action)
    requires Inv(c, s) && Enabled(s, t, act)
    ensures Inv(c, Next(c, s, t, act))
  {
    if act.Go? {
      if Enqueuing(s.threads[t].pc) {
        EnqueueOk(c, s, t, act.spurious);
      } else {
        DequeueOk(c, s, t, act.spurious);
      }
    } else {
      assert ResultsOk(c, s, t);
      LocalStep(c, s, Next(c, s, t, act), t);
    }
  }

  lemma InitOk(c: Config, n: nat)
    requires Valid(c)
    ensures Inv(c, Init(c, n))
  {
  }
}
