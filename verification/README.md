# Lock-free data structures: a verified model

This project models the concurrent containers of the library as machines of
atomic steps and proves what they promise for every number of threads and
every interleaving. A step is one atomic operation (or one access to memory
that another thread may see); a *run* is any sequence of steps from the
initial state, chosen by any scheduler. Weak compare-exchanges may fail
spuriously at any time, and the allocator may hand out a freed address again.

For each machine there is an inductive invariant, a proof that every step of
every thread keeps it, and theorems about whole runs and about the states runs
reach. Every machine also records, as history, the calls made and the results
returned; the `*_calls` files prove that each effect and each result answers
the call it belongs to, with the argument that call was made with.

Beside each machine stands a class whose fields are updated in place. Since
calls of different threads interleave, a method of these classes performs one
step of a call, dispatching on where the thread is; the retry loops of the C++
functions are the repetition of such steps, and its contract says that the
step is exactly the machine's. `SharedPtrHeap` and the copying methods run to
completion and have the loops of their sources.

## The parts

**Split reference counts and the lock-free stack** (`packed_word`, `sums`,
`stack_*`). The packed 64-bit word, control blocks with their global counts,
`get`, `getFast`, `compareExchange`, `destroy`, `unref`, and `Push` and `Pop`
on top. A block may be installed, buried, uncovered again and installed anew,
so access units of different holders are exchangeable and the invariant is an
aggregate one: the two counters of a live block together equal the sum, over
all threads, of what they hold on it. The decisive strengthening is that the
word's count never exceeds the number of holders that are not yet *committed*
to a global release. From it follow conservation, safe reclamation, absence of
leaks, linearizability of the stack with respect to the calls made (each step
of each thread is a step of the sequential stack on behalf of the call the
thread is in), and that `compareExchange` behaves as one strong
compare-and-swap. A thread that runs alone finishes its Push or Pop in a bounded
number of its own steps, whatever the others have left behind.

**The MPMC queue** (`mpmc_*`). The shipped `GetGeneration` masks the ticket
without shifting it (queue/bounded_mp_mc_queue.h:268-270), so lap k waits for
generation 2 * B * k, while README.md:185-192 promises that each change of a
cell raises its generation by one. The model takes the numbering of the laps as
a parameter. Safety is proved for every numbering that starts at 0 and grows
from lap to lap, which covers both. For every numbering it is then proved
where it stops: an enqueuer gets past a lap boundary if and only if the lap
numbers there are consecutive. The shipped mask never has consecutive laps
(with two or more slots), so each slot is used once and then never again; a
concrete run shows an empty, idle queue reported as full. The 32 bits of
`Generation` play no part in this: as shipped, tickets never get further than
one lap and the number of threads. For the design
(laps counted 0, 1, 2, ...) the generations go up one by one and `Full` means
full. Tickets follow real time, so the queue is first-in first-out for calls
that do not overlap, and a Try operation that runs alone returns.

**Sequence locks** (`seqlock_*`, `atomic_memcpy`). Any number of threads store
and load, copying word by word and then byte by byte while others do the same.
Loads are snapshots, also with the 32-bit counter, as long as fewer than 2^31
stores complete during one load; a run with exactly 2^31 stores returns a torn
message, so the bound is exact. A load is never behind a store that had
finished when it began.

**The multicast queue** (`multicast_*`). One Writer that never waits and any
number of Readers over a ring of sequence-locked cells. In runs of any length
each reader gets exactly the messages written, in order, as long as each of its
loads spans fewer than 2^31 stores and it is itself fewer than 2^31 rounds
behind; both bounds are exact. The answer of `TryRead` is given in closed form,
with the exact condition under which the casts to int32_t compute it: both
counters lie between the same odd multiples of 2^31. Writer and Reader in step
reach the first pair of counters that do not, and there Read gives up on a
message nobody has written, and gets it at the next try. At any lag the answer is
0 if and only if the counters agree modulo 2^32, and the message brought is then
the awaited one if and only if the lag is below 2^31 rounds.

**The SPSC queue** (`spsc_*`). Producer and consumer act on stale copies of
each other's index. The ring refines a FIFO of at most B - 1 elements, and both
sides are wait-free.

**Destruction cascade** (`cascade*`). The re-entrant work list of `~SharedPtr`
against the textbook recursive release, over blocks with any number of pointer
fields. The releases commute, so the work list and the recursion agree on
every heap, and with exact counts on an acyclic heap the cascade frees exactly
the unreachable blocks.

**Ring arithmetic** (`ring_index`, `ring_arithmetic`). The masks, shifts, and
buffer sizes.

## Model

| member | source | states |
|---|---|---|
| PackedWord.IncFields | stack/atomic_shared_ptr/atomic_shared_ptr.h:15-16 | below 2^16 - 1 units, counting one more changes the 16-bit field only |
| PackedWord.IncCarries | stack/atomic_shared_ptr/atomic_shared_ptr.h:216-219 | `fetch_add(1)` disturbs the 48-bit address exactly when the field is full |
| StackSafety.StepOk | stack/atomic_shared_ptr/atomic_shared_ptr.h:229-352 | every step of every thread preserves the whole invariant: conservation, packed-word bound, list shape, legality of the log |
| StackTheorems.RunOk | stack/unbounded_lock_free_stack.h:50-86 | the invariant holds throughout every run in which no access unit is acquired while 1000 are outstanding |
| StackTheorems.FewThreadsSuffice | stack/atomic_shared_ptr/atomic_shared_ptr.h:164-177 | up to 500 threads never exceed that bound, whatever they do |
| StackTheorems.CountIsBounded | stack/atomic_shared_ptr/atomic_shared_ptr.h:216-219 | the local count is at most the number of uncommitted holders of the installed block, and these at most the outstanding units |
| StackTheorems.NoFault | stack/atomic_shared_ptr/atomic_shared_ptr.h:164-177 | no assertion of the code fails, the drain of more than 1000 units is never entered, no moved-from node is read |
| StackTheorems.ReplacedAtZero | stack/atomic_shared_ptr/atomic_shared_ptr.h:321-336 | the installed pointer changes only in the final exchange, from local count 0 to local count 0 |
| StackReclamation.Conservation | stack/atomic_shared_ptr/atomic_shared_ptr.h:147-177 | global plus local count of a live block equals owners + nodes pointing to it + installation + pending uninstall releases + uncommitted and committed access holders + speculative drain units |
| StackReclamation.TouchesLive | stack/atomic_shared_ptr/atomic_shared_ptr.h:229-352 | no step of any thread reads or writes a freed block |
| StackReclamation.FreedOnce | stack/atomic_shared_ptr/atomic_shared_ptr.h:99-108 | a block is freed only by the one thread that took its last reference, when nothing refers to it and it is not installed |
| StackReclamation.UnreferencedIsBeingFreed | stack/atomic_shared_ptr/atomic_shared_ptr.h:147-162 | a live block without references has a thread about to free it |
| StackReclamation.NothingLeaks | stack/atomic_shared_ptr/atomic_shared_ptr.h:343-352 | with no call in flight, a block is live if and only if prev_ leads to it from the installed block |
| StackLinearizability.LogIsLegal | stack/unbounded_lock_free_stack.h:50-86 | following prev_ from the installed block to the sentinel yields exactly what replaying the log on a sequential stack yields; thread by thread the log holds, in order, the effects of the calls made: Pushed(v) for Push(v), Took or SawEmpty for Pop |
| StackLinearizability.StepRefinesStack | stack/unbounded_lock_free_stack.h:50-86 | every step is invisible or the one effect of the call the thread is in: Push(v) puts its own v on top, Pop takes the top away or finds the stack empty |
| StackLinearizability.ListsOne | stack/unbounded_lock_free_stack.h:12-16 | memory represents at most one sequence |
| StackLinearizability.EffectInsideCall | stack/unbounded_lock_free_stack.h:50-86 | a step has at most one effect, in a call that had none before; a call returns exactly its one effect; only the start of a call changes the record of calls |
| StackCalls.StepCallsOk | stack/unbounded_lock_free_stack.h:50-68 | every step keeps each thread serving its call: the private node of a Push(v) holds v until it is published, results answer the calls |
| StackLinearizability.EmptyWhenSeen | stack/unbounded_lock_free_stack.h:71-82 | Pop reports an empty stack only if it was empty at its `getFast` increment |
| StackLinearizability.ElementsConserved | stack/unbounded_lock_free_stack.h:50-86 | in every legal log, values pushed = values popped + values still there, as multisets |
| StackLinearizability.PublishedIsStable | stack/unbounded_lock_free_stack.h:77-84 | ABA: `prev_` and data of a published node never change while it lives, and a popped node never becomes the head again |
| StackExchange.FailureIsJustified | stack/atomic_shared_ptr/atomic_shared_ptr.h:311-341 | for a failing compareExchange there is a state of the run, inside the call, in which the installed data was not the expected one |
| StackExchange.LossIsFlagged | stack/atomic_shared_ptr/atomic_shared_ptr.h:337-340 | every call about to return false is one the justification applies to |
| StackExchange.SuccessReplaces | stack/atomic_shared_ptr/atomic_shared_ptr.h:331-336 | a successful call replaced the expected data by the new one's, with exactly one logged effect |
| StackCompare.NewOneDiffers | stack/atomic_shared_ptr/atomic_shared_ptr.h:313-330 | neither the early return nor the assertion against replacing a block by itself can occur for Push and Pop |
| StackProgress.LoneCallReturns | stack/unbounded_lock_free_stack.h:50-86 | from every reachable state of up to 500 threads, a Push or Pop whose thread runs alone without spurious failures returns in fewer than 76 * (2 * blocks + 2) of its steps, deletion cascades included |
| StackObject.LockFreeStack.FetchAdd | stack/atomic_shared_ptr/atomic_shared_ptr.h:164-165 | the increment of the word, returning the value before |
| StackObject.LockFreeStack.CompareExchangeWeak | stack/atomic_shared_ptr/atomic_shared_ptr.h:243 | the weak exchange, with what `expected` holds afterwards |
| StackObject.LockFreeStack.Get | stack/atomic_shared_ptr/atomic_shared_ptr.h:229-265 | performs exactly the machine's steps of `get` and of the assignment to prev_ |
| StackObject.LockFreeStack.CompareExchange | stack/atomic_shared_ptr/atomic_shared_ptr.h:311-341 | performs exactly the machine's steps of compareExchange |
| StackObject.LockFreeStack.Destroy | stack/atomic_shared_ptr/atomic_shared_ptr.h:147-162 | performs exactly the machine's steps of `destroy` |
| StackObject.LockFreeStack.UnrefBlock | stack/atomic_shared_ptr/atomic_shared_ptr.h:99-108 | performs exactly the machine's steps of `unref` and of the deletion |
| StackObject.LockFreeStack.Pop | stack/unbounded_lock_free_stack.h:71-86 | performs exactly the machine's own steps of Pop |
| StackObject.LockFreeStack.Run | stack/unbounded_lock_free_stack.h:50-86 | any step of any thread on the object is a step of the machine, and keeps the invariant |
| MpmcSteps.StepOk | queue/bounded_mp_mc_queue.h:144-244 | every step preserves the invariant for every growing lap numbering, blocking and Try operations mixed |
| MpmcTheorems.RunOk | queue/bounded_mp_mc_queue.h:144-244 | so it holds in every run |
| MpmcTheorems.MutualExclusion | queue/bounded_mp_mc_queue.h:152-155 | no two threads are in the payload section of one slot |
| MpmcTheorems.StorageDiscipline | queue/bounded_mp_mc_queue.h:108-124 | Construct meets raw storage, Move a live object, Destroy a moved-from one |
| MpmcCalls.DequeueReturnsItsTicket | queue/bounded_mp_mc_queue.h:208-220 | the dequeuer of ticket i gets the element that the Emplace or TryEmplace call which returned with ticket i was called with |
| MpmcCalls.TicketHasItsElement | queue/bounded_mp_mc_queue.h:146-179 | every ticket issued belongs to one call of Emplace or TryEmplace, whose argument is the element recorded for the ticket |
| MpmcCalls.CallsAreAnswered | queue/bounded_mp_mc_queue.h:144-244 | every returned call has a result of its kind, an enqueue the one for its own element |
| MpmcCalls.TicketsFollowTime | queue/bounded_mp_mc_queue.h:146-244 | along every run, a call that begins after another of its kind has returned gets the higher ticket |
| MpmcCalls.FirstInFirstOut | queue/bounded_mp_mc_queue.h:146-244 | of two elements enqueued one after the other, the second is not delivered before the call that delivers the first has begun |
| MpmcProgress.LoneTryReturns | queue/bounded_mp_mc_queue.h:160-244 | from every reachable state, a TryEmplace or TryDequeue whose thread runs alone returns within nine of its steps |
| MpmcTheorems.DeliveredOnce | queue/bounded_mp_mc_queue.h:144-244 | over a whole run no ticket is enqueued twice and none is delivered twice |
| MpmcReplies.EmptyWasEmpty | queue/bounded_mp_mc_queue.h:224-244 | along every run, whichever step gives the reply: TryDequeue reports an empty queue only if at some moment inside the call the enqueue of the ticket at the head had not finished, and no call had returned with that ticket |
| MpmcReplies.FullWasFull | queue/bounded_mp_mc_queue.h:160-179 | along every run, whichever step gives the reply: TryEmplace reports a full queue only if at some moment inside the call the dequeue one lap before the ticket at the tail had not finished, or the numbering skips a number there |
| MpmcReplies.LoneTryDequeueReplies | queue/bounded_mp_mc_queue.h:224-244 | from every reachable state, a TryDequeue whose thread runs alone gets the element of the ticket at the head if its enqueue has finished, and reports an empty queue if not |
| MpmcReplies.LoneTryEmplaceReplies | queue/bounded_mp_mc_queue.h:160-179 | from every reachable state, a TryEmplace whose thread runs alone is refused if the slot at the tail is not vacated or the numbering has a gap there, and gets the ticket at the tail if not |
| MpmcReplies.EmplaceEntersIff | queue/bounded_mp_mc_queue.h:150-153 | Emplace's wait ends if and only if its slot is vacated and, past the first lap, the lap numbers are consecutive |
| MpmcReplies.DequeueEntersIff | queue/bounded_mp_mc_queue.h:212-215 | Dequeue's wait ends if and only if the enqueue of its ticket has finished |
| MpmcTheorems.ProceedsIffConsecutive | queue/bounded_mp_mc_queue.h:150-153 | once its slot is empty again, Emplace's wait ends if and only if the lap numbers are consecutive |
| MpmcTheorems.ClaimsIffConsecutive | queue/bounded_mp_mc_queue.h:164-167 | once its slot is empty again, TryEmplace goes on to claim its ticket if and only if the lap numbers are consecutive |
| MpmcTheorems.StallsAtGap | queue/bounded_mp_mc_queue.h:150-155 | in every reachable state, at a gap in the numbering, no step stores to a slot again |
| MpmcTheorems.StalledForever | queue/bounded_mp_mc_queue.h:146-179 | in every run: with a gap after lap k, no slot is ever stored to more than 2 * (k + 1) times |
| MpmcTheorems.MaskedIsShipped | queue/bounded_mp_mc_queue.h:263-270 | the two masks are the remainder and the lap times the ring size, before the truncation to `Generation` |
| MpmcCalls.MaskedTicketsAreFew | queue/bounded_mp_mc_queue.h:146-150 | as shipped, head_ and tail_ never exceed the ring size and the number of threads together |
| MpmcCalls.MaskedFitsGeneration | queue/bounded_mp_mc_queue.h:268-270 | as shipped, the truncation to 32 bits changes no generation that any ticket waits for or stores |
| MpmcTheorems.MaskedIsConsecutiveIff | queue/bounded_mp_mc_queue.h:268-270 | the shipped numbering is consecutive if and only if the ring has one slot |
| MpmcTheorems.MaskedAcceptsOneLap | queue/bounded_mp_mc_queue.h:146-179 | as shipped, in every run, only enqueues with tickets below B ever complete |
| MpmcCalls.MaskedAcceptsAtMostSize | queue/bounded_mp_mc_queue.h:146-179 | as shipped, at most B enqueues ever complete, over all threads and operations |
| MpmcTheorems.MaskedGenerations | queue/bounded_mp_mc_queue.h:268-270 | as shipped, in every run no slot's generation exceeds 2 |
| MpmcTheorems.MaskedRejectsWhenEmpty | queue/bounded_mp_mc_queue.h:160-179 | as shipped, a run after which the queue is empty and idle and TryEmplace reports it full |
| MpmcTheorems.CountedGenerations | README.md:185-192 | with laps counted, a slot's generation is its number of changes, and it is odd if and only if the slot (with nobody inside) holds an element |
| MpmcReplies.CountedFullWasFull | README.md:185-192 | with laps counted, along every run, TryEmplace reports a full queue only if at some moment inside the call the element one lap before had not been dequeued |
| MpmcObject.BoundedMPMCQueue.Emplace | queue/bounded_mp_mc_queue.h:144-179 | performs exactly the machine's steps of Emplace and TryEmplace |
| MpmcObject.BoundedMPMCQueue.Dequeue | queue/bounded_mp_mc_queue.h:206-244 | performs exactly the machine's steps of Dequeue and TryDequeue |
| MpmcObject.BoundedMPMCQueue.Run | queue/bounded_mp_mc_queue.h:144-244 | any step on the object is a step of the machine, and keeps the invariant |
| SeqLockProof.StepOk | lock/seq_lock.h:73-131 | every step of every loader and storer preserves the invariant |
| SeqLockTheorems.OneOwner | lock/seq_lock.h:106-127 | at most one thread is between Lock and Unlock; `seq_` is its seq + 1, so the blind store of seq + 2 counts on by one |
| SeqLockTheorems.LockedIffOwned | lock/seq_lock.h:129-131 | the counter is odd if and only if some thread holds the lock |
| SeqLockTheorems.StoreTakesEffect | lock/seq_lock.h:95-103 | a store takes effect as a whole at its Unlock, when the cell holds exactly its message |
| SeqLockTheorems.LoadIsSnapshot | lock/seq_lock.h:75-92 | a load during which fewer than 2^31 stores completed returns bytes and size of one stored message, the one numbered seq / 2 |
| SeqLockTheorems.LoadIsCurrent | queue/bounded_multicast_queue.h:227-243 | and that message is the content of the cell at the moment of validation |
| SeqLockCalls.StoreHasItsCall | lock/seq_lock.h:95-103 | every message in a cell but the initial one is the argument of a returned Store on that cell |
| SeqLockCalls.CallsAreAnswered | lock/seq_lock.h:73-103 | every returned call has a result of its kind, for its cell and, if a Store, its message |
| SeqLockCalls.LoadIsFresh | lock/seq_lock.h:75-92 | along every run, a load is never behind what was in the cell when it began |
| SeqLockTheorems.ValidatesIff | lock/seq_lock.h:87-89 | validation succeeds if and only if the first reading was unlocked and the count has moved by a multiple of 2^32 |
| SeqLockWrap.WrapTears | lock/seq_lock.h:75-92 | a run with exactly 2^31 stores during one load returns bytes that were never stored |
| AtomicMemcpy.Memcpy | utils/atomic_memcpy.h:26-40 | all count bytes arrive, nothing else changes, and the accesses made are, in order, the machine's chunks |
| AtomicMemcpy.CopyUnits | utils/atomic_memcpy.h:43-60 | one loop of the copy: the units from..to arrive, in order, each by one access |
| AtomicMemcpy.ChunksAreAccesses | utils/atomic_memcpy.h:26-32 | the machine's copying steps are exactly the accesses of the two loops |
| AtomicMemcpy.CopyLength | utils/atomic_memcpy.h:26-32 | a copy takes one access for every word and every remaining byte |
| SeqLockObject.SeqLockBuffer.Lock | lock/seq_lock.h:110-123 | performs exactly the machine's steps of Lock |
| SeqLockObject.SeqLockBuffer.Unlock | lock/seq_lock.h:125-127 | performs exactly the machine's Unlock |
| SeqLockObject.SeqLockBuffer.Store | queue/bounded_multicast_queue.h:245-255 | performs exactly the machine's steps of a store |
| SeqLockObject.SeqLockBuffer.Load | queue/bounded_multicast_queue.h:227-243 | performs exactly the machine's steps of a load |
| SeqLockObject.SeqLockBuffer.Run | lock/seq_lock.h:73-131 | any step on the object is a step of the machine, and keeps the invariant |
| MulticastProof.FiledAt | queue/bounded_multicast_queue.h:280-283 | message k is store number k / B + 1 of cell k mod B |
| MulticastProof.CountGap | queue/bounded_multicast_queue.h:371-375 | closed form of how often the cell of message k has been stored once w messages are written |
| MulticastProof.AnswerIsLatenessIff | queue/bounded_multicast_queue.h:330-334 | what TryRead computes from an undisturbed load, at any lag: the closed form if and only if both counters lie between the same odd multiples of 2^31; 0 if and only if they agree modulo 2^32, and the closed form is then 0 if and only if the lag is below 2^31 rounds |
| MulticastSteps.IndexesAdvance | queue/bounded_multicast_queue.h:371-389 | UpdateIndexes takes a reader in step with message k to message k + 1, through the end of the ring as well |
| MulticastSteps.QueueStepOk | queue/bounded_multicast_queue.h:280-389 | every step of the Writer and of every Reader preserves the queue's invariant, however far the counters have got |
| MulticastTheorems.DeliversPrefix | queue/bounded_multicast_queue.h:330-375 | in runs of any length, the k messages a reader has read are exactly the first k written; head_ = k mod B and expected_seq_ = 2 * (k / B + 1) |
| MulticastCalls.ReceivesWhatWasWritten | queue/bounded_multicast_queue.h:280-359 | the k-th message a reader receives is the argument of the Writer's k-th Write |
| MulticastCalls.ReadersAreAnswered | queue/bounded_multicast_queue.h:330-359 | every call of a reader has one answer, and Read's is never negative |
| MulticastTheorems.ReadAnswers | queue/bounded_multicast_queue.h:330-359 | the answer of TryRead to a load in time, on a reachable queue: the closed form if and only if the casts are exact, 0 if and only if the closed form is 0, with the message then delivered and what Read does with each answer |
| MulticastTheorems.AnswersAtAnyLag | queue/bounded_multicast_queue.h:330-359 | the same however far the reader is behind: 0 if and only if the counters agree modulo 2^32, and then the message delivered is the newest of its cell, which is the awaited one if and only if the lag is below 2^31 rounds; on a message not yet written positive if and only if the expected counter is 2^31 modulo 2^32 |
| MulticastTheorems.AnswerMeans | queue/bounded_multicast_queue.h:133-135 | negative (namely -2) if and only if not written yet, 0 if and only if in place, positive if and only if overwritten |
| MulticastTheorems.ZeroIffInPlace | queue/bounded_multicast_queue.h:133-135 | 0 if and only if message k is the last one its cell has stored |
| MulticastTheorems.LateForever | queue/bounded_multicast_queue.h:346-359 | along every run the closed form for one message never falls |
| MulticastTheorems.LateAnswers | queue/bounded_multicast_queue.h:133-135 | once a reader has answered that it is late for a message that is written, no later answer before UpdateIndexes is 0; while the casts are exact none is smaller |
| MulticastTheorems.FewRoundsAreTimely | queue/bounded_multicast_queue.h:330-334 | during the first 2^31 - 1 rounds of messages no load is too late, and during the first 2^30 - 1 the casts are exact |
| MulticastTheorems.WriterNeverWaits | queue/bounded_multicast_queue.h:280-283 | every step of the Writer brings Write nearer to its end, and no step of a Reader takes it further away |
| MulticastTheorems.AdvanceReads | queue/bounded_multicast_queue.h:148-149 | UpdateIndexes after an answer 0 counts message k as read and waits for message k + 1 |
| MulticastWrap.ReadGivesUpEarly | queue/bounded_multicast_queue.h:330-359 | a run of 2^30 - 1 full rounds, Writer and Reader in step, after which Read reports late for a message not written |
| MulticastWrap.LateThenRead | queue/bounded_multicast_queue.h:346-359 | its continuation: the message is written, and the same reader, told late before, is answered 0 with no UpdateIndexes in between |
| MulticastWrap.LagMisdelivers | queue/bounded_multicast_queue.h:330-359 | a run in which a reader exactly 2^31 rounds behind is delivered the wrong message |
| MulticastObject.QueueReader.UpdateIndexes | queue/bounded_multicast_queue.h:370-375 | the in-place update of head_ and expected_seq_, and what it means for a reader in step |
| MulticastObject.QueueReader.Conclude | queue/bounded_multicast_queue.h:329-359 | what TryRead and Read do with a validated load |
| MulticastObject.BoundedMulticastQueue.Write | queue/bounded_multicast_queue.h:280-283 | performs exactly the machine's steps of Write |
| MulticastObject.BoundedMulticastQueue.Run | queue/bounded_multicast_queue.h:280-375 | any step on the objects is a step of the machine, and keeps the invariant |
| SpscProof.StepOk | queue/bounded_sp_sc_queue.h:73-156 | every step of producer and consumer preserves the invariant |
| SpscTheorems.RefinesFifo | queue/bounded_sp_sc_queue.h:86-156 | in every reachable state, every step is an enqueue on, a dequeue from, or invisible to a FIFO of at most B - 1 elements, and Dequeue returns its first element |
| SpscTheorems.DequeuedIsPrefix | queue/bounded_sp_sc_queue.h:86-156 | in every run, the values dequeued are a prefix of those enqueued |
| SpscTheorems.ProducerReplies | queue/bounded_sp_sc_queue.h:86-103 | whichever step gives the reply: Emplace is refused only on a full queue and accepted by appending one element; GetSize and IsEmptyProducer asked by the producer are exact |
| SpscTheorems.FullIff | queue/bounded_sp_sc_queue.h:92-97 | when it reloads the head, Emplace refuses if the queue is full and goes on if not |
| SpscTheorems.ConsumerReplies | queue/bounded_sp_sc_queue.h:73-156 | whichever step gives the reply: Front and Dequeue find nothing only in an empty queue; the pointer from Front shows the oldest element; a successful Dequeue removes the oldest element and returns it if asked to |
| SpscTheorems.EmptyIff | queue/bounded_sp_sc_queue.h:121-126 | when they reload the tail, Front and Dequeue report empty if and only if the queue is empty |
| SpscTheorems.StaleIsConservative | queue/bounded_sp_sc_queue.h:61-67 | the cached indexes only ever err towards full and towards empty |
| SpscTheorems.NoRace | queue/bounded_sp_sc_queue.h:99-100 | the producer never writes a slot the consumer reads, holds a pointer to, or has not yet consumed |
| SpscTheorems.FrontIsOldest | queue/bounded_sp_sc_queue.h:73-84 | the pointer from Front shows the oldest element until the next Dequeue, whatever the producer does |
| SpscTheorems.RoomForCapacity | queue/bounded_sp_sc_queue.h:183-196 | a ring sized for Capacity gives no refusal, by whatever step, with fewer than Capacity + 1 elements in it |
| SpscTheorems.WaitFree | queue/bounded_sp_sc_queue.h:73-175 | every step of a side brings its call nearer to its return, at most four steps away, whatever the other side does |
| SpscStorage.StorageDiscipline | queue/bounded_sp_sc_queue.h:99 | the placement new meets unused storage in the first round, and afterwards the object of the element one round before, long dequeued, moved from or not, never destroyed |
| SpscTheorems.QuiescentSize | queue/bounded_sp_sc_queue.h:168-175 | GetSize is the length of the FIFO when nobody moves |
| SpscTheorems.ProducerSizeIsExact | queue/bounded_sp_sc_queue.h:163-175 | called by the producer, GetSize and IsEmptyProducer are exact when they load the head |
| SpscTheorems.ConsumerSizeIsExact | queue/bounded_sp_sc_queue.h:168-175 | whatever GetSize replies to the consumer is the length of the queue at some moment inside the call |
| SpscCalls.CallsAreAnswered | queue/bounded_sp_sc_queue.h:86-156 | every call has a reply of its kind; the elements of the accepted Emplace calls, in order, are what the successful Dequeue calls get, in order |
| SpscObject.BoundedSPSCQueue.Produce | queue/bounded_sp_sc_queue.h:86-103 | performs exactly the machine's steps of the producer |
| SpscObject.BoundedSPSCQueue.Consume | queue/bounded_sp_sc_queue.h:73-156 | performs exactly the machine's steps of the consumer |
| SpscObject.BoundedSPSCQueue.SizeFrom | queue/bounded_sp_sc_queue.h:168-175 | the corrected signed difference is the distance of the positions |
| SpscObject.BoundedSPSCQueue.Run | queue/bounded_sp_sc_queue.h:73-175 | any step on the object is a step of the machine, and keeps the invariant |
| CascadeConfluence.Reorder | stack/atomic_shared_ptr/atomic_shared_ptr.h:80-88 | the outcome of draining depends only on which references are queued, not on their order |
| CascadeConfluence.Pick | stack/atomic_shared_ptr/atomic_shared_ptr.h:83-87 | any queued reference may be released first |
| CascadeConfluence.WorklistIsRecursion | stack/atomic_shared_ptr/atomic_shared_ptr.h:76-108 | on every heap, the work list frees the same blocks, leaves the same counts and fails in the same cases as recursive release |
| CascadeBalance.DrainBalanced | stack/atomic_shared_ptr/atomic_shared_ptr.h:99-108 | with exact counts the cascade cannot fail, and leaves exact counts |
| CascadeBalance.FreesOnce | stack/atomic_shared_ptr/atomic_shared_ptr.h:103-106 | each block that goes is deleted exactly once, and no other is deleted |
| CascadeBalance.SurvivesIffReachable | stack/atomic_shared_ptr/atomic_shared_ptr.h:76-108 | on an acyclic heap with exact counts, a block is there afterwards if and only if it was reachable from an owner |
| CascadeObject.SharedPtrHeap.Destruct | stack/atomic_shared_ptr/atomic_shared_ptr.h:76-90 | the re-entrant destructor only queues while draining, and otherwise does what recursion would; it terminates |
| CascadeObject.SharedPtrHeap.DrainQueue | stack/atomic_shared_ptr/atomic_shared_ptr.h:83-87 | the loop, with its measure: live blocks, their fields, and the queue |
| CascadeObject.SharedPtrHeap.UnrefQueued | stack/atomic_shared_ptr/atomic_shared_ptr.h:99-108 | `unref` from the loop: the fields of a deleted block are queued |
| CascadeObject.SharedPtrHeap.UnrefAssigned | stack/atomic_shared_ptr/atomic_shared_ptr.h:66-74 | `unref` from an assignment, where each field drains on its own, has the same outcome |
| RingArithmetic.BufferSizeIsLeast | queue/bounded_sp_sc_queue.h:183-196 | GetBufferSize is the least power of two strictly above max(Capacity + 1, 4), and B - 1 is at least Capacity + 1 |
| RingArithmetic.ShiftFitsIff | queue/bounded_mp_mc_queue.h:279-281 | the int shift does not overflow if and only if max(Capacity + 1, 4) is below 2^30 |
| RingArithmetic.MaskIsMod | queue/bounded_mp_mc_queue.h:288-290 | `i & (B - 1)` is i mod B |
| RingArithmetic.NotMaskIsFloor | queue/bounded_mp_mc_queue.h:293-295 | `i & ~(B - 1)` is i - i mod B |
| RingArithmetic.ShiftIsDiv | queue/bounded_multicast_queue.h:386-389 | the right shift by the trailing zeros of the size divides by it |
| RingArithmetic.CeilIsLeast | queue/bounded_multicast_queue.h:392-397 | the multicast ring has the least power of two not below MessagesCount |

## Left out

- Weak memory: steps interleave sequentially consistently. The memory orders and fences the code chooses are not judged.
- The drain of more than 1000 units (stack/atomic_shared_ptr/atomic_shared_ptr.h:168-176): in the model entering it is a fault, proved unreachable under the stated bound. The branch does not conserve units (it forgets the unit it has just migrated), so nothing is claimed through it.
- Faults: a failed assertion, the early return, retiring a last reference in `destroyOldControlBlock` and reading a moved-from node end the thread in a fault state, proved unreachable; what the code would do there is not modelled.
- Progress of a thread among others: every lone thread gets through, but no fairness or throughput is claimed, and Emplace and Dequeue of the MPMC queue wait by design.
- Global reference counts are unbounded integers; with at most 1000 units and the threads' own references they stay small.
- compareExchange is modelled as Push and Pop call it; other callers, `store`, `IsEmpty` of the stack (which does not compile as const) and `~AtomicSharedPtr` are not part of the model.
- In the stack machine Pop reads `prev_` and increments the successor's count in one step, which nobody can tell apart since `prev_` of a published node never changes. A node and its control block are freed in one step, before the cascade to `prev_`; the cascade over any number of fields is the subject of its own part, for one thread.
- MPMC tickets are natural numbers. As shipped they stay small (MaskedTicketsAreFew); for the design, whose laps would go on, the wrap-around of `Generation` after 2^31 laps is not modelled. Concurrent `GetSize` and `IsEmpty` of the MPMC queue are two unrelated loads and promise nothing.
- MpmcTheorems.MaskedIsShipped: states the masks before the truncation to 32 bits; MaskedFitsGeneration shows that the truncation loses nothing.
- MpmcReplies.FullWasFull: for an arbitrary numbering it admits the skipped number as a second reason; CountedFullWasFull has the promised statement for the design, and the shipped code does not meet it (MaskedRejectsWhenEmpty).
- SeqLockAtomic is the case of one cell and messages of one size; its store has no size to set, a step the model takes without effect.
- Messages are copied as single atomic accesses of a word or a byte; the message buffer the reader copies into is its own and not shared.
- MulticastTheorems.DeliversPrefix: for runs in which each load spans fewer than 2^31 stores and each reader is fewer than 2^31 rounds behind when it validates; past either bound the code accepts a wrong message (WrapTears, LagMisdelivers).
- The difference in TryRead is an unbounded integer in the model. Where the casts are not exact it can exceed int, which is undefined behaviour in the source; ReadGivesUpEarly shows the first such pair of counters.
- The multicast Writer and Readers start on a fresh queue; copying, moving and swapping them is not modelled. UpdateIndexes is called by the user of TryRead exactly after an answer 0, as queue/bounded_multicast_queue.h:148 demands.
- `GetSize` of the SPSC queue called by a third thread; `GetCapacity`, which returns B although only B - 1 elements fit.
- Element types are abstract values: constructors that throw, perfect forwarding and type traits are not modelled.
- queue/batched_bounded_sp_sc_queue.h: an unfinished batched variant of the SPSC queue.
- stack/tmp/unbounded_lock_free_stack.h: a stub whose Push is empty.
- lock/spin_lock.h and stack/unbounded_locked_stack.h: a one-bit mutex and a std::stack behind it.
- Benchmarks, huge pages, padding and thread pinning.
