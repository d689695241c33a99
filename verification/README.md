# Horus and Shinjuku: verified models

This project models the parts of the Horus/Shinjuku repository that decide whether requests, timers, bytes and
buffers survive, and proves what those parts promise.

- **Hash set of the client** (`ProbeTable`, `Relayout`, `SimpleSets`, `SetAlgebra`): the open-addressed set with its
  in-place re-layout, growth, removal and set operations.
- **Scheduling protocol** (`Scheduler`, `SchedulerInvariant`, `SchedulerLoad`, `SchedulerIdle`, `SchedulerTheorems`,
  `SchedulerReplies`, `SchedulerSince`, `SchedulerWide`, `SchedulerOrder`, `SchedulerRoutes`, `SchedulerRounds`,
  `SchedulerCounters`): networker, dispatcher and any number of workers as one transition system whose steps are single
  accesses to shared memory, in the Horus variant (tasks counted, a queue for each worker) and the track_us variant
  (microseconds counted, shared queues).
- **Timing wheel** (`WheelMath`, `WheelProofs`, `WheelEarly`, `WheelOrder`, `TimerWheels`): three wheels of 256 buckets,
  with cascading.
- **ixev send path** (`SendQueue`, `SendState`, `Ixev`, `SendRuns`, `SendOrder`, `SendCallbacks`, `SendShared`,
  `SendConserved`): scatter/gather entries, copy buffers, the reference list and the cached buffer, for one context and
  for many over one pool.
- **pbuf chains** (`PbufChains`, `PbufRefs`, `PbufEdits`, `PbufRealloc`, `PbufShared`, `PbufCopy`, `Pbufs`):
  reference accounts, total lengths and contents of linked buffers over an explicit memory, so that sharing is part of
  the model.
- **Internet checksum** (`OnesComplement`, `Checksum`, `ChainChecksum`): the three implementations, chains and pseudo
  headers, against section 1 of RFC 1071.
- **Memory pools** (`Mempools`, `MempoolLedger`, `MempoolPlan`, `MempoolInit`, `MempoolShort`, `MempoolRuns`): pools
  with private chunks over one datastore, with the links inside the free elements, the creation of a datastore with its
  sizes in ints, and the bookkeeping of a pool over whole runs; the libix and the dp/core version.
- **Linked queues** (`TaskQueues`): task queues, the queue of finished requests, and the choice of a queue by waiting
  time or by the worker a packet names.
- **Reassembly** (`Reassembly`): requests of several packets on their doubly linked list.
- **IPv4 text form** (`Ip4`): parser, printer and netmask test.

Where the source updates fields in place the model is a class; each of its methods is proved against a function of
the old state, and the promises are proved about those functions, over single steps and over whole runs.

Places where the code does less than its documentation says, or than a caller would expect, are kept. The members named
say exactly when that happens, and some of them are inputs or runs that show it:

- `set_remove` can leave another key unfindable: `RemoveExactly`, `UnsafeRemovalExample`.
- `set_is_subset` answers TRUE when the other set is completely full: `IsSubset`. `SET_CIRCULAR_ERROR`, which the
  header says should never occur, is the answer of `set_contains` on a full set, which only a set created with one slot
  can be: `Contains`.
- The set operations copy the operands' hashes: with another hash function the result may not find its own keys
  (`ForeignKeyLost`), and what holds for any operands holds for the stored nodes (`Union` and the others).
- `set_union` and the others answer TRUE when the allocator has refused, and nodes are missing: `Union`.
- `ixev_tcp_sent` stops at the first reference that is not due, and appending to the cached buffer moves its position
  past callbacks behind it, so that a callback may run late: `EventOrder`, `OrderOverRun`, `LateCallback`.
- `new_qlen` in the reply is 16 bits wide, so that a worker with 65536 other requests says it is idle:
  `IdleMeansAloneExactly`, `IdleDespiteWork`.
- The default hash mixes in the low byte of a key only: `DefaultHashCollides`.
- `timer_init_cpu` does not align `timer_pos`: `StartAlignedExactly`. Timers of 2^20 us and more can run early:
  `PassEarlyExactly` for a pass, `NeverEarlyExactly` for a run, `Wheel2CanBeEarly` for a run that does it. `timer_add`
  checks the delay against the real clock, the bucket is chosen from the cached time: `AddInRange`.
- The comment on checksum version 2 promises lengths up to 0x20000; it is right up to 0x20002: `V2ExactRange`.
- `pbuf_dechain` can return a freed buffer, its count of freed buffers being 8 bits wide: `DechainResultExact`,
  `DechainDangles`. `pbuf_cat`, `pbuf_dechain` and `pbuf_realloc` leave wrong totals in buffers that share the chain:
  `CatTotals`, `DechainTotals`, `ReallocTotals`, and for one such chain `CatShared`, `DechainShared`, `ReallocShared`.
  `pbuf_ref` can wrap: `RefCounts`.
- `pbuf_take` answers ERR_OK for NULL and stores nothing: `Take`. `pbuf_copy`, and with it the assertion of
  `pbuf_coalesce`, fails for most chains that end in an empty buffer: `CopyExact`.
- `mempool_alloc_2` does not count the list it fetches in `num_free`, in libix and in dp/core, so that retired chunks
  are longer than the chunk size: `RetiredExactly`, `LongRetiredList`. `mempool_free_2` of libix does not reset
  `num_free` either, so that every later chunk is shorter than it should be, down to one element: `RetireDrift`,
  `RetiredAgain`, `OneElementRun`.
- `mempool_create_datastore` multiplies page counts by the size of a page as ints: from 1024 pages on the elements are
  not those meant (`LayoutExactly`, `NoCoincidence`), down to none at all (`NothingLinked`). It accepts elements that
  are shorter than their header: `HeadersExactly`.
- `rq_update` counts packets, not their numbers: `Reassembled`, `Duplicated`. A request of one part goes to slot 0,
  whatever number it has: `OnePart`. In the Horus version a packet for an unknown worker is given core 255: `CoreFor`.
- `ipaddr_aton` does not check the parts before the last: `ConcoctExactly`.

Where the source guards against a wrong argument with `LWIP_ERROR`, the model follows the return that is written
there. As the tree is configured (`LWIP_NOASSERT` in `server_code/shinjuku-rocksdb/inc/lwip/lwipopts.h:71`, without
`LWIP_UNIX_EMPTY_ASSERT` for `inc/lwip/arch/cc.h:108-112`) that guard first calls `LWIP_PLATFORM_ASSERT`, which aborts;
`LWIP_ASSERT` checks nothing.

## Model

| member | source | states |
|---|---|---|
| ProbeTable.ProbeDecides | client_code/client/set.c:235-289 | On a table with every node on a hole-free probe path, `__get_index` answers membership: found exactly for a key that is stored under the hash asked for, CIRCULAR exactly for one that is not, in a completely full table |
| Relayout.GrowKeepsAll | client_code/client/set.c:246-260 | After doubling and one `__relayout_nodes` pass over 0..2n-1, every node is on a hole-free path again and none is lost or doubled. It holds for any load, any hashes and n >= 1, also when clusters wrapped past the old end, so the load bound n/4+1 is not needed |
| Relayout.RemoveExactly | client_code/client/set.c:77-89 | The removal pass takes out exactly the node, and the other nodes are all still found if and only if `RemovalSafe`, a test on the table before the removal; for every table that is not full, and the full ones of one and two slots, which are all that can be full |
| Relayout.HoleAfterIsSafe | client_code/client/set.c:303-316 | An empty slot between the removed index and the end of the array makes the removal safe |
| Relayout.UnsafeRemovalExample | client_code/client/set.c:303-316 | A concrete table of four slots where a removal makes another key unfindable, since the pass does not go round the end |
| SimpleSets.DefaultHashCollides | client_code/client/set.c:225-233 | Two keys get the same default hash exactly when their low bytes agree: the loop xors one byte only |
| SimpleSets.DefaultHashValues | client_code/client/set.c:225-233 | Two published FNV-1a values |
| SimpleSets.SimpleSet.InitAlt | client_code/client/set.c:32-45 | A new set is empty; it is well formed from one slot on (with none the source divides by zero), and with two slots or more within the load bound that adding keeps |
| SimpleSets.SimpleSet.GetIndex | client_code/client/set.c:271-289 | The probe loop over the array is the probe function that `ProbeDecides` is about |
| SimpleSets.SimpleSet.Contains | client_code/client/set.c:72-75 | TRUE exactly for a key stored under the hash the set gives it, hence exactly for members where all hashes are the set's own; SET_CIRCULAR_ERROR exactly for any other key of a completely full set |
| SimpleSets.SimpleSet.RelayoutNodes | client_code/client/set.c:303-316 | The in-place loop is the pass that `GrowKeepsAll` and `RemoveExactly` are about, for both values of end_on_null |
| SimpleSets.SimpleSet.AddHashed | client_code/client/set.c:240-269 | Adding inserts exactly the node, whatever the hash, keeps every other, reports ALREADY_PRESENT exactly for one that is there, MALLOC_ERROR exactly when the grown array is refused, and never SET_CIRCULAR_ERROR; a failed add changes nothing, and only sets of one or two slots ever fill up |
| SimpleSets.SimpleSet.Add | client_code/client/set.c:67-70 | The same for the public call; the load stays at or below n/4+1 over any run of adds |
| SimpleSets.SimpleSet.Remove | client_code/client/set.c:77-89 | TRUE exactly for members, which alone leave the set, FALSE and SET_CIRCULAR_ERROR as for a lookup; the set stays well formed if and only if the removal was safe |
| SetAlgebra.UsedNodesIsCardinality | client_code/client/set.c:91-93 | `used_nodes`, the set's length, is the number of nodes; where all hashes are the set's own, the number of keys |
| SetAlgebra.Union | client_code/client/set.c:108-125 | The nodes of the result are the union of the operands' nodes, for any hash functions, also when an operand is the result set itself; when the allocator refuses to let the result grow nodes may be missing, and the answer is TRUE all the same. With one hash function the keys of the result are the union of the keys, and it finds them all if it has that function too. An occupied result set is refused and unchanged |
| SetAlgebra.Intersection | client_code/client/set.c:127-142 | The same for the intersection |
| SetAlgebra.Difference | client_code/client/set.c:144-158 | The same for the difference |
| SetAlgebra.SymmetricDifference | client_code/client/set.c:160-182 | The same for the symmetric difference |
| SetAlgebra.ForeignKeyLost | client_code/client/set.c:108-125 | Operands with another hash function than the result: after the union the result holds a key that `set_contains` does not find |
| SetAlgebra.IsSubset | client_code/client/set.c:184-194 | TRUE exactly when all nodes are in the other set, which for one hash function is exactly when all keys are; and also, wrongly, whenever the other set is completely full (its probe answers CIRCULAR, which the loop does not take for FALSE) |
| SetAlgebra.IsSubsetStrict | client_code/client/set.c:196-201 | TRUE exactly for proper subsets of a set that is not full, and of a full one for every smaller set |
| SetAlgebra.Compare | client_code/client/set.c:203-219 | Greater or less by size; equal exactly when the sizes are equal and the right set finds every key of the left one under its own hash, hence, where both have true hashes, exactly for equal key sets |
| SetAlgebra.ToArray | client_code/client/set.c:95-106 | The array holds the keys, as many as there are nodes, and a zero at the end; where all hashes are the set's own, each key once |
| SchedulerTheorems.ExactlyOnePlace | server_code/shinjuku-rocksdb/dp/core/dispatcher.c:52-193 | In every reachable state, in both variants, a request is live exactly when a structure holds it, and then exactly one place does: batch, one queue, the dispatcher's hand, one worker slot, finished queue or return batch |
| SchedulerTheorems.OnceInQueue | server_code/shinjuku/track_us/dispatch.h:179-240 | No task queue holds a request twice |
| SchedulerTheorems.ExactAccounting | server_code/shinjuku/track_us/dispatcher.c:52-159 | `queue_length` is the work queued, in hand and in flight: exactly the number of tasks in Horus, the sum of `us` modulo 2^32 in track_us |
| SchedulerTheorems.RequestPath | server_code/shinjuku-rocksdb/dp/core/networker.c:158-187 | Any step of any run moves a request only along batch, queue, hand, slot, finished queue, return batch, freed; a preempted one goes from slot back to queue |
| SchedulerRoutes.ServedWhereItArrived | server_code/shinjuku-rocksdb/dp/core/dispatcher.c:160-183 | From its arrival until it is freed, over any run and however often it is preempted, a request is queued only in the queue of the core it arrived for, and runs only as that queue's; in Horus only on that worker |
| SchedulerOrder.RequestsInOrder | server_code/shinjuku-rocksdb/dp/core/dispatcher.c:160-183 | Over any run, new requests are taken out of a queue in the order in which they were put in, whatever is preempted in between and wherever preempted tasks go: those taken out followed by those queued are those queued before followed by those that came |
| SchedulerOrder.DispatchedInOrder | server_code/shinjuku/track_us/dispatcher.c:76-80 | Over any run, a queue whose setting is false is first in, first out for all tasks, new and preempted |
| SchedulerOrder.PreemptedNext | server_code/shinjuku/track_us/dispatcher.c:76-80 | A preempted task of a queue whose setting is true is the next one taken from there, unless another one is preempted first; all that were there follow, then those that came since |
| SchedulerOrder.PreemptedLast | server_code/shinjuku/track_us/dispatcher.c:76-80 | A preempted task of any other queue comes after all that were there and before all that come later |
| SchedulerRounds.RoundServes | server_code/shinjuku-rocksdb/dp/core/dispatcher.c:133-146 | Over any run, a round of the dispatcher deals, once, with every answer that is there when the round begins |
| SchedulerRounds.NoIdleWithWork | server_code/shinjuku-rocksdb/dp/core/dispatcher.c:95-123 | When a round of Horus ends, a worker that had started before it has a task, an answer, or nothing in its queue |
| SchedulerRounds.NetworkerServed | server_code/shinjuku-rocksdb/dp/core/dispatcher.c:154-193 | When the dispatcher leaves the networker, no request of the batch is left behind, and before the networker may go on, as many finished requests have been handed back as there are or as the array holds |
| SchedulerCounters.CounterOverRun | server_code/shinjuku-rocksdb/dp/core/dispatcher.c:160-172 | Over any run from the start, `queue_length` is what was counted in less what was counted out, modulo 2^32: 1 for a request in Horus, its `us` in track_us; preemption and dispatch do not count |
| SchedulerCounters.StateOverRun | server_code/shinjuku-rocksdb/dp/core/dispatcher.c:172-178 | Over any run from the start, `worker_state` is 1 exactly when a request marked idle came for the worker after the worker started up and after the state was last lowered, and else 0 |
| SchedulerTheorems.DispatchedHandledOnce | server_code/shinjuku-rocksdb/dp/core/worker.c:355-384 | Each dispatch is handled exactly once by the dispatcher, and the response it handles is that of the task it dispatched |
| SchedulerReplies.AnsweredOnce | server_code/shinjuku-rocksdb/dp/core/worker.c:226-263 | Each dispatch that is finished is answered exactly once, for the request that was dispatched, before the dispatcher sees it finished; a preempted one is not answered |
| SchedulerReplies.LengthReported | server_code/shinjuku-rocksdb/dp/core/worker.c:228-245 | The queue length in a reply is the work there was for the queue when the worker read the counter, without the request itself: modulo 2^16 in Horus, modulo 2^32 in track_us; the reply is IDLE exactly when, in Horus, that length is 0 and the state read then was not |
| SchedulerTheorems.LowersExactlyForIdleReplies | server_code/shinjuku-rocksdb/dp/core/dispatcher.c:52-72 | The dispatcher decides to lower `worker_state` exactly when the reply was TASK_DONE_IDLE and nothing is queued, in hand or in flight for the worker now |
| SchedulerSince.LoadSince | server_code/shinjuku-rocksdb/dp/core/dispatcher.c:52-72 | Over any run from a worker's look at its queue length to the dispatcher's test: the load is what the worker found, less its own task, plus the requests counted in since |
| SchedulerSince.LowersIffNoneCame | server_code/shinjuku-rocksdb/dp/core/dispatcher.c:52-72 | Over any such run the state is lowered if and only if the reply was TASK_DONE_IDLE, the worker had no other work when it looked, and none has been counted in since |
| SchedulerWide.IdleMeansAloneExactly | server_code/shinjuku-rocksdb/dp/core/worker.c:228-246 | TASK_DONE_IDLE means in all runs that the worker had no other work when it read its queue length, if and only if there is room for no more than 65536 requests (`new_qlen` is 16 bits wide) |
| SchedulerWide.IdleDespiteWork | server_code/shinjuku-rocksdb/dp/core/worker.c:228-246 | For more room than that, a run from zeroed memory to such a reply with 65537 requests for the worker |
| SchedulerReplies.NoneForgotten | server_code/shinjuku-rocksdb/dp/core/dispatcher.c:52-72 | No drained worker keeps its state: in every reachable state, one that is set belongs to a worker with work, or to one whose last task is being finished |
| SchedulerTheorems.NoSilentReset | server_code/shinjuku-rocksdb/dp/core/worker.c:229-246 | Over all interleavings, `worker_state` goes down only when the worker starts up or when the reply sent for that same task was TASK_DONE_IDLE, though the worker read `queue_length` and `worker_state` separately and earlier |
| SchedulerTheorems.DispatcherNeverStuck | server_code/shinjuku-rocksdb/dp/core/dispatcher.c:135-199 | In every reachable state the dispatcher has a next step |
| SchedulerTheorems.OthersWaitOnlyForFlags | server_code/shinjuku-rocksdb/dp/core/worker.c:386-396 | A worker is blocked only by its request flag, the networker only by `cnt` |
| SchedulerIdle.StepKeepsInv | server_code/shinjuku-rocksdb/dp/core/dispatcher.c:95-124 | Every single shared-memory access of any party keeps the whole invariant |
| SchedulerIdle.ReachableInv | server_code/shinjuku-rocksdb/dp/core/worker.c:296-309 | Every state reached from zeroed memory, by any interleaving, satisfies the invariant |
| SchedulerLoad.StepCarries | server_code/shinjuku/track_us/dispatcher.c:52-104 | Each step changes a queue's load by a stated amount, and its counter by the same |
| SchedulerInvariant.StepKeepsStructure | server_code/shinjuku-rocksdb/dp/core/dispatcher.c:154-193 | Each step keeps the structures and the one place of every live request |
| WheelMath.IndexRange | server_code/shinjuku-rocksdb/dp/core/timer.c:111-131 | The branch-free wheel choice: wheel 0 exactly below 2^12 us, 1 below 2^20, 2 below 2^28, out of range from there on |
| WheelProofs.PassConserves | server_code/shinjuku-rocksdb/dp/core/timer.c:292-309 | A timer_run pass neither loses nor doubles a timer: what was pending is what has fired plus what is pending |
| WheelProofs.PassOnTime | server_code/shinjuku-rocksdb/dp/core/timer.c:264-309 | After a pass every pending timer is in the bucket of its own slot, and that slot is still to come |
| WheelProofs.PassTracked | server_code/shinjuku-rocksdb/dp/core/timer.c:233-262 | A timer that is followed stays in the bucket of its slot through a pass and its cascades and is not run before it expires, unless it waits on wheel 2 and the pass turns it |
| WheelProofs.CascadedFar | server_code/shinjuku-rocksdb/dp/core/timer.c:264-290 | A timer that comes down from wheel 2 before it expires keeps its own slot if and only if it does not land on wheel 0 with that slot 4096 us or more behind the start of its block |
| WheelEarly.PassEarlyExactly | server_code/shinjuku-rocksdb/dp/core/timer.c:233-309 | A pass runs a pending timer that has not expired if and only if it waits on wheel 2 and the pass cascades its block so |
| TimerWheels.NothingOverdue | server_code/shinjuku-rocksdb/dp/core/timer.c:292-309 | After a pass no pending timer has its 16 us slot at or before the time of the pass |
| TimerWheels.NeverLostOrRepeated | server_code/shinjuku-rocksdb/dp/core/timer.c:111-143 | Over any run of adds and passes, for delays up to 2^28 us: times run plus times pending is times added, so one added once runs at most once and is otherwise in exactly one bucket |
| TimerWheels.NeverEarly | server_code/shinjuku-rocksdb/dp/core/timer.c:213-309 | Over any run and however late the passes come, a timer added less than 2^20 us ahead never runs before it expires |
| TimerWheels.NeverEarlyExactly | server_code/shinjuku-rocksdb/dp/core/timer.c:213-309 | For all delays up to 2^28 us, over any run: the timer never runs before it expires if and only if no pass of the run meets that condition |
| TimerWheels.HasRunByDue | server_code/shinjuku-rocksdb/dp/core/timer.c:292-309 | It has run, once, by the first pass at expires + 16 or later |
| WheelOrder.LastAddedFirst | server_code/shinjuku-rocksdb/dp/core/timer.c:111-143 | Of two timers of one 16 us slot on wheel 0, the one that was added later runs first |
| WheelOrder.CascadeFires | server_code/shinjuku-rocksdb/dp/core/timer.c:233-262 | A cascade runs exactly the timers of its bucket that have expired, as often as they are there |
| WheelOrder.WheelsInOrder | server_code/shinjuku-rocksdb/dp/core/timer.c:264-309 | When a slot comes with cascades, the expired timers of the bucket of wheel 1 run before those of wheel 2, and before those of the slot |
| TimerWheels.StartAlignedExactly | server_code/shinjuku-rocksdb/dp/core/timer.c:463-469 | Initialisation does not align `timer_pos`: no timer on wheel 0 can run early right after it if and only if the clock was a multiple of 16 |
| TimerWheels.UnalignedFiresAtOnce | server_code/shinjuku-rocksdb/dp/core/timer.c:463-469 | Off that grid, a timer of 4079 us runs at once |
| TimerWheels.Wheel2CanBeEarly | server_code/shinjuku-rocksdb/dp/core/timer.c:233-262 | A run of three events from start-up on the grid, at any multiple of 2^20 us: a timer is added, a pass comes on time, and one that is a microsecond late runs it 4079 us before it expires |
| TimerWheels.AddInRange | server_code/shinjuku-rocksdb/dp/core/timer.c:152-181 | `timer_add` checks the delay from the real clock, but the wheel index is in range if and only if the delay from the cached time is |
| TimerWheels.TimerWheel.Insert | server_code/shinjuku-rocksdb/dp/core/timer.c:111-143 | Puts the timer at the head of the bucket the whole-run theorems are about |
| TimerWheels.TimerWheel.Add | server_code/shinjuku-rocksdb/dp/core/timer.c:152-181 | The new state is the Add event of those theorems, with the expiry taken from the clock |
| TimerWheels.TimerWheel.AddForNextTick | server_code/shinjuku-rocksdb/dp/core/timer.c:204-211 | The same, for the next slot from the cached time |
| TimerWheels.TimerWheel.RunBucket | server_code/shinjuku-rocksdb/dp/core/timer.c:213-231 | Empties the bucket and runs its timers in list order |
| TimerWheels.TimerWheel.ReinsertBucket | server_code/shinjuku-rocksdb/dp/core/timer.c:233-262 | Runs the expired timers of the bucket and inserts the others anew |
| TimerWheels.TimerWheel.Collapse | server_code/shinjuku-rocksdb/dp/core/timer.c:264-290 | Cascades wheel 1, and wheel 2 when wheel 1 has come round |
| TimerWheels.TimerWheel.Run | server_code/shinjuku-rocksdb/dp/core/timer.c:292-309 | The new wheels, position and timers run, in order, are the Run event of those theorems |
| SendRuns.StreamIntegrity | server_code/shinjuku-rocksdb/libix/ixev.c:377-484 | Over any run, with any partial sendv return: the bytes accepted are the bytes the kernel has read followed by the bytes of the entries; never more than 64 KB unacknowledged, never more than 16 entries |
| SendRuns.FreshGood | server_code/shinjuku-rocksdb/libix/ixev.c:514-530 | A fresh context satisfies what every run keeps |
| SendRuns.CachedBufferNeverReleased | server_code/shinjuku-rocksdb/libix/ixev.c:177-191 | In every reachable state of a context the cached buffer is on the reference list and not free, is due at the end of what was accepted, and owns the last entry |
| SendShared.SharedPool | server_code/shinjuku-rocksdb/libix/ixev.c:177-191 | The same for any number of contexts over the one pool of a thread, in any interleaving, with the stream of each intact; and a buffer is on the list of one context at most |
| SendShared.NextGood | server_code/shinjuku-rocksdb/libix/ixev.c:396-497 | Each event of one context keeps what all of them keep: it touches only buffers that are free or on its own list |
| SendConserved.NoBufferLost | server_code/shinjuku-rocksdb/libix/buf.h:48-72 | Any number of contexts over one pool, in any interleaving: the buffers of the pool, and no others, are free, once and on no list, or on the list of a context |
| SendRuns.ReleasedWhenAcknowledged | server_code/shinjuku-rocksdb/libix/ixev.c:177-191 | A buffer leaves the list only on an acknowledgement of all its bytes |
| SendRuns.EventKeeps | server_code/shinjuku-rocksdb/libix/ixev.c:396-497 | Each call and each answer keeps all of it |
| SendState.UnacknowledgedIntact | server_code/shinjuku-rocksdb/libix/buf.h:48-52 | Until then the buffer still holds its bytes of the stream unchanged |
| SendState.SendAccepts | server_code/shinjuku-rocksdb/libix/ixev.c:396-450 | `ixev_send` accepts exactly as many bytes as the window, the cached buffer and new buffers with entries for them allow |
| SendState.AcceptedExactly | server_code/shinjuku-rocksdb/libix/ixev.c:396-450 | How many these are: the least of what is offered, what is missing to 65536 unacknowledged bytes, and what is left of the cached buffer and of 16 entries, or of the free buffers, with 5840 bytes each |
| SendState.SendSound | server_code/shinjuku-rocksdb/libix/ixev.c:396-450 | Copying bytes in, on the hot and the cold path, keeps the stream and the buffers right |
| SendState.PassedSound | server_code/shinjuku-rocksdb/libix/ixev.c:464-484 | So does handing over memory in place |
| SendState.KernelTookSound | server_code/shinjuku-rocksdb/libix/ixev.c:541-572 | Dropping whole entries and cutting the next one short leaves exactly the bytes the kernel has not taken |
| SendState.AcknowledgedSound | server_code/shinjuku-rocksdb/libix/ixev.c:177-191 | Releasing the references due leaves every entry's buffer and the cached buffer in place |
| SendState.RegisteredSound | server_code/shinjuku-rocksdb/libix/ixev.c:493-497 | Registering a callback keeps the stream, the buffers and the list right; when it may run is `CallbackNotEarly` and `CallbackExactly` |
| Ixev.IxevCtx.constructor | server_code/shinjuku-rocksdb/libix/ixev.c:514-530 | A fresh context |
| Ixev.IxevCtx.BufStore | server_code/shinjuku-rocksdb/libix/buf.h:83-94 | Appends as much as fits behind what the buffer holds |
| Ixev.IxevCtx.Send | server_code/shinjuku-rocksdb/libix/ixev.c:396-450 | The return value in every case, the bytes accepted, and the new state as the function the theorems are about |
| Ixev.IxevCtx.SendZc | server_code/shinjuku-rocksdb/libix/ixev.c:464-484 | The same for the zero-copy call |
| Ixev.IxevCtx.ShiftSends | server_code/shinjuku-rocksdb/libix/ixev.c:541-549 | The entries behind the finished ones move to the front of the array |
| Ixev.IxevCtx.HandleSendvRet | server_code/shinjuku-rocksdb/libix/ixev.c:551-572 | A negative return kills the context and changes nothing else; otherwise the entries are those the kernel has left |
| Ixev.IxevCtx.TcpSent | server_code/shinjuku-rocksdb/libix/ixev.c:177-191 | Runs callbacks from the head of the list on, in order, up to the first one that is not due, and forgets the cached buffer exactly when no reference is left |
| SendOrder.RunsAllExactly | server_code/shinjuku-rocksdb/libix/ixev.c:182-185 | An acknowledgement runs every callback that is due if and only if none stands behind a reference that is not |
| SendOrder.OrderDecides | server_code/shinjuku-rocksdb/libix/ixev.c:182-185 | All acknowledgements do if and only if the list is in order of send_pos |
| SendOrder.EventOrder | server_code/shinjuku-rocksdb/libix/ixev.c:408-420 | A call keeps the list in order if and only if it is not an `ixev_send` that appends to the cached buffer while a reference stands behind that |
| SendOrder.OrderOverRun | server_code/shinjuku-rocksdb/libix/ixev.c:396-497 | Over any run the list stays in order if and only if there is no such send |
| SendOrder.InTime | server_code/shinjuku-rocksdb/libix/ixev.c:485-497 | In a run without such a send every acknowledgement runs every callback that is due, as the comment promises |
| SendOrder.LateCallback | server_code/shinjuku-rocksdb/libix/ixev.c:408-420 | A run with such a send after which a callback that is due is still on the list: one byte, a callback, one byte more, and an acknowledgement of the first |
| SendCallbacks.CallbackNotEarly | server_code/shinjuku-rocksdb/libix/ixev.c:485-497 | Over any run from its registration on, a callback is on the list until as many bytes are acknowledged as had been accepted when it was registered, and only an acknowledgement takes it off |
| SendCallbacks.CallbackExactly | server_code/shinjuku-rocksdb/libix/ixev.c:485-497 | In a run that does not overtake, it leaves the list exactly at the first acknowledgement that reaches that many bytes |
| SendCallbacks.AckExactly | server_code/shinjuku-rocksdb/libix/ixev.c:177-191 | With the list in order, an acknowledgement takes off it exactly the references, of buffers and of callbacks, whose send_pos it reaches |
| Ixev.IxevCtx.AddSentCb | server_code/shinjuku-rocksdb/libix/ixev.c:493-497 | Puts the reference at the end of the list, for the end of what was accepted; the new state is the event that `CallbackNotEarly` and `CallbackExactly` are about |
| PbufRefs.FreedExactly | server_code/shinjuku-rocksdb/dp/lwip/pbuf.c:556-634 | `pbuf_free` takes away exactly the leading run of buffers with one reference, and one reference from the buffer behind it |
| PbufRefs.FreedKeeps | server_code/shinjuku-rocksdb/dp/lwip/pbuf.c:556-634 | It gives up one outside reference: `ref` is again outside references plus links for every live buffer, no link leads to a freed one, and chains end |
| PbufRefs.NothingLeaks | server_code/shinjuku-rocksdb/dp/lwip/pbuf.c:536-553 | With these accounts every live buffer is reachable from an outside reference |
| PbufRefs.NothingDangles | server_code/shinjuku-rocksdb/dp/lwip/pbuf.c:536-553 | And nothing reachable from outside has been freed |
| PbufEdits.RefCounts | server_code/shinjuku-rocksdb/dp/lwip/pbuf.c:665-676 | `pbuf_ref` counts a new outside reference if and only if the 16-bit count does not wrap, and else the count is 0 |
| PbufEdits.CatKeepsRefs | server_code/shinjuku-rocksdb/dp/lwip/pbuf.c:687-711 | `pbuf_cat` takes over the caller's reference to the tail |
| PbufEdits.CatConcatenates | server_code/shinjuku-rocksdb/dp/lwip/pbuf.c:687-711 | The head chain goes on with the tail and shows its bytes followed by the tail's |
| PbufEdits.CatTotals | server_code/shinjuku-rocksdb/dp/lwip/pbuf.c:687-711 | Every `tot_len` stays right (modulo 2^16) if and only if no other buffer points into the head chain or the tail is empty |
| PbufEdits.ChainKeepsRefs | server_code/shinjuku-rocksdb/dp/lwip/pbuf.c:728-735 | `pbuf_chain` leaves the caller its reference to the tail |
| PbufEdits.DechainKeepsRefs | server_code/shinjuku-rocksdb/dp/lwip/pbuf.c:745-774 | `pbuf_dechain` keeps the accounts |
| PbufEdits.DechainSplits | server_code/shinjuku-rocksdb/dp/lwip/pbuf.c:745-774 | The first buffer is alone with its bytes, and a tail that is still referenced shows its own |
| PbufEdits.DechainTotals | server_code/shinjuku-rocksdb/dp/lwip/pbuf.c:745-774 | Totals stay right if and only if nothing points to the first buffer or the tail is empty |
| PbufEdits.DechainResultExact | server_code/shinjuku-rocksdb/dp/lwip/pbuf.c:745-774 | The result is the live tail or NULL if and only if the number of buffers freed is 0 or no multiple of 256 (the count is 8 bits wide) |
| PbufEdits.DechainDangles | server_code/shinjuku-rocksdb/dp/lwip/pbuf.c:745-774 | Chains with right accounts and totals for which `pbuf_dechain` returns a freed buffer: those with a multiple of 256 buffers behind the first, each with one reference |
| PbufRealloc.ReallocKeepsRefs | server_code/shinjuku-rocksdb/dp/lwip/pbuf.c:367-426 | `pbuf_realloc` keeps the accounts, freeing the cut tail |
| PbufRealloc.ReallocKeepsPrefix | server_code/shinjuku-rocksdb/dp/lwip/pbuf.c:367-426 | What is left shows exactly the first `new_len` bytes, or the whole chain when `new_len` is not below `tot_len` |
| PbufRealloc.ReallocTotals | server_code/shinjuku-rocksdb/dp/lwip/pbuf.c:367-426 | Totals stay right if and only if no other buffer points into what is kept |
| PbufShared.SharedReached | server_code/shinjuku-rocksdb/dp/lwip/pbuf.c:728-735 | A memory with right accounts and totals that `pbuf_chain` makes, in which a chain has a second user |
| PbufShared.CatShared | server_code/shinjuku-rocksdb/dp/lwip/pbuf.c:687-711 | There `pbuf_cat` leaves a buffer that counts 3 bytes and leads to 4 |
| PbufShared.DechainShared | server_code/shinjuku-rocksdb/dp/lwip/pbuf.c:745-774 | There `pbuf_dechain` leads to a memory, written out, in which a buffer counts 3 bytes |
| PbufShared.ReallocShared | server_code/shinjuku-rocksdb/dp/lwip/pbuf.c:367-426 | So does `pbuf_realloc` |
| PbufShared.SeveredWrong | server_code/shinjuku-rocksdb/dp/lwip/pbuf.c:367-426 | In that memory the buffer leads to 2 bytes |
| Pbufs.PbufHeap.Ref | server_code/shinjuku-rocksdb/dp/lwip/pbuf.c:665-676 | Adds one to the count, modulo 2^16; nothing for NULL |
| Pbufs.PbufHeap.Free | server_code/shinjuku-rocksdb/dp/lwip/pbuf.c:556-634 | The loop does what `FreedExactly` says and returns the number of buffers freed modulo 256 |
| Pbufs.PbufHeap.Cat | server_code/shinjuku-rocksdb/dp/lwip/pbuf.c:687-711 | The walk makes the memory `CatTotals` and `CatConcatenates` are about; NULL arguments change nothing |
| Pbufs.PbufHeap.Chain | server_code/shinjuku-rocksdb/dp/lwip/pbuf.c:728-735 | As above plus a reference to the tail, which is counted even when there is no head |
| Pbufs.PbufHeap.Dechain | server_code/shinjuku-rocksdb/dp/lwip/pbuf.c:745-774 | The memory and the result of the lemmas on dechaining |
| Pbufs.PbufHeap.Realloc | server_code/shinjuku-rocksdb/dp/lwip/pbuf.c:367-426 | The walk, the cut and the freeing, in the source's order, make the memory of the lemmas on realloc; the walk never runs off the chain, whatever the totals, as long as the bytes to keep are there |
| Pbufs.PbufHeap.CopyPartial | server_code/shinjuku-rocksdb/dp/lwip/pbuf.c:860-897 | Copies exactly min(len, bytes from offset on) bytes of the content, and nothing else in the target changes, whatever the segmentation |
| Pbufs.PbufHeap.Take | server_code/shinjuku-rocksdb/dp/lwip/pbuf.c:958-993 | The content becomes the data followed by the old rest; ERR_ARG exactly for too small a chain. For NULL the answer is 0, which is ERR_OK, and nothing is stored |
| Pbufs.PbufHeap.TakeThenCopyPartial | server_code/shinjuku-rocksdb/dp/lwip/pbuf.c:958-993 | Round trip: what `pbuf_take` puts in, `pbuf_copy_partial` gives back |
| Pbufs.PbufHeap.Copy | server_code/shinjuku-rocksdb/dp/lwip/pbuf.c:794-848 | Whenever it returns ERR_OK the target shows the source's bytes and then its own old rest, and only bytes of the target chain ever change. With right totals, and a target that does not end in an empty buffer, it returns ERR_OK if and only if `CopyFits`: the source does not end in an empty buffer, or is one buffer and an empty one, and the first fits into the target's first without filling it as its only buffer |
| Pbufs.PbufHeap.CopyAll | server_code/shinjuku-rocksdb/dp/lwip/pbuf.c:805-846 | What each way out of the loop says about the chains: which buffers are not the end of a packet queue, that the target is short, or that a queue was met |
| Pbufs.CopyExact | server_code/shinjuku-rocksdb/dp/lwip/pbuf.c:794-848 | Those reasons decide: with right totals and a target that does not end in an empty buffer, success is exactly `CopyFits`, a test on the chains before the call |
| Pbufs.PbufHeap.Coalesce | server_code/shinjuku-rocksdb/dp/lwip/pbuf.c:1002-1021 | One buffer with the same bytes, or the old chain when allocation fails; the caller's reference moves to what is returned and the accounts stay right. With right totals the assertion on the copy holds if and only if the chain does not end in an empty buffer |
| Pbufs.PbufHeap.Clen | server_code/shinjuku-rocksdb/dp/lwip/pbuf.c:646-657 | The number of buffers modulo 256 |
| Checksum.ChecksumV1 | server_code/shinjuku-rocksdb/dp/lwip/inet_chksum.c:104-139 | The byte-pair version computes the one's complement sum of section 1 of RFC 1071 |
| Checksum.ChecksumV2 | server_code/shinjuku-rocksdb/dp/lwip/inet_chksum.c:158-198 | The word version, with its 32-bit sum wrapping, computes the function the range theorem is about, for both start parities |
| Checksum.V2ExactRange | server_code/shinjuku-rocksdb/dp/lwip/inet_chksum.c:143-198 | That is the one's complement sum for all data of a length, whatever the parity, if and only if the length is at most 0x20002 |
| Checksum.V2Correct | server_code/shinjuku-rocksdb/dp/lwip/inet_chksum.c:158-198 | Up to that length it equals version 1 on every buffer |
| Checksum.ChecksumV3 | server_code/shinjuku-rocksdb/dp/lwip/inet_chksum.c:214-280 | The unrolled version with carry add-back equals version 1 on every buffer and start address |
| OnesComplement.FoldTwice | server_code/shinjuku-rocksdb/dp/lwip/inet_chksum.c:188-190 | Two folds always bring a 32-bit sum to 16 bits, without changing its value in one's complement |
| ChainChecksum.InetChksum | server_code/shinjuku-rocksdb/dp/lwip/inet_chksum.c:522-526 | What it returns and the one's complement sum of the bytes add up to 0xffff |
| ChainChecksum.InetChksumPbuf | server_code/shinjuku-rocksdb/dp/lwip/inet_chksum.c:535-557 | On any chain, with odd-length segments and any alignment, what it returns and the one's complement sum of the concatenated bytes add up to 0xffff |
| ChainChecksum.PseudoPartialBase | server_code/shinjuku-rocksdb/dp/lwip/inet_chksum.c:398-440 | The same over the first `chksum_len` bytes, the initial sum, and protocol and length in network order |
| ChainChecksum.InPseudoMeans | server_code/shinjuku-rocksdb/dp/lwip/inet_chksum.c:324-339 | Its folded result is the one's complement sum of the three words |
| ChainChecksum.StoredChecksumVerifies | server_code/shinjuku-rocksdb/dp/lwip/inet_chksum.c:522-557 | A checksum in a zero field of a buffer makes the sum of the whole 0xffff, and so its own checksum 0, exactly if it is the one computed over the zero field, or 0xffff where that one is 0 |
| ChainChecksum.OnesSumExactly | server_code/shinjuku-rocksdb/dp/lwip/inet_chksum.c:104-201 | The sum is the one number up to 0xffff that is the sum of the 16-bit words modulo 0xffff and is 0 only for zero bytes |
| ChainChecksum.SumExample | server_code/shinjuku-rocksdb/dp/lwip/inet_chksum.c:104-201 | The example of section 3 of RFC 1071, and a last odd byte counts as if a zero byte followed |
| Mempools.Allocator.constructor | server_code/shinjuku-rocksdb/libix/mempool.c:236-252 | Any number of pools over a freshly created datastore: nothing allocated, every element in a chunk |
| Mempools.Allocator.Alloc | server_code/shinjuku-rocksdb/libix/mempool.h:88-101 | Gives out an element that was not allocated, or NULL exactly when the pool's list, its private chunk and the datastore are all empty; says which list it leaves, is a step of the bookkeeping of `MempoolLedger`, and keeps every element in exactly one place |
| Mempools.Allocator.Alloc2 | server_code/shinjuku-rocksdb/libix/mempool.c:47-73 | The private chunk or else a datastore chunk becomes the pool's list, without its first element; `free_chunks` stays the number of chunks |
| Mempools.Allocator.Free | server_code/shinjuku-rocksdb/libix/mempool.h:110-121 | The element goes to the front of the pool's list, or through mempool_free_2, as a step of the bookkeeping; `num_free` never exceeds the chunk size, so the assertion there never fires |
| Mempools.Allocator.Free2 | server_code/shinjuku-rocksdb/libix/mempool.c:83-102 | The full list becomes the private chunk, the private chunk before it a datastore chunk; libix keeps `num_free`, dp/core sets it to 1 |
| Mempools.Allocator.OwnerWrites | server_code/shinjuku-rocksdb/libix/mempool.h:41-44 | Whatever the owner of an element writes over its links, no list and no chunk is touched |
| MempoolLedger.DriftOverRun | server_code/shinjuku-rocksdb/libix/mempool.c:47-73 | Over any run without a retirement, the elements listed but not counted in `num_free` grow by exactly what the fetched lists bring beyond the element given out |
| MempoolLedger.RetireSize | server_code/shinjuku-rocksdb/libix/mempool.c:83-102 | A retired list has the chunk size plus that drift, and the chunk size if and only if there is none |
| MempoolLedger.RetireDrift | server_code/shinjuku-rocksdb/dp/core/mempool.c:113-140 | Retiring a list leaves no drift if and only if it resets `num_free`, as dp/core does and libix does not, or chunks have one element |
| MempoolLedger.RetiredExactly | server_code/shinjuku-rocksdb/dp/core/mempool.c:70-140 | The first list a pool retires, and in dp/core every one, has the chunk size if and only if no fetch since the start or the last retirement brought more than one element; otherwise it is longer |
| MempoolLedger.RetiredAgain | server_code/shinjuku-rocksdb/libix/mempool.c:83-102 | In libix every later list has one element more than the fetches since the last retirement brought uncounted: a single element if and only if there was no such fetch |
| MempoolRuns.LongRetiredList | server_code/shinjuku-rocksdb/libix/mempool.c:47-102 | From zeroed pages, in both versions and for any chunk size c and any n above it for which there are fewer than 1024 pages: a run after which the first retired list has c + n(c - 1) elements |
| MempoolRuns.OneElementRun | server_code/shinjuku-rocksdb/libix/mempool.c:83-102 | From zeroed pages, for every chunk size for which there are fewer than 1024: a run after which the datastore of the libix version has a chunk of one element |
| Mempools.OnlyOnce | server_code/shinjuku-rocksdb/libix/mempool.c:47-102 | Conservation: each element is allocated, or once in one list, or once in one chunk, and never two of these |
| MempoolInit.Datastore.InitBufWithPages | server_code/shinjuku-rocksdb/libix/mempool.c:108-148 | For any arguments, the loops store the links, word by word, that `LinkAll` says, over exactly the addresses they visit: page offsets are ints, addresses wrap at 2^64 |
| MempoolInit.CreateDatastore | server_code/shinjuku-rocksdb/libix/mempool.c:168-223 | Fails exactly for zero elements or zero length; otherwise links the elements of the sizes computed, in ints. Where `LayoutRight` holds, elements have nine bytes or more and the pages are zeroed, there are at least the elements asked for, apart and in bounds, all full chunks of them are linked, and what is left over is in no chunk |
| MempoolPlan.LayoutExactly | server_code/shinjuku-rocksdb/libix/mempool.c:184-197 | The elements that are linked are the planned ones if and only if there are fewer than 1024 pages, or at most 1024 where elements do not straddle pages; for more than 15359 pages the overflowed product may give the right number of elements by coincidence, exactly when `Coincides`, as for the input of `LuckyCount` |
| MempoolPlan.NoCoincidence | server_code/shinjuku-rocksdb/libix/mempool.c:193 | Up to 15359 pages the number of elements is right if and only if there are fewer than 1024 |
| MempoolPlan.TooFew | server_code/shinjuku-rocksdb/libix/mempool.c:193 | Where the product wraps to a value that is not negative, fewer elements are linked than were asked for |
| MempoolPlan.NothingLinked | server_code/shinjuku-rocksdb/libix/mempool.c:193 | For 2^20 elements of 4096 bytes none is linked |
| MempoolShort.HeadersExactly | server_code/shinjuku-rocksdb/libix/mempool.c:123-138 | Two or more chunks of two or more elements are linked as they should be if and only if elements have more than eight bytes; else the link from chunk to chunk is stored over the link between two elements |
| MempoolPlan.PlanFits | server_code/shinjuku-rocksdb/libix/mempool.c:186-197 | The sizes that are meant: the elements fit into the pages, and are no fewer than asked for |
| Reassembly.Reassembled | server_code/shinjuku/track_us/dispatch.h:293-375 | From any moment at which the request is not pending, for any trace of interleaved requests: the calls for a request of n packets, 1 to 7, return nothing until n of its packets have come, and then the request, with type and service time of its first packet. For n above 1 each slot has the newest packet of that number, and all are filled if and only if the n packets had different numbers below n |
| Reassembly.OnePart | server_code/shinjuku/track_us/dispatch.h:310-317 | The call for a packet of a request of one part returns it at once, with that packet in slot 0 whatever its number, and leaves the pending requests as they were |
| Reassembly.Duplicated | server_code/shinjuku/track_us/dispatch.h:334-353 | A packet that comes twice: a request of two parts is returned with a slot that was never written |
| Reassembly.OthersUntouched | server_code/shinjuku/track_us/dispatch.h:334-353 | A packet leaves every other pending request as it is |
| Reassembly.TracePending | server_code/shinjuku/track_us/dispatch.h:318-353 | From any such moment on, what is pending of a request is nothing before its first and after its last packet, and else the packets so far and how many are missing |
| Reassembly.Reused | server_code/shinjuku/track_us/dispatch.h:318-353 | Once all its packets have come, the same client and request number may be used again, also with another number of packets: the second request is put together like the first |
| Reassembly.RequestQueue.RqUpdate | server_code/shinjuku/track_us/dispatch.h:293-375 | The walk and the rewriting of the doubly linked list do to the pending requests, in list order, and return what the step of the traces of `Reassembled` and `OnePart` does; both links of every cell stay right |
| Reassembly.RequestQueue.Remove | server_code/shinjuku/track_us/dispatch.h:338-349 | Unlinking takes out exactly that cell |
| Reassembly.UnlinkedOk | server_code/shinjuku/track_us/dispatch.h:338-349 | The neighbours of an unlinked cell are linked to each other and all other cells are unchanged |
| Ip4.RoundTrip | server_code/shinjuku-rocksdb/dp/lwip/ip4_addr.c:174-320 | The parser reads every printed address back |
| Ip4.Aton | server_code/shinjuku-rocksdb/dp/lwip/ip4_addr.c:174-269 | The loops of the parser compute the function that `RoundTrip` and `AcceptsExactly` are about |
| Ip4.AcceptsExactly | server_code/shinjuku-rocksdb/dp/lwip/ip4_addr.c:174-269 | A text is read as an address if and only if it is one to four parts, each beginning with a digit, with a dot between any two and the end of the text or a space behind the last, that make this address; every other text is refused |
| Ip4.NumberMeans | server_code/shinjuku-rocksdb/dp/lwip/ip4_addr.c:201-210 | The digit loop stops at the first character that is no digit of the base, and its value is the positional value of the digits, modulo 2^32 |
| Ip4.FieldMeans | server_code/shinjuku-rocksdb/dp/lwip/ip4_addr.c:188-211 | The value of a part and where it ends: hexadecimal behind 0x or 0X, octal behind another 0, else decimal, modulo 2^32; an octal part may hold the digits 8 and 9 |
| Ip4.ConcoctExactly | server_code/shinjuku-rocksdb/dp/lwip/ip4_addr.c:237-264 | The forms a, a.b, a.b.c and a.b.c.d are read as their parts in their places, and refused when a part does not fit, if and only if the parts before the last are bytes or the last one is too large; `PartUnchecked` is an address that is not |
| Ip4.Ntoa | server_code/shinjuku-rocksdb/dp/lwip/ip4_addr.c:284-320 | The printer succeeds exactly when the buffer has room for the digits and four more characters, writes the dotted text and its end, and nothing at or behind `buflen` |
| Ip4.DecMeans | server_code/shinjuku-rocksdb/dp/lwip/ip4_addr.c:284-320 | What is printed for a byte is its decimal notation, without a leading zero |
| Ip4.NetmaskValid | server_code/shinjuku-rocksdb/dp/lwip/ip4_addr.c:112-133 | Accepts exactly the masks of ones followed by zeros |
| Ip4.HtonlMeans | server_code/shinjuku-rocksdb/dp/lwip/ip4_addr.c:112-133 | The number the test looks at has the bytes of the mask in network order |
| Ip4.MaskValue | server_code/shinjuku-rocksdb/dp/lwip/ip4_addr.c:112-133 | Those masks as numbers: 2^32 - 2^k |
| TaskQueues.TaskQueue.EnqueueHead | server_code/shinjuku/track_us/dispatch.h:179-198 | The task becomes the first of the queue; head, tail and links stay right |
| TaskQueues.TaskQueue.EnqueueTail | server_code/shinjuku/track_us/dispatch.h:200-221 | The task becomes the last of the queue, or is dropped when the pool is empty |
| TaskQueues.TaskQueue.Dequeue | server_code/shinjuku/track_us/dispatch.h:223-240 | Gives the first task and leaves the others in order; fails exactly on an empty queue |
| TaskQueues.FinishedQueue.Enqueue | server_code/shinjuku/track_us/dispatch.h:152-160 | Last in, first out; NULL is ignored |
| TaskQueues.FinishedQueue.Dequeue | server_code/shinjuku/track_us/dispatch.h:136-150 | Gives the newest request and leaves the others, although the cell is freed before its link is read |
| TaskQueues.SmartChoice | server_code/shinjuku/track_us/dispatch.h:263-291 | The first of the queues whose head is most overdue: for positive objectives, no head's waiting time over its objective is above the chosen one's, and none before it equals it; with cases for negative objectives and for zero, where waiting at all is the most there is. None if and only if no head has waited (or, with a negative objective, none lies ahead) |
| TaskQueues.OverdueSign | server_code/shinjuku/track_us/dispatch.h:263-291 | With a positive objective a head is overdue as soon as it has waited at all; with an objective of zero any waiting is the most there is |
| TaskQueues.CoreFor | server_code/shinjuku-rocksdb/inc/ix/dispatch.h:374-422 | The worker of a packet is the last one with the identity it names; for an unknown identity it is 255, outside the queues |
| TaskQueues.Popped | server_code/shinjuku/track_us/dispatch.h:136-150 | Without its first cell the rest is a queue from that cell's link on |

## Left out

- Hash set: the float comparison of the load against 0.25 is taken exactly (it rounds above 2^24 slots); `set_clear`, `set_destroy` and allocation failure of a single node are not modelled.
- Scheduler.Next: the fields that a flag hands over are written in one step of their own, before the flag; the dispatcher's read of the response flag is one read.
- Scheduler.Dispatch: contexts and pools are a nondeterministic grant and a bound on live requests; which queue the track_us dispatcher takes from is any choice.
- Scheduler: preemption interrupts, time stamps, the no-data packet path and requests of several packets are not part of the transition system; queues are sequences there (`TaskQueues` has their linked cells), and what the Horus `rq_update` of `inc/ix/dispatch.h` reads from a packet beside `CoreFor`, worker identities that are changed at run time among it, is not part of this model. Arrivals name an existing queue; a packet for an unknown worker would name queue 255.
- TimerWheels.TimerWheel: handlers are the list of timers that ran and add no timers; `timer_del`, `timer_mod`, `timer_deadline`, flow-group collection and reinjection are left out; list links are sequences; 64-bit time does not wrap.
- TimerWheels.TimerWheel.Add: delays whose bucket index leaves the array, which `AddInRange` describes, are not followed further.
- Ixev.IxevCtx: the close path, the receive side, the generation check and the batched system-call descriptors; the pool's free list is a sequence; 64-bit totals do not wrap.
- Pbufs.PbufHeap.Realloc: the chain has the bytes to keep; without them the source walks off its end.
- Pbufs.PbufHeap: buffers are entries of a map from addresses; `pbuf_alloc` of pools, `pbuf_header`, `pbuf_split_64k`, custom buffers, `mem_trim`, and the mbufs behind the payload are left out.
- Pbufs.PbufHeap.Copy: the success condition is exact for right totals, fewer than 65536 bytes, and targets that do not end in an empty buffer; beyond them `CopyAll` says what each outcome means. The two chains are disjoint.
- Pbufs.PbufHeap.Coalesce: the condition for its assertion is exact for right totals and fewer than 65536 bytes.
- Checksum: the host is little-endian; IPv6 pseudo headers, `LWIP_CHKSUM_COPY` and the debug assertion of version 2 are left out.
- TaskQueues.SmartChoice: waiting times and objectives are reals, with infinities and a value for no number, instead of floats.
- Mempools.Allocator: a call on a pool, including the part under the datastore's lock, is one step; `num_locks`, page mapping and `mempool_destroy` are left out.
- MempoolInit.CreateDatastore: elements on pages of their own are no longer than a page (the source divides by zero), and `nr_elems` is not negative. What becomes of elements that are linked outside the pages is not followed.
- MempoolPlan.LayoutExactly: the datastore has fewer than 2^63 bytes, at addresses below 2^64.
- TaskQueues.TaskQueue.EnqueueHead: the pool has a cell; with none the source writes through NULL.
- Reassembly.RequestQueue: the cell and the request come from pools that are not empty; a request has 1 to 7 packets, and their numbers are below 7, the length of `mbufs`, which the source does not check; parsing of the headers is left out.
- Ip4: `ip4_addr_isbroadcast` and the static buffer of `ipaddr_ntoa` are left out.
- tcp.c, tcp_api.c, arp.c, flow-group migration, `ll.c`, `tailqueue.c` and everything that is hardware, configuration or statistics: no property of the listed kind.
