# WMFS shared buffers, rings and sessions

WMFS runs tensor operations in worker processes over shared memory. This project models the
machinery that shares the buffers and matches requests to replies, and proves what it promises.

- **Leases** (`Leases`, `LeaseQueue`, `LeaseRuns`, `LeaseProgress`, `LeaseEffects`, `LeaseManager`): read and write
  leases on several buffers at once, taken all together or not at all from a first-come queue nobody is overtaken in.
- **Arena** (`Arena`, `ArenaManager`): a first-fit allocator whose free list stays sorted and coalesced.
- **Pool** (`Pool`, `PoolManager`): whole regions with generations, retired by everybody who mapped
  them before they are used again, cached within limits.
- **Rings** (`Ring`, `RingWakeups`, `RingClosing`): one producer and one consumer, from another process, share two
  counters, the slots and two events; every load, word copy, publication and signal is a step.
- **Submissions** (`Dispatcher`, `DispatcherRuns`): many callers, one worker and one dispatcher over
  the two rings, each taken as the bounded queue it was shown to be.
- **Mappings** (`MappingTables`, `MappingMirror`, `MappingEffects`, `MappingInterleaving`): the host's
  table of what the worker has mapped and the worker's cache, kept alike by acknowledged batches and by completions
  each side hears alone.
- **Transfers** (`Wire`, `FdBatch`, `FdPipeline`): the packets those batches travel in.
- **Views** (`Views`, `RecentKeys`, `ViewCache`, `Layout`, `SharedTensors`): the checks of strided tensor views in
  64-bit and in unbounded arithmetic, their cache, and the descriptors the host builds.
- **Ring records** (`Struct`, `RingRecord`, `RingLayout`, `RingCodec`): the fixed layout of commands and completions,
  its encoder and its strict decoder.
- **Logs** (`LogQueue`, `Utf8`, `LogCodec`): the bounded queue of the most important records, and
  their bytes.
- **Sessions** (`Sessions`, `SessionsEnd`, `SessionsServe`): creating, using, evicting and closing
  worker sessions under one condition variable, and how every call is served and comes to its end.

`Wrappers` holds what several of these share.

What runs on several threads or in several processes is a transition system: a state, steps that
are each one critical section or one shared-memory access, and an invariant every step keeps. What
one thread does to its own tables is a class with methods and loops, proved against functions on
values.

## Where the code falls short of its promise

Each comes with the exact condition under which the promise holds, and with a run or an input where
it does not.

- An interrupted lease request removes the first waiter with equal accesses, which may be another
  thread's request (`LeaseRuns.InterruptCanDropAnotherRequest`, `LeaseRuns.InterruptRemovesOwnRequest`).
- A native pop decides from an old producer counter whether to signal space; with two slots or more
  a producer can be left asleep (`RingWakeups.SpaceWakeupLost`, `RingWakeups.SpaceWakeupExactly`).
- The native producer refuses what it is given after a close; the Python one publishes it while there
  is room (`RingClosing.NativeRefusesWhenClosed`, `RingClosing.PythonPushesWhenClosed`).
- The reply to a shutdown command, and to no other, fails the identity check
  (`Dispatcher.ReplyMatchesExactly`).
- A ring record cuts an error's type and message at 64 and 1024 bytes wherever that falls; cut inside
  a character, the record cannot be decoded (`RingRecord.MessageLost`, `RingRecord.DecodesExactly`).
- The worker encodes log fields without a name, and names that are alike once cut to 255 bytes; the
  runtime refuses such records (`LogCodec.NamelessFieldLosesRecord`,
  `LogCodec.LookalikeNamesLoseRecord`, `LogCodec.WorkerToRuntime`).
- The host describes tensors of more than 16 dimensions, and views without dimensions or without
  elements; the worker's validator refuses them (`Layout.SeventeenDimensions`,
  `Layout.ScalarAndEmptyView`, `Layout.Empty`, `Layout.Managed`).

## Model

| member | source | states |
|---|---|---|
| `Leases.CountersDecide` | packages/wmfs/wmfs/memory/buffers.py:746-753 | the reader counts and the writer flag of the keys admit a request exactly when no held lease conflicts with it |
| `Leases.TakeTracks` | packages/wmfs/wmfs/memory/buffers.py:735-741 | taking a request's keys turns the states of the held leases into those of the held leases and the new one |
| `Leases.HeldCounted` | packages/wmfs/wmfs/memory/buffers.py:761-769 | every held lease is counted in the states of its keys, so releasing it never misses a key |
| `Leases.DropTracks` | packages/wmfs/wmfs/memory/buffers.py:761-769 | releasing a lease leaves exactly the states of the leases still held; idle keys disappear |
| `LeaseQueue.GrantedExactlyWhen` | packages/wmfs/wmfs/memory/buffers.py:728-744 | a pass grants a waiter exactly when nothing held before, granted in the pass or left waiting before it conflicts with or shares its keys |
| `LeaseQueue.PassSorts` | packages/wmfs/wmfs/memory/buffers.py:728-744 | a pass leaves every lease in place and splits the queue; those still waiting are exactly the ungranted ones, in their order |
| `LeaseQueue.PassExclusive` | packages/wmfs/wmfs/memory/buffers.py:728-753 | no pass lets a writer share a key with anybody |
| `LeaseQueue.PassFresh` | packages/wmfs/wmfs/memory/buffers.py:728-744 | identities stay distinct between holders and waiters |
| `LeaseQueue.PassIdempotent` | packages/wmfs/wmfs/memory/buffers.py:728-744 | a second pass grants nobody: the pass is a fixed point |
| `LeaseQueue.FixedMeansObstructed` | packages/wmfs/wmfs/memory/buffers.py:728-744 | a queue is at its fixed point exactly when each waiter conflicts with a holder or shares a key with an earlier waiter |
| `LeaseQueue.NoOvertaking` | packages/wmfs/wmfs/memory/buffers.py:733-744 | a waiter is never granted in front of an earlier one that shares any key and stays |
| `LeaseQueue.WaitingNeedsHolder` | packages/wmfs/wmfs/memory/buffers.py:728-744 | whoever is first in a settled queue waits for a lease that is held |
| `LeaseRuns.ApplyKeeps` | packages/wmfs/wmfs/memory/buffers.py:430-469 | every event keeps leases compatible, identities distinct and the queue settled |
| `LeaseRuns.RunKeeps` | packages/wmfs/wmfs/memory/buffers.py:430-469 | so does every run of requests, wake-ups, interrupts, releases and a close |
| `LeaseRuns.NoDeadlock` | packages/wmfs/wmfs/memory/buffers.py:728-759 | in every run of an open manager, a waiter means some lease is held |
| `LeaseRuns.ApplyAdvances` | packages/wmfs/wmfs/memory/buffers.py:728-769 | the number of earlier waiters and of holders on a waiter's keys never rises together, and falls at each blocking release |
| `LeaseRuns.BoundedWaiting` | packages/wmfs/wmfs/memory/buffers.py:728-769 | while a waiter waits, leases on its own keys are released at most as often as its rank was |
| `LeaseProgress.BurdenIsSum` | packages/wmfs/wmfs/memory/buffers.py:728-744 | a waiter's burden is its own rank and the burden of the waiter in front of it |
| `LeaseProgress.BurdenFalls` | packages/wmfs/wmfs/memory/buffers.py:728-769 | the ranks of a waiter and of all ahead of it sum to a burden that no event raises and that falls when a lease on one of their keys is released |
| `LeaseProgress.SomebodyHolds` | packages/wmfs/wmfs/memory/buffers.py:728-753 | while a request waits in an open manager, some lease is held that the first waiter cannot share and whose release lowers the burden |
| `LeaseProgress.NoStarvation` | packages/wmfs/wmfs/memory/buffers.py:728-769 | a waiter, also one only waiting behind others, outlasts at most as many such releases as its burden: no starvation |
| `LeaseRuns.NeverReturns` | packages/wmfs/wmfs/memory/buffers.py:430-469 | no event puts a request back into the queue |
| `LeaseRuns.OutForGood` | packages/wmfs/wmfs/memory/buffers.py:430-469 | a request neither queued nor granted is never queued or granted again, in any run |
| `LeaseRuns.InterruptRemovesOwnRequest` | packages/wmfs/wmfs/memory/buffers.py:462-468 | an interrupted request removes itself exactly when no equal request waits in front of it |
| `LeaseRuns.InterruptCanDropAnotherRequest` | packages/wmfs/wmfs/memory/buffers.py:462-468 | a run in which an interrupt removes somebody else's equal request, which no later run grants |
| `LeaseEffects.ReserveEffect` | packages/wmfs/wmfs/memory/buffers.py:430-469 | a request is granted at once exactly when it goes together with every lease and touches no key somebody waits for; otherwise it is last in the queue; nobody else is affected |
| `LeaseEffects.ReleaseEffect` | packages/wmfs/wmfs/memory/buffers.py:755-769 | a lease given back is gone whoever waits, every other lease stays, new leases are waiters', and the queue is served in order |
| `LeaseEffects.InterruptedHolder` | packages/wmfs/wmfs/memory/buffers.py:462-468 | an exception takes the lease from a caller that already has it, just as a release does |
| `LeaseEffects.InterruptedWaiter` | packages/wmfs/wmfs/memory/buffers.py:462-468 | otherwise exactly the first request equal to the caller's leaves the queue, which is served again |
| `LeaseEffects.InterruptedOther` | packages/wmfs/wmfs/memory/buffers.py:462-468 | with neither a lease nor such a request nothing changes |
| `LeaseEffects.WakeEffect` | packages/wmfs/wmfs/memory/buffers.py:453-460 | looking again changes nothing, unless the manager is closed and the caller leaves |
| `LeaseEffects.CloseEffect` | packages/wmfs/wmfs/memory/buffers.py:540-543 | closing takes no lease and drops nobody from the queue |
| `LeaseEffects.ServedIsUnique` | packages/wmfs/wmfs/memory/buffers.py:728-744 | serving the queue in order, as these rows say it, leaves one outcome |
| `LeaseEffects.ReserveThenRelease` | packages/wmfs/wmfs/memory/buffers.py:755-769 | a lease granted at once and given back leaves no trace: neither holder nor waiter |
| `LeaseManager.AccessManager.CollectAccesses` | packages/wmfs/wmfs/memory/buffers.py:436-448 | a request's keys with the stronger access of each |
| `LeaseManager.AccessManager.CanGrantAccess` | packages/wmfs/wmfs/memory/buffers.py:746-753 | the loop over a request's keys decides whether the held leases admit it |
| `LeaseManager.AccessManager.GrantAccessWaiters` | packages/wmfs/wmfs/memory/buffers.py:728-744 | the pass in place: states and queue become those of the specification's pass; a closed manager grants nothing |
| `LeaseManager.AccessManager.ReserveAccess` | packages/wmfs/wmfs/memory/buffers.py:430-469 | queues the request and runs a pass: all its keys at once or none, and at once exactly when no lease and no waiter is in the way |
| `LeaseManager.AccessManager.Resume` | packages/wmfs/wmfs/memory/buffers.py:453-460 | a woken waiter runs another pass, or fails on a closed manager |
| `LeaseManager.AccessManager.LeaveWait` | packages/wmfs/wmfs/memory/buffers.py:462-468 | an interrupted wait: a granted lease is released, else the first equal waiter is removed; then a pass |
| `LeaseManager.AccessManager.ReleaseAccess` | packages/wmfs/wmfs/memory/buffers.py:755-769 | the lease is gone, every other stays, and the queue is served in order from what is left |
| `LeaseManager.BufferAccessLease.Release` | packages/wmfs/wmfs/memory/buffers.py:178-185 | a second release of the same lease changes nothing |
| `Arena.Canonical` | packages/wmfs/wmfs/memory/buffers.py:656-699 | a sorted and coalesced free list is determined by the bytes it covers |
| `ArenaManager.FreeListDetermined` | packages/wmfs/wmfs/memory/buffers.py:656-699 | the free list is a function of what is live: allocating and releasing restores it |
| `ArenaManager.AllReleased` | packages/wmfs/wmfs/memory/buffers.py:685-696 | with nothing live the free list is the one whole block |
| `ArenaManager.GapIsUnused` | packages/wmfs/wmfs/memory/buffers.py:663-683 | a free block of enough bytes holds the range exactly when those bytes are used by nobody |
| `ArenaManager.TakenPartition` | packages/wmfs/wmfs/memory/buffers.py:663-682 | after an allocation free blocks and live extents still partition the arena |
| `ArenaManager.ReturnedPartition` | packages/wmfs/wmfs/memory/buffers.py:685-696 | after a release they do again |
| `ArenaManager.ArenaBuffers.Allocate` | packages/wmfs/wmfs/memory/buffers.py:656-683 | gives the lowest unused aligned range of the rounded size; fails exactly when there is none |
| `ArenaManager.ArenaBuffers.Release` | packages/wmfs/wmfs/memory/buffers.py:685-699 | gives the range back; the list stays sorted, aligned and coalesced |
| `ArenaManager.ArenaBuffers.Merge` | packages/wmfs/wmfs/memory/buffers.py:687-696 | joins touching blocks of a sorted list without changing what it covers |
| `Pool.NeverShared` | packages/wmfs/wmfs/memory/buffers.py:565-582 | two live allocations never share a region |
| `Pool.StaleHandlesFail` | packages/wmfs/wmfs/memory/buffers.py:133-135 | once a region is cached or handed out again every earlier handle fails its check |
| `Pool.ReuseIsSafe` | packages/wmfs/wmfs/memory/buffers.py:584-654 | a cached or reused region was retired by everybody who had mapped it |
| `PoolManager.BufferPool.Allocate` | packages/wmfs/wmfs/memory/buffers.py:565-582 | the last region cached for exactly this size, or a new one: open, of that size, mapped by nobody; the handle is current; every other region and list stays |
| `PoolManager.BufferPool.EnsureCurrent` | packages/wmfs/wmfs/memory/buffers.py:133-135 | never refuses a live allocation's own handle, and never passes one whose region is cached or was handed out again |
| `PoolManager.BufferPool.RegisterRecipient` | packages/wmfs/wmfs/memory/buffers.py:128-131 | a current handle puts the recipient among those of its region and nobody else anywhere, whatever became of its allocation; a stale one is refused and changes nothing |
| `PoolManager.CacheSafeExactly` | packages/wmfs/wmfs/memory/buffers.py:71-80 | resetting a region for reuse keeps the promises exactly when everybody the region knows of has retired it |
| `PoolManager.BufferPool.Drain` | packages/wmfs/wmfs/memory/buffers.py:480-497 | exactly the released allocations leave the active table, each once, and wait for reclaiming in the order of their releases; unknown ids are skipped |
| `PoolManager.BufferPool.NotifyRecipients` | packages/wmfs/wmfs/memory/buffers.py:584-604 | exactly the regions of a refusing recipient are lost, all others are retired by everybody, and nobody who refuses is taken to have retired |
| `PoolManager.BufferPool.CountCached` | packages/wmfs/wmfs/memory/buffers.py:636-643 | the count of cached regions is the number of regions in the free lists |
| `PoolManager.BufferPool.ReleaseNext` | packages/wmfs/wmfs/memory/buffers.py:609-654 | the first region is cached, with its next generation and mapped by nobody, exactly when it has not failed, the pool is open, a generation is left and there is room; otherwise it is closed; no other region changes |
| `PoolManager.BufferPool.Collect` | packages/wmfs/wmfs/memory/buffers.py:474-497 | exactly what died leaves the active table; its regions end closed where a recipient refused, and otherwise closed only for want of room or generations or on a closed pool, else cached |
| `PoolManager.BufferPool.Close` | packages/wmfs/wmfs/memory/buffers.py:540-550 | closes exactly the regions in the lists, empties the lists, and touches nothing else |
| `Ring.DoKeeps` | src/ring.cpp:156-160 | each load, copy, publish and close keeps counters, slots and both sides' knowledge consistent |
| `Ring.StepRefinesQueue` | src/ring.cpp:381-398 | every interleaved step is an enqueue, a dequeue or nothing of a bounded queue |
| `Ring.FullIsFull` | src/ring.cpp:381-392 | a push finds the ring full exactly when it is, though the consumer counter it loaded may be stale |
| `Ring.EmptyWasEmpty` | src/ring.cpp:445-453 | a pop finds the ring empty exactly when it was at the load |
| `Ring.TraceSafe` | src/ring.cpp:381-461 | so after every run of any interleaving |
| `Ring.ReachableFifo` | src/ring.cpp:381-461 | records come out once, in order and unmodified; no unread slot is overwritten; the impossible-counters check never fires |
| `Ring.SlotsDiffer` | src/ring.cpp:381-398 | two unread records never share a slot |
| `RingWakeups.NoLostWakeup` | src/ring.cpp:399-414 | a sleeping consumer with a record published, or either side after a close, always has an event pending or a peer about to write it |
| `RingWakeups.SpaceWakeupLost` | src/ring.cpp:445-461 | with a native consumer and two slots or more a producer can sleep on with a slot free |
| `RingWakeups.SpaceWakeupExactly` | src/ring.cpp:445-477 | space is never missed exactly when the consumer is the Python one or the capacity is 1 |
| `RingClosing.PushReturns` | src/ring.cpp:399-414 | a push carries its caller's record until it publishes exactly that, and returns only then, on a closed ring or at its deadline |
| `RingClosing.PopReturns` | src/ring.cpp:462-477 | a pop hands over the front of the queue, or returns empty-handed only on a closed ring it found empty or at its deadline |
| `RingClosing.CloseEffect` | src/ring.cpp:218-223 | a close is for good, and each closer sets both events |
| `RingClosing.ClosedCallsEnd` | src/ring.cpp:399-414 | in every reachable state of a closed ring a call under way gets nearer to its return with each of its moves, and one asleep is woken by an event set or by a closer about to set it |
| `RingClosing.NativeRefusesWhenClosed` | src/ring.cpp:381-384 | the native producer publishes nothing it is given after a close, in any run |
| `RingClosing.PythonPushesWhenClosed` | packages/wmfs/wmfs/transport/ring.py:557-576 | the Python producer publishes on a closed ring whenever there is room |
| `Dispatcher.ReplyMatchesExactly` | src/reference_worker.cpp:877-889 | the worker's reply passes the identity check exactly when the command is not a shutdown |
| `Dispatcher.ReplyAnswers` | src/reference_worker.cpp:877-913 | the reply names its command, says OK, operation error or internal error as the execution ended, carries what it left, and names planned outputs only of a plan that finished |
| `Dispatcher.CheckedExactly` | src/native_session.cpp:268-279 | a completion passes the check exactly if the worker could send it for the command, but for two unused statuses and planned outputs of a failed plan |
| `Dispatcher.ChecksPass` | src/native_session.cpp:262-280 | until a failure the completion the dispatcher holds is pending and passes its check |
| `Dispatcher.DoKeeps` | src/native_session.cpp:232-408 | every critical section and ring operation keeps order, identity, places and outcomes consistent |
| `DispatcherRuns.GoodRun` | src/native_session.cpp:232-408 | so does every interleaving of callers, worker, dispatcher and close |
| `DispatcherRuns.ExactlyOnePlace` | src/native_session.cpp:298-374 | until a failure a pending submission is in exactly one place, and nothing else is anywhere |
| `DispatcherRuns.OwnReplies` | src/reference_worker.cpp:869-921 | a completed caller got the reply to its own command, with the status, body and planned outputs of that very execution, and replies are resolved in the order of publication |
| `DispatcherRuns.CommandsAreAsked` | src/native_session.cpp:299-328 | submissions are numbered in their order and each command is recorded as its caller made it, with the profile bit as asked |
| `DispatcherRuns.RecordsEffect` | src/reference_worker.cpp:887-904 | what is recorded as executed is what the worker did with the command it held |
| `DispatcherRuns.CloseEffect` | src/native_session.cpp:477-500 | closing closes the rings and nothing else |
| `DispatcherRuns.OneOutcome` | src/native_session.cpp:366-379 | a caller has one outcome for good, and its command never changes |
| `DispatcherRuns.FailureIsFinal` | src/native_session.cpp:232-250 | after the first failure nothing is pending and every submission is refused |
| `DispatcherRuns.FirstFailure` | src/native_session.cpp:252-296 | the ring fails first because a caller gave up or the session closed, never over a reply's identity |
| `DispatcherRuns.PendingMoves` | src/native_session.cpp:252-374 | while the ring works every pending submission, on an open or closed session, has somebody who can move along without a deadline |
| `DispatcherRuns.WaitingIsServed` | src/native_session.cpp:366-379 | a sleeping caller is always owed a step that needs nobody's deadline |
| `DispatcherRuns.WaitingEnds` | src/native_session.cpp:298-379 | once nobody submits, closes or loses patience, every run from any reachable state is bounded and goes on until the threads rest; then each caller has returned, or waits for its deadline because the ring of a failed session has no room |
| `DispatcherRuns.QuietMeansAnswered` | src/native_session.cpp:298-379 | with the session open, when nothing more can happen every caller has its own reply, with the status and contents of its execution |
| `DispatcherRuns.RunsEnd` | src/native_session.cpp:232-379 | a run is no longer than its submissions and closes account for: no livelock |
| `DispatcherRuns.OneRoundTrip` | src/native_session.cpp:299-408 | nine steps take any first submission, however it executes, to the worker and back to its caller |
| `MappingTables.WorkerCache.Map` | src/reference_mapped_buffers.cpp:171-210 | accepted exactly when the descriptor has the entry's size and the buffer is unmapped, or mapped so that the entry's own lookup finds it; then lookups find it, and no other mapping changes |
| `MappingTables.WorkerCache.Retire` | src/reference_mapped_buffers.cpp:212-234 | accepted exactly when the buffer is unmapped or mapped, outside the arena, with that generation and allocation; then it is unmapped; a refusal changes nothing |
| `MappingTables.WorkerCache.Receive` | src/reference_mapped_buffers.cpp:420-446 | accepted exactly when every MAP has a descriptor of its size and no entry is refused; then all are applied in order, otherwise the cache is emptied |
| `MappingTables.WorkerCache.FinishInvocation` | src/reference_mapped_buffers.cpp:339-358 | exactly the invocation's own pooled writable mappings go |
| `MappingTables.HostMappings.Request` | src/native_session.cpp:561-578 | an entry is sent exactly when the buffer is not recorded with enough access: the map, behind a retirement of what is recorded; then the request is what is recorded, and nothing else changed |
| `MappingTables.HostMappings.MapBuffers` | src/native_session.cpp:554-585 | the batch and the needed flags of a whole list |
| `MappingTables.HostMappings.CollectActive` | src/native_session.cpp:593-603 | a retirement names recorded mappings other than the arena |
| `MappingTables.HostMappings.Erase` | src/native_session.cpp:607-612 | acknowledged retirements leave the table |
| `MappingTables.HostMappings.DropInvocation` | src/native_session.cpp:380-390 | a completed invocation's own pooled writable mappings leave the table |
| `MappingTables.ApplyPieces` | src/native_session.cpp:410-438 | applying a list in pieces is applying it whole |
| `MappingMirror.AllRequests` | src/native_session.cpp:554-585 | no batch of allowed requests is refused, and the tables mirror one another after it |
| `MappingMirror.RetirementsAccepted` | src/native_session.cpp:593-612 | no retirement of recorded mappings is refused, even of one already gone |
| `MappingMirror.DoKeeps` | src/native_session.cpp:380-390 | every step of leases, maps, completions, aborts, retirements and reuse keeps the mirror; a batch is one step, as the next rows allow |
| `MappingEffects.MapAllEffect` | src/native_session.cpp:554-591 | after mapping every requested buffer is found for its invocation and registered for retirement, and nobody else's claim changes |
| `MappingEffects.RetireAllEffect` | src/native_session.cpp:593-612 | a retired buffer is mapped on neither side and every other mapping stays |
| `MappingEffects.AbortEffect` | src/native_session.cpp:615-625 | an aborted invocation owns nothing and every other mapping stays |
| `MappingEffects.FinishEffect` | src/reference_mapped_buffers.cpp:339-358 | the worker forgets exactly what the finished invocation owned |
| `MappingEffects.CompleteEffect` | src/native_session.cpp:380-390 | the host forgets exactly what the completed invocation owned |
| `MappingEffects.EndEffect` | src/native_session.cpp:615-625 | the end of an invocation frees exactly its leases |
| `MappingEffects.RecycleEffect` | packages/wmfs/wmfs/memory/buffers.py:71-80 | a buffer starts its next generation unmapped |
| `MappingEffects.ClaimsEffect` | src/native_session.cpp:554-591 | creating, beginning, leasing and dispatching touch no mapping |
| `MappingEffects.FoundUntilEnd` | src/reference_mapped_buffers.cpp:236-258 | what an invocation mapped is found in every state until it ends, whatever others do |
| `MappingEffects.FirstMapping` | src/native_session.cpp:554-591 | a run in which a first invocation leases, maps and finds a new buffer |
| `MappingInterleaving.BatchInterleaves` | src/reference_mapped_buffers.cpp:420-446 | however a batch's entries interleave with the worker finishing other invocations, none is refused and the cache ends as after the whole batch and then the finishes |
| `MappingInterleaving.LookupsMeanwhile` | src/reference_mapped_buffers.cpp:236-258 | at every moment of a batch, what any other running invocation mapped, planning or dispatched, lies in the cache untouched |
| `MappingMirror.MirrorHolds` | src/native_session.cpp:554-625 | in every reachable state nothing was refused and the tables agree, up to completions on their way |
| `MappingMirror.LookupsSucceed` | src/reference_mapped_buffers.cpp:236-258 | what a running invocation mapped is found: mapped, current, writable and its own where it writes |
| `MappingMirror.NothingLeftBehind` | src/native_session.cpp:615-625 | an invocation that ended owns no mapping on either side |
| `MappingMirror.OwnerIsAlone` | src/reference_mapped_buffers.cpp:252-258 | while a pooled writable mapping exists its owner alone holds leases on the buffer |
| `MappingMirror.UpgradeAcceptedExactly` | src/reference_mapped_buffers.cpp:212-234 | an upgrade is accepted exactly when the recorded mapping is not an arena |
| `Wire.LoadPacked` | src/control.cpp:9-34 | a stored little-endian field reads back |
| `Wire.PackedFromLoads` | src/control.cpp:9-34 | bytes whose fields all read as given are those fields stored |
| `Wire.Store` | src/control.cpp:21-34 | stores one field and keeps what lies before it |
| `FdBatch.DecodesExactly` | src/control.cpp:254-301 | a packet is accepted exactly when it is the encoding of a valid batch that fits, and yields that batch |
| `FdBatch.ReadsEncoded` | src/control.cpp:254-301 | a packet that reads as a batch is its encoding, byte for byte |
| `FdBatch.EncodedReads` | src/control.cpp:209-252 | an encoded batch reads back whole |
| `FdBatch.CheckEntries` | src/control.cpp:219-232 | kinds, flags and the number of maps are checked entry by entry |
| `FdBatch.EncodeBatch` | src/control.cpp:209-252 | the buffer holds the encoding; invalid batches and short buffers are refused exactly |
| `FdBatch.DecodeBatch` | src/control.cpp:254-301 | the decoder's loop computes the decoding |
| `FdPipeline.HeardAsMeant` | src/reference_mapped_buffers.cpp:423-440 | an entry sent is the entry the worker understands |
| `FdPipeline.OnTheWire` | src/native_session.cpp:151-169 | kinds, flag bits and names of an entry as the protocol fixes them |
| `FdPipeline.ValidIsSendable` | src/control.cpp:219-232 | an entry is valid exactly if the host could send it, but for longer generations and invocations named in retirements |
| `FdPipeline.AlwaysEncodes` | src/native_session.cpp:147-183 | 1 to 240 entries always make a batch the encoder accepts |
| `FdPipeline.DescriptorsMatch` | src/reference_mapped_buffers.cpp:421-438 | each MAP entry gets the descriptor of its place among the MAP entries, every other entry none |
| `FdPipeline.DescriptorsUsedOnce` | src/reference_mapped_buffers.cpp:421-438 | every descriptor goes to one MAP entry and to no second one |
| `FdPipeline.Transfer` | src/native_session.cpp:147-183 | one packet, encoded and decoded, delivers its entries and descriptors |
| `FdPipeline.TransferBatched` | src/native_session.cpp:410-438 | the packets deliver exactly the list, the k-th MAP with the k-th descriptor, under consecutive ids, in as few packets as 240 allows |
| `FdPipeline.SplittingIsInvisible` | src/native_session.cpp:410-438 | the worker's table ends where the unsplit list would leave it |
| `Views.AcceptedExactly` | packages/wmfs-plugin/wmfs_plugin/fd_transport.py:335-362 | a sound view is accepted exactly when every element of every index lies inside its declared range |
| `Views.AcceptedIsSafe` | packages/wmfs-plugin/wmfs_plugin/fd_transport.py:335-362 | every element of an accepted view is aligned and inside the mapping |
| `Views.CheckedAdd` | src/reference_mapped_buffers.cpp:87-92 | 64-bit addition that refuses overflow |
| `Views.CheckedMultiply` | src/reference_mapped_buffers.cpp:94-99 | 64-bit multiplication that refuses overflow |
| `Views.CheckShape` | src/reference_mapped_buffers.cpp:260-291 | the native form checks are the Python ones and dimensions of at most 63 bits |
| `Views.CheckRange` | src/reference_mapped_buffers.cpp:304-324 | overflow-checked range arithmetic decides as unbounded arithmetic does |
| `Views.AcceptsFromRing` | src/reference_worker.cpp:757-775 | on everything a ring record can carry, the native checks accept exactly what the unbounded ones accept |
| `Views.AcceptsNatively` | src/reference_mapped_buffers.cpp:260-324 | the native lookup itself, whose dimensions are unsigned, accepts exactly that and dimensions of at most 63 bits |
| `Views.HugeDimension` | src/reference_mapped_buffers.cpp:281-285 | a descriptor no ring record carries, on which the two validators differ |
| `Views.SizesAreWidths` | packages/wmfs/wmfs/memory/buffers.py:23-28 | element sizes are the bit widths of the types, and divide the alignment of allocations |
| `RecentKeys.RecencyOrdered` | src/reference_mapped_buffers.cpp:293-300 | keys are kept in the order of their last use |
| `RecentKeys.HitRefreshes` | src/reference_mapped_buffers.cpp:293-300 | moving a hit to the back is what its use does to the latest keys |
| `RecentKeys.MissAppends` | src/reference_mapped_buffers.cpp:332-335 | appending a miss and dropping the front is what its use does |
| `ViewCache.CachedMapping.TensorNatively` | src/reference_mapped_buffers.cpp:269-336 | a lookup gives what no cache would give, for a ring record what the Python lookup gives, and a tensor whose every element is the checked view's; the list is the 64 most recently used accepted keys |
| `ViewCache.CachedMapping.TensorInPython` | packages/wmfs-plugin/wmfs_plugin/fd_transport.py:187-234 | the same for the Python cache, which counts in elements of the whole mapping |
| `ViewCache.HandedOut` | src/reference_mapped_buffers.cpp:326-331 | the tensor handed out has the view's shape and type, and at every index the element the view has there: aligned and inside the mapping |
| `Layout.ElementCount` | packages/wmfs/wmfs/memory/buffers.py:776-780 | the loop computes the product of the dimensions |
| `Layout.ContiguousStrides` | packages/wmfs/wmfs/memory/buffers.py:783-787 | the k-th stride is the product of the dimensions after it |
| `Layout.RowMajorIsOneToOne` | packages/wmfs/wmfs/memory/buffers.py:783-787 | row-major strides map index tuples one-to-one onto 0 .. count-1 |
| `Layout.DistanceIsFlat` | packages/wmfs/wmfs/memory/buffers.py:311-315 | an element's byte distance is its number times the element size |
| `Layout.Empty` | packages/wmfs/wmfs/memory/buffers.py:303-353 | a new tensor is refused exactly without dimensions or with one that is not positive; its byte length is one element and the span, its elements lie in the order of their numbers; the worker's validator accepts it exactly when it has at most 16 dimensions |
| `Layout.Managed` | packages/wmfs/wmfs/memory/buffers.py:374-416 | a view is refused exactly when it has a negative stride or leaves its allocation; otherwise the descriptor has every element where the host has it and ends with the last; the worker's validator accepts it exactly when it has 1 to 16 dimensions, all positive |
| `SharedTensors.SameElements` | packages/wmfs/wmfs/memory/buffers.py:374-416 | the worker's tensor for a described view is the host's: same shape and type, every element at the same place, inside the allocation |
| `Layout.SeventeenDimensions` | packages/wmfs-plugin/wmfs_plugin/fd_transport.py:343-350 | a new tensor of seventeen dimensions, described and then refused |
| `Layout.ScalarAndEmptyView` | packages/wmfs-plugin/wmfs_plugin/fd_transport.py:343-350 | a view without dimensions and one without elements, described and then refused |
| `LogQueue.TopIsUnique` | packages/wmfs-plugin/wmfs_plugin/logging.py:177-199 | the capacity greatest records by level and arrival, in arrival order, are one definite queue |
| `LogQueue.LowestGivesWay` | packages/wmfs-plugin/wmfs_plugin/logging.py:189-197 | replacing the first of the lowest keeps the greatest |
| `LogQueue.NewcomerIsTooLow` | packages/wmfs-plugin/wmfs_plugin/logging.py:189-197 | a newcomer below all of a full queue is not among the greatest |
| `LogQueue.FindLowest` | packages/wmfs-plugin/wmfs_plugin/logging.py:189-192 | the first of the records of the lowest level |
| `LogQueue.LogSink.Enqueue` | src/reference_worker.cpp:78-98 | the queue holds the greatest of what it held after the last pop and what came since; every record is queued, popped or counted |
| `LogQueue.LogSink.TakeNext` | src/reference_worker.cpp:106-119 | pops the oldest and reports the drops; at the end everything was popped or reported, exactly unless records came to a sink without capacity |
| `LogQueue.AsyncLogger.Log` | packages/wmfs-plugin/wmfs_plugin/logging.py:165-199 | the same for the Python logger; a record is counted exactly when there is capacity |
| `LogQueue.AsyncLogger.EndDelivery` | packages/wmfs-plugin/wmfs_plugin/logging.py:252-278 | a failed delivery counts as dropped along with what it was to report |
| `Utf8.DecodeEncode` | src/control.cpp:36-68 | a text's encoding decodes to the text |
| `Utf8.EncodeDecode` | src/control.cpp:36-68 | bytes that decode encode back to themselves |
| `Utf8.ValidUtf8` | src/control.cpp:36-68 | accepts exactly the encodings of texts |
| `Utf8.PrefixIsLongest` | packages/wmfs-plugin/wmfs_plugin/log_codec.py:50-54 | the kept prefix fits and one more character would not |
| `Utf8.CutIsPrefix` | packages/wmfs-plugin/wmfs_plugin/log_codec.py:50-54 | cutting at any byte and decoding leniently leaves the longest prefix that fits |
| `Utf8.ShortenText` | packages/wmfs-plugin/wmfs_plugin/log_codec.py:50-54 | the bytes of that prefix, and whether anything was cut |
| `Utf8.PrefixSize` | src/reference_worker.cpp:178-185 | stepping back over continuation bytes ends at that prefix |
| `LogCodec.KeepsPrefix` | packages/wmfs-plugin/wmfs_plugin/log_codec.py:75-114 | fields are a prefix with names cut to 255 bytes and at most the last text shortened; lost says whether anything is missing |
| `LogCodec.KeepsWhatFits` | packages/wmfs-plugin/wmfs_plugin/log_codec.py:75-114 | not one field and not one character of a text more would have fitted |
| `LogCodec.TruncatedExactly` | packages/wmfs-plugin/wmfs_plugin/log_codec.py:115-115 | with no flags beforehand the record is marked truncated exactly when something was lost |
| `LogCodec.TextsAreLongest` | packages/wmfs-plugin/wmfs_plugin/log_codec.py:66-74 | category and message are the longest prefixes that fit |
| `LogCodec.WorkerToRuntime` | packages/wmfs/wmfs/logging.py:208-294 | a packet never exceeds the limit the collector drops by, and decodes, to the shortened record, exactly when among the fields kept no name is empty and no two are alike once cut to 255 bytes |
| `LogCodec.ShortNamesAccepted` | packages/wmfs-plugin/wmfs_plugin/log_codec.py:75-82 | a record whose names are distinct, not empty and at most 255 bytes long always arrives |
| `LogCodec.NamelessFieldLosesRecord` | packages/wmfs/wmfs/logging.py:240-283 | a record with a nameless field, encoded and then refused |
| `LogCodec.LookalikeNamesLoseRecord` | packages/wmfs/wmfs/logging.py:240-283 | a record with two names that differ only after 255 bytes, encoded and then refused |
| `LogCodec.RecordReadsBack` | packages/wmfs/wmfs/logging.py:208-294 | a record within the limits reads back exactly when no name is empty or used twice |
| `LogCodec.KeepFields` | packages/wmfs-plugin/wmfs_plugin/log_codec.py:75-114 | the encoder's loop keeps those fields and lays them out |
| `LogCodec.EncodeRecord` | packages/wmfs-plugin/wmfs_plugin/log_codec.py:57-141 | the packet of the shortened record, or refusal exactly for invalid levels, limits, values and flags and for counters beyond 64 bits |
| `LogCodec.ReadFields` | packages/wmfs/wmfs/logging.py:240-283 | the decoder's loop over the fields |
| `LogCodec.ReadRecord` | packages/wmfs/wmfs/logging.py:208-294 | the strict decoder |
| `Struct.UnpackPacked` | packages/wmfs/wmfs/transport/ring.py:240-255 | values that fit their widths come back when unpacked, whatever bytes follow |
| `Struct.SignedUnsigned` | packages/wmfs/wmfs/transport/ring.py:296-297 | two's complement gives an integer back exactly when it is a signed 64-bit one |
| `RingRecord.RegionsCover` | packages/wmfs/wmfs/transport/ring.py:46-60 | every byte of the 16384 lies in one header, slot, profile, error or reserved region and in no other |
| `RingRecord.RegionsApart` | packages/wmfs/wmfs/transport/ring.py:46-60 | no byte belongs to two regions, and no region leaves the record |
| `RingRecord.SlotsInPlace` | packages/wmfs/wmfs/transport/ring.py:256-315 | every tensor, scalar and output lies in the region of its own number |
| `RingLayout.HeaderFields` | inc/wmfs/protocol/ring.h:186-198 | identity, status and counts lie at the offsets of the C structure |
| `RingLayout.TensorFields` | inc/wmfs/protocol/ring.h:115-129 | so do a tensor's handle, range, type, role, dimensions and strides, unused dimensions being zero |
| `RingLayout.ScalarFields` | inc/wmfs/protocol/ring.h:131-139 | and a scalar's parameter, kind, bits and text |
| `RingLayout.OutputFields` | inc/wmfs/protocol/ring.h:141-148 | and a planned output's type, number and dimensions |
| `RingLayout.ErrorFields` | inc/wmfs/protocol/ring.h:109-113 | and the error's texts, each with its own flag set exactly when it was cut |
| `RingRecord.TensorReadsBack` | packages/wmfs/wmfs/transport/ring.py:256-284 | a tensor slot reads back as the tensor, strides and padding included |
| `RingRecord.ScalarReadsBack` | packages/wmfs/wmfs/transport/ring.py:285-307 | a scalar slot reads back as the scalar, integers reduced to 64 bits |
| `RingRecord.DecodesExactly` | packages/wmfs/wmfs/transport/ring.py:334-461 | an encoded record is read under its own generation only, and exactly when each error text fits its limit or is cut between two characters |
| `RingRecord.RoundTrip` | packages/wmfs/wmfs/transport/ring.py:234-461 | it comes back unchanged exactly when both error texts fit and every integer scalar is a signed 64-bit one |
| `RingRecord.MessageLost` | packages/wmfs/wmfs/transport/ring.py:319-330 | a completion with a message of 1025 bytes that is encoded and cannot be read |
| `RingCodec.Write` | packages/wmfs/wmfs/transport/ring.py:329-330 | stores bytes behind the part in use, with zeros between and after |
| `RingCodec.EncodeRecord` | packages/wmfs/wmfs/transport/ring.py:234-331 | the buffer filled table by table is the record's bytes; refusal exactly of invalid identities, counts, ranks, kinds, lengths and ranges |
| `RingCodec.ReadSlots` | packages/wmfs/wmfs/transport/ring.py:357-437 | the loop over a table's slots reads the table |
| `RingCodec.DecodeRecord` | packages/wmfs/wmfs/transport/ring.py:334-461 | the strict decoder |
| `Sessions.DoKeeps` | packages/wmfs/wmfs/backends/isolated.py:155-265 | every critical section of acquire, create, use, evict and close keeps the accounts |
| `Sessions.OneCreationPerPlugin` | packages/wmfs/wmfs/backends/isolated.py:204-240 | at most one creation per plugin runs, and only while none is registered |
| `Sessions.CountIsExact` | packages/wmfs/wmfs/backends/isolated.py:155-173 | the in-flight count is the number of calls in progress; a registered session was never closed |
| `Sessions.ClosedMeansAllClosed` | packages/wmfs/wmfs/backends/isolated.py:175-202 | once closed, every session ever started has been closed and nobody uses or creates one |
| `Sessions.ClosedForGood` | packages/wmfs/wmfs/backends/isolated.py:204-240 | and none can appear later |
| `Sessions.SomebodyIsAwake` | packages/wmfs/wmfs/backends/isolated.py:175-217 | whoever sleeps, somebody is awake whose end wakes them: the creator, a user or creator the closing thread waits for, the closing thread, or for a second closer whoever that thread itself waits for |
| `SessionsServe.ServedOrRefused` | packages/wmfs/wmfs/backends/isolated.py:204-240 | in every run a call that asks for a session asks on, has the one registered, or is turned away, and that only by a closing backend or its own failed creation |
| `SessionsServe.EverybodyIsServed` | packages/wmfs/wmfs/backends/isolated.py:204-240 | while nobody closes, every call that does not fail to create has its session by the time it has ended |
| `SessionsServe.LookEffect` | packages/wmfs/wmfs/backends/isolated.py:204-217 | a look takes the registered session and counts the call, starts to create a missing one, or waits for its creator |
| `SessionsServe.PublishEffect` | packages/wmfs/wmfs/backends/isolated.py:226-240 | a created session is registered and used, or closed unseen on a closing backend |
| `SessionsServe.EvictEffect` | packages/wmfs/wmfs/backends/isolated.py:253-265 | a failed session leaves the table if it is still the one there; no other does |
| `SessionsServe.CloseEffect` | packages/wmfs/wmfs/backends/isolated.py:175-184 | the first close of an open backend closes it to everybody |
| `SessionsServe.CloseReturns` | packages/wmfs/wmfs/backends/isolated.py:175-202 | whoever closes returns only once everything is closed |
| `SessionsServe.FirstUse` | packages/wmfs/wmfs/backends/isolated.py:204-229 | a run in which a first call creates, registers and uses a session |
| `SessionsEnd.EndWakesAll` | packages/wmfs/wmfs/backends/isolated.py:169-240 | when a thread stops using, creating or closing, nobody is asleep afterwards |
| `SessionsEnd.WorkFalls` | packages/wmfs/wmfs/backends/isolated.py:155-265 | every step but the start of a call leaves less to do |
| `SessionsEnd.CallsEnd` | packages/wmfs/wmfs/backends/isolated.py:155-265 | once no new calls come, every schedule is bounded and goes on until all calls have ended |

## Left out

- Memory mapping, file descriptors, sockets, poll and event system calls, and their failures: a region is a length, a descriptor an id, an event a count.
- Locks and condition variables: a critical section is one atomic step; `notify_all` makes every sleeper look again.
- Exceptions between allocating and recording a buffer, and a reset that fails.
- Tensors, kernels, autograd and digests; floats in records are 64-bit patterns.
- Submissions of a shutdown command: `Dispatcher` takes invoke, plan and ping commands only.
- Telling each failed submission of a ring failure is a separate step per submission; the failing thread itself may return before them.
- In `Dispatcher` a close of the session closes both rings in one step.
- Ring counters at their 64-bit end: a native producer stops, and the Python producer is taken to stop there too.
- `LeaseManager` resolves no tensors: the check that a tensor still belongs to its allocation is a caller's matter, and keys are arbitrary.
- `LeaseManager.AccessManager.GrantAccessWaiters`: a granted waiter is removed by its place in the queue, which its granted flag makes unambiguous.
- In `MappingMirror` aborting an invocation lists and retires its mappings in one step; nothing else touches them in between because the invocation still holds their write leases.
- `MappingInterleaving` lets the worker finish other invocations during a batch; steps that touch neither table, such as taking leases, come before or after it.
- `MappingTables` follows the native cache; the Python cache accepts a repeated request only if it equals the existing mapping in every field.
- `ViewCache.CachedMapping.TensorInPython`: the Python cache views the whole mapping as one tensor first, which its tensor library refuses when the mapping's size is no multiple of the element size; that refusal is not modelled.
- Element types outside the four both validators know, which both refuse before any view arithmetic.
- `PoolManager.BufferPool.Allocate`: random region ids and allocation ids are arbitrary fresh values given by the caller.
- `PoolManager.BufferPool.RegisterRecipient`: a collection is one call, so no recipient joins between the notification and the reset; `PoolManager.CacheSafeExactly` says what one would break.
- `Layout.Empty`: takes the offset and the room the allocator gives; the arena and the pool prove they do.
- `LogQueue` states the order by arrival for one logger; loggers made by `bind` copy the counters and are not modelled.
- Loggers are configured with a capacity of at least 1; only one constructed directly, or a worker started by hand, has none. `LogQueue` says what happens then.
- Negative values in unsigned fields of ring records, and texts with lone surrogates: the struct packing refuses the first, the text encoding the second.
- The native log writer's record layout, which takes no fields cut for room; the startup, acknowledgement and error frames of the control protocol, which have the shape of the batch codec.
- The interface compiler, manifest loader, configuration, registry, runtime open and close bookkeeping, metrics and profiling.
