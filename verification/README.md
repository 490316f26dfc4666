# LabStor verification

A Dafny 4.11 model of the core of LabStor, a shared-memory I/O runtime, with proofs of what it
guarantees and, where it guarantees less than it seems to, of exactly when it does.

- **Request protocol.** Clients, one server worker, one kernel worker and a device exchange
  requests over queue pairs. `Protocol` is the step relation of all four parties.
  `ProtocolInvariant`, `ProtocolMatching` and `ProtocolDevice` hold the invariants, `ProtocolSteps`
  and `ProtocolWitness` the runs that break them when buckets are scarce, `ProtocolReach` runs in
  which an I/O goes all the way, and `ProtocolSafety` the theorems over whole runs. `ProtocolPolling`
  ties the way an I/O is completed to its own submission. `KernelRing` shows
  that the kernel ring is the request ring in memory. `Worker` is the server's code itself: nested
  loops and the two resumable modules, each method proved to perform steps of the protocol while the
  others make the steps of any schedule.
- **The system in memory.** `ClientMemory` puts the clients' submission rings and completion maps
  under the protocol: when it refines the protocol, and what a batch client gets from this server.
  `ClientWitness` has the run that goes wrong at the wrap, and `MemorySafety` the exact theorems.
- **Queue pairs.** `RequestRing` and `RequestMap` are the submission ring with its 32-bit wrapping
  counters and the completion map that never compares ids. `QueuePair` is one client and one server
  over a pair, with the batch-then-wait client.
- **Two-lock ring.** `MpmcRing` has any number of producers and consumers, one memory access per step.
  `MpmcAnswers` says what the calls answer under every interleaving, and `MpmcAlone` what an
  undisturbed call does and what becomes of the ring when its counters wrap.
- **Shared hash map.** `Bit2Map` packs sixteen two-bit entries into a word. `SharedMap` and
  `SharedMapRuns` treat Set, Find and Remove one access at a time, and `SharedMapAnswers` says what
  they answer. `HashMap` and `HashMapLaws` show the map as a single caller sees it, `SharedMapAlone`
  that an undisturbed call does the same, and `HashMapSizing` its size arithmetic.
- **Memory.** `RingPool` is a fixed stock of items kept in a ring with wrapping counters.
  `PageLayout`, `PagePools` and `PageAllocator` cover the per-core page allocator with stealing and the
  views that processes have of it, `KernelQueues` the region carved for the kernel's queues beside it,
  and `BlockAllocator` the file system's block pools. `Words` and `Wrappers` are shared.

Results that a reader of the code might not expect. Here the window of a size is the size itself if
that divides 2^32, and otherwise the remainder of 2^32.

- Kernel completions are matched by id modulo the bucket count. Every request gets its own one in
  all runs exactly when there are no more client queues than the window of the bucket count. The
  kernel worker never finds a bucket taken exactly when the window is at least 2Q-1.
- The request ring is a FIFO for ever exactly when its depth divides 2^32, and the server completes
  client requests in order, each once, in all runs exactly then. The two-lock ring hands out its items
  in order in all runs exactly when its depth divides 2^32.
- A page or block pool kept in such a ring loses items after 2^32 operations unless it is no larger
  than the window of the ring's depth.
- The batch client gets its own requests from a server that completes in order exactly when the
  depth divides 2^32, or a batch fits the window, or batches divide 2^32. From a server that completes
  in any order a batch must also be no larger than the number of buckets. A batch of more than twice
  the depth never returns.
- Set of a stored key, and Remove behind a VALID bucket with another key, do not behave as on a map;
  the exact conditions are proved. A Find beside a Remove and a Set can read another key's value,
  exactly when two keys in use are probed for in one bucket.
- Offsets are stored in signed 32 bits: a region whose last page starts at 2^31 or later gets a wrong
  address for it. With tiny pages the ring's own size overflows and its pages overlap it. With more
  than 2^16 cores pages are freed to the wrong ring. Requests of different pages are disjoint exactly
  when the request size plus the page's own word stays below 2^32.
- With 2^28 small blocks the size of their ring overflows, and the ring of large blocks overlaps it.
- The last pages of the page allocator can lie past its region by up to the size of its header, and
  then overlap the first kernel queue. The exact condition is proved.

## Assumptions

- Memory is sequentially consistent, and each request ring has one producer and one consumer.
- Calls of the page allocator's and block allocator's operations do not overlap in time.
- Hash functions are arbitrary, and sizes of structures are parameters.
- True counts are kept in the model and reduced modulo 2^32 where the program uses them. What the
  calls of the two-lock ring answer is stated for runs whose counts have not wrapped or whose depth
  divides 2^32 (`Words.Cyclic`); that its items then stay in order, and otherwise do not, is exact, and
  so are the conditions of the others.
- Client requests are named by queue and position, since a page may be reused while its offset is
  still at the head of the ring.
- `AllocRequest` picks any free page, whether a kernel request is polled and whether its submission
  reached the device are arbitrary, and clients enqueue at any time.

## Model

| member | source | states |
|---|---|---|
| `RequestRing.StepRefines` | include/labstor/types/data_structures/c/shmem_request_ring_buffer.h:148-201 | One Enqueue, Peek or Dequeue on the ring with 32-bit counters answers as a bounded FIFO does and leaves a ring that represents the FIFO's new state |
| `RequestRing.RunRefines` | include/labstor/types/data_structures/c/shmem_request_ring_buffer.h:148-201 | Every sequence of operations on a new ring gets the FIFO's answers, when the depth divides 2^32 or the counters have not wrapped |
| `RequestRing.WrapLosesARequest` | include/labstor/types/data_structures/c/shmem_request_ring_buffer.h:148-165 | For every depth that does not divide 2^32, a run across the wrap whose last Dequeue returns a younger request than the FIFO's head |
| `RequestRing.FifoIffDepthDivides` | include/labstor/types/data_structures/c/shmem_request_ring_buffer.h:148-201 | The ring is a bounded FIFO in all runs if and only if its depth divides 2^32 |
| `RequestRing.PeekBehindHead` | include/labstor/types/data_structures/c/shmem_request_ring_buffer.h:172-185 | Peek(i) reads the i-th pending request |
| `RequestRing.WrappedEnqueue` | include/labstor/types/data_structures/c/shmem_request_ring_buffer.h:148-165 | With true counts kept beside the wrapped counters, Enqueue is refused iff the ring is full and writes the slot that the count selects |
| `RequestRing.WrappedDequeue` | include/labstor/types/data_structures/c/shmem_request_ring_buffer.h:172-201 | Likewise Peek and Dequeue read the slot that the count of taken requests selects, and are refused iff nothing is pending |
| `RequestRing.RequestRingBuffer.constructor` | include/labstor/types/data_structures/c/shmem_request_ring_buffer.h:106-135 | Init gives an empty ring of the given depth |
| `RequestRing.RequestRingBuffer.GetDepth` | include/labstor/types/data_structures/c/shmem_request_ring_buffer.h:98-100 | The difference of the wrapped counters is the number of pending requests |
| `RequestRing.RequestRingBuffer.Enqueue` | include/labstor/types/data_structures/c/shmem_request_ring_buffer.h:148-165 | The object's counters and array move as the ring model's Enqueue, with its refusal and the id it hands out |
| `RequestRing.RequestRingBuffer.Peek` | include/labstor/types/data_structures/c/shmem_request_ring_buffer.h:172-185 | Peek(0) is what the next Dequeue returns; Peek(i) is the i-th pending request |
| `RequestRing.RequestRingBuffer.Dequeue` | include/labstor/types/data_structures/c/shmem_request_ring_buffer.h:187-201 | The object moves as the ring model's Dequeue, with its refusal and its item |
| `RequestMap.RequestMapTable.constructor` | include/labstor/types/data_structures/c/shmem_request_map.h:90-117 | Init leaves every bucket invalid |
| `RequestMap.RequestMapTable.Set` | include/labstor/types/data_structures/c/shmem_request_map.h:133-140 | Succeeds iff the bucket of the id is free, and then changes that bucket only |
| `RequestMap.RequestMapTable.FindAndRemove` | include/labstor/types/data_structures/c/shmem_request_map.h:142-150 | Returns and clears whatever is in the bucket of the id, without comparing ids |
| `ProtocolInvariant.QueueInvStep` | src/userspace/server/worker.cpp:38-57 | Every step of any party keeps each queue in order: behind the head nothing has started, and what was completed is exactly what was dequeued |
| `ProtocolMatching.PendingAtMostQueues` | labmods/mq_driver/server/mq_driver_server.cpp:61-137 | The kernel ids not yet completed never outnumber the client queues |
| `ProtocolMatching.OwnCompletion` | include/labstor/types/data_structures/c/shmem_request_map.h:142-150 | When there are no more queues than ids with different buckets, what the server finds under its token is the page it sent under that token |
| `ProtocolMatching.MissMeansPending` | labmods/mq_driver/server/mq_driver_server.cpp:81-86 | A lookup that finds nothing means the kernel has not completed the id |
| `ProtocolMatching.RingHasRoom` | labmods/mq_driver/server/mq_driver_server.cpp:74-75 | While the server holds a request, fewer kernel ids are in the kernel ring than there are queues, so its Enqueue never finds the ring full |
| `ProtocolMatching.RingInvStep` | include/labstor/types/data_structures/c/shmem_request_ring_buffer.h:148-201 | Every step keeps what the kernel ring's slots hold: the pages sent and not taken, none overwritten, also across the wrap |
| `ProtocolMatching.MapInvStep` | include/labstor/types/data_structures/c/shmem_request_map.h:133-150 | Every step keeps the completion map in agreement with the queues that wait: each occupied bucket belongs to a waiting queue, each posted id is in its bucket |
| `ProtocolMatching.PageInvStep` | labmods/mq_driver/server/mq_driver_server.cpp:56-139 | Every step keeps each kernel request page free or owned by exactly the client request it was allocated for |
| `ProtocolDevice.InvStep` | labmods/mq_driver/kernel/mq_driver_kernel.c:463-683 | Every step of clients, server, kernel worker and device keeps the whole invariant, including the device flags |
| `ProtocolDevice.FinishedByDevice` | labmods/mq_driver/server/mq_driver_server.cpp:118-135 | When the server is about to complete a client I/O the device has finished that very request |
| `ProtocolDevice.FreedIsIdle` | labmods/mq_driver/server/mq_driver_server.cpp:118-135 | A kernel request that is being freed is not with the device |
| `ProtocolWitness.MixupRun` | include/labstor/types/data_structures/c/shmem_request_map.h:142-150 | For every configuration with too few buckets, from the first id on or across the wrap, a run in which a request is about to take another request's completion |
| `ProtocolWitness.SpinRun` | include/labstor/types/data_structures/c/shmem_queue_pair.h:176-184 | Likewise a run in which the kernel worker finds its bucket taken |
| `ProtocolSteps.QuietAfter` | src/userspace/server/worker.cpp:34-58 | For every number n, a run in which n client requests, each with a kernel request, have come and gone |
| `ProtocolSafety.MatchingIffEnoughBuckets` | include/labstor/types/data_structures/c/shmem_request_map.h:133-150 | In all runs every resumed request picks up its own kernel completion, if and only if the Q queues are no more than the buckets, or than the remainder of 2^32 if the buckets do not divide it; before the ids wrap, iff there are at least Q buckets |
| `ProtocolSafety.IdsAfterOutstanding` | src/userspace/server/worker.cpp:38-57 | At most 2(Q-1) kernel ids are issued after one that is still outstanding |
| `ProtocolSafety.NeverSpinsIffEnoughBuckets` | include/labstor/types/data_structures/c/shmem_queue_pair.h:176-184 | In all runs the kernel's Complete finds its bucket free, if and only if 2Q-1 is no more than the buckets, or than the remainder of 2^32 if they do not divide it; before the ids wrap, iff there are at least 2Q-1 buckets |
| `ProtocolSafety.KernelWorkerMoves` | labmods/work_orchestrator/kernel/work_orchestrator_kernel.c:100-125 | With that many buckets the kernel worker has its next step in all runs: it takes iff its ring is not empty, and it processes and posts whatever it took |
| `ProtocolSafety.CompletedOnceInOrder` | src/userspace/server/worker.cpp:34-58 | In all runs the requests of a queue are completed in enqueue order, each once, as long as the client ring hands them out in order (see CompletedInOrderIff) |
| `ProtocolSafety.CompletedAfterDevice` | labmods/mq_driver/kernel/mq_driver_kernel.c:463-486 | In all runs a client I/O is completed only after the device finished it |
| `ProtocolSafety.ExactlyOnePlace` | labmods/mq_driver/server/mq_driver_server.cpp:56-139 | In all runs each kernel request is in exactly one place: free, one ring position, the kernel worker, one bucket, or the server |
| `ProtocolSafety.FreedOnce` | labmods/mq_driver/server/mq_driver_server.cpp:118-135 | A kernel request being freed is in no ring, map or worker, not free already, and not with the device |
| `ProtocolSafety.AllocationSucceeds` | labmods/mq_driver/server/mq_driver_server.cpp:71-75 | With a page per queue, allocating a kernel request never fails |
| `ProtocolSafety.NothingIgnored` | labmods/mq_driver/server/mq_driver_server.cpp:60-139 | In all runs no request reaches its module with a code that the module does not know |
| `ProtocolSafety.IgnoredAreLost` | labmods/mq_driver/server/mq_driver_server.cpp:138-139 | Such a request would be dequeued without a completion, and nothing else would change |
| `ProtocolPolling.PollInvStep` | labmods/mq_driver/mq_driver.h:110-123 | Every step of any party keeps the flag of each page in agreement with what its current request's submission did, and the path of each request in agreement with that |
| `ProtocolPolling.SubmissionTells` | labmods/mq_driver/kernel/mq_driver_kernel.c:611-616 | In all runs a submission leaves its page's flag as the device's ability to poll, whatever the page was used for before, and is the first one of its client request |
| `ProtocolPolling.PathIsTheSubmissions` | labmods/mq_driver/server/mq_driver_server.cpp:89-101 | In all runs an I/O at code 2 is one whose own submission turned on polling, and an I/O at code 3 is one whose submission did not |
| `ProtocolPolling.CompletedByItsPath` | labmods/mq_driver/server/mq_driver_server.cpp:104-136 | A completed I/O has code 2 if its submission turned on polling and code 3 if not; a completed IPC test is back at code 0 |
| `ProtocolPolling.CompletedIfIssued` | labmods/mq_driver/kernel/mq_driver_kernel.c:576-654 | A client I/O is completed only if its own submission reached the device |
| `ProtocolReach.IosComplete` | labmods/mq_driver/server/mq_driver_server.cpp:56-139 | For every configuration that has a page there is a run in which an I/O is submitted, finished by the device and completed, one by interrupt and one by polling |
| `KernelRing.RunOfTheRing` | include/labstor/types/data_structures/c/shmem_request_ring_buffer.h:148-201 | Every run of the protocol is a run of the request ring in memory: counters, slots, answers and ids |
| `KernelRing.RefusesWhereBlocked` | include/labstor/types/data_structures/c/shmem_request_ring_buffer.h:148-201 | That ring refuses exactly where the protocol's steps are not enabled |
| `KernelRing.RingIsFifo` | include/labstor/types/data_structures/c/shmem_request_ring_buffer.h:148-201 | As long as ids can be told apart the kernel ring represents the FIFO of pages sent |
| `ClientMemory.EnqueueIsRingStep` | include/labstor/types/data_structures/c/shmem_request_ring_buffer.h:148-165 | A client's Enqueue is the operation of its ring in memory, refused iff it is blocked |
| `ClientMemory.PeekIsRingStep` | include/labstor/types/data_structures/c/shmem_request_ring_buffer.h:172-201 | The server takes in hand what Peek of that ring returns, and its Dequeue is the ring's |
| `ClientMemory.ReapIsMapStep` | include/labstor/types/data_structures/c/shmem_request_map.h:142-150 | A client's wait returns iff the bucket of its token is taken, with whatever is there, and frees the bucket |
| `ClientMemory.CompleteIsMapStep` | include/labstor/types/data_structures/c/shmem_request_map.h:133-140 | The server's Complete posts the request in hand, and waits iff its bucket is taken |
| `ClientMemory.LocalStep` | src/userspace/server/worker.cpp:38-57 | Every step of any party keeps a queue in order, with its slots intact and the oldest request in hand, if a client's Enqueue hits no slot in use |
| `ClientMemory.CompletedInOrder` | src/userspace/server/worker.cpp:34-58 | In all runs of the system in memory the requests of a queue are completed in order, each once, until its ids wrap, or for ever if the depth divides 2^32 |
| `ClientWitness.OutOfOrder` | src/userspace/server/worker.cpp:43-54 | If two pending requests share a slot, a run in which the server completes the later one in place of the oldest |
| `ClientWitness.CompletedInOrderIff` | src/userspace/server/worker.cpp:34-58 | In all runs the requests of every queue are completed in order, each once, if and only if the depth divides 2^32 |
| `ClientMemory.RefinesProtocol` | src/userspace/server/worker.cpp:34-58 | Until some queue's ids wrap, or for ever if the depth divides 2^32, every run in memory is a run of the protocol |
| `ClientMemory.BatchGetsItsOwn` | labmods/ipc_test/client/ipc_test_client.cpp:38-60 | End to end: a batch client of this server, beside any other clients, has its requests completed in order and gets its own from every wait, in all runs, if the wrap does no harm to its batches |
| `ClientMemory.LongBatchNeverReturns` | labmods/ipc_test/client/ipc_test_client.cpp:46-54 | For depths up to 2^31, a batch of more than twice the depth never returns: nothing is ever reaped and no more than twice the depth is ever sent |
| `MemorySafety.MatchingInMemory` | include/labstor/types/data_structures/c/shmem_request_map.h:133-150 | The exact condition for matching kernel completions, for the whole system in memory |
| `MemorySafety.NeverSpinsInMemory` | include/labstor/types/data_structures/c/shmem_queue_pair.h:176-184 | The exact condition for a kernel Complete that never waits, for the whole system in memory |
| `MemorySafety.CompletedAfterDeviceInMemory` | labmods/mq_driver/kernel/mq_driver_kernel.c:463-486 | In memory, too, a client I/O is completed only after the device finished it |
| `Worker.StartedKept` | src/userspace/server/worker.cpp:38-57 | A request that a module has started stays started or is dequeued, through any steps of any party |
| `Worker.ServerWorker.constructor` | src/userspace/server/worker.cpp:34-37 | The worker starts in an initial state of the protocol, with any schedule for the others |
| `Worker.OthersUndisturbed` | src/userspace/server/worker.cpp:34-58 | Any steps of clients, kernel worker and device leave the server's own state as it is |
| `Worker.ServerWorker.Interfere` | src/userspace/server/worker.cpp:34-58 | The others make the steps they are scheduled for |
| `Worker.ServerWorker.StartKernel` | labmods/mq_driver/server/mq_driver_server.cpp:71-76 | Sends a kernel request for the head in a page that was free: it is the next kernel id, the request waits at code 1 for that id, and the page is allocated for this request; stuck only without enough pages or buckets |
| `Worker.ServerWorker.SubmitCheck` | labmods/mq_driver/server/mq_driver_server.cpp:80-101 | Code 1: the request stays there, or goes to code 2 if its own submission turned on polling, or to code 3 if it did not, given enough buckets and pages |
| `Worker.ServerWorker.EnqueueKernel` | labmods/mq_driver/server/mq_driver_server.cpp:74-76 | Enqueue spins while the ring is full; then the page is the last one sent, carries the number of those before it, and the request at the head waits for that id with the new code |
| `Worker.ServerWorker.CompleteClient` | labmods/mq_driver/server/mq_driver_server.cpp:118-119 | Complete adds exactly the head request to the completions |
| `Worker.ServerWorker.FreeRequest` | labmods/mq_driver/server/mq_driver_server.cpp:119-120 | Freeing the kernel request completes and dequeues nothing |
| `Worker.ServerWorker.IsComplete` | labmods/mq_driver/server/mq_driver_server.cpp:81-86 | The lookup takes what is in the token's bucket, or moves on to the next queue |
| `Worker.ServerWorker.IO` | labmods/mq_driver/server/mq_driver_server.cpp:56-139 | The four-state module returns true exactly when it completed the request, and otherwise leaves it started at the head |
| `Worker.ServerWorker.PollCheck` | labmods/mq_driver/server/mq_driver_server.cpp:104-121 | Code 2: polls again until the device has finished, then completes once and frees |
| `Worker.ServerWorker.InterruptCheck` | labmods/mq_driver/server/mq_driver_server.cpp:124-136 | Code 3: waits for the interrupt flag, then completes once and frees |
| `Worker.ServerWorker.IPC` | labmods/ipc_test/server/ipc_test_server.cpp:39-79 | The two-state module obeys the same contract |
| `Worker.ServerWorker.ProcessRequest` | src/userspace/server/worker.cpp:51-51 | Whichever module the request names, the module contract holds |
| `Worker.ServerWorker.GetDepth` | src/userspace/server/worker.cpp:41-41 | The depth read bounds the inner loop and is positive if the queue had a head |
| `Worker.ServerWorker.PeekHead` | src/userspace/server/worker.cpp:43-43 | Peek succeeds whenever the queue had a head and turns are left; otherwise the worker goes to the next queue |
| `Worker.ServerWorker.Dequeue` | src/userspace/server/worker.cpp:52-54 | Dequeues exactly the completed head |
| `Worker.ServerWorker.HeadRequest` | src/userspace/server/worker.cpp:42-57 | One turn: the head is completed and dequeued, or left started |
| `Worker.ServerWorker.VisitQueue` | src/userspace/server/worker.cpp:39-58 | A visit is a path of protocol steps that completes as many requests as it dequeues and never leaves the head it found untouched |
| `Worker.ServerWorker.DoWork` | src/userspace/server/worker.cpp:34-58 | In every configuration a round is a path of protocol steps; if it finishes, every request that was at the head of any queue is dequeued or started, and with enough buckets and pages it finishes |
| `QueuePair.EnqueueIsRingStep` | include/labstor/types/data_structures/c/shmem_request_ring_buffer.h:148-165 | Enqueue is the operation of the submission ring in memory, blocked where that is refused |
| `QueuePair.TakeIsRingStep` | include/labstor/types/data_structures/c/shmem_request_ring_buffer.h:187-201 | Take is its Dequeue, blocked where that is refused, and yields what the slot holds |
| `QueuePair.StepsOfTheMap` | include/labstor/types/data_structures/c/shmem_request_map.h:133-150 | Complete and Reap are Set and FindAndRemove of the completion map |
| `QueuePair.MapBlocksIff` | include/labstor/types/data_structures/c/shmem_request_map.h:133-150 | Complete is blocked iff the bucket of the request is taken, and a wait iff the bucket of its token is free; ids are never compared |
| `QueuePair.NoRequestIsLost` | include/labstor/types/data_structures/c/shmem_request_ring_buffer.h:148-201 | Whatever client and server do, each request sent is once in the ring, with the server, in its bucket, or returned by one wait, until the ids wrap, or for ever if the size divides 2^32 |
| `QueuePair.NeverLostIff` | include/labstor/types/data_structures/c/shmem_request_ring_buffer.h:148-201 | That holds in all runs if and only if the size divides 2^32 |
| `QueuePair.DisciplineSuffices` | include/labstor/types/data_structures/c/shmem_queue_pair.h:151-214 | If tokens waited for never share a bucket, every wait returns its own request, each token once, and Complete never finds its bucket taken |
| `QueuePair.WrongRequest` | labmods/ipc_test/client/ipc_test_client.cpp:46-54 | If two ids of a turn share a bucket, a run in which waiting on the first returns the second |
| `QueuePair.BatchCorrectIff` | labmods/ipc_test/client/ipc_test_client.cpp:46-54 | With any server the batch client gets its own request from every wait in all runs, iff a batch is no larger than the size and the size divides 2^32, or a batch is no larger than the remainder, or batches divide 2^32 |
| `QueuePair.WrongInOrder` | labmods/ipc_test/client/ipc_test_client.cpp:46-54 | If two ids of a turn that can be in the ring together share a slot, a run in which a wait gets the wrong request even from a server that completes in order |
| `QueuePair.InOrderCorrectIff` | labmods/ipc_test/client/ipc_test_client.cpp:46-54 | With a server that completes in order the batch client gets its own requests in all runs, for every batch size, iff the size divides 2^32, or a batch is no larger than the remainder, or batches divide 2^32 |
| `MpmcRing.InvStep` | include/labstor/types/data_structures/shmem_ring_buffer.h:110-150 | Every memory access of every thread keeps locks, counters, slots and what each critical section relies on |
| `MpmcRing.NoSlotRace` | include/labstor/types/data_structures/shmem_ring_buffer.h:110-150 | No slot is written while another thread accesses it |
| `MpmcRing.SafeUnderInterleaving` | include/labstor/types/data_structures/shmem_ring_buffer.h:110-150 | Under every interleaving, while the wrap is invisible: the dequeued items are a prefix of the enqueued ones, depth stays within bounds despite stale reads, each lock is set iff one thread is inside, and what a check decides is what was true when the counters were read |
| `MpmcAnswers.AnswersAreRight` | include/labstor/types/data_structures/shmem_ring_buffer.h:110-150 | Every call that returns is answered rightly, under every interleaving: Enqueue refuses for a full ring only if the ring was full, and Dequeue for an empty one only if it was empty, at some moment of that call; a refusal for the lock means another call of its kind was inside; an accepted item is the next after those of earlier answers, under its own number; a dequeued item is the next in order |
| `MpmcAnswers.AnswersAccountForItems` | include/labstor/types/data_structures/shmem_ring_buffer.h:110-150 | When no call is under way, the items put in are exactly those of the Enqueues that returned true, in the order of their returns, and the items taken out exactly those that Dequeues returned |
| `MpmcAnswers.ReturnsAreLogged` | include/labstor/types/data_structures/shmem_ring_buffer.h:110-150 | A thread becomes idle exactly by returning from one call with an answer |
| `MpmcAnswers.CallsDoNotWait` | include/labstor/types/data_structures/shmem_ring_buffer.h:110-150 | Every access of its own brings a call closer to its return, whatever the other threads do, and at most seven remain |
| `MpmcAlone.EnqueueAlone` | include/labstor/types/data_structures/shmem_ring_buffer.h:110-127 | A call nobody disturbs adds its item in the slot of its count, under that number, iff the ring is not full, and releases its lock; also across the wrap |
| `MpmcAlone.DequeueAlone` | include/labstor/types/data_structures/shmem_ring_buffer.h:134-150 | A call nobody disturbs returns what the slot of its count holds iff the ring is not empty, and releases its lock; also across the wrap |
| `MpmcAlone.TakesTheOldest` | include/labstor/types/data_structures/shmem_ring_buffer.h:134-150 | While the wrap is invisible, what that slot holds is the oldest item not taken |
| `MpmcAlone.InOrderIffDepthDivides` | include/labstor/types/data_structures/shmem_ring_buffer.h:110-150 | In all runs of any number of threads items come out in order, none lost or repeated, if and only if the depth divides 2^32 |
| `MpmcAlone.ComesOutWrong` | include/labstor/types/data_structures/shmem_ring_buffer.h:110-150 | For any two counts that can be pending together and share a slot, a run in which the younger item comes out first |
| `Bit2Map.UpdatesOwnLane` | include/labstor/types/data_structures/bit2map.h:82-152 | What each of the four updates leaves in its own entry |
| `Bit2Map.TestEmptyReadsLane` | include/labstor/types/data_structures/bit2map.h:88-94 | BeginModify's mask test holds iff the entry is empty |
| `Bit2Map.TestRemovableReadsLane` | include/labstor/types/data_structures/bit2map.h:130-136 | BeginRemove's mask test holds iff the entry is VALID and not BEING_SET |
| `Bit2Map.TestValidReadsLane` | include/labstor/types/data_structures/bit2map.h:68-72 | IsSet(VALID) holds iff the entry is VALID, owned by a remover or not |
| `Bit2Map.UpdateKeepsOthers` | include/labstor/types/data_structures/bit2map.h:82-156 | Replacing a word by any update of one entry leaves all other entries of the bitmap as they were |
| `SharedMap.EntryStep` | include/labstor/types/data_structures/bit2map.h:82-156 | A step of any thread changes at most the entry of its own compare-and-exchange, and in the way its program point says |
| `SharedMap.EntriesMoveInOrder` | include/labstor/types/data_structures/bit2map.h:82-156 | Entries move only 00, 10, 01, 11, then 00 or 01 |
| `SharedMap.LockInvStep` | include/labstor/types/data_structures/bit2map.h:82-156 | Every step keeps each entry a lock with at most one holder, held iff BEING_SET |
| `SharedMap.DataInvStep` | include/labstor/types/data_structures/unordered_map/shmem_unordered_map.h:108-158 | Every step keeps VALID buckets fully written and inside the probe window of their key |
| `SharedMap.ValidIsImmutable` | include/labstor/types/data_structures/unordered_map/shmem_unordered_map.h:108-158 | No step changes a VALID bucket |
| `SharedMap.SafeUnderInterleaving` | include/labstor/types/data_structures/unordered_map/shmem_unordered_map.h:108-158 | In all runs: one thread at a time between Begin and Commit, BEING_SET iff some thread is, and each VALID bucket holds the whole item of one completed Set within its probe window |
| `SharedMapAnswers.AnswersAreRight` | include/labstor/types/data_structures/unordered_map/shmem_unordered_map.h:108-158 | Every answer of every concurrent call is right. Set true: a bucket of the key's window becomes VALID with the item, and all slots before it were seen taken. Set false: all slots of the window were seen taken. Find with a value: it is that of a bucket of the window seen VALID and seen with the key. Find false: all slots of the window were seen without the key. Remove true: a VALID bucket with the called key is cleared. Remove false: it turned away from VALID buckets of other keys as often as there are probes. Before its bucket a Remove saw every bucket not VALID or being removed. Seen means at some moment of the call |
| `SharedMapAnswers.AnswersAccountForBuckets` | include/labstor/types/data_structures/unordered_map/shmem_unordered_map.h:108-158 | In all runs the VALID buckets that hold a key are as many as the Sets of that key that returned true less the Removes of it that did |
| `SharedMapAnswers.ClearedByItsRemove` | include/labstor/types/data_structures/unordered_map/shmem_unordered_map.h:138-158 | A VALID bucket is cleared only by a Remove that was called with the bucket's key, which then returns true |
| `SharedMapAnswers.StoredByItsSet` | include/labstor/types/data_structures/unordered_map/shmem_unordered_map.h:108-121 | A bucket becomes VALID only by a Set that was called with what it holds, which then returns true |
| `SharedMapAnswers.FindDoesNotMiss` | include/labstor/types/data_structures/unordered_map/shmem_unordered_map.h:123-137 | A Find during which one bucket of the window stays VALID with the key returns a value |
| `SharedMapAnswers.SetDoesNotFail` | include/labstor/types/data_structures/unordered_map/shmem_unordered_map.h:108-121 | A Set during which one bucket of the window stays free stores its item |
| `SharedMapAlone.SetAlone` | include/labstor/types/data_structures/unordered_map/shmem_unordered_map.h:108-121 | A call of Set that nobody disturbs, access by access, answers and stores as the map of one caller |
| `SharedMapAlone.FindAlone` | include/labstor/types/data_structures/unordered_map/shmem_unordered_map.h:123-137 | Likewise Find |
| `SharedMapAlone.RemoveAlone` | include/labstor/types/data_structures/unordered_map/shmem_unordered_map.h:138-158 | Likewise Remove on a table with a VALID bucket, in as many rounds of probes and retries as it takes |
| `SharedMapRuns.ValidBucketIsKept` | include/labstor/types/data_structures/unordered_map/shmem_unordered_map.h:108-158 | A bucket keeps key and value from any moment it is VALID until VALID is cleared |
| `SharedMapRuns.FindReadsItsKey` | include/labstor/types/data_structures/unordered_map/shmem_unordered_map.h:123-136 | In a run without Remove, the value a Find reads was stored under its key by a completed Set |
| `SharedMapRuns.FindCanReadAnotherKey` | include/labstor/types/data_structures/unordered_map/shmem_unordered_map.h:123-158 | For any two keys that are probed for in one bucket, a run in which a Find of one is about to read the value of the other |
| `SharedMapRuns.FindSafeIff` | include/labstor/types/data_structures/unordered_map/shmem_unordered_map.h:108-158 | In all runs on a set of keys every Find reads from a bucket that holds its key, iff no two of the keys are probed for in one bucket |
| `SharedMapRuns.RemoveNeverReturns` | include/labstor/types/data_structures/unordered_map/shmem_unordered_map.h:138-158 | Alone on a table without a VALID entry, Remove has not returned after any number of its steps |
| `HashMap.UnorderedMap.constructor` | include/labstor/types/data_structures/unordered_map/shmem_unordered_map.h:73-96 | Init gives a table of empty buckets |
| `HashMap.UnorderedMap.BeginModify` | include/labstor/types/data_structures/bit2map.h:82-103 | Succeeds iff the entry is empty, and marks that entry only |
| `HashMap.UnorderedMap.CommitModify` | include/labstor/types/data_structures/bit2map.h:105-123 | Leaves the entry VALID and the others as they were |
| `HashMap.UnorderedMap.BeginRemove` | include/labstor/types/data_structures/bit2map.h:125-143 | Succeeds iff the entry is VALID and free, and marks that entry only |
| `HashMap.UnorderedMap.CommitRemove` | include/labstor/types/data_structures/bit2map.h:145-152 | Empties the entry only |
| `HashMap.UnorderedMap.Set` | include/labstor/types/data_structures/unordered_map/shmem_unordered_map.h:108-121 | Stores into the first free probed slot; fails iff all probed slots are taken, changing nothing |
| `HashMap.UnorderedMap.Find` | include/labstor/types/data_structures/unordered_map/shmem_unordered_map.h:123-136 | Returns the value of the first probed VALID bucket with the key; fails iff no probed bucket has it |
| `HashMap.UnorderedMap.RemoveRound` | include/labstor/types/data_structures/unordered_map/shmem_unordered_map.h:143-155 | The inner loop stops at the first VALID bucket or advances by all its probes |
| `HashMap.UnorderedMap.Remove` | include/labstor/types/data_structures/unordered_map/shmem_unordered_map.h:138-158 | On a table with a VALID bucket: returns, true iff the first VALID bucket round from the hash slot has the key, and clears only that one; otherwise it met other keys as often as there are probes |
| `HashMapLaws.FindAgrees` | include/labstor/types/data_structures/unordered_map/shmem_unordered_map.h:123-136 | Find succeeds iff some VALID bucket anywhere holds the key, with the value of the map |
| `HashMapLaws.SetAgrees` | include/labstor/types/data_structures/unordered_map/shmem_unordered_map.h:108-121 | Set of a new key extends the map, or fails iff every probed slot is taken and changes nothing |
| `HashMapLaws.RemoveAgrees` | include/labstor/types/data_structures/unordered_map/shmem_unordered_map.h:138-158 | Remove deletes the key from the map or leaves it, and says which |
| `HashMapLaws.HistoryRepresents` | include/labstor/types/data_structures/unordered_map/shmem_unordered_map.h:108-158 | After any history of Sets of new keys, Finds and Removes the table represents the map the history describes |
| `HashMapLaws.FindsAnswerFromTheMap` | include/labstor/types/data_structures/unordered_map/shmem_unordered_map.h:108-158 | Every Find in every such history answers from the map the history so far describes |
| `HashMapLaws.SetOfAStoredKey` | include/labstor/types/data_structures/unordered_map/shmem_unordered_map.h:108-121 | After Set of a stored key, Find returns the new value iff the free slot is probed before the old bucket |
| `HashMapLaws.SetDoesNotReplace` | include/labstor/types/data_structures/unordered_map/shmem_unordered_map.h:108-121 | A history in which a second Set of a key succeeds and Find still returns the first value |
| `HashMapLaws.RemoveSucceedsIff` | include/labstor/types/data_structures/unordered_map/shmem_unordered_map.h:138-158 | Remove of a stored key succeeds iff every slot probed before its bucket is empty |
| `HashMapLaws.RemoveMisses` | include/labstor/types/data_structures/unordered_map/shmem_unordered_map.h:138-158 | For any two keys with one hash, a history in which Find locates the second and Remove does not |
| `HashMapSizing.RoundTripIff` | include/labstor/types/data_structures/unordered_map/shmem_unordered_map.h:49-96 | Init on GetSize(m) bytes derives m buckets iff sixteen bitmap sizes stay under 4m + 16 bucket sizes + 4 |
| `HashMapSizing.AlwaysRoundTripsIff` | include/labstor/types/data_structures/unordered_map/shmem_unordered_map.h:49-96 | The sizing inverts for every number of buckets iff a bucket has at least four bytes |
| `HashMapSizing.DerivedIsMaximal` | include/labstor/types/data_structures/unordered_map/shmem_unordered_map.h:80-84 | On any region one more bucket would not fit, and the derived number overruns by at most 3 bytes |
| `HashMapSizing.OverrunByThree` | include/labstor/types/data_structures/unordered_map/shmem_unordered_map.h:80-84 | A region on which it overruns by exactly 3 bytes |
| `PageLayout.CountFits` | include/labstor/types/allocator/private_shmem_allocator.h:84-100 | A pool never has more pages than ring entries, so every Enqueue of Init succeeds |
| `PageLayout.PagesApart` | include/labstor/types/allocator/shmem_allocator.h:127-135 | Different pages, of one core or two, share none of their Unit bytes |
| `PageLayout.RequestFitsIff` | include/labstor/types/allocator/shmem_allocator.h:127-127 | A page holds its own word and a whole request, iff the sum of their sizes does not wrap |
| `PageLayout.RequestsApartIff` | include/labstor/types/allocator/shmem_allocator.h:127-127 | With two pages or more: no request touches another page's word or request, iff the request size plus the page's word does not wrap |
| `PageLayout.RequestsOverlap` | include/labstor/types/allocator/shmem_allocator.h:127-127 | An accepted region for which that fails |
| `PageLayout.DepthIsMost` | include/labstor/types/allocator/private_shmem_allocator.h:84-96 | A ring has as many entries as pages of the core's whole region could be |
| `PageLayout.RingFillsRest` | include/labstor/types/data_structures/c/shmem_request_ring_buffer.h:106-135 | If the region could hold no page, the ring takes all the entries that fit behind the core's header |
| `PageLayout.CountIsMost` | include/labstor/types/allocator/private_shmem_allocator.h:92-100 | The pages leave no room for one more behind them |
| `PageLayout.PagesMissMetadata` | include/labstor/types/allocator/private_shmem_allocator.h:84-100 | When the ring's size does not overflow, pages do not touch the allocator header or the bytes that any core's header and ring use |
| `PageLayout.PagesEndBefore` | include/labstor/types/allocator/shmem_allocator.h:127-135 | Every page ends by region size plus allocator header |
| `PageLayout.InsideIff` | include/labstor/types/allocator/shmem_allocator.h:127-135 | All pages lie inside the region iff rounding losses cover the allocator header |
| `PageLayout.BoundIsTight` | include/labstor/types/allocator/shmem_allocator.h:127-135 | Without rounding loss the last page ends a whole header past the region |
| `PageLayout.TightRegionExists` | include/labstor/types/allocator/shmem_allocator.h:127-135 | Such a region exists for all structure sizes and core counts |
| `PageLayout.RingsClearIff` | include/labstor/types/allocator/private_shmem_allocator.h:84-96 | Pages touch no ring iff the ring's size does not overflow 32 bits |
| `PageLayout.RingOverflows` | include/labstor/types/allocator/private_shmem_allocator.h:84-96 | An accepted region whose ring size overflows, so that its pages overlap the ring |
| `PageLayout.OffsetsExactIff` | include/labstor/types/basics.h:43-43 | Every page's offset survives the signed 32 bits it is stored in iff the last page starts below 2^31 |
| `PageLayout.StoredTooLow` | include/labstor/types/basics.h:43-43 | A region of three gibibytes whose last page is stored as a negative offset |
| `RingPool.TakeIsDequeue` | include/labstor/types/allocator/private_shmem_allocator.h:109-113 | Taking from a stock is Dequeue on the ring with wrapped counters |
| `RingPool.GiveIsEnqueue` | include/labstor/types/allocator/private_shmem_allocator.h:115-117 | Giving back is Enqueue, refused iff the ring is full |
| `RingPool.RoomToReturn` | include/labstor/types/allocator/private_shmem_allocator.h:115-117 | Wrapped counters or not, an item that is out leaves room for its return |
| `RingPool.SoundIff` | include/labstor/types/allocator/private_shmem_allocator.h:109-117 | In all runs of one ring every item is pending once or live once, and none is handed out twice, iff the depth divides 2^32 or the items are no more than the remainder |
| `PagePools.ArisesSane` | include/labstor/types/allocator/shmem_allocator.h:157-273 | In all histories by any processes free plus live pages of a core are its number of pages, and only its own pages are in its ring or live for it |
| `PagePools.SharedSlotLosesAPage` | include/labstor/types/allocator/shmem_allocator.h:157-273 | If two counts less than a pool's size apart share a slot, some history loses a page and Alloc hands out a live one |
| `PageAllocator.ConservedIff` | include/labstor/types/allocator/shmem_allocator.h:157-273 | When pages clear the rings and offsets are exact: in all histories of Alloc and Free no page is lost or duplicated and Alloc never hands out a live page, iff the depth divides 2^32 or a pool has no more pages than the remainder |
| `PageAllocator.LosingRegion` | include/labstor/types/allocator/private_shmem_allocator.h:84-100 | An accepted region of three pages for which that fails |
| `PageAllocator.LivePagesApart` | include/labstor/types/allocator/shmem_allocator.h:157-273 | When pages clear the rings and offsets are exact, live pages in all histories are disjoint from each other, from the header and from every core's header and ring; and when the unit does not wrap, a live request touches neither the word nor the request of another live page |
| `PageAllocator.LiveOnce` | include/labstor/types/allocator/shmem_allocator.h:157-273 | When pages are conserved a live page is out once and in no ring |
| `PageAllocator.FreesHomeIff` | include/labstor/types/allocator/shmem_allocator.h:41-48 | In all histories Free finds the ring a page came from, iff the cores can be numbered with the 16 bits in the page |
| `PageAllocator.ManyCores` | include/labstor/types/allocator/shmem_allocator.h:41-48 | A region of 65537 cores for which that fails |
| `PageAllocator.CoreWordsCollideIff` | include/labstor/types/allocator/shmem_allocator.h:41-48 | Two cores leave the same number in their pages iff they are a multiple of 2^16 apart |
| `PageAllocator.InitPool` | include/labstor/types/allocator/private_shmem_allocator.h:78-101 | The ring of one core receives all its pages in order and no Enqueue is refused |
| `PageAllocator.Carve` | include/labstor/types/allocator/shmem_allocator.h:127-135 | The loop of Init leaves every core's filled ring at its offset, and the caller's addresses of the cores |
| `PageAllocator.SharedMemory.Write` | include/labstor/types/allocator/shmem_allocator.h:122-127 | Init leaves a header from which the layout can be read back, and a region ready for use |
| `PageAllocator.ShmemAllocator.Init` | include/labstor/types/allocator/shmem_allocator.h:106-136 | Init gives a view of a fresh region with the layout asked for |
| `PageAllocator.ShmemAllocator.Attach` | include/labstor/types/allocator/shmem_allocator.h:138-155 | Attach at any base computes, from the header alone, a view that names the same rings |
| `PageAllocator.SameRings` | include/labstor/types/allocator/shmem_allocator.h:138-155 | Two views of one region name the same rings, at addresses that differ by the bases |
| `PageAllocator.ShmemAllocator.HasPage` | include/labstor/types/allocator/private_shmem_allocator.h:109-113 | Equal wrapped counters mean an empty pool |
| `PageAllocator.ShmemAllocator.FindPool` | include/labstor/types/allocator/shmem_allocator.h:161-217 | The stealing loop finds the first stocked ring round from the caller's core, or none iff all are empty |
| `PageAllocator.ShmemAllocator.TakeFrom` | include/labstor/types/allocator/private_shmem_allocator.h:109-113 | Dequeues the oldest page of a ring and notes the low 16 bits of the core in the page |
| `PageAllocator.ShmemAllocator.Alloc` | include/labstor/types/allocator/shmem_allocator.h:157-218 | None iff all rings are empty; otherwise a step of the pools that takes the oldest page of the first stocked ring, returned at its address in the caller's mapping |
| `PageAllocator.ShmemAllocator.GiveTo` | include/labstor/types/allocator/private_shmem_allocator.h:115-117 | Enqueues a page to a ring, refused iff that is full |
| `PageAllocator.ShmemAllocator.FindRoom` | include/labstor/types/allocator/shmem_allocator.h:268-273 | The loop of Free ends at the first ring with room, going round |
| `PageAllocator.ShmemAllocator.BackHome` | include/labstor/types/allocator/shmem_allocator.h:220-273 | A live page enqueued to its own ring is a Free in the history of the pools |
| `PageAllocator.ShmemAllocator.Free` | include/labstor/types/allocator/shmem_allocator.h:220-273 | A live page goes to the first ring with room, going round from the one its 16 bits name; through whichever view, that is its home ring at the first try if that is one of the first 2^16 |
| `PageAllocator.StaysConserved` | include/labstor/types/allocator/shmem_allocator.h:157-273 | As long as pages are freed home, the region is in a history of its pools after any calls through any views, and pages are conserved under the exact condition |
| `PageAllocator.AllocHereFreeThere` | include/labstor/types/allocator/shmem_allocator.h:138-155 | A page allocated through one process's view and freed through another's goes back to its ring, for the first 2^16 rings |
| `PageAllocator.AllocPage` | include/labstor/types/allocator/shmem_allocator.h:157-218 | The address that Alloc returns is behind the word of the page that its pool hands out, which is live from then on |
| `PageAllocator.AllocTwo` | include/labstor/types/allocator/shmem_allocator.h:157-218 | The requests at the addresses that two Allocs return, through whichever views, share no byte, and neither touches the word of the other's page |
| `KernelQueues.LoadMemoryConfig` | src/userspace/server/ipc_manager.cpp:44-64 | An accepted configuration splits the region exactly, with at least the configured minimum for requests |
| `KernelQueues.LoadIff` | src/userspace/server/ipc_manager.cpp:44-64 | What is accepted, and all nine values of the result, in terms of the arguments modulo 2^32 |
| `KernelQueues.LoadsExactlyIff` | src/userspace/server/ipc_manager.cpp:44-64 | The result has the configured region and minimum, the bytes the queues need and the rest for requests, iff queues and minimum fit a region of less than 2^32 bytes |
| `KernelQueues.RefusedIffTooSmall` | src/userspace/server/ipc_manager.cpp:55-63 | Absent overflow, a configuration is refused iff the queues leave less than the minimum, or nothing |
| `KernelQueues.SizeGivesDepth` | include/labstor/types/data_structures/c/shmem_queue_pair.h:120-139 | Init accepts regions of the sizes that GetSize gives for a positive depth that does not overflow, and derives that depth and as many buckets |
| `KernelQueues.QueueSizeIsSmallest` | include/labstor/types/data_structures/c/shmem_queue_pair.h:120-139 | No smaller region gives a ring that depth |
| `KernelQueues.MapSizeIsSmallest` | include/labstor/types/data_structures/c/shmem_request_map.h:90-117 | No smaller region gives a map that many buckets |
| `KernelQueues.SegmentAllocator.constructor` | include/labstor/types/allocator/segment_allocator.h:45-49 | Starts at offset zero |
| `KernelQueues.SegmentAllocator.Alloc` | include/labstor/types/allocator/segment_allocator.h:55-59 | Hands out the current offset and advances modulo 2^32, unchecked |
| `KernelQueues.AllocQueue` | src/userspace/server/ipc_manager.cpp:123-131 | Descriptor, ring and map of a queue are consecutive |
| `KernelQueues.CreateKernelQueues` | src/userspace/server/ipc_manager.cpp:121-132 | The loop places every queue as computed and leaves the allocator at its limit |
| `KernelQueues.InsideIff` | src/userspace/server/ipc_manager.cpp:121-132 | Everything allocated lies inside the queue region iff the bytes needed fit 32 bits, and then they fill it exactly |
| `KernelQueues.QueuesDisjointIff` | src/userspace/server/ipc_manager.cpp:121-132 | Descriptors, rings and maps of all queues are pairwise disjoint iff the last of them starts before 2^32 |
| `KernelQueues.OverflowIsAccepted` | src/userspace/server/ipc_manager.cpp:44-64 | A configuration that LoadMemoryConfig accepts although its queues overrun their region and each other |
| `KernelQueues.DepthIsBuckets` | include/labstor/types/data_structures/c/shmem_queue_pair.h:120-139 | Ring depth and bucket count derived by Init are equal, and equal the configured depth when that does not overflow |
| `KernelQueues.PagesMissQueuesIff` | src/userspace/server/ipc_manager.cpp:84-103 | Request pages and kernel queues are disjoint iff the page allocator's rounding losses cover its header |
| `KernelQueues.OverlappingRegion` | src/userspace/server/ipc_manager.cpp:84-103 | An accepted configuration in which a page overlaps the first queue |
| `BlockAllocator.InsideIff` | labmods/labstor_fs/lib/block_allocator.h:51-53 | Every block lies inside the disk extent iff the small blocks fit it |
| `BlockAllocator.BlocksOrdered` | labmods/labstor_fs/lib/block_allocator.h:61-82 | Blocks do not overlap |
| `BlockAllocator.BlocksCover` | labmods/labstor_fs/lib/block_allocator.h:61-82 | Blocks leave no gap, and less than one large block at the end |
| `BlockAllocator.RingsDisjointIff` | include/labstor/types/data_structures/shmem_ring_buffer.h:57-72 | The ring of large blocks does not overlap that of small ones, iff the 32-bit size of the latter does not overflow |
| `BlockAllocator.AcceptedIff` | include/labstor/types/data_structures/shmem_ring_buffer.h:84-102 | Absent overflow, both rings are accepted iff the region has room for one after the other |
| `BlockAllocator.OverlappingRings` | labmods/labstor_fs/lib/block_allocator.h:61-82 | A tebibyte of small blocks, accepted by Initialize, whose rings overlap |
| `BlockAllocator.BlockPool.constructor` | labmods/labstor_fs/lib/block_allocator.h:61-82 | For rings whose sizes do not overflow, Initialize gives disjoint rings that hold all blocks of each size in order |
| `BlockAllocator.BlockPool.GetBlock` | labmods/labstor_fs/lib/block_allocator.h:91-97 | Takes the oldest block of the size asked for, or nothing iff that ring is empty; the other ring is untouched |
| `BlockAllocator.BlockPool.FreeBlock` | labmods/labstor_fs/lib/block_allocator.h:99-105 | A live block is enqueued to the ring of its size and never refused, wrapped counters or not |
| `BlockAllocator.BlockPool.ExactlyOnePlace` | labmods/labstor_fs/lib/block_allocator.h:61-105 | When both block counts divide 2^32, each block is once in exactly one of the two rings or with one user |
| `BlockAllocator.OnePlaceIff` | labmods/labstor_fs/lib/block_allocator.h:61-105 | For rings whose sizes do not overflow: every block stays in one place, and none is handed out twice, in all histories iff both block counts divide 2^32 |
| `BlockAllocator.Stack` | labmods/labstor_fs/lib/block_allocator.h:68-71 | The loop of Initialize enqueues all blocks of a size in order |
| `BlockAllocator.Push` | include/labstor/types/data_structures/shmem_ring_buffer.h:110-127 | An undisturbed Enqueue is refused iff the ring is full |
| `BlockAllocator.Pop` | include/labstor/types/data_structures/shmem_ring_buffer.h:134-150 | An undisturbed Dequeue takes the oldest block, or nothing iff the ring is empty |

## Left out

- Requests whose module does not exist: that branch completes the request without dequeuing it, so
  the ordering theorem does not hold for it (src/userspace/server/worker.cpp lines 45-50).
- Liveness: a failed kernel submission leaves the I/O module waiting for ever, and the spin loops are
  steps that are not enabled.
- Weak memory ordering; the code uses relaxed atomics.
- The locking variant of the request ring, which never releases its locks.
- Moving queues between workers, pausing queues, and work balancing: the set of queues of a worker is fixed.
- The batch client's loop is a policy on steps, not a method, because its Wait spins.
- The kernel code is protocol steps only; block-layer requests, SPDK, sockets, module loading and
  configuration files are I/O plumbing.
- The file system's log and inode code, private queues, the LRU and no-op modules and live upgrade are
  unfinished or stubs.
- The kernel work queue's storage layout, whose size function counts smaller entries than it stores.
- Worker.ServerWorker.CompleteClient: the worker's own model has no client completion maps, so waiting for a free bucket there is a delay in which the others run; that it ends is up to the client. The maps are in `ClientMemory`.
- Worker.ServerWorker.DoWork: that a round finishes is promised when the queues are no more than the pages and the window of the bucket count; otherwise the worker may run out of pages or spin.
- ProtocolSafety.CompletedOnceInOrder: is about client queues that hand out requests in order; when the rings in memory do is stated by `ClientWitness.CompletedInOrderIff`.
- ClientMemory.BatchGetsItsOwn: is one direction only; that a batch client of a server which completes in order fails otherwise is in `QueuePair.InOrderCorrectIff`, where the server may hold any number of requests.
- MpmcRing.SafeUnderInterleaving: runs whose counts wrap are covered only when the depth divides 2^32; otherwise items come out of order, see `MpmcAlone.InOrderIffDepthDivides`.
- MpmcAnswers.AnswersAreRight: likewise.
- SharedMapAlone.RemoveAlone: asks for a VALID bucket, because without one Remove does not return, see `SharedMapRuns.RemoveNeverReturns`.
- PageAllocator.AllocTwo: asks for the conditions under which pages are conserved and exact, and that the request size plus the page's word not wrap; otherwise requests overlap, see `PageLayout.RequestsApartIff`.
- ProtocolPolling.PathIsTheSubmissions: is about runs in which ids can be told apart, as are the theorems on completions; when a request can pick up another's completion it also gets the other's flag.
- SharedMapRuns.FindReadsItsKey: is one direction only, for runs without Remove; the exact condition for runs with Remove is in `FindSafeIff`.
- HashMap.UnorderedMap.Remove: asks for a VALID bucket, because without one the program does not return.
- HashMap.UnorderedMap.BeginModify: has no retry loop, since alone its compare-and-exchange succeeds at once; the loops are in `SharedMap`.
- PageAllocator.ConservedIff: asks that pages clear the rings and that offsets be exact, as do the allocator's Init and what follows it; otherwise the program overwrites its own rings or leaves its region. When that is so is exact in `PageLayout.RingsClearIff` and `PageLayout.OffsetsExactIff`.
- PageAllocator.ShmemAllocator.Free: what the pools do after a page was freed to another core's ring is not modelled.
- PageLayout.CountFits: regions smaller than a core's own headers are left out.
- HashMapSizing.RoundTripIff: asks that neither the size nor Init's product overflow 32 bits.
- BlockAllocator.BlockPool.constructor: asks for at least one block of each size, since with none the ring would derive its depth from the region, for fewer than 2^31, since the loop index is an int, and for ring sizes that do not overflow.
