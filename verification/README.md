# Xplatbase concurrency and allocation: a Dafny model

This project models the parts of Xplatbase whose correctness is hardest to see from the code, and
proves what their callers rely on.

* **The work-stealing pool.** The shard rings (`BatchRing`, with 32-bit positions in `WrapRing` and
  `WrapWitness`) and the per-worker deques (`Deque`) are step relations with one atomic access per
  step, for any number of threads; each is proved to refine an abstract container (`RingSpec`, `DequeSpec`). Over those
  containers `PoolModel` describes the workers' and submitters' steps, and `PoolControl`, `PoolWake`
  and `PoolTasks` keep the three parts of one invariant. `PoolTheorems` draws the conclusions over
  every run: no lost wake-up, one place per task, at most one start, truthful counters
  (`Accounting`); `PoolWitness` is a run that misleads the idle test. `PoolAlone` says what a try
  finds when nobody interferes, and `PoolProgress` that the work gets done and the pool can always
  finish. `PoolOnRings` and `PoolOnDeques` put the words of the rings and of the deques back under
  the pool and carry the theorems over to runs of single accesses, which `PoolAdvance` shows to
  advance. `RingAlone` and `DequeAlone` are whole calls on a ring or a deque that nobody interferes
  with, and what it means when a call comes back with nothing.
* **The generic ring with its peek guard** (`PeekRing`, with 32-bit positions in `WrapPeek`): items
  are copied word by word, so that a torn copy would show. `PeekCapacity` shows which capacities
  work, `PeekAlone` is whole undisturbed calls. `Words32` is the 32-bit arithmetic of both rings.
* **The allocator.** `ChunkSpec`, `ChunkLists` and `ChunkProofs` follow every 64 KB chunk through
  spans, thread caches, the shared cache and the purge; `ChunkPool` is the same in place, and
  `ChunkDuties` what each section owes its caller. `SpanBlocks` is one span with its owner and any
  number of remote frees. `LinkedSpans`, `SpanLists`, `SpanEnd` and `SpanHeap` are the doubly linked
  span lists of one thread and the refill, `SpanRuns` whole runs of it. `SizeClasses` is the size
  table and the geometry of blocks, `Placement` says where blocks are in memory and what may be
  written around them, `Supply` that the spans and chunks of the allocator give such places, and
  `Realloc` what a block move writes. `SiteTable` is the table of creation sites.
* **The exact statistics**: `SignedRanks` and `Wilcoxon`, `BenjaminiHochberg`, with `IndexSort`.

Concurrent parts assume sequential consistency. Positions and counters that the program keeps in 64
bits are unbounded. `Slots` holds the position arithmetic of the circular buffers. A step relation
takes nondeterministic choices (what a stale read sees, whether the system has memory, when a wait
times out, how the clock advances) as parameters, and a theorem holds for all of them unless it says
that a run exists.

Where code and comment differ, the code is followed. Four facts the proofs made precise: a thread that
lags just under 2^31 positions can still be misled by the wrapped comparison (`HalfRangeLagMisleads`
against `PushDecisionAgreesExactlyBelowHalf`); a generic ring of capacity 1 hands out wrong items
(`WholeItemsExactlyFromTwoCells`); the idle test of the pool can be wrong while tasks are submitted
(`ScanCanBeMisled` against `IdleScanIsSound`); and with a negative rate the Benjamini-Hochberg marks
depend on the order the sort gives to ties (`NegativeRateDependsOnTheSort` against
`MarksAreSurvivors`).

`dafny verify dfyconfig.toml` checks everything.

## Model

| member | source | states |
|---|---|---|
| `BatchRing.NextKeepsInv` | Xplatbase/Xplatbase/src/thread_pool.c:274-312 | every atomic access of any producer or batch consumer keeps the ring invariant: window of one lap, published cells carry their task, no position worked on twice |
| `BatchRing.RunIsSafe` | Xplatbase/Xplatbase/src/thread_pool.c:274-312 | over every run: head <= tail <= head + capacity, no position is copied out twice, an uncopied position still carries the task pushed there, and a finished batch is exactly the tasks pushed at the claimed positions |
| `BatchRing.PushFailsOnlyWhenFull` | Xplatbase/Xplatbase/src/thread_pool.c:280-289 | from every place inside it (after a lost CAS too), a push goes on with the same task or returns, and it returns only with the task published at the position it won or, leaving the ring as it is, at an instant when the cell of the current tail still shows the previous lap |
| `BatchRing.PopFailsOnlyAtAnUnpublishedPosition` | Xplatbase/Xplatbase/src/thread_pool.c:294-312 | from every place inside it, a batch pop goes on or returns: with all of what it claimed, or with nothing after its first position showed no publication, and then it has changed nothing |
| `RingAlone.PushAlone` | Xplatbase/Xplatbase/src/thread_pool.c:280-289 | a push with no other thread stepping: on a free tail it publishes its task there and returns, on a full ring it changes nothing |
| `RingAlone.PopAlone` | Xplatbase/Xplatbase/src/thread_pool.c:294-312 | a batch pop with no other thread stepping: it takes every position published from the head on, up to its limit, copies each once, frees the cells for the next lap and returns those tasks in order; with none it changes nothing |
| `BatchRing.StepRefinesShard` | Xplatbase/Xplatbase/src/thread_pool.c:274-312 | each access is one operation of the abstract shard or invisible to it, and a consumer concludes from a seqno no more than the abstract shard allows (an empty answer may be stale) |
| `BatchRing.BeyondTheTail` | Xplatbase/Xplatbase/src/thread_pool.c:294-303 | no cell ever shows a publication that has not happened, so a scan never runs past the tail |
| `WrapRing.StepWraps` | Xplatbase/Xplatbase/src/thread_pool.c:274-312 | one step on 32-bit positions (modular difference, sign test, CAS on wrapped values) takes the decision and writes the word the unbounded step does, when the position the stepping thread holds lags at most 2^31 minus the capacity before a producer's sign test, 2^32 minus the capacity before a consumer's equality test, and less than 2^32 before a CAS |
| `WrapRing.RunWraps` | Xplatbase/Xplatbase/src/thread_pool.c:274-312 | the two rings stay in step through whole runs of such steps |
| `WrapRing.PushDecisionAgreesExactlyBelowHalf` | Xplatbase/Xplatbase/src/thread_pool.c:278-289 | exact limit, for any lag: a producer decides the same after wrapping if and only if the seqno it read is not ahead of its position, or its distance leaves a remainder by 2^32 strictly between 0 and 2^31 |
| `WrapRing.ScanDecisionAgreesExactlyOffTheAlias` | Xplatbase/Xplatbase/src/thread_pool.c:294-303 | exact limit of the batch consumer, which tests for equality only: it decides the same if and only if the seqno it read is the expected one or not a whole number of 32-bit ranges away from it |
| `WrapWitness.HalfRangeLagMisleads` | Xplatbase/Xplatbase/src/thread_pool.c:278-289 | a lag just under 2^31 is not enough: a run of fresh steps from the initial ring, on both rings alike, after which the 32-bit producer gives up on an empty ring and the unbounded one retries |
| `Deque.OwnerRefinesDeque` | Xplatbase/Xplatbase/src/thread_pool.c:356-372 | each owner access pushes at the back, takes the back, or changes nothing of the abstract deque, and reports full and empty correctly |
| `Deque.ThiefRefinesDeque` | Xplatbase/Xplatbase/src/thread_pool.c:373-377 | a steal whose CAS succeeds removes and returns the front of the abstract deque; any other steal access changes nothing |
| `Deque.OwnerNextKeepsInv` | Xplatbase/Xplatbase/src/thread_pool.c:356-372 | the owner keeps the deque invariant, among it what every thief in the middle of a steal relies on |
| `Deque.ThiefNextKeepsInv` | Xplatbase/Xplatbase/src/thread_pool.c:373-377 | so does every access of every thief |
| `Deque.RunConserves` | Xplatbase/Xplatbase/src/thread_pool.c:356-377 | over every run with any number of thieves: pushed = handed out + still inside + being copied by the owner, as multisets; a thief about to win holds the front task although slots are reused |
| `DequeAlone.PushFailsOnlyWhenFull` | Xplatbase/Xplatbase/src/thread_pool.c:356-360 | from every place inside it, a push goes on or returns: with the task at the back, or because the deque holds as many tasks as it has slots |
| `DequeAlone.TakeFailsOnlyWhenEmpty` | Xplatbase/Xplatbase/src/thread_pool.c:361-372 | from every place inside it, a take gives up only at an instant when the deque is empty, and otherwise ends with one task handed out |
| `DequeAlone.StealFailsOnlyWhenEmptyOrLost` | Xplatbase/Xplatbase/src/thread_pool.c:373-377 | from every place inside it, a steal returns with the front task, or because the words showed an empty deque, or because top has moved since it was read |
| `DequeAlone.PushAlone` | Xplatbase/Xplatbase/src/thread_pool.c:356-360 | a push with no other thread stepping puts the task at the back unless the deque is full |
| `DequeAlone.TakeAlone` | Xplatbase/Xplatbase/src/thread_pool.c:361-372 | a take with no other thread stepping hands out the task at the back, the last one too, and fails only on an empty deque |
| `DequeAlone.StealAlone` | Xplatbase/Xplatbase/src/thread_pool.c:373-377 | a steal with no other thread stepping hands out the task at the front and fails only on an empty deque |
| `Accounting.IncKeepsBalance` | Xplatbase/Xplatbase/src/thread_pool.c:846-863 | counting a submission keeps the sum of all counters equal to the number of counted unfinished tasks |
| `Accounting.DecKeepsBalance` | Xplatbase/Xplatbase/src/thread_pool.c:458-473 | so does uncounting one, although the index decremented may differ from the one incremented |
| `Accounting.ScanIsSound` | Xplatbase/Xplatbase/src/thread_pool.c:884-889 | a counter-by-counter scan that adds up to nothing, with no counter going up meanwhile, proves that nothing is outstanding at its end |
| `Accounting.QuietScanIsExact` | Xplatbase/Xplatbase/src/thread_pool.c:884-889 | a scan during which nothing is counted or uncounted adds up to exactly the number of outstanding tasks, so the wait for an idle pool ends |
| `PoolControl.WorkerKeepsCtl` | Xplatbase/Xplatbase/src/thread_pool.c:506-699 | worker steps keep the control invariant: both idle counts match the program counters, a cleared parked flag means a wake-up is set or on its way, scans are stale or exact |
| `PoolControl.ExtKeepsCtl` | Xplatbase/Xplatbase/src/thread_pool.c:860-878 | so do submitters and configuration calls |
| `PoolWake.WorkerKeepsWake` | Xplatbase/Xplatbase/src/thread_pool.c:506-554 | worker steps keep the wake-up invariant: the published head of every shard has somebody who will still look at it before sleeping |
| `PoolWake.ExtKeepsWake` | Xplatbase/Xplatbase/src/thread_pool.c:527-539 | so do outside threads: a submitter that skips the wake-up leaves the task to a spinning core or to one that re-tests after announcing itself parked |
| `PoolWake.AlertHandsOver` | Xplatbase/Xplatbase/src/thread_pool.c:506-539 | each alerting step of a submitter either keeps the duty to wake or finds somebody who will come: a counted spinner, a core that has not announced itself, or one whose wake-up is on its way |
| `PoolWake.TryKeepsCover` | Xplatbase/Xplatbase/src/thread_pool.c:475-503 | a worker that was going to look at a shard with a published head still is after its step, or has claimed from it and will look again |
| `PoolTasks.WorkerKeepsPlaced` | Xplatbase/Xplatbase/src/thread_pool.c:475-503 | worker steps keep every task in exactly one place |
| `PoolTasks.ExtKeepsPlaced` | Xplatbase/Xplatbase/src/thread_pool.c:860-878 | so do submissions |
| `PoolTasks.WorkerKeepsStartedOnce` | Xplatbase/Xplatbase/src/thread_pool.c:467-473 | a task is started exactly when it starts to run, once |
| `PoolTasks.WorkerKeepsLedger` | Xplatbase/Xplatbase/src/thread_pool.c:458-473 | worker steps keep the counters equal to the counted unfinished tasks, through the split load and store of the own counter |
| `PoolTasks.ExtKeepsLedger` | Xplatbase/Xplatbase/src/thread_pool.c:860-875 | so do submissions and their roll-back when the shard is full |
| `PoolTheorems.NextKeepsInv` | Xplatbase/Xplatbase/src/thread_pool.c:475-699 | all of these hold after every step of every thread |
| `PoolTheorems.NoLostWakeUp` | Xplatbase/Xplatbase/src/thread_pool.c:506-699 | in every reachable state with nothing in progress outside, if every worker is blocked in its sleep with a clear wait word, then every shard, deque, LIFO slot and batch buffer is empty |
| `PoolTheorems.TaskIsInOnePlace` | Xplatbase/Xplatbase/src/thread_pool.c:467-503 | in every reachable state each submitted task is found once, in one place, and has been started at most once: exactly when it is running or done |
| `PoolTheorems.BuffersAreRespected` | Xplatbase/Xplatbase/src/thread_pool.c:475-503 | a batch claim always finds the batch buffer empty, and a worker whose try fails holds nothing in its deque, buffer and LIFO slot, whoever else steps meanwhile |
| `PoolTheorems.RunIsLedgerTrace` | Xplatbase/Xplatbase/src/thread_pool.c:458-473 | the counters along every run of the pool form a trace of counting and uncounting steps |
| `PoolTheorems.IdleScanIsSound` | Xplatbase/Xplatbase/src/thread_pool.c:884-889 | so the idle test of a run is right under the hypothesis of ScanIsSound |
| `PoolAlone.EveryWorkerIsVisited` | Xplatbase/Xplatbase/src/thread_pool.c:489-494 | the turns 1 to nTotal of a stealing round visit every worker, each exactly once |
| `PoolAlone.EveryShardIsVisited` | Xplatbase/Xplatbase/src/thread_pool.c:484-488 | the turns of a round over the shards visit every shard, each exactly once |
| `PoolAlone.TryFindsWhatIsThere` | Xplatbase/Xplatbase/src/thread_pool.c:475-503 | a call of pool_try_get during which no other thread steps and no steal is lost fails if and only if the worker holds nothing, no shard has a published head and every other worker's deque is empty; otherwise it takes, in this order, the LIFO slot unless that had its run of turns, the back of the own deque, the batch buffer, the whole batch at the first ready shard of its rotation, the front of the first deque in stealing order that is not empty, or the LIFO slot after all |
| `PoolAlone.TryAloneEnds` | Xplatbase/Xplatbase/src/thread_pool.c:475-503 | and from every state the invariant allows, such a call comes to its end |
| `PoolProgress.TaskIsRun` | Xplatbase/Xplatbase/src/thread_pool.c:467-473 | a task that submits nothing is started, ends and is counted off its worker's own counter, and the worker goes on where it was: at its next try, or in the task around it |
| `PoolProgress.WorkGetsDone` | Xplatbase/Xplatbase/src/thread_pool.c:506-699 | a worker alone with a task within reach starts one of those within reach and runs it to its end, through the end of its spin, the chain of wake-ups or the withdrawal of its announcement, and is back at a try |
| `PoolProgress.NothingToDoMeansSleep` | Xplatbase/Xplatbase/src/thread_pool.c:573-699 | a worker alone with nothing within reach, at any of its tries, falls asleep and leaves everything queued, counted and started as it was |
| `PoolProgress.PoolCanFinish` | Xplatbase/Xplatbase/src/thread_pool.c:467-699 | the pool is never stuck: from every reachable state with no submission in progress, steps of the workers lead to one in which every task ever submitted has been run to its end, if the tasks submit no others |
| `PoolProgress.SubmissionInside` | Xplatbase/Xplatbase/src/thread_pool.c:844-859 | a submission by a running task: it is counted and takes the LIFO slot, and the task that was there goes to the back of the deque if there is room and is run at once if not |
| `PoolProgress.SubmissionOutside` | Xplatbase/Xplatbase/src/thread_pool.c:860-866 | a submission from outside to a shard with room counts the task, publishes it at the tail and goes on to wake somebody |
| `PoolOnRings.StepRefinesPool` | Xplatbase/Xplatbase/src/thread_pool.c:280-312 | with the shards as they are: every access of every thread to the words of a ring, inside the pool's own control flow, is a step of the abstract pool or invisible to it |
| `PoolOnRings.RollsBackOnlyWhenFull` | Xplatbase/Xplatbase/src/thread_pool.c:860-875 | over the words of the rings, a submitter leaves pool_ring_push with the position it won, or to roll its counter back, and the latter only at an instant when that ring is full |
| `PoolOnDeques.StepRefines` | Xplatbase/Xplatbase/src/thread_pool.c:356-377 | and with the deques as they are on top of that: every access of push, take and steal is a step of the pool over its rings or invisible to it |
| `PoolOnDeques.RunRefinesPool` | Xplatbase/Xplatbase/src/thread_pool.c:274-699 | so every run over the words of rings and deques ends where a run of the abstract pool ends, and every theorem about reachable states carries over |
| `PoolOnDeques.NoLostWakeUpOnWords` | Xplatbase/Xplatbase/src/thread_pool.c:506-699 | in every state of such a run, if every worker is blocked in its sleep with a clear wait word and nothing is in progress outside, then in every ring head = tail and the next cell shows no task, in every deque top = bottom, and no thread is inside any of them |
| `PoolOnDeques.CopiesAreRight` | Xplatbase/Xplatbase/src/thread_pool.c:361-377 | a take that was decided copies exactly what the task in hand carries, and a thief about to win has copied exactly what the front task carries, however often the slots were reused |
| `PoolOnDeques.BatchIsWhatWasClaimed` | Xplatbase/Xplatbase/src/thread_pool.c:294-312 | a completed batch pop has copied what the tasks in the worker's batch buffer carry, in order |
| `PoolAdvance.EveryAccessAdvances` | Xplatbase/Xplatbase/src/thread_pool.c:280-377 | the refinement is not idle: every access of a thread to the words of rings and deques is a step of the abstract pool by that very thread, or leaves it fewer accesses before its next one (only another thread's reservation sends a producer back to reload the tail) |
| `PoolWitness.ScanCanBeMisled` | Xplatbase/Xplatbase/src/thread_pool.c:884-889 | without it the idle test can be wrong: a run of the pool along which the counters read add up to nothing while one task is outstanding when the scan begins and when it ends |
| `PeekRing.NextKeepsInv` | Xplatbase/Xplatbase/src/ring_queue.c:59-87 | every atomic access and every copied word of any number of pushers, poppers and peekers keeps the invariant of ring and guards |
| `PeekRing.PeekAndPopReturnWholeItems` | Xplatbase/Xplatbase/src/ring_queue.c:206-286 | over every run a successful peek returns whole the item pushed at its position, and a pop the item pushed at the position it claimed |
| `PeekRing.PeekedPositionWasHead` | Xplatbase/Xplatbase/src/ring_queue.c:217-224 | the position a peek copies was the head at its second check, and its item was published there right after |
| `PeekRing.PeekedSlotIsStable` | Xplatbase/Xplatbase/src/ring_queue.c:206-232 | while a peek copies, no step of another thread changes its slot, even when the position is popped and the slot reserved again |
| `PeekRing.ReaderExcludesWriter` | Xplatbase/Xplatbase/src/ring_queue.c:59-87 | a reader inside the guard of a slot keeps every writer out of it |
| `PeekRing.PopFailsOnlyWhenNothingPublished` | Xplatbase/Xplatbase/src/ring_queue.c:262-286 | from every place inside it, pop_mc goes on or returns, and returns with nothing only at an instant when nothing is published at the head, leaving the ring as it is |
| `PeekRing.PushFailsOnlyWhenFull` | Xplatbase/Xplatbase/src/ring_queue.c:234-260 | from every place inside it, push_mp goes on with the same item or returns, and returns without having published only at an instant when the slot of the tail still carries the previous lap |
| `PeekRing.PeekFailsOnlyAfterFourAttempts` | Xplatbase/Xplatbase/src/ring_queue.c:206-232 | a peek returns with nothing only when its position showed no publication at the seqno test, or when its fourth attempt was refused by the guard or found the head or the seqno moved |
| `PeekAlone.PeekAlone` | Xplatbase/Xplatbase/src/ring_queue.c:206-232 | a peek with no other thread stepping, and room in the guard of the head: it succeeds with the item pushed at the head, whole, exactly when one is published there, and leaves the ring as it was |
| `PeekAlone.PopAlone` | Xplatbase/Xplatbase/src/ring_queue.c:262-286 | a pop with no other thread stepping takes the item at the head, whole, and frees the slot for the next lap, or finds nothing published and changes nothing |
| `PeekAlone.PushAlone` | Xplatbase/Xplatbase/src/ring_queue.c:234-260 | a push with no other thread stepping and no reader in the slot of the tail publishes its item there, or finds the ring full and changes nothing |
| `PeekCapacity.WholeItemsExactlyFromTwoCells` | Xplatbase/Xplatbase/src/ring_queue.c:89-124 | a capacity of 1, which ring_queue_init accepts, breaks this: pops and peeks hold the item pushed at their position in every run if and only if the capacity is not 1 |
| `WrapPeek.StepWraps` | Xplatbase/Xplatbase/src/ring_queue.c:206-286 | one step of push_mp, pop_mc or peek on 32-bit positions takes the decision and writes the word the unbounded step does, when the position held lags at most 2^31 minus the capacity before a sign test, 2^32 minus the capacity before a seqno equality test, and less than 2^32 before a CAS or the second look at the head |
| `WrapPeek.RunWraps` | Xplatbase/Xplatbase/src/ring_queue.c:206-286 | the two rings stay in step through whole runs of such steps |
| `WrapPeek.WholeItemsOnWords` | Xplatbase/Xplatbase/src/ring_queue.c:206-286 | so on the 32-bit words, over every such run from the initial ring, a finished pop and a successful peek hold whole an item pushed at a position with the word they work on |
| `WrapPeek.PopFailsOnlyWhenNothingPublishedOnWords` | Xplatbase/Xplatbase/src/ring_queue.c:262-286 | the same on the 32-bit words, from every place inside pop_mc: it returns with nothing only when the word it loaded is still the head and the slot does not show its publication |
| `WrapPeek.PushFailsOnlyWhenFullOnWords` | Xplatbase/Xplatbase/src/ring_queue.c:234-260 | and from every place inside push_mp: it returns without having published only when the word it loaded is still the tail and the slot shows a position of the previous lap |
| `WrapPeek.PeekedWordWasHead` | Xplatbase/Xplatbase/src/ring_queue.c:212-224 | a head word found unchanged is that of the true head, and the slot then copied carries the item pushed there |
| `WrapPeek.PushDecisionAgreesExactlyBelowHalf` | Xplatbase/Xplatbase/src/ring_queue.c:244-251 | exact limit of push_mp's sign test, for any lag: same decision if and only if the seqno is not ahead of the position, or its distance leaves a remainder by 2^32 strictly between 0 and 2^31 |
| `WrapPeek.PopDecisionAgreesExactlyBelowHalf` | Xplatbase/Xplatbase/src/ring_queue.c:271-279 | the same for pop_mc's sign test, measured from the seqno it expects |
| `WrapPeek.PeekTestsAgreeExactlyOffTheAlias` | Xplatbase/Xplatbase/src/ring_queue.c:214-219 | both seqno tests of peek agree if and only if the seqno is the expected one or not a whole number of 32-bit ranges away from it |
| `WrapPeek.PeekHeadAgreesExactlyOffTheAlias` | Xplatbase/Xplatbase/src/ring_queue.c:218-218 | its second look at the head agrees if and only if the head has not moved, or not by a whole number of 32-bit ranges |
| `ChunkProofs.NextKeepsInv` | Xplatbase/Xplatbase/src/memory_pool.c:412-572 | every locked section and every access to a thread cache, in any order, keeps the chunk accounting |
| `ChunkProofs.AccountingHolds` | Xplatbase/Xplatbase/src/memory_pool.c:412-463 | in every reachable state the live count of a segment is the number of its chunks in spans, large blocks and thread caches, and with its chunks in the shared cache makes up everything cut from it |
| `ChunkProofs.UsedIsLive` | Xplatbase/Xplatbase/src/memory_pool.c:546-548 | a chunk being released is counted, so the guard on the decrement never fires |
| `ChunkProofs.PurgeIsSafe` | Xplatbase/Xplatbase/src/memory_pool.c:468-508 | in every run no step unmaps a segment of which somebody holds a chunk, and no cache ever points into an unmapped segment |
| `ChunkProofs.StepKeepsHeld` | Xplatbase/Xplatbase/src/memory_pool.c:412-572 | a held chunk stays held and mapped, and one in use stays in use, until that very chunk is released |
| `ChunkProofs.CondemnedIsIdle` | Xplatbase/Xplatbase/src/memory_pool.c:474-487 | a condemned segment is linked, idle for the delay unless forced, and all of its chunks are in the shared cache |
| `ChunkProofs.AverageIsBounded` | Xplatbase/Xplatbase/src/memory_pool.c:520-521 | the smoothed size, with C division, stays between 0 and the largest evaluated count and moves toward the evaluated one |
| `ChunkProofs.AutomaticPurgeBound` | Xplatbase/Xplatbase/src/memory_pool.c:512-531 | one automatic evaluation leaves at least LOW - 62 chunks cached, never takes a segment idle for less than the delay, and frees nothing unless some evaluated count exceeded HIGH |
| `ChunkProofs.NoPurgeBelowHigh` | Xplatbase/Xplatbase/src/memory_pool.c:512-531 | over whole runs without explicit trims, memory goes back only if some evaluated count exceeded HIGH |
| `ChunkProofs.TrimTakesTheIdle` | Xplatbase/Xplatbase/src/memory_pool.c:1210-1216 | an explicit trim unmaps exactly the linked segments that are idle |
| `ChunkLists.CondemnTotal` | Xplatbase/Xplatbase/src/memory_pool.c:474-487 | the condemned segments overshoot the target by at most 62 chunks |
| `ChunkLists.SurvivingSize` | Xplatbase/Xplatbase/src/memory_pool.c:490-497 | the second pass takes exactly the chunks of the condemned segments out of the cache |
| `ChunkPool.Pool.PurgeApply` | Xplatbase/Xplatbase/src/memory_pool.c:468-508 | the two list-walking passes and the unmapping, in place, do what the purge step says |
| `ChunkPool.Pool.CondemnIdle` | Xplatbase/Xplatbase/src/memory_pool.c:474-487 | the unlinking loop leaves exactly the kept segments, in order, and returns the condemned ones |
| `ChunkPool.Pool.DropFromCache` | Xplatbase/Xplatbase/src/memory_pool.c:490-497 | the filtering loop leaves the surviving chunks, in order, with the right count |
| `ChunkPool.Pool.Evaluate` | Xplatbase/Xplatbase/src/memory_pool.c:512-531 | throttle, average, hysteresis and target in place refine the evaluation step, and keep its duty below |
| `ChunkDuties.EvaluationDone` | Xplatbase/Xplatbase/src/memory_pool.c:512-531 | the duty of an evaluation, on the state before and after: when the period is over, the size moves a quarter of the way; the purge is on afterwards if it exceeds HIGH, or if it was on and the size is at least LOW; and while it is on, the cache is down to LOW chunks or every segment still linked has a live chunk or has been idle for less than the delay; only whole segments have left, with their cached chunks |
| `ChunkDuties.ReleaseReturns` | Xplatbase/Xplatbase/src/memory_pool.c:533-558 | where a released chunk goes, on the state before and after: to the thread's cache below 64 chunks, otherwise to the front of the shared cache, its segment's count down by one, and an evaluation when it was the last one out |
| `ChunkDuties.CacheIsHandedOver` | Xplatbase/Xplatbase/src/memory_pool.c:561-572 | a thread that ends empties its cache, one release per chunk |
| `ChunkPool.Pool.Release` | Xplatbase/Xplatbase/src/memory_pool.c:533-558 | chunk_release in place refines one step, keeps the invariant and puts the chunk where ReleaseReturns says |
| `ChunkPool.Pool.Acquire` | Xplatbase/Xplatbase/src/memory_pool.c:412-463 | chunk_acquire returns a chunk nobody else held, from the own cache, the shared cache, the newest segment or a fresh one, and fails only when the system has no memory |
| `ChunkPool.Pool.Trim` | Xplatbase/Xplatbase/src/memory_pool.c:1210-1216 | memop_purge refines the trim step and keeps the invariant |
| `SpanBlocks.NextKeepsInv` | Xplatbase/Xplatbase/src/memory_pool.c:691-710 | every access of the owner and of every remote free keeps the block invariant of a span |
| `SpanBlocks.BlocksArePartitioned` | Xplatbase/Xplatbase/src/memory_pool.c:909-954 | in every reachable state each carved block is in exactly one of: a caller, a remote free under way, the local list, the remote stack, the list being drained; the pointers spell those lists; used + local = carved |
| `SpanBlocks.AllocTakesAFreeBlock` | Xplatbase/Xplatbase/src/memory_pool.c:930-945 | an allocation takes a block that is in nobody's hands and in no other list |
| `SpanBlocks.FreeLocalTakesBack` | Xplatbase/Xplatbase/src/memory_pool.c:994-998 | a free by the owner puts its block at the front of the local list and takes it off used |
| `SpanBlocks.RemoteEndsByPushing` | Xplatbase/Xplatbase/src/memory_pool.c:1015-1025 | a remote free goes on with its block and ends only with that block at the front of the remote stack |
| `SpanBlocks.RemoteFreeAlone` | Xplatbase/Xplatbase/src/memory_pool.c:1015-1025 | with no other thread stepping it takes three accesses |
| `SpanBlocks.DrainAlone` | Xplatbase/Xplatbase/src/memory_pool.c:691-710 | a drain with no other thread stepping moves the whole remote stack to the local list and takes those blocks off used |
| `SpanBlocks.DrainEnds` | Xplatbase/Xplatbase/src/memory_pool.c:691-710 | a drain ends after one turn per block, moves exactly the detached blocks and takes them off used |
| `SpanBlocks.RecycleIsSafe` | Xplatbase/Xplatbase/src/memory_pool.c:1000-1013 | outside a drain used is 0 exactly when no block is live, in a remote free or on the remote stack; then no thread can still push into the chunk |
| `LinkedSpans.InsertHeadOk` | Xplatbase/Xplatbase/src/memory_pool.c:757-764 | inserting at the head keeps a well-formed doubly linked list |
| `LinkedSpans.UnlinkOk` | Xplatbase/Xplatbase/src/memory_pool.c:766-773 | so does unlinking from any position |
| `LinkedSpans.PushTailOk` | Xplatbase/Xplatbase/src/memory_pool.c:775-783 | so does pushing at the tail |
| `SpanLists.InsertKeeps` | Xplatbase/Xplatbase/src/memory_pool.c:757-764 | the four pointer operations keep every other list and the head and tail words: insertion |
| `SpanLists.RemoveKeeps` | Xplatbase/Xplatbase/src/memory_pool.c:766-773 | the same for unlinking from a class |
| `SpanLists.PushFullKeeps` | Xplatbase/Xplatbase/src/memory_pool.c:775-783 | the same for entering the full list |
| `SpanLists.PopFullKeeps` | Xplatbase/Xplatbase/src/memory_pool.c:785-793 | the same for leaving it from any position |
| `SpanHeap.Heap.Refill` | Xplatbase/Xplatbase/src/memory_pool.c:805-878 | the refill ends, and who serves is told by the lists and counts before and what the drains find: the first span of the class with a block of its own, one never carved or blocks come back, those before it being retired; if none, the first and then the second span of the full list that is of the class and whose drain finds blocks; new memory only if neither is; the serving span has given one block, and every other span of a class found empty is full |
| `SpanHeap.Heap.TryFirst` | Xplatbase/Xplatbase/src/memory_pool.c:813-834 | one turn of the class loop serves if and only if the first span has a block or its drain brings one, and retires it otherwise |
| `SpanHeap.Heap.TryFull` | Xplatbase/Xplatbase/src/memory_pool.c:842-862 | one turn of the full-list scan revives the span if its drain brings blocks, serves from it if it is of the class wanted, and rotates it otherwise |
| `SpanHeap.Heap.Alloc` | Xplatbase/Xplatbase/src/memory_pool.c:928-950 | the same choice as the refill, told in the same words; a first span with a block of its own serves at once and no list changes |
| `SpanHeap.Heap.FreeLocal` | Xplatbase/Xplatbase/src/memory_pool.c:983-1014 | a freed block brings a full span back to the front of its class; a span is given back exactly when it was available, this was its last used block, and it is not alone in its class |
| `SpanRuns.Replay` | Xplatbase/Xplatbase/src/memory_pool.c:64-69 | after any sequence of allocations and frees from the empty heap, with any remote frees drained in between: each span is on exactly the list of its state and class, which the pointers spell, and its counts agree (FULL means nothing free, nothing to carve, every block in use) |
| `SpanHeap.Heap.End` | Xplatbase/Xplatbase/src/memory_pool.c:1324-1390 | a thread that ends gives back exactly the spans no block of which is in other hands; its heap keeps the others on well-formed lists |
| `SizeClasses.BuildTable` | Xplatbase/Xplatbase/src/memory_pool.c:602-614 | the table built by the loops leads each bucket to the smallest class that fits its largest size |
| `SizeClasses.TableIsExact` | Xplatbase/Xplatbase/src/memory_pool.c:594-598 | the lookup finds the smallest fitting class of every small size, and no class for any other |
| `SizeClasses.BlocksAreInside` | Xplatbase/Xplatbase/src/memory_pool.c:659-662 | every byte of every block lies past the header inside its span, and the pointer mask leads back to it |
| `SizeClasses.BlocksAreDisjoint` | Xplatbase/Xplatbase/src/memory_pool.c:682-688 | different blocks, of one span or of two, share no byte |
| `SizeClasses.AtLeastThreeBlocks` | Xplatbase/Xplatbase/src/memory_pool.c:682-688 | a span holds at least three blocks |
| `SizeClasses.LargeCoversUpTo32Bits` | Xplatbase/Xplatbase/src/memory_pool.c:883-904 | the recorded size of a large block covers the request if and only if the request is at most 2^32 - 64 |
| `Placement.BlocksApart` | Xplatbase/Xplatbase/src/memory_pool.c:659-688 | no two blocks of the mapped spans, small or large, share a byte |
| `Placement.AllowedMisses` | Xplatbase/Xplatbase/src/memory_pool.c:757-878 | no write to a span header, to a block not in use, or outside every span meets a block in use or another part of it |
| `Placement.AllocKeeps` | Xplatbase/Xplatbase/src/memory_pool.c:909-954 | whatever free place an allocation picks and whatever such words it writes on the way, the new block is apart from every block in use, and each of those keeps its header and its contents |
| `Placement.FreeKeeps` | Xplatbase/Xplatbase/src/memory_pool.c:971-1026 | so do the other blocks when a free writes such words and gives back spans with nothing else in use |
| `Supply.TakenBlockIsFree` | Xplatbase/Xplatbase/src/memory_pool.c:928-945 | the block an owner's allocation takes from a span is a free place of that span |
| `Supply.StepsFollow` | Xplatbase/Xplatbase/src/memory_pool.c:691-710 | a free, local or remote, takes its block out of use, and no other access of the owner or of a remote thread takes one into use or out of it |
| `Supply.LinkWritesAreAllowed` | Xplatbase/Xplatbase/src/memory_pool.c:700-706 | every link a free or a drain writes lies in a block not in use |
| `Supply.UnusedSpanMayGo` | Xplatbase/Xplatbase/src/memory_pool.c:1008-1012 | a span given back because its used count is 0 has no block in use |
| `Supply.AcquiredChunkIsFresh` | Xplatbase/Xplatbase/src/memory_pool.c:412-463 | a chunk handed out by chunk_acquire overlaps no mapped span |
| `Supply.SpanMayLeave` | Xplatbase/Xplatbase/src/memory_pool.c:533-558 | releasing the chunk of one span leaves every other one-unit span on its own used chunk |
| `Supply.UnusedChunkIsElsewhere` | Xplatbase/Xplatbase/src/memory_pool.c:533-558 | a chunk in a cache lies outside every span, and so do the links written in it |
| `Supply.SegmentHeaderIsElsewhere` | Xplatbase/Xplatbase/src/memory_pool.c:443-463 | so does the header of a segment |
| `Realloc.BlockHolds` | Xplatbase/Xplatbase/src/memory_pool.c:883-904 | for every size below 2^64: the block holds the request if and only if its rounding does not wrap, and its recorded size covers it if and only if the request is at most 2^32 - 64 |
| `Realloc.Memory.Alloc` | Xplatbase/Xplatbase/src/memory_pool.c:909-954 | an allocation adds one block, apart from all others, and changes the header and the contents of none in use |
| `Realloc.Memory.Free` | Xplatbase/Xplatbase/src/memory_pool.c:971-1026 | a free removes one block and changes the header and the contents of no other in use |
| `Realloc.Memory.Resize` | Xplatbase/Xplatbase/src/memory_pool.c:1082-1104 | a block that fits by the program's own test stays untouched; otherwise its first min(old usable, new size) bytes move, whichever of the four small or large paths is taken |
| `Realloc.Memory.Realloc` | Xplatbase/Xplatbase/src/memory_pool.c:1069-1105 | realloc on all inputs: the NULL and zero cases, a failure that leaves every block in use as it was, preserved contents, and no other block in use touched |
| `Realloc.InPlaceHolds` | Xplatbase/Xplatbase/src/memory_pool.c:1086-1095 | a block kept in place really holds the new size |
| `Realloc.InPlaceExactly` | Xplatbase/Xplatbase/src/memory_pool.c:1086-1095 | and it stays in place if and only if it is small and its class covers the new size, or is large and its recorded size covers a new large size |
| `Realloc.CarriesWhatFits` | Xplatbase/Xplatbase/src/memory_pool.c:1097-1104 | a block that moves carries over all its bytes, or as many as the new size has room for |
| `SiteTable.Table.Record` | Xplatbase/Xplatbase/src/memory_pool.c:257-283 | a record is stored unless the span is new and every slot belongs to another span |
| `SiteTable.Table.Lookup` | Xplatbase/Xplatbase/src/memory_pool.c:286-312 | lookup finds exactly the stored spans, with their latest record |
| `SiteTable.NothingIsDropped` | Xplatbase/Xplatbase/src/memory_pool.c:257-312 | while no more spans than slots have been recorded, every span recorded is found with its latest site |
| `SiteTable.NotFound` | Xplatbase/Xplatbase/src/memory_pool.c:286-312 | a free slot on the probe path, or a whole turn, proves the span absent, under any hash |
| `SignedRanks.RanksSum` | Tester/unittests/bench_estatistica.c:65-75 | with any pattern of ties the doubled mid-ranks of m values sum to m(m+1) |
| `SignedRanks.WaysCountAssignments` | Tester/unittests/bench_estatistica.c:77-82 | the recurrence of the table counts the sign assignments with each rank sum |
| `SignedRanks.CountsTotal` | Tester/unittests/bench_estatistica.c:77-90 | the counts of the sums from 0 to the total add up to 2^m |
| `SignedRanks.WaysAreSymmetric` | Tester/unittests/bench_estatistica.c:77-82 | the distribution is symmetric about half of the total |
| `Wilcoxon.RankTies` | Tester/unittests/bench_estatistica.c:65-74 | the tie loop gives every value twice the mean of the ranks its group takes |
| `Wilcoxon.Distribution` | Tester/unittests/bench_estatistica.c:78-82 | the in-place descending loop leaves at each sum the number of sign assignments that reach it |
| `Wilcoxon.Tails` | Tester/unittests/bench_estatistica.c:84-88 | the last loop adds up both tails at the observed sum |
| `Wilcoxon.Wilcoxon` | Tester/unittests/bench_estatistica.c:39-92 | the program computes the exact two-sided p for every sample, and its table is never overrun |
| `Wilcoxon.NegationKeepsP` | Tester/unittests/bench_estatistica.c:39-92 | negating every difference leaves p unchanged |
| `Wilcoxon.PIsAProbability` | Tester/unittests/bench_estatistica.c:89-91 | p is positive and at most 1 |
| `Wilcoxon.CapOnlyAtTheMiddle` | Tester/unittests/bench_estatistica.c:90-91 | the cap at 1 acts exactly when the observed sum is the middle of the distribution |
| `IndexSort.SortIndices` | Tester/unittests/bench_estatistica.c:56-63 | the insertion sort leaves a permutation of the indices in ascending order of the values |
| `BenjaminiHochberg.Mark` | Tester/unittests/bench_estatistica.c:101-116 | exactly the first R sorted indices are marked; for a rate or p-values that are not negative, index i is marked if and only if R >= 1 and p[i] <= R*q/n |
| `BenjaminiHochberg.LastBelowCut` | Tester/unittests/bench_estatistica.c:112-113 | the scan of the sorted p-values finds R |
| `BenjaminiHochberg.MarksAreSurvivors` | Tester/unittests/bench_estatistica.c:101-116 | for every rate, the marks are the survivors of the definition if and only if R = 0 or exactly R p-values lie below the cut of R |
| `BenjaminiHochberg.CutIsTight` | Tester/unittests/bench_estatistica.c:101-116 | which holds whenever the rate, or every p-value, is not negative |
| `BenjaminiHochberg.NegativeRateDependsOnTheSort` | Tester/unittests/bench_estatistica.c:101-116 | with a negative rate it can fail: two equal p-values, one marked, which one depending on the sort |
| `BenjaminiHochberg.MarksDoNotDependOnTheSort` | Tester/unittests/bench_estatistica.c:110-114 | otherwise the order the sort gives to ties changes nothing |

## Left out

- Weak memory: sequential consistency is assumed throughout; the argument for the weaker orders in Xplatbase/Xplatbase/src/thread_pool.c:319-331 is not part of this model.
- PoolTheorems.NoLostWakeUp: the configuration words (watchers, spin time, profile) are read as arbitrary values at each step, `stop` is never set, and the monitor's own sleep is not modelled; its wake-ups of workers and those of configuration calls are outside threads that clear a parked flag and set a wait word.
- PoolOnDeques.StepRefines: ring and deque positions are unbounded there; WrapRing relates those of each ring to 32 bits, and a deque's are 64-bit in the program.
- PoolProgress.PoolCanFinish: the steps exist for tasks that submit no others and return; that a scheduler takes them (fairness) is not part of this model.
- PoolModel: the round-robin start of a wake-up and the shard a submission goes to are arbitrary.
- BatchRing.NextKeepsInv: needs a capacity of at least 2; the pool creates its shards with 4096 (Xplatbase/Xplatbase/src/thread_pool.c:93).
- PeekRing.NextKeepsInv: needs a capacity of at least 2, by PeekCapacity.WholeItemsExactlyFromTwoCells. The single-producer push and pop of the same file, count, full and empty are left out.
- ChunkPool.Pool.Acquire: the class runs the sections of one call in a row; other threads come between them only in ChunkSpec.
- ChunkSpec: the clock is monotone and 64-bit millisecond counters do not wrap; segments_free_all at shutdown is left out.
- SpanHeap.Heap.Refill: blocks are counted, not named; what a drain finds is any number up to the blocks outside, which BlocksArePartitioned justifies.
- SpanHeap.Heap.End: a FULL span of an ended thread may keep free blocks, so SpanRuns.Replay is about heaps of running threads only.
- Realloc.Memory.Alloc: which free place is picked and which words are written on the way are parameters, of which Supply shows that the allocator's own are among them; that a mapping of the system overlaps no other is assumed, and requests within 64 KB of 2^64 bytes, which BlockHolds shows are not held, are excluded.
- Realloc.Memory.Realloc: a failure keeps every block in use with its header and contents; free blocks and headers may have been rewritten by the refill that failed.
- Realloc: the contents of a large block beyond its recorded 32-bit size are not tracked. Span headers are values of a map, not bytes of the memory.
- SiteTable: stack capture and the lock are left out; a record is an opaque value.
- Wilcoxon.Wilcoxon: differences and the quotient are exact reals and counts exact integers, so rounding of doubles, NaN and infinities are not modelled; the median and Hodges-Lehmann estimators are left out.
- BenjaminiHochberg.Mark: the same holds for its p-values; qsort is any sort whose result is a sorted permutation.
- Operating-system calls, thread creation, statistics counters, spin counts, the stuck-worker heuristic, the timer, profiles, pool and allocator shutdown, leak watching and process registration: outside the model, or easy members only.
- String, list, numeric and platform files of the library: thin wrappers, left out.
