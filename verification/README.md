# Verification of the task-distribution protocols

This project models the protocols of a task-distribution system in Dafny and proves what they promise.
The system hands file-transfer tasks from an id-ordered store to workers, which copy files between
object stores in parts through an edge worker.

Check everything with `dafny verify dfyconfig.toml`.

## What is modelled

**Dispatch.** `TransferQueue` is the state of one transfer job (task store, dedup hash, rank cursor,
channel, delta buffer, row, leases held by workers, lists held by retry scanners) with one function per
step. `DispatchHandlers` holds the handlers as methods of a class that works in place on the map of all
jobs, each proved equal to those functions; `DispatchEffects` says field by field, in numbers, what each of
them does to a job. `DispatchSafety`, `DispatchProgress` and `DispatchRetries`
prove the invariants over every run and interleaving of the steps, with any number of scanners that reset
from lists however old; `FairAcquire` is the draining of the channels. `DispatchLimits` and `ManualRetry`
give the exact conditions under which the guarantees hold where the code depends on its callers,
`DispatchWitnesses` (with `DispatchRuns`) runs from an empty job into states in which they fail.

**Sharded storage.** `ShardedStorage` and `ShardedAdds` prove that 256 dedup hashes and one sorted set per
50000 ids stand for one map and one ordered set, for any hash function. `ConcurrentAdds` interleaves adds,
`ShardedRows` is the table of rows that all sharded jobs share.

**Multipart transfers.** `RangeTiling` is the part arithmetic and the byte ranges (inclusive, as in section
14.1.2 of RFC 9110). `DownloaderUpload`, `WorkerUpload` and `PartSlots` are state machines of the part
goroutines, with every interleaving; `PartLists` sorts the parts in place.

**Concurrency and time.** `ConcurrencyController` is the worker's increase and decrease controller,
`ExecutionBudget` the time granted to one copy request and the edge worker's retry loop that has to fit in
it, `RateLimiting` the sliding-window limiter, `DeferralFetcher` the fetcher that puts large tasks back.

**The media scanner.** `StreamPairing` is what file names and a listing say, `StreamScan` the page loop with a
specification for every listing, split and map order, and `ScanJoin` (with `ScanFiles`) compares it with the
join of the whole listing.

**Compact algorithms.** `MergeJoin` (bucket copy), `RoundRobin` (proxy pool), `KeysetSweep` and `BucketSweep`
(background and manual retries).

Time, random draws, the map iteration order, scheduling, and the replies of databases, stores and services
are parameters or steps chosen by the environment. Integers are unbounded and measured quantities are reals.

## Where the code and its promise differ

Each of these is stated exactly, as an if-and-only-if where one exists, with an input that shows it.

- The reset handler looks at the status alone, while the scanner that calls it counted the retries when it
  made its list. With a second scanner a stale reset dispatches a task beyond its limit and wakes a closed
  job; the worker's own guard still bounds the transfers (`DispatchRetries.ResetWithinBudgetExactlyWhen`,
  `DispatchRetries.StaysIdleExactlyWhen`, `DispatchWitnesses.ClosedJobWakes`,
  `DispatchRetries.TransfersBounded`).
- The reset handler finds a task under a key shared by all jobs, and credits the job it is looking at, not
  the owner (`DispatchLimits.ResetExactlyWhenOwner`, `DispatchLimits.WrongJobCredited`).
- A batch that names a task twice counts it twice, and an update that leaves COMPLETED or changes the size
  leaves the byte counters as they were (`DispatchLimits.BatchIsOffBy`, `DispatchLimits.BatchExactlyWhen`,
  `DispatchLimits.TwiceInABatch`, `DispatchLimits.UpdateExactlyWhen`, `DispatchLimits.LateFailureKeepsBytes`).
- Legacy ids of two jobs collide once a job outgrows its block of a million
  (`DispatchLimits.JobsShareNoIdExactlyWhen`, `DispatchLimits.OutgrownBlockShares`).
- Sharded jobs all count their ids from one but share one table of rows, so of two jobs with tasks one finds
  the other's rows (`ShardedRows.OwnRowsExactlyWhen`, `ShardedRows.SecondJobHasNoRow`).
- A worker that never reports can starve the tasks below the cursor, because the stuck check waits while any
  row is running (`DispatchProgress.ServedExactlyWhen`, `DispatchWitnesses.LostWorkerStarves`).
- The monitor closes a job by a fixed limit of three retries, whatever limit the scanner is configured with
  (`DispatchRetries.ClosedIsQuiet`, `DispatchRetries.ClosedCanWakeUp`).
- The manual retry rewinds the cursor over a channel that is not empty, after which a task can go to two
  workers, and leaves the retry count in the row (`ManualRetry.RetryDispatchesTwiceExactlyWhen`,
  `ManualRetry.ChannelSoundExactlyWhen`, `ManualRetry.RetryCanDispatchTwice`, `ManualRetry.MirroredExactlyWhen`,
  `ManualRetry.RetryForgotten`).
- The part limit of 10000 can be passed by one (`RangeTiling.WorkerPartCount`, `RangeTiling.ToolPartCount`).
- A late goroutine can swallow the downloader's error token; the upload still ends well
  (`DownloaderUpload.TokenCanVanish`, `DownloaderUpload.EndUpload`).
- The transfer worker leaves an upload open when the one call that ends it fails (`WorkerUpload.EndUpload`).
- Concurrent adds can give one path two ids (`ConcurrentAdds.WriteKeepsOneIdExactlyWhen`,
  `ConcurrentAdds.TwoIdsForOnePath`).
- A copy prefix without a trailing slash can list keys in an order in which the merge copies objects again
  (`MergeJoin.SortedExactlyWhen`, `MergeJoin.MisorderedCopiesAgain`).
- Lowering the limiter's rate lets a minute hold more than the new rate
  (`RateLimiting.WaitSufficesExactlyWhen`, `RateLimiting.LoweredRateOverruns`).
- The bucket sweep stops at ten million ids, and does nothing when its first bucket is empty
  (`BucketSweep.SweepReachesExactly`, `BucketSweep.TenMillionthIsMissed`).
- What the media scanner queues depends on where its pages end once a file is listed after both files of its
  id, and it queues an id twice once both files come again; an incremental scan never pairs a file behind its
  start with one before it (`ScanJoin.ScanJoinsExactlyWhen`, `ScanJoin.ScanOnceExactlyWhen`,
  `ScanJoin.TwoDirectories`, `StreamPairing.ResumedScanMisses`, `StreamPairing.SplitPairIsMissed`).
- With the deferral limit set to zero and a probability floor below one, a large task may be put back for
  ever (`DeferralFetcher.KeptBackExactlyWhen`).

## Model

| member | source | states |
|---|---|---|
| DispatchSafety.NoDoubleDispatch | backend/go-app/handlers/task_handler.go:2410-2940 | over every run of adds, fills, acquires, reports, lost workers, stuck checks, flushes, monitor steps, resets by any number of scanners from however old lists, and manual retries that find the channel empty or nothing failed: no task is held by two workers or twice in the channel, none held is also queued, and every queued record is the stored pending one below the cursor |
| DispatchSafety.CountersConserved | backend/go-app/handlers/task_handler.go:451-548 | over every such run: row counter plus buffered delta is the census of each status, total and byte counters are exact, and after a flush the four counters add up to the total |
| DispatchSafety.NextKeeps | backend/go-app/handlers/task_handler.go:2410-2940 | every such step keeps the whole invariant: store order, agreement of both stores, dedup map, retry counts, channel, leases, counters |
| DispatchSafety.RunKeeps | backend/go-app/handlers/task_handler.go:2410-2940 | so does every run |
| DispatchSafety.ScanPushes | backend/go-app/handlers/task_handler.go:2456-2487 | the fill pushes, in rank order, exactly the pending records of the ranks it consumes, and stops early only at a pending record that finds the channel full |
| DispatchSafety.FillKeeps | backend/go-app/handlers/task_handler.go:2410-2487 | the cursor fill keeps the invariant |
| DispatchSafety.TakeKeeps | backend/go-app/handlers/task_handler.go:161-240 | marking a popped task running keeps the invariant |
| DispatchSafety.ReportKeeps | backend/go-app/handlers/task_handler.go:2660-2814 | a worker's report on a task it holds keeps the invariant |
| DispatchSafety.AutoResetKeeps | backend/go-app/handlers/task_handler.go:2875-2932 | a reset of any task, with retries left or not, keeps the invariant |
| DispatchSafety.RetryKeepsCounters | backend/go-app/handlers/job_handler.go:432-507 | the manual retry moves exactly the failed tasks to pending and keeps the counters exact |
| DispatchSafety.RetryKeepsHolders | backend/go-app/handlers/job_handler.go:432-507 | id order and the leases survive the manual retry, whatever the channel holds |
| DispatchSafety.RetryKeeps | backend/go-app/handlers/job_handler.go:432-507 | a manual retry that finds the channel empty, or nothing failed, keeps the invariant |
| DispatchSafety.FlushKeeps | backend/go-app/handlers/task_handler.go:510-548 | the flush keeps the invariant and makes the row counters the census, so the clamps at zero never bite |
| DispatchSafety.AddedInputs | backend/go-app/handlers/task_handler.go:1887-1919 | an add takes one input for exactly those paths that the job does not have |
| DispatchSafety.AddKeeps | backend/go-app/handlers/task_handler.go:1882-2032 | an add keeps the invariant |
| DispatchProgress.ProgressAfterAnyRun | backend/go-app/handlers/task_handler.go:2079-2136 | after any such run, an active job with a pending task at or above its cursor, or anywhere while none is running, has a pending task in its channel at most twice as many refill rounds later as its ranks make batches |
| DispatchProgress.ServedExactlyWhen | backend/go-app/handlers/task_handler.go:2079-2136 | from every state of the invariant: some refill round, within two passes over the ranks, puts a pending task into the channel if and only if the channel holds something already, or the job is active and a task at or above the cursor is pending, or one below it is while the pending counter is positive and no row is running |
| DispatchProgress.FillOfEmpty | backend/go-app/handlers/task_handler.go:2410-2487 | a fill of an empty channel consumes its whole batch, and finds nothing if and only if the batch has nothing pending |
| DispatchProgress.AddIsServed | backend/go-app/handlers/task_handler.go:1882-2136 | from every state of the invariant that is not paused, stopped or scanning, closed and failed jobs included: after an add of a new path, the channel holds a pending task within two passes of refill rounds, before and after a flush |
| DispatchProgress.RetryIsServed | backend/go-app/handlers/job_handler.go:432-507 | likewise after a manual retry of a failed task that finds the channel empty |
| DispatchWitnesses.LostWorkerStarves | backend/go-app/handlers/task_handler.go:2079-2136 | a run from a new job in which one task is lost with its worker and another fails and is reset, after which no number of rounds serves it |
| DispatchRetries.TransfersBounded | backend/worker_transfer/transfer.go:929-947 | over every run with any number of scanners, a worker really transfers a task at most as often as the retry limit says |
| DispatchRetries.SpentCoversTransfers | backend/worker_transfer/transfer.go:929-947 | every transfer of a task uses up one of its retries, from any sound state |
| DispatchRetries.ResetWithinBudgetExactlyWhen | backend/go-app/handlers/task_handler.go:2875-2932 | a reset keeps all dispatches within the limit if and only if the task has a retry left, which the handler does not look at |
| DispatchRetries.RetriesBounded | backend/worker_transfer/transfer.go:1789-1809 | over every run with at most one scanner no task is dispatched more than the retry limit, and all dispatches, reports and resets are at most three times that per task |
| DispatchRetries.AttemptsAreTakes | backend/go-app/handlers/task_handler.go:161-240 | the attempts of a task are exactly the times that a run handed it out |
| DispatchRetries.WorkBounded | backend/worker_transfer/transfer.go:1789-1841 | with at most one scanner every dispatch, report and reset uses up a measure that only adds can raise |
| DispatchRetries.ClosedIsQuiet | backend/go-app/handlers/task_handler.go:3356-3392 | a job that the monitor closes is idle if and only if no failed task lies between the fixed limit of three and the configured one, and quiet if and only if no scanner lists a failed task either |
| DispatchRetries.OneScannerClosesQuiet | backend/go-app/handlers/task_handler.go:3356-3392 | with one scanner and a limit of at most three, every job that the monitor closes is quiet |
| DispatchRetries.QuietRun | backend/go-app/handlers/task_handler.go:3356-3392 | from a quiet state, until something is added or retried by hand, no step dispatches, reports or resets, and no task changes |
| DispatchRetries.StaysIdleExactlyWhen | backend/go-app/handlers/task_handler.go:2875-2932 | an idle job keeps its tasks as they are over every run without adds and manual retries if and only if no scanner still lists a failed task |
| DispatchRetries.WakingRun | backend/go-app/handlers/task_handler.go:2875-2932 | a run of skips and one reset that makes a task on an old list pending and reopens its job |
| DispatchRetries.ClosedCanWakeUp | backend/go-app/handlers/task_handler.go:2816-2848 | a state with limit four that the monitor closes while a scanner would still list its task |
| DispatchWitnesses.ClosedJobWakes | backend/worker_transfer/transfer.go:1789-1809 | a run from a new job in which two scanners list a task that has failed twice of three times; the monitor closes the job after the third failure, and the second scanner's reset has it dispatched a fourth time |
| DispatchLimits.BatchIsOffBy | backend/go-app/handlers/task_handler.go:2697-2811 | any batch, of whatever tasks, statuses and sizes, puts each counter and the byte counts off by exactly what its repeated and size-changing updates add up to |
| DispatchLimits.BatchExactlyWhen | backend/go-app/handlers/task_handler.go:2697-2811 | any batch keeps the counters exact if and only if these amounts cancel out |
| DispatchLimits.BatchExactlyWhenDistinct | backend/go-app/handlers/task_handler.go:2697-2811 | a batch of reports keeps the counters exact if and only if it names no task twice |
| DispatchLimits.TwiceInABatch | backend/go-app/handlers/task_handler.go:2697-2811 | a job and a batch that reports one failure twice, after which the counters are wrong |
| DispatchLimits.UpdateExactlyWhen | backend/go-app/handlers/task_handler.go:2697-2811 | any one update, whatever the old and new status, keeps the counters exact if and only if it changes no size and takes back no bytes counted as done |
| DispatchLimits.LateFailureKeepsBytes | backend/go-app/handlers/task_handler.go:2697-2811 | a sound job with one completed task, whose counters a late failure report breaks |
| DispatchLimits.SearchAndReset | backend/go-app/handlers/task_handler.go:2875-2937 | the search resets the task if some listed job leads to it while it is failed, and then credits the first job listed |
| DispatchLimits.ResetExactlyWhenOwner | backend/go-app/handlers/task_handler.go:2875-2932 | a reset of any failed task keeps the invariant of all jobs if and only if the credited job owns the task |
| DispatchLimits.WrongJobCredited | backend/go-app/handlers/task_handler.go:2875-2932 | two sound jobs of which the reset breaks one, because the other is listed first |
| DispatchLimits.IdsAreARange | backend/go-app/handlers/task_handler.go:1925-1946 | over every run a job's ids are consecutive from its block's start |
| DispatchLimits.JobsShareNoIdExactlyWhen | backend/go-app/handlers/task_handler.go:1925-1962 | after any runs of two jobs they share no task id if and only if the lower one fits in the blocks between them, or one has no tasks |
| DispatchLimits.OutgrownBlockShares | backend/go-app/handlers/task_handler.go:1925-1962 | two runs of one add each, of a million and one files, after which jobs 0 and 1 share an id |
| DispatchHandlers.Dispatcher.AddTasks | backend/go-app/handlers/task_handler.go:1882-2032 | the first input of each path that the job does not have becomes a pending task, numbered on from the last id or the job's million, in order; hash, counters and sizes grow with them, a completed, phased or failed job is pending again and any other status stays; nothing new changes nothing; the count is what was new |
| DispatchHandlers.Dispatcher.FillBuffer | backend/go-app/handlers/task_handler.go:2410-2487 | from any cursor below the end the channel gets exactly what is pending between the old and the new cursor, which is 1000 ranks on, or at the end, or at the pending record that found 2000 in the channel |
| DispatchHandlers.Dispatcher.RefillAll | backend/go-app/handlers/task_handler.go:2045-2186 | a listed active job with fewer than 100 records in its channel is filled that way, from the start if it looks stuck; with 100 or more, or not active, it keeps channel and cursor; no other job changes |
| DispatchHandlers.Dispatcher.Acquire | backend/go-app/handlers/task_handler.go:2489-2658 | for any order of the jobs that have a channel: one channel gives its first min(limit, length) records; of several, none gives more than limit divided by their number (at least one) nor more large ones than a quarter of that (at least one), a channel of small records gives exactly its first min(share, length), and a limit below their number takes the heads of the first ones; the channels lose exactly what was popped, which is marked running in its jobs and leased to the worker; jobs without a channel do not change |
| DispatchHandlers.Dispatcher.MarkTasksRunning | backend/go-app/handlers/task_handler.go:161-240 | the returned records are the popped ones, running; in each job exactly those tasks run with one attempt more, the worker holds them in order, and a pending or closed job that gave something runs |
| DispatchHandlers.Dispatcher.BatchUpdateTasks | backend/go-app/handlers/task_handler.go:2660-2814 | for updates of tasks of any jobs in any order: each task takes the last update that names it, with path and size kept where it gives none and a retry added to an uncounted failure, record and row alike; a closed job that gets a pending task is pending, and one that is not held up and gets a running task runs |
| DispatchHandlers.Dispatcher.FlushAll | backend/go-app/handlers/task_handler.go:510-548 | each listed job owes nothing afterwards, its row counters are the census, and a waiting one with a running task runs |
| DispatchEffects.ReportIs | backend/go-app/handlers/task_handler.go:2660-2814 | what a worker's report leaves: completion without retries, a failure with one retry more than the worker was given, or the count it was given when it gives the task back; no other task, and not the job's status, changes |
| DispatchEffects.ResetIs | backend/go-app/handlers/task_handler.go:2875-2932 | a reset makes the failed task of that id pending with the retries it has, moves one count from failed to pending and reopens a closed job; any other id changes nothing |
| DispatchEffects.MonitorCloses | backend/go-app/handlers/task_handler.go:3356-3392 | in every state of the invariant the monitor closes a running job with tasks that is not periodic if and only if none of them is pending or running and each that has failed did so three times or more by its row; it changes nothing else |
| DispatchHandlers.AcquireIsRun | backend/go-app/handlers/task_handler.go:2489-2658 | an acquire is, for each job, a run of a shuffle and one take per task, so the invariant survives it |
| DispatchHandlers.FillJob | backend/go-app/handlers/task_handler.go:2410-2487 | the fill loop computes the fill step |
| DispatchHandlers.NewInputs | backend/go-app/handlers/task_handler.go:1887-1919 | both dedup passes leave inputs for exactly the unknown paths |
| FairAcquire.Visit | backend/go-app/handlers/task_handler.go:2623-2637 | one visit pops the head, or puts a large head back at the tail when the job has its share of large ones |
| FairAcquire.FairDrain | backend/go-app/handlers/task_handler.go:2588-2639 | at most the limit in all; plain shares of limit divided by jobs and a quarter of that for large records; every channel gives the front that these shares allow, in order, and keeps the rest; channels plus returned tasks are preserved |
| ManualRetry.RetryLegacy | backend/go-app/handlers/job_handler.go:432-507 | every failed task is pending with a fresh retry count in its record and the old one in its row, the cursor starts over, and a completed, failed or phased job is pending again; when nothing failed, nothing changes |
| ManualRetry.ChannelSoundExactlyWhen | backend/go-app/handlers/job_handler.go:500-506 | the channel stays sound if and only if it was empty or nothing was retried |
| ManualRetry.MirroredExactlyWhen | backend/go-app/handlers/job_handler.go:316-329 | row and record still agree if and only if no failed task had used a retry |
| ManualRetry.RetryForgotten | backend/go-app/handlers/job_handler.go:316-329 | a sound job with one task that failed once, whose row and record then differ |
| ManualRetry.RetryDispatchesTwiceExactlyWhen | backend/go-app/handlers/job_handler.go:500-506 | from any sound state, after the retry some run gives one task to two workers if and only if the channel was not empty and something had failed |
| ManualRetry.TakenTwice | backend/go-app/handlers/task_handler.go:2588-2639 | from any state whose channel holds one pending record at its head and once more, a run that gives it to two workers |
| ManualRetry.RetryCanDispatchTwice | backend/go-app/handlers/job_handler.go:500-506 | from a sound state, the retry, one fill and two takes give one task to two workers |
| BucketSweep.SweepChunk | backend/go-app/handlers/job_handler.go:383-419 | a chunk resets exactly its failed tasks and counts them |
| BucketSweep.SweepBuckets | backend/go-app/handlers/job_handler.go:350-421 | exactly the failed tasks with an id below ten million are pending, without retries or error, and counted, provided that some task has an id below 50000; nothing else changes |
| BucketSweep.SweepReachesExactly | backend/go-app/handlers/job_handler.go:350-421 | every failed task is retried if and only if none has an id of ten million or more and some task has an id below 50000, or none failed |
| BucketSweep.TenMillionthIsMissed | backend/go-app/handlers/job_handler.go:350-421 | a job of ten million tasks whose last one failed and is not retried |
| BucketSweep.ResetsMoveCounts | backend/go-app/handlers/job_handler.go:388-416 | the number of resets is what moves from failed to pending |
| KeysetSweep.SweepByKeyset | backend/go-app/handlers/job_handler.go:1662-1717 | the keyset loop ends, scans every failed row once, resets and queues the chosen ones |
| KeysetSweep.PageChosen | backend/go-app/handlers/job_handler.go:1664-1694 | the ids chosen from one page are exactly the ids to retry between the cursor and the page's last row |
| KeysetSweep.KeysetSweepIsExact | backend/go-app/handlers/job_handler.go:1662-1717 | a row becomes pending and is queued if and only if it failed but not for good; the queued ids ascend, each once |
| ShardedStorage.ShardLookup | backend/go-app/handlers/task_handler.go:95-99 | for any hash, looking a path up in its shard is looking it up in the union of all |
| ShardedStorage.ShardWrite | backend/go-app/handlers/task_handler.go:95-99 | writing into the shard is writing into the union |
| ShardedStorage.BucketWrite | backend/go-app/handlers/task_handler.go:102-105 | writing an id into its bucket adds exactly that id to the whole set |
| ShardedStorage.FlattenIsOrderedSet | backend/go-app/handlers/task_handler.go:102-105 | the buckets one after the other are the members in id order, each once |
| ShardedStorage.ReadBehind | backend/go-app/handlers/task_handler.go:2252-2287 | the bucketed read with its second try returns at most 1000 held ids above the offset, ascending, and leaves out no held id between the offset and the last one |
| ShardedStorage.ReadFindsExactlyWhen | backend/go-app/handlers/task_handler.go:2252-2287 | the read finds something if and only if a task beyond the offset lies in the next id's bucket or the one after |
| ShardedStorage.ReadIsContiguous | backend/go-app/handlers/task_handler.go:2252-2287 | with gap-free ids the read behind any offset below the largest id is a non-empty run from the next id |
| ShardedAdds.ShardedStore.Add | backend/go-app/handlers/task_handler.go:1747-1822 | the sharded add is the add on the flat store that the shards and buckets stand for |
| ShardedAdds.WriteShards | backend/go-app/handlers/task_handler.go:1783-1822 | the write loop keeps the layout and writes the same batch as on the flat store |
| ShardedAdds.SequentialAdd | backend/go-app/handlers/task_handler.go:1747-1822 | sequential adds never give a path two ids, lose no path, overwrite nothing and leave no gap |
| ShardedRows.IdsCollideExactlyWhen | backend/go-app/handlers/task_handler.go:1768-1776 | after any adds to any sharded jobs, two jobs share an id if and only if both have tasks |
| ShardedRows.OwnRowsExactlyWhen | backend/go-app/handlers/task_handler.go:1825-1834 | every job has a row of its own for each of its tasks if and only if no two jobs have tasks |
| ShardedRows.SecondJobHasNoRow | backend/go-app/handlers/task_handler.go:1825-1834 | one task added to each of two jobs: the second one has no row |
| ConcurrentAdds.AddsNeverShareIds | backend/go-app/handlers/task_handler.go:1775-1822 | however adds interleave, no two share an id and what each wrote stays |
| ConcurrentAdds.RunKeepsInv | backend/go-app/handlers/task_handler.go:1747-1822 | every schedule keeps the id ranges apart and unwritten until their owner writes |
| ConcurrentAdds.WriteKeepsOneIdExactlyWhen | backend/go-app/handlers/task_handler.go:1783-1822 | a write keeps one id per path if and only if none of its paths has got an id since its check |
| ConcurrentAdds.TwoIdsForOnePath | backend/go-app/handlers/task_handler.go:1751-1822 | a schedule of two adds that gives one path the ids 1 and 2 |
| RangeTiling.NumPartsCovers | backend/worker_transfer/transfer.go:1316-1317 | the part count is the least that covers the object |
| RangeTiling.CeilIsNumParts | backend/worker_downloader/downloader.go:1450 | rounding the real quotient up gives the same count |
| RangeTiling.WorkerPartCount | backend/worker_transfer/transfer.go:1686-1693 | parts have the minimum size, or a larger one only when the object fills 10000 of them; at most 10001 parts, and over 10000 if and only if the size sets the part size and is no multiple of 10000 |
| RangeTiling.ToolPartCount | r2-worker/r2s3.go:424-432 | parts have 16 MiB, or the fewest whole MiB that will do; at most 10001 of them, and over 10000 if and only if the size sets the part size, rounding up to a MiB does nothing and the size is no multiple of 10000 |
| RangeTiling.LimitIsPassed | backend/worker_transfer/transfer.go:1686-1693 | sizes at which both programs make 10001 parts |
| RangeTiling.PartRangeShape | r2-worker/r2s3.go:361-369 | offset and length of the copy tool are the same range as start and end of the workers, of the part size except for the last |
| RangeTiling.PartLoop | backend/worker_transfer/transfer.go:1328-1334 | the ranges are non-empty, contiguous, end with the object, and all but the last have the part size |
| RangeTiling.Reassembles | backend/worker_transfer/transfer.go:1328-1334 | the slices of any tiling in part order are the source |
| PartLists.SortParts | backend/worker_downloader/downloader.go:1586-1593 | the in-place exchange sort ascends and permutes |
| PartLists.FullListIsOneEach | backend/worker_downloader/downloader.go:1586-1602 | as many different parts as there are, sorted, are parts 1 to n |
| DownloaderUpload.CollectedParts | backend/worker_downloader/downloader.go:1463-1550 | in every interleaving the list holds different parts, each with exactly the etag its upload gave, uploads never exceed the slots, and the list is full if and only if every part was uploaded |
| DownloaderUpload.TokenTells | backend/worker_downloader/downloader.go:1488-1536 | in every interleaving an error is left in the channel only if a part failed, and if one did and none is left, a goroutine was skipped |
| DownloaderUpload.TokenCanVanish | backend/worker_downloader/downloader.go:1488-1493 | a run in which a later goroutine swallows the error token |
| DownloaderUpload.PartMap | backend/worker_downloader/downloader.go:1900-1916 | the map of a reply has exactly the parts it lists with a non-empty etag |
| DownloaderUpload.CollectParts | backend/worker_downloader/downloader.go:1891-1942 | recovery succeeds if and only if some poll lists every part, and then returns parts 1 to n with listed etags |
| DownloaderUpload.Conclude | backend/worker_downloader/downloader.go:1550-1652 | every upload is completed or aborted, completion carries exactly parts 1 to n in order, and the mismatch exits are not taken |
| DownloaderUpload.EndUpload | backend/worker_downloader/downloader.go:1463-1652 | for every interleaving of the goroutines, every sequence of polls and every answer of the store: completion carries exactly parts 1 to n with the etags of their uploads or of one reply, and is asked for if and only if no error is left in the channel and every part was uploaded or some reply lists them all; an error is left only if a part failed |
| DownloaderUpload.VerifyOrder | backend/worker_downloader/downloader.go:1597-1602 | the check accepts exactly parts 1 to n |
| DownloaderUpload.TotalSize | backend/worker_downloader/downloader.go:1616-1634 | the sizes of parts 1 to n always add up to the object |
| WorkerUpload.EmptyChannelMeansSuccess | backend/worker_transfer/transfer.go:1328-1385 | after the wait the error channel is empty if and only if every part succeeded, and the list then holds all |
| WorkerUpload.RunCancels | backend/worker_transfer/transfer.go:1342-1370 | goroutines without a slot may give up exactly when some call broke or the deadline struck |
| WorkerUpload.AllCanSucceed | backend/worker_transfer/transfer.go:1328-1385 | for any number of parts and any etags, the run in which each goroutine in turn gets a slot and uploads ends with all of them in the list and no error |
| WorkerUpload.Conclude | backend/worker_transfer/transfer.go:1376-1401 | an error aborts, else completion carries parts 1 to n; the upload stays open exactly when the one call made fails |
| WorkerUpload.EndUpload | backend/worker_transfer/transfer.go:1328-1401 | for every interleaving: the upload succeeds if and only if every part was uploaded and the completion, which carries exactly parts 1 to n with the etags of their uploads, is accepted; it stays open exactly when that completion, or else the abort, fails |
| WorkerUpload.ToolNoErrorMeansAll | r2-worker/r2s3.go:351-410 | with every goroutine back, no queued error if and only if every slot is filled, in order, each with exactly the etag its goroutine got |
| PartSlots.SlotsAccounted | backend/worker_transfer/transfer.go:549-591 | instruction by instruction, with the controller interleaved: the counter is all tokens plus the goroutines in mid-acquire and mid-release, and holders never exceed the configured concurrency |
| PartSlots.StepKeeps | backend/worker_transfer/transfer.go:549-591 | every instruction keeps the counter, the semaphores and the admission bound |
| PartSlots.AcquireAlone | backend/worker_transfer/transfer.go:549-583 | an acquire that nobody disturbs gets a slot if and only if the limit set last is not reached and the semaphore has room, taking one of each, and otherwise leaves no trace |
| PartSlots.ReleaseAlone | backend/worker_transfer/transfer.go:586-591 | a release gives back exactly one token and one count |
| ConcurrencyController.Controller.Adjust | backend/worker_transfer/transfer.go:697-825 | one tick, over the comparisons of error rate, latency and pool use with their limits: if any exceeds and the cooldown is over, the workers become the floor of their number times the factor, 0.4 when several exceed, or the minimum; inside the cooldown nothing changes; if none exceeds they grow, unless at the maximum; always within the bounds |
| ConcurrencyController.AdjustedWithin | backend/worker_transfer/transfer.go:697-825 | workers stay between minimum and maximum, part concurrency between one and the configured one |
| ConcurrencyController.RunWithin | backend/worker_transfer/transfer.go:697-825 | so in every run |
| ConcurrencyController.DecreasesSpaced | backend/worker_transfer/transfer.go:738-763 | any two decreases of a run are at least the cooldown apart |
| ConcurrencyController.Recovers | backend/worker_transfer/transfer.go:786-814 | k ticks in which no metric exceeds its limit give back at least k workers, up to the maximum |
| ConcurrencyController.BacksOff | backend/worker_transfer/transfer.go:748-777 | with a factor below one, ticks after the cooldown in which some metric exceeds its limit shrink the workers geometrically and by at least one each down to the minimum |
| ExecutionBudget.Budget | backend/worker_transfer/transfer.go:480-500 | the loop computes attempts (at least one) times two timeouts (60 seconds when not configured), n(n-1)/2 seconds and 15 seconds |
| ExecutionBudget.Attempt | r2-worker/src/index.js:441-532 | one pass takes the time of its requests and answers or goes round again as the outcome and the attempts left say |
| ExecutionBudget.ProcessMessage | r2-worker/src/index.js:440-535 | the retry loop stops at the first final outcome or the last attempt, with its answer, and succeeds if and only if that is a copy; before the last attempt it answers no status 408, 429 or 500 to 599, and goes round again at no other status |
| ExecutionBudget.PausesFit | r2-worker/src/index.js:9-13 | for every attempt count the worst pauses leave at least 2008 ms of what the budget adds, exactly that at nine attempts alone |
| ExecutionBudget.LoopFitsBudget | backend/worker_transfer/transfer.go:480-500 | with equal attempts and timeouts the loop ends within the budget, however the requests go |
| ExecutionBudget.SlackIsExact | r2-worker/src/index.js:486-489 | in any run of nine attempts that all come as late as their timers allow, the budget holds if and only if reading the error bodies fits in the slack |
| RateLimiting.RateLimiter.Acquire | backend/worker_downloader/get_yt_metadata.py:193-225 | what is over a minute old is dropped from the head of the record; a caller that then finds at least the rate, the oldest less than 60.1 seconds ago, sleeps and is recorded when it wakes, any other at once |
| RateLimiting.RateLimiter.UpdateRate | backend/worker_downloader/get_yt_metadata.py:180-186 | sets the rate and leaves the record alone |
| RateLimiting.MinuteUpToGrant | backend/worker_downloader/get_yt_metadata.py:180-225 | for any schedule and any changes of the rate, every caller is let through in clock order, and when a call finds that one wait suffices, the minute up to its grant holds at most its rate |
| RateLimiting.NoMinuteHoldsMore | backend/worker_downloader/get_yt_metadata.py:193-225 | for any schedule at a rate that is never lowered, grants within one minute number at most the rate of the last |
| RateLimiting.OneWaitFrees | backend/worker_downloader/get_yt_metadata.py:209-220 | with a record no longer than the rate, one wait always leaves fewer recorded grants than the rate |
| RateLimiting.WaitSufficesExactlyWhen | backend/worker_downloader/get_yt_metadata.py:180-220 | one wait leaves at most the rate, however late the caller wakes, if and only if when it gets the lock there is room or the rate-th youngest grant is less than the buffer younger than the oldest |
| RateLimiting.LoweredRateOverruns | backend/worker_downloader/get_yt_metadata.py:180-220 | a schedule of four calls, the last at the lowered rate one, whose last minute holds three grants |
| DeferralFetcher.Pass | backend/worker_downloader/downloader.go:738-779 | a pass takes the turns that the draws decide; it loses and doubles nothing and sends no more than fits; when the tasks are different ones and room is left, it puts each task it keeps back at least once, none beyond the limit |
| DeferralFetcher.EachTurn | backend/worker_downloader/downloader.go:738-779 | a task with several parts stays, with the switch on and its put-backs below the limit, when the draw is at least the floor and at least one over the square of its parts; then its put-back is counted and it goes to the end, otherwise it is sent and its count forgotten |
| DeferralFetcher.SentInTime | backend/worker_downloader/downloader.go:738-779 | with a limit, no task is kept back by more passes with room than that, whatever arrives between them |
| DeferralFetcher.AllSentInTime | backend/worker_downloader/downloader.go:738-779 | with a limit and nothing new, that many passes with room and one more leave nothing pending |
| DeferralFetcher.KeptBackExactlyWhen | backend/worker_downloader/downloader.go:704-754 | for some queue and some draws a task is kept back by n passes with room if and only if it has several parts, the probability floor is below one, and there is no limit or one of at least n |
| MergeJoin.Merge | r2-worker/r2s3.go:101-156 | for strictly ascending listings exactly the objects the destination lacks are copied, in order, and the others deleted if asked; for any listings nothing is deleted without a match |
| MergeJoin.SortedExactlyWhen | r2-worker/r2s3.go:267-294 | a listing is strictly ascending in RelKey if and only if it is so behind a key that equals the prefix and where keys with a slash after the prefix meet keys without |
| MergeJoin.RelKeyIs | r2-worker/r2s3.go:277-286 | a key under the prefix is the prefix, a slash if one follows it, and the RelKey |
| MergeJoin.BaseNameIs | r2-worker/r2s3.go:279-281 | a key that equals the prefix gets what stands behind its last slash |
| MergeJoin.PrefixWithoutSlash | r2-worker/r2s3.go:277-286 | a listing under "data" that is not |
| MergeJoin.MisorderedCopiesAgain | r2-worker/r2s3.go:113-155 | merging it with a destination that has both objects copies one again |
| RoundRobin.Manager.NextProxy | backend/pkg/proxypool/proxypool.go:150-177 | the first online proxy of the order is chosen and moves to its end; nil if and only if none is online |
| RoundRobin.Manager.RoundTrip | backend/pkg/proxypool/proxypool.go:119-147 | a failed request takes just the chosen proxy offline; the request goes direct if and only if none is online |
| RoundRobin.Proxy.MarkFailure | backend/pkg/proxypool/proxypool.go:179-190 | one failure takes the proxy offline |
| RoundRobin.Proxy.MarkSuccess | backend/pkg/proxypool/proxypool.go:192-197 | a success brings it online with no failures |
| RoundRobin.RoundIsFair | backend/pkg/proxypool/proxypool.go:150-177 | while statuses do not change, as many calls in a row as proxies are online choose each online proxy exactly once |
| StreamPairing.Listed | backend/worker_ffmpeg/cmd/scanner/main.go:402-420 | a name with the video mark anywhere is a video, one with the audio mark alone an audio file, and the id is what precedes the first occurrence of the mark |
| StreamScan.ReadPage | backend/worker_ffmpeg/cmd/scanner/main.go:400-425 | after a page the map holds what its objects make of what was known of every id |
| StreamScan.Dedup | backend/worker_ffmpeg/cmd/scanner/main.go:448-528 | every candidate not failed for good is remembered, and those whose SADD adds something become tasks, in order |
| StreamScan.Scan | backend/worker_ffmpeg/cmd/scanner/main.go:385-560 | for every listing, every split into pages and every map order: the queue and the dedup set get exactly what the found pairs, page by page, leave after the checks |
| ScanFiles.QueueIsFound | backend/worker_ffmpeg/cmd/scanner/main.go:448-528 | while every video has a task id of its own, whatever is found is queued, each time it is |
| ScanJoin.SettledScan | backend/worker_ffmpeg/cmd/scanner/main.go:385-560 | when no file is listed after both files of its id, the scan queues exactly the ids the batch join wants, each once, with the join's pair, whatever failed and was queued before |
| ScanJoin.ScanJoinsExactlyWhen | backend/worker_ffmpeg/cmd/scanner/main.go:385-560 | every split and every map order queue exactly the tasks of the batch join if and only if no file is listed after both files of its id |
| ScanJoin.ScanOnceExactlyWhen | backend/worker_ffmpeg/cmd/scanner/main.go:385-560 | no split and no map order queue an id twice if and only if no id is complete in some first part of the listing and again in the rest |
| ScanJoin.TwoDirectories | backend/worker_ffmpeg/cmd/scanner/main.go:430-440 | a listing with the files of one id in two directories, for which both fail |
| StreamPairing.TaskIsListed | backend/worker_ffmpeg/cmd/scanner/main.go:411-425 | a task names the last listed video and audio file of its id with their sizes |
| ScanJoin.RescanPushesNothing | backend/worker_ffmpeg/cmd/scanner/main.go:483-528 | a later scan that finds no new video queues nothing |
| ScanJoin.SettledRescan | backend/worker_ffmpeg/cmd/scanner/main.go:483-528 | nor does one of a settled listing, split in any other way |
| StreamPairing.ResumedScanMisses | backend/worker_ffmpeg/cmd/scanner/main.go:377-381 | a scan resumed behind k objects misses an id that the listing completes if and only if all its videos or all its audio files are among those k |
| StreamPairing.SplitPairIsMissed | backend/worker_ffmpeg/cmd/scanner/main.go:377-381 | a listing split between the two files of an id |

## Left out

- The database refill of the sharded filler and its exit at a full channel (backend/go-app/handlers/task_handler.go:2289-2389): it can push records that are already queued, so the dispatch theorems are about the rank-cursor filler.
- Failing or unreadable Redis, Postgres, S3 and HTTP replies, expiring keys, a crash between the writes of one handler, and channels lost at a restart. Each handler is one atomic step, except where its instructions are modelled.
- Dispatch runs after a manual retry that finds tasks queued: some of them dispatch a task twice, exactly as `ManualRetry` says. The retry theorems (`TransfersBounded`, `RetriesBounded`) are about automatic retries, since a manual one starts the count afresh.
- A reset request that its scanner gave up on and that arrives later counts as one of another scanner.
- Updates of an unknown id, for which the source stores a record and inserts a row (backend/go-app/handlers/task_handler.go:2742-2779), change nothing here.
- The spacing of retries by backoff: the database never gets the last retry time (backend/go-app/handlers/task_handler.go:2748-2779).
- Counters of video tasks (backend/go-app/handlers/task_handler.go:1224-1231 changes a status without tracking it) and the closing counts of the keyset sweep.
- The worker slots of the transfer worker, which load the limit twice (backend/worker_transfer/transfer.go:520-539), and its per-job map of large files.
- Part slots with the adaptive controller switched off, where the semaphore alone counts.
- WorkerUpload.Conclude: the library sort of the transfer worker is modelled by the exchange sort of the downloader; only its result matters.
- Controller metrics over their window: a tick gets them as inputs. Floating-point rounding of factors and shares is not modelled.
- ExecutionBudget.LoopFitsBudget: assumes equal attempt counts and timeouts on both sides, which are configured separately, no time for signing, at most 2008 ms for reading error bodies, which no timer bounds, and a source request that ends with its timer. That request goes through the `fetch` of the aws4fetch client; what it does between tries of its own, and whether that heeds the timer, is not part of this model.
- Calls at a rate of zero or less, which the Python limiter lets through unrecorded.
- The Go rate limiter of the downloader, which unlocks while it sleeps (backend/worker_downloader/downloader.go:111-145).
- Consumers that drain the channel during a fetcher pass, which only make room; between passes they do in `Passes`. A task's number of parts is given with it.
- A listing that breaks off with an error, which the merge takes for a shorter one; keys that end with a slash, which the listing skips.
- The media scanner's exact conditions are for distinct keys and task ids that differ between videos; a failing dedup pipeline or push is left out.
- DeferralFetcher.SentInTime: for queues of different tasks; a queue may name a task twice, and sending one copy resets the count of the other.
- Concurrent writers of the rows during a keyset sweep, or of the tasks during a bucket sweep.
- Probing of proxies: it sets statuses between calls, which `RoundRobin` takes as they are.
- Single-object transfers, presigning, JSON, logging, metrics, configuration, authentication and the user interface.
