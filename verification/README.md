# MediaCruncher, modelled and proved in Dafny

MediaCruncher transcodes a media library in place.  Its core is a queue table behind a single
writer, a pool of workers that lease jobs from it, and a promotion step that replaces user files.
This project models that core and the stateful structures around it, and proves what they are for.
`dafny verify dfyconfig.toml` checks everything.

How the parts hang together:

- `QueueTable`, `Leasing`, `QueueEngine`: the `queue_entries` table.  `Apply` gives each statement as
  a function on whole tables; the class `Engine` runs the statements in place and is proved against it.
- `WriteActor`: concurrent callers, the FIFO channel and the writer's main loop as a fine-grained step
  system.  Every call is answered once the writer has taken enough steps, and the calls are
  linearizable, which is why the other modules may treat a statement as atomic.
- `QueueService`: the queue behind that actor.  A lease reads and writes in its transaction, so each
  successful lease is a correct batch of the very table it changes.
- `WorkerPool`, `Retry`, `Attempts`, `Recoveries`: all workers, the lease monitor, the startup reset, operators and
  the clock as one transition system; exclusivity, bounded attempts, bounded waiting, termination.
- `WorkerRoutine`: the worker's own code, method by method, while others run arbitrary statements on
  the same table, the proof that it is a run of that system, and what it makes of its row.
- `JobRun`: one entry from its lease to its row and its file.
- `FileSystem`, `Promoter`, `Transcoder`: a disk that remembers every state it was in, the promotion
  protocol under every pattern of failures, and `Execute` with its gates.
- `Semaphore`, `Hardware`, `Rules`, `Permits`: the channel semaphore with its two steps apart, the choice
  of encoder, the rules that choose a preset, and what the permits bound when permit and encoder
  disagree.
- `BoundaryHash`, `DedupeIndex`, `ScanIndex`: the signature and the two duplicate indexes against
  naive search.
- `CircularBuffer`, `LineSplitter`, `RotatingLog`, `Notification`, `Decimal`, `StreamPlan`: buffers,
  streams, batching, and the argument builder read back from its own output.

Time is whole nanoseconds, and clocks, random draws, failures and foreign programs are parameters.
Machine integers are unbounded here and floating point is `real`.

## Where the code does less than one would hope

Each of these is proved, with the exact condition:

- Exclusivity rests on discipline.  Nothing after the lease checks the owner.  `Guard` is exactly what
  each step must find; once it is broken, and if a second worker is idle, the run can be continued to
  two workers on one job.  From an empty database that takes one encode longer than its lease, or one
  requeue or priority change of a job just leased.  Deleting an active row and queueing its file again
  keeps the guard and still puts two workers on one file; disciplined runs exclude that too.
- The CPU limit bounds software encodes if and only if no preset the rules decide on loses hardware
  that "auto" would find, or there are no more workers than CPU permits, or every such preset takes a
  GPU permit and those are no more than the CPU permits.  An NVENC machine set to "cpu" with the
  shipped limits stays within it under the shipped rules, which only ever decide on one preset, with
  any number of workers.  Once a rule also decides on the shipped AV1 preset it stays within it up to
  four workers, the shipped number, and not with five.
- `retry_count` and the attempt limit count failures and recoveries together, and recoveries go past
  the limit: a job is leased at most once more than its attempts and its recoveries, but recoveries have
  no bound, so a job whose last write keeps being lost is leased as often as one likes.
- A file at the backup path, such as an original that could not be restored, outlives the next
  promotion of its path when that promotion does not touch the backup path: nothing is found at dest, or
  neither the rename nor the start of the backup copy works, or it stops before.  Otherwise all that can
  be left there is part or all of the file found at dest.
- Boundary hashes decide equality of files up to 2 MiB and not beyond.  The comment in
  `ComputeBoundaryHashes` says files under 2 MB get one hash twice; the code does that up to 1 MiB.
- Without disk records the scanner's index never matches the first file of a size: of two equal files
  the second is missed.
- `Stop` is documented to flush pending events; events still in the channel are not flushed.  All
  accepted events are delivered if and only if the channel is empty at that moment.
- Backup slot names are one character.  They stay distinct, and rotation keeps a contiguous tail, up to
  55248 backups and not beyond.
- The pool dispatches results and rows, not maps (`cmd/mediacruncher/main.go:185`), so no event carries
  the entries a summary reads: the reported savings and average are always 0.
- `GetQueueCounts` reports paused rows as completed, and leaves out rows waiting for review.
- A preferred-language track is kept up to case exactly when its tag is in lower case (the normalizer
  lowers tags, so this does not bite in the program).

Read in the code and not proved about:

- Verification accepts by default when the metric probe fails (`internal/transcoder/vmaf.go:113-119`);
  here a verdict is an oracle's.  `QualityAccepted` also accepts a verifier that returns neither result
  nor error, as `Execute` does; the verifier it calls never does that, so a checked success means a
  passing verdict.
- Rate limiting is documented in `internal/notification/engine.go:22-24` but there is none.

## Model

| member | source | states |
|---|---|---|
| QueueTable.ApplyKeepsValid | internal/persistence/actor.go:118-240 | every statement keeps: unique paths, ids below the counter, lease columns null together, null when pending or paused, set when leased |
| QueueTable.ReachableTablesAreValid | internal/persistence/actor.go:118-413 | that invariant holds of every table reached from an empty database |
| QueueTable.UpdateStateKeepsRowOkIff | internal/persistence/actor.go:218-226 | an unchecked state write keeps a row consistent iff the new state fits the lease columns it leaves alone |
| QueueTable.IdsNeverReused | internal/persistence/actor.go:118-143 | an issued id that is gone never comes back, over any run |
| QueueTable.EnqueueTwice | internal/persistence/actor.go:118-143 | queueing a path a second time, in whatever state the row is, changes nothing |
| QueueTable.RecoverExactly | internal/persistence/actor.go:309-338 | recovery moves exactly the in-flight rows with null or lapsed lease to pending, counts a retry, and is idempotent at one clock |
| QueueTable.ResetLeavesNothingInFlight | internal/persistence/actor.go:341-363 | the startup reset leaves no in-flight row, keeps every retry count, and is idempotent |
| QueueTable.PendingAgainIff | internal/persistence/actor.go:218-240 | which statements make an issued row pending again, both directions |
| QueueTable.CountsConserved | internal/persistence/actor.go:388-413 | the four reported counters add up to all rows but those waiting for review |
| QueueEngine.Engine.EnqueuePath | internal/persistence/actor.go:118-143 | adds a fresh pending row under a new id, or answers 0 exactly when the path is taken |
| QueueEngine.Engine.LeaseBatch | internal/persistence/actor.go:145-201 | in the columns' own words: every leased row was pending and due; none left out, and none later in the answer, has a higher priority, or the same one and an earlier time; as many as the limit or all there are; only state, worker and lease times of those rows change; the rows are returned as leased |
| QueueEngine.Engine.SelectBatch | internal/persistence/actor.go:149-176 | its ids are a correct answer to ORDER BY priority DESC, scheduled_at ASC LIMIT k, ties open |
| QueueEngine.BatchInColumns | internal/persistence/actor.go:149-176 | what a correct answer is, by priorities and times alone: due, distinct, highest priority first and earliest first within one, nothing better left out, the limit used up unless all are taken |
| QueueEngine.Engine.UpdateJobState | internal/persistence/actor.go:218-226 | runs its statement on the table in place |
| QueueEngine.Engine.RequeueWithBackoff | internal/persistence/actor.go:228-241 | runs its statement: pending, one retry more, due after the delay, unleased |
| QueueEngine.Engine.CrashRecovery | internal/persistence/actor.go:309-338 | runs the recovery statement and counts the rows it took |
| QueueEngine.Engine.ResetInFlightJobs | internal/persistence/actor.go:341-363 | runs the reset statement and counts the rows it took |
| QueueEngine.Engine.RequeueJob | internal/persistence/actor.go:541-552 | pending again with retry count 0, whatever the state was |
| QueueEngine.Engine.PauseJob | internal/persistence/actor.go:555-566 | paused and unleased, even when a worker has it |
| QueueEngine.Engine.IgnoreJob | internal/persistence/actor.go:569-580 | skipped and unleased |
| QueueEngine.Engine.SetJobPriority | internal/persistence/actor.go:583-598 | new priority; a leased row goes back to pending, no other state changes |
| QueueEngine.Engine.DeleteJob | internal/persistence/actor.go:601-609 | the row is gone, the id counter stays |
| QueueEngine.Engine.GetQueueCounts | internal/persistence/actor.go:388-413 | the loop over state groups computes the size of each counter's class, by the states named; the counters add up to all rows but those waiting for review |
| Leasing.BatchIffPicked | internal/persistence/actor.go:145-176 | an answer is a top-k iff it comes from repeatedly picking a best remaining row |
| Leasing.KeysForced | internal/persistence/actor.go:149-176 | any two answers list the same (priority, scheduled_at) keys in the same order |
| Leasing.SinglesAreOneBatch | internal/persistence/actor.go:145-201 | k single leases at a fixed clock leave the table one batch of k leaves, with the same keys |
| WriteActor.Linearizable | internal/persistence/actor.go:51-115 | for every interleaving the store is the served requests one after another in channel order, and each caller gets the answer of its own request at its place |
| WriteActor.OrderRespectsTime | internal/persistence/actor.go:105-115 | a call that returned before another was made comes first in that order |
| WriteActor.FailureChangesNothing | internal/persistence/actor.go:61-79 | in every run: the stores seen right before and right after a returned call's place are equal if it failed, and differ by its request alone, with its result, if it succeeded |
| WriteActor.FailuresAreReported | internal/persistence/actor.go:61-77 | in every reachable system a begin, body or commit that fails leaves the store and answers a failure; a commit that works stores and answers what the request gives; nothing else changes the store |
| WriteActor.DecidedCanCollect | internal/persistence/actor.go:64-114 | in every reachable system a decided call has come back or can collect its answer, unless the writer is just handing it over |
| WriteActor.RepliesComeInTime | internal/persistence/actor.go:51-115 | in every run, whatever callers do and whatever fails: once the writer has taken five steps for each call up to this one, and five more, the call has its reply |
| WriteActor.WriterCanMove | internal/persistence/actor.go:56-80 | while a call waits without a reply the writer has a step to take, whichever way the database call goes |
| WriteActor.EveryCallReturns | internal/persistence/actor.go:51-115 | from wherever a run has got to, every call made, sent or not, returns after steps of the writer and its own, with the answer of its request at its place, and successfully if it was undecided |
| WriteActor.WriterLoop.Serve | internal/persistence/actor.go:56-80 | the main loop in place computes that sequential account, replies included; a reply is a success iff nothing failed |
| WriteActor.ServedWereAsked | internal/persistence/actor.go:105-115 | only what some caller asked for is ever served |
| QueueService.QueueBehindTheActor | internal/persistence/actor.go:51-201 | with the queue as the store: every table is valid, and a successful call changed the table of its place by its own statement: a lease by a correct batch of that table, answered row by row, an insertion answered by the new id, or 0 for a path already there |
| QueueService.LeaseOfOneIsPoll | internal/concurrency/worker.go:219-243 | a worker's lease of one row is a poll of the pool, or finds nothing due |
| WorkerPool.GuardIsExact | internal/concurrency/worker.go:203-250 | a step keeps all busy workers on distinct, unclaimable entries iff its guard holds |
| WorkerPool.GuardedRunsAreExclusive | internal/concurrency/worker.go:203-250 | at every point of a guarded run no two workers are active on one entry |
| WorkerPool.BrokenGuardLeadsToDoubleLease | internal/concurrency/worker.go:203-250 | with a second, idle worker a broken guard can be continued, by pauses and a poll, to two workers on one entry |
| WorkerPool.LongEncodeIsLeasedTwice | internal/concurrency/worker.go:219-219 | from an empty database: an encode outlasts its lease, the monitor takes the row back, two workers have it |
| WorkerPool.LeaseLastsThirtyMinutes | internal/concurrency/worker.go:219-219 | the monitor leaves a fresh lease alone for exactly thirty minutes |
| WorkerPool.OperatorGivesItAwayTwice | internal/persistence/actor.go:541-598 | from an empty database: a requeue, or a priority from 1 to 1000, of a job just leased puts two workers on it |
| WorkerPool.DeletedEntryComesBack | internal/persistence/actor.go:601-609 | a deleted active row queued again puts two workers on one file under two ids |
| WorkerPool.DisciplinedRunsKeepOwners | internal/concurrency/worker.go:105-137 | while workers beat their leases and operators and resets leave active rows alone, each active row stays in flight under its worker's own lease |
| WorkerPool.WorkersNeverShareAnEntry | internal/concurrency/worker.go:203-250 | from a fresh start, at every point of a disciplined run, no two workers share an entry or a file |
| WorkerRoutine.AnyInterleavingIsARun | internal/concurrency/worker.go:252-358 | whatever others do in between, a worker that takes its own steps in order only takes enabled steps and ends idle |
| WorkerRoutine.ScriptUnderInterference | internal/concurrency/worker.go:252-513 | that holds of the steps the code takes for one entry, for every outcome |
| WorkerRoutine.LeftInFlightIff | internal/concurrency/worker.go:252-598 | an undisturbed pass leaves its row in flight iff the worker walked away or its last write was lost |
| WorkerRoutine.EntryIsARun | internal/concurrency/worker.go:252-513 | the table the code leaves for one entry, under any interference, is that of a run of the pool |
| WorkerRoutine.LoopIsARun | internal/concurrency/worker.go:203-250 | the lease loop, whatever it meets and whatever others do meanwhile, is one run of the pool that leaves the worker idle, and its table is the one the code leaves |
| WorkerRoutine.PoolWorker.HandleFailure | internal/concurrency/worker.go:526-598 | among any statements of others: one write, or none when cancelled; of a row nobody else touches: a crash text or used-up attempts park it with its count, any other failure makes it pending and unleased with one retry more and a time between base * 2^n and 1.2 times that after the clock then |
| Retry.JitterRange | internal/concurrency/worker.go:600-609 | the 64-bit draws go from 0 to exactly the bound in equal steps; the values between two neighbouring draws are exactly those from 0 to the bound |
| WorkerRoutine.PoolWorker.ExecuteTranscode | internal/concurrency/worker.go:360-513 | among any statements of others: the two writes of a transcode; of a row nobody else touches, last write saved: completed iff encoded, quality-failed iff rejected, skipped iff the pre-check failed or the output grew |
| WorkerRoutine.PoolWorker.ProcessEntry | internal/concurrency/worker.go:252-358 | among any statements of others, the worker's own are its script; of a row nobody else touches: the whole row it leaves, whichever writes are lost; and if the last is saved, exactly when it is completed, quality-failed, skipped or waiting for review |
| WorkerRoutine.PassOnRow | internal/concurrency/worker.go:252-598 | an undisturbed pass, the monitor running while the lease lasts included: the row afterwards by what the worker met and which writes were saved |
| WorkerRoutine.OutcomesOfPass | internal/concurrency/worker.go:267-513 | completed iff copied or encoded; quality-failed iff the encode was rejected; skipped iff crunched, by decision, by pre-check or for growth; for review iff flagged |
| WorkerRoutine.ContainsIff | internal/concurrency/worker.go:516-528 | the text search behind crash and cancel detection finds a word iff it stands somewhere in the text |
| JobRun.RunEntry | internal/concurrency/worker.go:252-513 | with the real Execute in the pass: an undisturbed row says completed iff the output passed every gate and was promoted, and then dest has it; else the original is whole; skipped iff the output grew, quality-failed iff it was refused |
| WorkerRoutine.PoolWorker.OneRound | internal/concurrency/worker.go:209-249 | one turn on whatever table it finds: nothing on a failed or empty lease, else one due top row leased and processed |
| WorkerRoutine.PoolWorker.Run | internal/concurrency/worker.go:203-250 | the loop's table is that of its turns among the statements of others |
| Retry.DelayInBand | internal/concurrency/worker.go:559-567 | a requested delay lies between base * 2^retries and 1.2 times that |
| Retry.DelayRange | internal/concurrency/worker.go:565-609 | the first draw gives base * 2^retries itself and the last a fifth more, cut to nanoseconds |
| Retry.EachLongerThanTheLast | internal/concurrency/worker.go:565-567 | every delay is longer than the one before, whatever the jitter |
| Retry.TotalWait | internal/concurrency/worker.go:554-567 | M delays add up to between base * (2^M - 1) and 1.2 times that |
| Attempts.AttemptsAreBounded | internal/concurrency/worker.go:554-597 | without lapse, restart or operator, retry_count stays at most M and a job is leased at most M + 1 times |
| Attempts.ParkedAfterAllAttempts | internal/concurrency/worker.go:554-597 | a job queued in such a run that is parked, no attempt having crashed, was leased exactly M + 1 times and requeued exactly M times, M being the setting or 3 |
| Recoveries.AttemptsWithRecoveries | internal/concurrency/worker.go:113-129 | with the lease monitor, as long as it finds no busy worker's lease lapsed: at most M + 1 leases of a job plus one for each of its recoveries |
| Recoveries.LostWritesLeaseForever | internal/persistence/actor.go:309-338 | runs in which one job, its last write lost every time, is leased any number of times |
| Attempts.WaitIsBounded | internal/concurrency/worker.go:559-577 | the delays one job asks for in a run are at most M, strictly growing, and in the total band |
| Attempts.StepWork | internal/concurrency/worker.go:203-250 | a measure over all rows strictly falls at every lease and every saved outcome and grows only at insertions |
| Attempts.WorkRunsOut | internal/concurrency/worker.go:203-250 | finitely many insertions allow only that many leases and outcomes |
| FileSystem.Disk.Copy | internal/transcoder/promoter.go:110-125 | a copy touches only its target, at every moment, and succeeds iff nothing failed |
| Promoter.BackUp | internal/transcoder/promoter.go:18-32 | whichever operation fails, the original is whole at dest or at the backup, at every moment |
| Promoter.PutInPlace | internal/transcoder/promoter.go:34-69 | rename, or copy and rename: success iff the needed operations work; a success leaves no staged file, backup or temporary file that could be removed; otherwise the original is restored and its backup gone |
| Promoter.PromoteAcrossDevices | internal/transcoder/promoter.go:41-69 | the cross-device fallback: nothing lost at any moment, staged file kept on failure, no temporary file left on any way out |
| Promoter.PromoteFile | internal/transcoder/promoter.go:12-70 | for every pattern of failures and at every moment nothing is lost and dest never holds a partial file; exact success condition; dest is the staged content, or the original again; a success leaves nothing behind that could be removed and touches nothing else; when nothing fails, exactly one file in the place of two; what is at the backup path otherwise |
| Promoter.OrphanOutlives | internal/transcoder/promoter.go:18-32 | an original that survives only at the backup path is there at every moment of the next promotion that does not touch that path |
| Promoter.CopyAcross | internal/transcoder/promoter.go:44-60 | copy, sync and rename: success iff all three work, else the staged file and the backup are as before |
| Transcoder.EncodeAndJudge | internal/transcoder/transcoder.go:462-561 | the verdict passes iff all gates are open; which outcome is given when; only the staging file changes |
| Transcoder.Promote | internal/transcoder/transcoder.go:563-568 | promotion after the gates keeps the destination safe at every moment |
| Transcoder.Execute | internal/transcoder/transcoder.go:300-588 | dest is touched only past every gate; success iff gates and promotion pass, and then dest is a non-empty, small enough output with a passing verdict when it was checked; no staging file survives; success, growth and refused quality spelled out by the settings (check only over 5 seconds); no backup is left after a success |
| Semaphore.StepKeepsInvIff | internal/concurrency/semaphore.go:36-65 | a step keeps occupancy and counter exact iff it is not a stray release on a non-empty channel |
| Semaphore.SemaphoreIsSound | internal/concurrency/semaphore.go:25-75 | for any threads and interleaving: at most max(1, limit) holders, exact books, over-release branch never taken |
| Semaphore.StrayReleaseBreaksTheBound | internal/concurrency/semaphore.go:47-54 | one release of nothing and two threads hold one permit |
| Semaphore.ChannelSemaphore.TryAcquire | internal/concurrency/semaphore.go:57-65 | takes a slot iff one is free, and then is the thread's two fine-grained steps |
| Semaphore.ChannelSemaphore.Acquire | internal/concurrency/semaphore.go:36-44 | is the thread's two fine-grained steps, or gives up only if cancelled |
| Semaphore.ChannelSemaphore.Release | internal/concurrency/semaphore.go:47-54 | is the holder's two steps, or a stray release's; leaves the books alone when the channel is empty |
| Hardware.HardwareUnderAuto | internal/transcoder/hardware.go:144-241 | if any preference finds a hardware encoder, "auto" does |
| Hardware.AutoIsTheUnion | internal/transcoder/hardware.go:144-241 | "auto" finds hardware iff one of the four engines does by name |
| Hardware.AnswerIsAvailable | internal/transcoder/hardware.go:144-241 | a hardware answer is a listed encoder of an engine the machine has |
| Hardware.FirstOfferWins | internal/transcoder/hardware.go:144-241 | the answer is the first line of a table (engine, codecs, encoder; in the order tried) that the preference, the machine and the encoder list allow, and the codec's software encoder iff none does |
| Permits.EncodesAreBounded | internal/concurrency/worker.go:425-447 | in every reachable state hardware encodes are at most max(1, GPU limit) and all encodes at most both limits together |
| Permits.CpuLimitFails | internal/concurrency/worker.go:425-447 | the run with more software encodes than the CPU limit, whenever a preset in use loses hardware, workers are enough, and a preset in use takes CPU permits or GPU permits are enough |
| Permits.CpuLimitBoundsIff | internal/concurrency/worker.go:131-137 | the CPU limit bounds software encodes in all runs iff no preset the rules decide on loses hardware, or workers are no more than CPU permits, or all such presets take GPU permits and those are no more |
| Permits.NvencMachineWithin | internal/config/config.go:196-264 | an NVENC machine set to "cpu", with the shipped rules, presets and limits, is within the CPU limit with any number of workers and any files |
| Permits.NvencMachineWithAv1 | internal/config/config.go:242-264 | with rules that also decide on the AV1 preset it is within it iff it has at most four workers |
| Rules.Evaluate | internal/evaluation/rules.go:53-78 | the loop gives the decision of the first matching rule in the order tried, or the defaults, which also fill in an empty action or a transcode's empty preset |
| Rules.FailsByOneCondition | internal/evaluation/rules.go:80-123 | a rule does not match iff one of its conditions fails, by the lowered codec or resolution, a flag, or the bitrate |
| Rules.OneDecision | internal/evaluation/rules.go:53-78 | a file has one decision |
| Rules.HighestMatchDecides | internal/evaluation/rules.go:25-78 | whatever order ties are put in, a matching rule of highest priority decides, and the defaults iff no configured rule matches |
| Rules.ShippedDecides | internal/config/config.go:196-230 | under the shipped rules a transcode is only ever given one preset |
| BoundaryHash.SignatureMeansBoundaries | internal/filesystem/dedupe.go:78-116 | equal signatures iff equal first and last chunks, unless the hash collides |
| BoundaryHash.BoundariesDecideIff | internal/dedupe/index.go:160-199 | the chunks decide equality of whole files iff the size is at most 2 MiB |
| DedupeIndex.Index.CheckAndRecord | internal/filesystem/dedupe.go:36-75 | with lazy hashing in two maps, answers as a naive search over the whole call history does |
| DedupeIndex.AnswerIsNaiveSearch | internal/filesystem/dedupe.go:36-75 | duplicate iff an earlier call had this size and signature, and the first such path is reported |
| DedupeIndex.AnswerInWords | internal/filesystem/dedupe.go:36-75 | unreadable iff it cannot be read and an earlier call had its size; duplicate iff an earlier file of its size has its signature |
| DedupeIndex.DuplicateMeansSameContent | internal/filesystem/dedupe.go:36-116 | up to 2 MiB a duplicate is a file whose content was seen, without hash collisions |
| DedupeIndex.KeptAreDistinct | internal/filesystem/dedupe.go:68-74 | no two recorded files of a size share a signature |
| ScanIndex.Index.CheckAndRecord | internal/dedupe/index.go:71-123 | the two maps answer and change as the abstract list of entries does |
| ScanIndex.RecordedInWords | internal/dedupe/index.go:71-123 | after a check the path is recorded iff it was or it is not reported; it is read only when its size has paths and it is not one; other sizes and earlier entries stay |
| ScanIndex.Index.AddDiskRecord | internal/dedupe/index.go:126-130 | only the records change |
| ScanIndex.Index.Clear | internal/dedupe/index.go:201-206 | memory is emptied, records stay |
| ScanIndex.ColdStartIsNaiveSearch | internal/dedupe/index.go:71-206 | with truthful records for all paths, clears included: duplicate iff not itself recorded and some recorded path of the size has its signature |
| ScanIndex.WithoutRecordsFirstsAreMissed | internal/dedupe/index.go:76-123 | without records: exactly the matches against recorded paths other than the first of the size |
| ScanIndex.SecondCopyIsMissed | internal/dedupe/index.go:76-123 | of three equal files checked in turn the second is not reported and the third is, against the second |
| ScanIndex.ReportedPathIsKnown | internal/dedupe/index.go:116-118 | the reported path is recorded in the size class under that signature |
| CircularBuffer.LastOfLast | internal/proc/supervisor.go:31-53 | keeping only the tail as one goes loses nothing of the tail |
| CircularBuffer.Buffer.ShiftDown | internal/proc/supervisor.go:47-48 | the overlapping in-place copy moves the slice down intact |
| CircularBuffer.Buffer.Write | internal/proc/supervisor.go:31-53 | the array holds the last bytes of the stream extended by this write |
| CircularBuffer.WriteAll | internal/proc/supervisor.go:21-61 | after any writes Bytes is the last min(capacity, total) bytes of all of them |
| LineSplitter.SplitChunks | internal/proc/supervisor.go:216-243 | for every cutting into reads the callback gets exactly the lines of the whole stream, the unterminated last one included |
| LineSplitter.LinesAreRuns | internal/proc/supervisor.go:226-235 | every line is a maximal non-empty run without CR or LF |
| LineSplitter.RunsAreLines | internal/proc/supervisor.go:226-235 | every such run is a line |
| LineSplitter.LinesLoseOnlyBreaks | internal/proc/supervisor.go:226-242 | in order: the lines end to end are the stream without its breaks |
| RotatingLog.SlotsDistinctIff | internal/observability/logger.go:141-149 | slot names are distinct iff there are at most 55248 backups |
| RotatingLog.TailKeptIff | internal/observability/logger.go:118-164 | writes keep a contiguous tail, whatever the files were, iff there are at most 55248 backups |
| RotatingLog.Writer.Rotate | internal/observability/logger.go:135-164 | the loop computes the rotation for any number of backups; up to 55248 every slot becomes the one below it, gaps included; the current file is empty |
| RotatingLog.RotationDropsOldest | internal/observability/logger.go:135-164 | a rotation drops the oldest backup and nothing else |
| RotatingLog.Writer.Write | internal/observability/logger.go:118-132 | size field exact; the files are those of one specified write; up to 55248 backups they stay a tail of the history; only a write over the limit by itself exceeds it |
| RotatingLog.WriteAll | internal/observability/logger.go:118-164 | after any writes, oldest backup to current file is a contiguous tail of start content and everything written, up to 55248 backups |
| Notification.RunConserves | internal/notification/engine.go:139-176 | in every run accepted events are flushed batches, batch and channel in order; batches have 1..max events, the pending one fewer than max |
| Notification.TurnsDo | internal/notification/engine.go:120-176 | an event is accepted iff fewer than 500 wait; a batch is flushed iff it is full or at a tick, whole, and then none is pending |
| Notification.StopDeliversAllIff | internal/notification/engine.go:111-117 | at stop everything accepted is delivered iff the channel is empty |
| Notification.StopMayLoseAnEvent | internal/notification/engine.go:160-162 | an accepted event that is never sent |
| Notification.NothingDroppedWithinCapacity | internal/notification/engine.go:132-136 | no event is dropped while channel content and arrivals fit 500 |
| Notification.TotalsIgnoreBatching | internal/notification/engine.go:183-205 | summed over the summaries, saved bytes and completions do not depend on the batching |
| Notification.SummaryOfOne | internal/notification/engine.go:183-205 | what one event adds to each entry of the summary |
| Notification.AverageWithin | internal/notification/engine.go:197-210 | the average lies within the scores, and is 0 iff there are none |
| Notification.BareEventsReportNothing | internal/notification/engine.go:193-201 | events without the two payload entries, such as the pool's own, report no savings and no average |
| Notification.EverySupporterHears | internal/notification/engine.go:223-240 | with working writes: one delivery record per supporting adapter in order, one dead letter with the summary per failed send |
| Notification.SupportersAre | internal/notification/engine.go:223-226 | as many names as adapters that want summaries, and only theirs |
| Notification.Engine.Totals | internal/notification/engine.go:183-221 | the counting loop computes the summary's specification |
| Notification.Engine.SendToAll | internal/notification/engine.go:223-240 | the adapter loop appends exactly the specified records and letters |
| Notification.Engine.FlushBatch | internal/notification/engine.go:178-241 | an empty batch does nothing; any other is recorded in full |
| Notification.Engine.Dispatch | internal/notification/engine.go:120-137 | accepts into the channel while there is room, drops otherwise or when disabled |
| Notification.Engine.DispatcherLoop | internal/notification/engine.go:139-176 | the loop refines the event flow and its database rows are those of the flushed batches |
| Decimal.RoundTrip | internal/evaluation/stream_map.go:50-53 | an integer printed with %d reads back as itself |
| StreamPlan.SynthesizeStreamPlan | internal/evaluation/stream_map.go:19-85 | the argument strings read back as exactly the intended audio outputs, numbered without a gap; subtitles iff kept and present |
| StreamPlan.IntendedHasExactly | internal/evaluation/stream_map.go:43-66 | the outputs are those of the wanted tracks, each with its disposition, and no others |
| StreamPlan.IntendedAppend | internal/evaluation/stream_map.go:43-66 | and in track order |
| StreamPlan.OneTrack | internal/evaluation/stream_map.go:43-66 | a track is dropped iff there are preferences, it has a tag no lowered preference equals, and it is not the default; a kept one is re-encoded iff stereo AAC is asked for and neither flag protects it |
| StreamPlan.NothingPreciousIsLost | internal/evaluation/stream_map.go:45-55 | default, untagged and preferred tracks are kept; lossless and surround ones copied when their flag is on |
| StreamPlan.CaseBlindMatchIff | internal/evaluation/stream_map.go:38-48 | a track matching a preference up to case is kept iff its tag is in lower case |
| StreamPlan.UpperCaseTagIsDropped | internal/evaluation/stream_map.go:38-48 | the tag "ENG" under the preference "eng" is dropped |

## Left out

- WriteActor.Linearizable: the drain branch at shutdown (which ignores the Commit error) and a send racing with the writer's exit; only the main loop is modelled.
- WorkerRoutine.PoolWorker.ProcessEntry: audit rows, metadata, progress tracking and events are not written; the evaluation, pre-check and encode are oracles; the `_crunched` test on the file name is one too.
- WorkerRoutine.PoolWorker.ExecuteTranscode: the permit is in Permits; here it is an oracle, and so is the encode, which JobRun replaces by Execute.
- JobRun.RunEntry: Execute is run before the pass it belongs to, which changes nothing because disk and table are apart.
- WorkerRoutine.PoolWorker.HandleFailure: audit rows and events are not written.
- WorkerRoutine.PoolWorker.Run: the loop ends after the given turns; waiting, waking and the stop channels are not modelled.
- WorkerPool.WorkersNeverShareAnEntry: the discipline is a hypothesis, since leases are 30 minutes, never renewed and unchecked afterwards.
- Promoter.PromoteFile: the staged path must differ from dest, backup and temporary path, which the staging names of Execute give; the checksum comparison of the verifying copy hashes one stream twice and is credited with nothing.
- Rules.Evaluate: the values of conditions are taken as read; splitting the comma lists and parsing numbers and booleans are not modelled.
- Permits.CpuLimitBoundsIff: files of each kind that may come are taken to come in any number.
- Transcoder.Execute: ffmpeg, the verifier and cancellation are oracles; scores, ratios and durations of the result record are not modelled.
- RotatingLog.Writer.Write: file operations succeed; a slot number past the 32-bit range of a rune is not modelled.
- DedupeIndex.Index.CheckAndRecord: files are stable and a file's readability does not change; SHA-256 is a function parameter.
- Notification.Engine.DispatcherLoop: requires what Start checks, that notifications are enabled and an adapter exists; a batch's title and message text are not modelled.
- StreamPlan.SynthesizeStreamPlan: the summary text; the attached-picture exclusions are built but not given a meaning, because they pass an absolute stream index where a video-relative one is expected.
- Lower-casing is ASCII only.
- int64 overflow and float64 rounding of delays, byte totals and averages.
- HTTP server, web UI, notification adapters, CLI, configuration reload and schedules: I/O and presentation.
- SQL text, WAL and drivers: a statement is its table update.
- `Prefetcher`, which the pool never starts, and `TotalUniqueFiles`, which counts sizes.
- Pre-check encodes, which run before any permit is taken and are outside the permit bounds.
- Nothing was executed: all statements are about the model.
