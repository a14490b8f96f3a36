# Converge event recovery: a Dafny model

Converge accepts workflow events through an API, buffers them in Redis streams, processes them with a pool
of Go workers and keeps their state in PostgreSQL. A janitor hands stalled messages to other workers, failed
events are retried and finally dead-lettered, dead letters can be replayed, and `/api/convergence` reports
whether the system has drained. ForgeLog is an optional write-ahead log beside it. This project models that
behaviour and proves what it keeps.

## How it is organised

| file | content |
|---|---|
| `Basics.dfy`, `Sums.dfy` | shared vocabulary, sums over sequences |
| `Tables.dfy` | the rows of an event and the effect of each transaction on them |
| `Protocol.dfy` | the whole system as a state machine: one step per transaction or Redis command, and crashes |
| `Safety.dfy` | exclusive claims, finality of success, dead letters, attempt accounting |
| `SplitIngest.dfy` | ingest as the two unlocked steps it is, and exactly when that is safe |
| `Coverage.dfy`, `CrashCoverage.dfy` | no unfinished event is forgotten, without and with crashes |
| `Forgetting.dfy` | how an event is forgotten, what brings it back, and exactly which reclaims lose one |
| `Drain.dfy`, `Recovery.dfy` | the system uses up a measure, comes to rest converged, and can always do so, without and with crashes |
| `RetryFlush.dfy` | the retry set: conservation of memberships, and how early one can leave |
| `Convergence.dfy` | the report: soundness and stability |
| `Worker.dfy` | handler, scheduler, ingest and replay as imperative code on the stores, proved to be runs of steps |
| `PythonWorker.dfy`, `Backoff.dfy` | the Python worker, its agreement with the Go worker, and the backoff totals |
| `Janitor.dfy` | the cursor loops over a pending list, as runs of the protocol's reclaim steps |
| `Idempotency.dfy`, `Registry.dfy` | concurrent ingest requests, and concurrent registry claims |
| `Wal.dfy`, `WalDurability.dfy`, `WalCodec.dfy` | the log as bytes, recovery, crashes at any byte, and a codec that meets the assumptions |
| `LogRuns.dfy`, `LogReading.dfy`, `Checkpoints.dfy`, `LogStore.dfy` | runs of the log store, cursor reads, checkpoints, and the store as an object |

`dafny verify dfyconfig.toml` checks everything.

## Assumptions built into the model

- There is one shared clock. `Safety.Timely` says that a handler that holds an event is younger than 60 s;
  `SecondHolderIffStale` shows that exclusion holds exactly as long as this does.
- A transaction is one step at one instant. This includes the ingest decision up to its "queued" commit and
  the replay transaction, neither of which takes a row lock. `SplitIngest` drops the assumption for ingest and
  shows exactly which late commits the system survives (`SplitRunIsSafeIff`).
- A handler that returns on a database error, fails to acknowledge or is cancelled counts as crashed.
- Streams are not trimmed. Besides the system's own entries, any publisher may add any entry at any time
  (`Inject`), so duplicates, blank messages and ids that are no UUID are all covered.
- Coverage under crashes needs a hypothesis the code does not establish: an entry is reclaimed only when its
  handler is gone and its row is not freshly claimed (`IsDisciplinedReclaim`). `ReclaimLosesIff` shows that it is
  the exact condition.
- A reclaim step may take any pending entry that has been idle for five seconds. The janitor takes fewer: it also
  wants some stale consumer, or thirty seconds.
- The WAL theorems hold for every codec with the properties of `Wal.Good`. For JSON, the absence of raw newlines
  is section 7 of RFC 8259 together with compact encoding; `CodecIsGood` shows the properties are consistent.

## Where the code and its documentation differ

- `docs/FAILURE_MODES.md` promises that pending-entry recovery brings back the message of a crashed worker. The
  handler acknowledges an entry whose row is freshly "processing" (main.go:518-523), while entries are reclaimed
  after 5 s and rows stay fresh for 60 s. So the event of a worker that died right after its claim is lost for
  good (`DeadWorkersEventIsLost`). `ReclaimLosesIff` says exactly which reclaims can lose an event, and
  `RecoveryIsReachable` that the promise holds when they are avoided.
- Ingest takes no row lock. Two requests with the same key and two workers can end in two holders and two success
  rows (`LateCommitMakesTwoHolders`); `CommitKeepsCoreIff` gives the exact condition.
- A failed retry schedule is logged and its message acknowledged, so the event stays retrying until somebody
  publishes it again (`FailedScheduleForgetsIff`, `StaysForgottenIff`).
- The comment on `ForceReclaimDeadConsumerPEL` speaks of reclaiming from stale consumers. The scan takes idle
  entries from every consumer, and the contract says so.
- A due retry is assumed to leave the retry set no more than a second early. This is false when a scheduler loop
  is slow between its query and its ZREM (`EarlyRemovalHappens`); `EarlyRemovalIff` gives the exact condition.
- ForgeLog recovery leaves a torn tail in place, and the next acknowledged append is then never recovered and its
  offset is given out again. `AcknowledgedSurvivesIff` and `OffsetReusedIff` state exactly when.
- A record whose sync failed is reported as an error, yet appears when the store is opened again. A reader that
  has passed its offset never sees it (`SyncFailureIsMissed`, `StillSeenIff`).
- A message whose id is no UUID is never acknowledged by the Go worker, so the report never converges while one
  exists (`IdleIsConverged`). In the Python worker it ends the process (`BatchPerEvent`).

## Model

| member | source | states |
|---|---|---|
| `Safety.RunKeepsInv` | worker/cmd/worker/main.go:235-280 | over every timely run with any number of workers, janitors, schedulers, crashes, replays and duplicates, no event has two live holders, a holder's row is "processing" with that claim's timestamp and counts, and all rows keep the shape `RowOk` |
| `Safety.SecondHolderIffStale` | worker/cmd/worker/main.go:256-262 | a message for a held event creates a second holder if and only if the first has outlived the 60 s threshold |
| `SplitIngest.CommitKeepsCoreIff` | api/app/api/events.py:29-38 | a request that commits "queued" on an older read keeps claims exclusive, success final and dead letters matched if and only if it writes nothing, or the event is received, queued or retrying by then, or "processing" without a holder |
| `SplitIngest.SplitRunIsSafeIff` | api/app/api/events.py:29-38 | with reads and commits as separate steps, a timely run keeps the safety invariant at every moment if and only if every late commit in it is harmless in this sense |
| `SplitIngest.LateCommitMakesTwoHolders` | api/app/api/events.py:29-38 | from the empty system, two requests with the same key and two workers end in two holders of one event and in two success rows, without any delay |
| `SplitIngest.PromptCommitIsIngest` | api/app/api/events.py:29-43 | committed at once, the two halves are the protocol's atomic ingest step, for known and for new events |
| `Safety.SuccessIsFinal` | worker/cmd/worker/main.go:250-255 | once an event is succeeded, no step of any run changes its row, attempts or dead letters again |
| `Safety.ReachableAccounting` | worker/cmd/worker/main.go:384-418 | in every reachable state each event was created by a request, and with m the max_attempts of that request the failed attempts are numbered 1..attempt_count once each, there is one success row exactly when succeeded and one open dead letter exactly when dead-lettered, the first dead letter comes exactly with failure max(1, m), and each further one costs exactly one more attempt |
| `Safety.BudgetIsRequested` | api/app/core/idempotency.py:46 | over every run the row keeps the max_attempts of the request that created it |
| `Safety.ReplayOnlyRequeuesDeadLettered` | api/app/core/replay.py:20-50 | in every reachable state a replay re-queues only a dead-lettered event, although it never checks the status, and uses its dead letter up |
| `Tables.SucceedKeepsRowOk` | worker/cmd/worker/main.go:357-372 | the success transaction keeps the row history in shape |
| `Tables.FailKeepsRowOk` | worker/cmd/worker/main.go:384-447 | the failure transaction numbers the attempt, spends the budget, opens at most one dead letter, and keeps a retry time exactly for an event that waits for it |
| `Tables.ReplayKeepsRowOk` | api/app/core/replay.py:31-47 | the replay transaction closes the open dead letter, announces the next attempt with its number and keeps the row history in shape |
| `Coverage.FaultlessRunIsCovered` | worker/cmd/worker/main.go:402-557 | in every run without crashes and failed writes, under arbitrary reclaims, each "processing" event has a live holder and each received, queued or retrying event has a carrier |
| `CrashCoverage.CrashRunIsSafe` | worker/cmd/worker/main.go:485-557 | with handlers crashing anywhere and disciplined reclaims, each unfinished event keeps a holder, an owed write, a waiting or recoverable entry, or a retry-set membership |
| `Forgetting.ReclaimLosesIff` | worker/cmd/worker/main.go:513-523 | when a pending entry alone carries an unfinished event, reclaiming it can lose the event for good if and only if its handler is still claiming or holding or its row is fresh; then handlers alone can do it at once, otherwise no tolerated continuation forgets the event |
| `Forgetting.StaysForgottenIff` | worker/cmd/worker/main.go:250-262 | a step leaves a forgotten event forgotten and its row untouched unless it is another publisher's message for it or a duplicate request that finds it received, queued or retrying |
| `Forgetting.LostForGood` | api/app/api/events.py:30-33 | an event forgotten while "processing" stays so over every run without another publisher's message for it, and the report never says converged again |
| `Forgetting.DeadWorkersEventIsLost` | worker/pkg/recovery/janitor.go:90-128 | a worker claims an event and dies; five seconds later its consumer is stale, its message is reclaimed and acknowledged, and the event is lost for good |
| `Forgetting.FailedScheduleForgetsIff` | worker/cmd/worker/main.go:448-455 | a ZADD that fails is only logged and the message is acknowledged, which forgets the event if and only if nothing else knows about it |
| `Forgetting.CrashInHandForgetsIff` | worker/cmd/worker/main.go:485-497 | a loop that dies between ZREM and XADD forgets its event if and only if the event is unfinished and nothing else knows about it |
| `Forgetting.DeadLoopsEventIsForgotten` | worker/cmd/worker/main.go:485-497 | this happens to a first retry from the empty system, and lasts until somebody publishes the event again |
| `Drain.DrainTerminates` | worker/cmd/worker/main.go:476-557 | a run of work and polling has at most `Measure` productive steps |
| `Drain.IdleIsConverged` | api/app/core/convergence.py:137-156 | an idle system with the clock past all retry times has only finished events, and is reported converged if and only if no message has an id that is no UUID |
| `Drain.DrainTheorem` | worker/cmd/worker/main.go:476-557 | both of the above for every timely fault-free history from the empty system followed by any run without new requests |
| `Drain.ConvergenceIsReachable` | worker/cmd/worker/main.go:476-557 | after every such history some run of work and polling finishes every event, and ends converged if no message has an id that is no UUID |
| `Recovery.RecoveryTerminates` | worker/cmd/worker/main.go:504-576 | with crashes and failed writes anywhere, each reclaim buys at most three more productive steps |
| `Recovery.RecoveryTheorem` | worker/cmd/worker/main.go:504-576 | after any timely history with crashes and disciplined reclaims, a system at rest with the clock past every window has finished every event and is reported converged |
| `Recovery.RecoveryIsReachable` | worker/cmd/worker/main.go:504-576 | after every such history without ids that are no UUIDs, some run of work, waiting and disciplined reclaims ends converged |
| `RetryFlush.FlushConserves` | worker/cmd/worker/main.go:476-502 | over every interleaving of scheduler loops, each membership becomes at most one retry-stream entry, and exactly one once it left the set unless its loop died before XADD |
| `RetryFlush.RunAccount` | api/app/workers/retry_scheduler.py:18-30 | memberships in the set, in a loop's hands and in the stream balance the ZADDs and the losses over every run |
| `RetryFlush.LoopMovesItsListing` | worker/cmd/worker/main.go:484-500 | from any state, a loop left to itself turns every membership it listed and that is still there into exactly one retry-stream entry, skips the rest of its listing, and touches nothing else |
| `RetryFlush.ListedIsNotEarly` | worker/cmd/worker/main.go:469-485 | whatever happens after a loop listed an event, if nobody rescheduled it the loop removes it less than a second before its retry time, despite whole-second scores |
| `RetryFlush.EarlyRemovalIff` | worker/cmd/worker/main.go:469-497 | when a loop removes a member it listed, the retry time is a second or more away if and only if the latest ZADD came after the listing and belongs to a failed attempt whose backoff has at least a second to go |
| `RetryFlush.EarlyRemovalHappens` | worker/cmd/worker/main.go:484-497 | from the empty system, two loops and two failures in a row lead to the removal of a retry ten seconds early |
| `Convergence.BuildReport` | api/app/core/convergence.py:58-184 | each count is the number of rows or entries it stands for (`TalliesOf`, `QueuesOf`), however many of the Redis queries succeed; acknowledged events are exactly those not received, queued or processing; converged, verdict and issues follow |
| `Convergence.AskTables` | api/app/core/convergence.py:59-74 | each tally is the cardinality of its set of rows; the repeated deliveries are all failures but the first of each event |
| `Convergence.AskRedis` | api/app/core/convergence.py:88-103 | the depth of each stream, the retry set and the pending entries, each counted; a query that fails leaves its count and the later ones at 0 |
| `Convergence.CollectIssues` | api/app/core/convergence.py:137-150 | each issue is listed once, with its count and in order, exactly when that count is positive |
| `Convergence.StatusesPartition` | api/app/core/convergence.py:62-77 | the status counts add up to the total, so the clamp at 0 is never needed |
| `Convergence.ConvergedIsSound` | api/app/core/convergence.py:115-156 | in every reachable state there are no duplicate side effects and no orphaned claims, and converged means every event is succeeded or dead-lettered |
| `Convergence.ConvergedIsStable` | api/app/core/convergence.py:150-156 | from a converged state no worker, janitor, scheduler, publisher or crash step ever changes an event row |
| `Worker.Stores.ClaimEvent` | worker/cmd/worker/main.go:235-280 | claims exactly the rows that are not finished and not "processing" for less than 60 s, sets status and timestamp and nothing else, and returns what it read |
| `Worker.Stores.FinalizeSuccess` | worker/cmd/worker/main.go:347-378 | the new row field by field, which is the success transaction |
| `Worker.Stores.FinalizeFailure` | worker/cmd/worker/main.go:380-455 | the new row field by field in both branches, with waits of 0, 10, 30 and 60 s, and the retry scheduled exactly when the budget is not spent |
| `Worker.Stores.HandleWorkItem` | worker/cmd/worker/main.go:504-557 | uninterrupted, the handler is the protocol's claim, finalise, schedule and acknowledge steps |
| `Worker.HandlerOutcome` | worker/cmd/worker/main.go:504-557 | such a run acknowledges every message but one whose id is no UUID, processes the event exactly if its row is claimable, and touches no other row |
| `Worker.Stores.DueRetries` | worker/cmd/worker/main.go:476-480 | lists each due member exactly once |
| `Worker.Stores.FlushDueRetries` | worker/cmd/worker/main.go:476-502 | moves exactly the members whose retry time has reached the current second to the retry stream, each once, and is a run of protocol steps |
| `Worker.Stores.IngestEvent` | api/app/api/events.py:28-50 | a new event is stored queued with the max_attempts of its request and nothing else, received and retrying ones are queued again, others untouched; new and republishable events are published; it is a run of protocol steps |
| `Worker.Stores.ReplayDeadLetter` | api/app/core/replay.py:20-61 | the error cases without effect, and otherwise the new row field by field, the publish, and the protocol's replay and publish steps |
| `PythonWorker.Session.HandleFailure` | api/app/workers/worker.py:82-111 | the new row field by field in both branches, and the retry scheduled exactly when the budget is not spent |
| `PythonWorker.Session.HandleMessages` | api/app/workers/worker.py:186-228 | the loop over a batch amounts to `PythonBatch`: blank ids, unknown and finished events are acknowledged, the others processed and acknowledged, and an id that is no UUID ends the process |
| `PythonWorker.BatchPerEvent` | api/app/workers/worker.py:190-228 | a batch treats each event as if its messages came alone, acknowledges exactly what it handled, and stops at the first id that is no UUID |
| `PythonWorker.BatchAgreesWithGo` | api/app/workers/worker.py:190-228 | after any batch for any events, every event that was not freshly claimed has the history the Go worker would have left |
| `PythonWorker.WorkersAgree` | api/app/workers/worker.py:67-111 | for every sequence of outcomes, times and jitters that does not start on a freshly claimed row both workers leave the same status, attempt count, attempt rows and dead letters |
| `PythonWorker.DisagreeIffFresh` | api/app/workers/worker.py:196-210 | on one delivery they disagree exactly when the row is freshly claimed: the Python worker then processes the event a second time |
| `PythonWorker.HandlerDelivers` | worker/cmd/worker/main.go:504-557 | the Go side of the comparison is what an uninterrupted run of the protocol's handler does to the row |
| `PythonWorker.FailingRun` | worker/cmd/worker/main.go:402-447 | an event that keeps failing is retried until its budget is spent and then dead-lettered once |
| `PythonWorker.DeadLetteredAtBudget` | worker/cmd/worker/main.go:402-424 | an event requested with m attempts that keeps failing is dead-lettered exactly with failure max(1, m), by both workers |
| `PythonWorker.BackoffIsBounded` | api/app/core/retry_policy.py:7-22 | the Go waits of a failing event never exceed 100 s for any max_attempts, and the jittered Python waits stay within 0.8 and 1.2 of them |
| `Backoff.GoTotalIsPrefixSum` | worker/cmd/worker/main.go:339-345 | the total backoff is 0, 10, 40 or 100 s |
| `Backoff.PythonTotalWithinJitter` | api/app/core/retry_policy.py:10-18 | the jittered total stays within 0.8 and 1.2 of the table's, whole-second truncation included |
| `Backoff.DelaysAre` | api/app/core/retry_policy.py:7-18 | the single delays are 10, 30 and 60 s, times the jitter and cut to whole seconds in Python, and 0 otherwise |
| `Janitor.PendingList.ClaimAll` | worker/pkg/recovery/janitor.go:31-54 | the cursor loop terminates, returns each message once, only idle ones, changes nothing else, and stops early only behind a page in which nothing was idle; with a window of at least five seconds it is a run of the protocol's reclaim steps, one new handler per message |
| `Janitor.PendingList.AutoClaimPending` | worker/pkg/recovery/janitor.go:24-55 | claims only entries idle for minIdle (5 s if that is not positive), each once, and all of them unless 500 entries in a row are not idle; changes nothing else; a run of reclaim steps |
| `Janitor.PendingList.ForceReclaimDeadConsumers` | worker/pkg/recovery/janitor.go:75-133 | returns only entries idle for 5 s and for the crash window, each once in a pass shorter than that; nothing without another consumer that has pending messages and was silent for the window, and with one everything so idle unless 1000 entries in a row are not; a run of the protocol's reclaim steps |
| `Janitor.PendingList.ReclaimPasses` | worker/cmd/worker/main.go:559-576 | with the worker's windows of 30 s and 5 s: on a list of fewer than 500 entries everything idle for 30 s is taken by the first pass, and everything idle for 5 s by one of the two if some other consumer is stale |
| `Idempotency.IngestIsIdempotent` | api/app/core/idempotency.py:11-62 | over every interleaving of selects, inserts, constraint failures, commits, returns and aborts there is at most one row per application and key, all requests return the same id, and at most one reports a new event |
| `Idempotency.OneRequestCreates` | api/app/core/idempotency.py:50-62 | exactly one request commits a stored event, and nobody ever reports it as new if and only if that request died between its commit and its return |
| `Idempotency.UnhinderedRequestReturns` | api/app/core/idempotency.py:25-62 | a request that runs alone on tables without open transactions returns the event of its application and key, and reports a duplicate exactly when that event was there before |
| `Idempotency.LiveRequestCanReturn` | api/app/core/idempotency.py:16-59 | wherever a request stands and whichever races it lost, once the others have closed their transactions it can finish by its own steps and return the stored event of its application and key |
| `Registry.AtMostOneClaim` | worker/pkg/idempotency/guard.go:17-99 | over every interleaving at most one call per event is told that it claimed the event |
| `Registry.ClaimedIffCompletedAnew` | worker/pkg/idempotency/guard.go:36-98 | after any interleaving an event has a claim if and only if its row is completed and was absent or not final at the start; the row is new with count 0 and limit 3, unchanged, or counts exactly one retry more; every call that returned was told its status |
| `Registry.UnhinderedCallReturns` | worker/pkg/idempotency/guard.go:28-98 | a call that meets no lock returns and is told what the row it found implies |
| `Registry.FinalIsAbsorbing` | worker/pkg/idempotency/guard.go:56-98 | completed and terminal rows never change, and a retry count below its limit never passes it |
| `Wal.TrimSplits` | forgelog/internal/logstore/store.go:105-107 | trimming a line takes exactly the ASCII white space off both ends |
| `WalDurability.CrashAtAnyByte` | forgelog/internal/logstore/store.go:93-124 | from a log that ends at a newline, after any appends and a cut at any byte behind the synced ones, recovery returns the old records and a prefix of the new ones that contains every synced one, in order |
| `WalDurability.AppendDurableIffClean` | forgelog/internal/logstore/store.go:162-189 | an append is recovered, behind everything recovered before, if and only if the log it was appended to ends at a newline the scan reaches |
| `WalDurability.TornLosesAll` | forgelog/internal/logstore/store.go:103-123 | from any other log every later append is lost |
| `WalDurability.TornTailLosesAcknowledged` | forgelog/internal/logstore/store.go:103-123 | a crash inside a line, a reopening and an acknowledged append end with that append unrecoverable |
| `LogRuns.LogRunIsOrdered` | forgelog/internal/logstore/store.go:170-188 | over every run of successful and failed appends, crashes and reopenings, visible offsets strictly increase and never exceed the last offset |
| `LogRuns.LogRunStaysInStep` | forgelog/internal/logstore/store.go:93-124 | while writes succeed, every reopening returns the records of the process before it, up to compaction |
| `LogRuns.ReopenKeepsNumberingIff` | forgelog/internal/logstore/store.go:111-113 | after any run without failed writes, reopening continues the numbering where it stopped if and only if the latest append was not rejected |
| `LogRuns.AcknowledgedSurvivesIff` | forgelog/internal/logstore/store.go:162-189 | whatever appends, failures, crashes and reopenings follow, an acknowledged record is recovered if and only if the log ended at a newline the scan reaches when it was appended |
| `LogRuns.OffsetReusedIff` | forgelog/internal/logstore/store.go:170-188 | an acknowledged offset can be acknowledged a second time if and only if the log was not clean in this sense |
| `LogRuns.FailedWriteReusesOffset` | forgelog/internal/logstore/store.go:170-188 | one failed write in an empty log is enough for that |
| `LogRuns.CleanAcksAscend` | forgelog/internal/logstore/store.go:170-188 | while acknowledged appends find the log clean, acknowledged offsets strictly increase over the whole run, across crashes and reopenings |
| `LogRuns.NumberingNeverRepeats` | forgelog/internal/logstore/store.go:93-124 | this holds for every run in which no write fails |
| `LogReading.ReaderSeesAll` | forgelog/internal/logstore/store.go:191-215 | beside any appends, successful or not, a reader that follows the returned offsets has seen exactly the records after its start and up to its cursor, each once and in order, for any limits |
| `LogReading.ReaderSeesAllAcrossReopenings` | forgelog/internal/logstore/store.go:191-215 | while writes succeed the same holds across crashes and reopenings, up to compaction |
| `LogReading.StillSeenIff` | forgelog/internal/logstore/store.go:202-213 | a record in the store still reaches a reader if and only if its offset is beyond the cursor |
| `LogReading.SyncFailureIsMissed` | forgelog/internal/logstore/store.go:184-188 | a record whose sync failed comes back with a reopening behind the cursor, and that reader never sees it |
| `LogReading.ReaderReachesEnd` | forgelog/internal/logstore/store.go:191-215 | without new appends it has seen everything after at most as many calls as records are left |
| `LogReading.PageIsSlice` | forgelog/internal/logstore/store.go:202-213 | a page is a contiguous slice of the log whatever gaps the offsets have |
| `LogReading.PageMeans` | forgelog/internal/logstore/store.go:202-213 | for any records, a page has only records behind the offset, at most as many as asked for, and all of them if fewer |
| `Checkpoints.CommittedNeverDecreases` | forgelog/internal/logstore/store.go:217-237 | while persisting succeeds no consumer's offset decreases over any run of commits and restarts |
| `Checkpoints.CommittedIsLargest` | forgelog/internal/logstore/store.go:217-230 | while persisting succeeds a consumer has a checkpoint exactly when it had one or something was committed to it, and its offset is the largest of the one it had and those committed to it |
| `Checkpoints.DiskNeverGoesBack` | forgelog/internal/logstore/store.go:150-160 | whatever fails, what is on disk never goes back |
| `Checkpoints.DiskIsLastSaved` | forgelog/internal/logstore/store.go:150-160 | over every run of commits that stop anywhere and of restarts, the checkpoint on disk is the memory at the latest commit that returned no error |
| `Checkpoints.ReadableIff` | forgelog/internal/logstore/store.go:126-160 | the checkpoint is decodable if and only if it was at the start or some commit returned no error |
| `Checkpoints.RestartGoesBackIff` | forgelog/internal/logstore/store.go:126-148 | after any run of an opened store, a restart takes some consumer back if and only if the run ends in commits that returned an error and one of them raised an offset |
| `LogStore.New` | forgelog/internal/logstore/store.go:47-80 | opening gives the recovered records, their last offset and the stored checkpoint, or an error exactly when the checkpoint cannot be decoded |
| `LogStore.Store.LoadWal` | forgelog/internal/logstore/store.go:93-124 | the scan loop computes `Recover` and the largest offset |
| `LogStore.Store.Append` | forgelog/internal/logstore/store.go:162-189 | the append step of the run model, with its result and its failures |
| `LogStore.Store.ReadFrom` | forgelog/internal/logstore/store.go:191-215 | the loop computes the page behind the offset, with a default limit of 100 and a start of at least 0, and the offset of its last record |
| `LogStore.Store.Commit` | forgelog/internal/logstore/store.go:217-237 | the consumer (`default` for an empty name) has the larger of its old offset and the clamped new one, every other consumer is unchanged, the cached offset is the maximum, and the checkpoint is replaced exactly if no error is returned |
| `LogStore.Store.LoadCheckpoint` | forgelog/internal/logstore/store.go:126-148 | the stored map and its maximum, and an error exactly when the file cannot be decoded |

## Left out

- The frontend, Docker files, scripts, benchmarks, metrics, insights, incident summaries and AI texts: nothing to prove beyond easy members.
- The HTTP layers and API security: request plumbing over the modelled functions.
- Worker registration and heartbeats: only the claim column of the report is kept; events are never deleted.
- The dead-letter notification stream: nothing reads it.
- Error texts, workflow fields, attempt durations and the replay status text: they do not influence any decision.
- Processing itself: its outcome is an input.
- The Python worker inside the concurrent protocol: it takes no row lock, and the deployment uses the Go worker; it is modelled sequentially.
- The order of a ZRANGEBYSCORE reply: any order is allowed.
- Commands of other consumers in the middle of a janitor pass: only time passes between its pages. The consumer idle time is the duration the code compares with its window.
- Convergence.BuildReport: the counts of active and stale workers, the heartbeat age and the failures of the last 15 minutes are not in the model; they influence no issue and no verdict.
- Worker.Stores.DueRetries: the query's lower bound 0 is dropped, because the clock starts at 0 and no retry time lies before it.
- Janitor.PendingList.ReclaimPasses: the handlers that run between and after the two passes are left out; each pass is proved to be a run of reclaim steps that starts one handler per message, and the handler to be a run of its steps.
- Two replays of the same dead letter at the same time: the replay transaction is one step.
- Read errors of the WAL and checkpoint files: only their contents are modelled.
- Idempotency.IngestIsIdempotent: modelled as steps on values rather than as an object, because every statement is a point of interleaving; the same holds for the registry.
- Real JSON, hashing, UUIDs, fsync and rename: abstracted; a checkpoint file is a map or cannot be decoded.
- Offsets, counts and times are unbounded integers; 64-bit wrap-around is not modelled.
- White space is the ASCII kind; Unicode spaces at the ends of a log line are not modelled.
