# A verified model of Microlib's stateful core

Microlib is a Go microservice framework. This project models the five parts of it that hold real state
machines, concurrency or transformations, and proves what they are meant to guarantee:

1. the **job queues** in memory and on Postgres, their retry policy, and the lifecycle they share;
2. the **transactional outbox** and its relay;
3. the **migration runner**, and the migration files that the command line tool prints;
4. the **cached secret store**;
5. **configuration**: flattening of parsed files and the merge by priority.

Check everything with `dafny verify dfyconfig.toml`.

## How the model is built

*Interleavings.* Each concurrent protocol is a datatype of events, a total function `Step` and its fold
`Run`. One event is one locked section, one SQL statement, one broker call or one crash of some party. An event
that is not enabled changes nothing, so "for every list of events" means "for every interleaving of any number
of parties". Clock readings, random draws, handler results, broker answers and failing statements are data of
the events. A `log` in the state records what the outside world saw (handler runs, publications, lost
marks).

*Objects.* Code that updates objects in place is a class with the same fields, and its methods are proved to do
exactly what the functions of the interleaving model do: `MemoryQueuePlays.Play` plays every list of events on one
`MemoryJobQueue` object and ends in the state of the model, with every worker still holding the very entry object
that the queue holds; `ProcessIsARun` and `BatchIsARun` show that a whole call is one run of the model; and
`PostgresMigrationRunner` and `CachedSecretStore` are tied to the functions their theorems speak about.

| file | what it models |
|---|---|
| `Common.dfy` | options and results, sums over maps, decimal numbers |
| `RetryPolicy.dfy` | `jobs/retry_policy.go`, and the backoff of `messaging/relay.go` |
| `JobTypes.dfy` | the entry, status and errors both queues share |
| `MemoryQueue.dfy`, `MemoryQueueRuns.dfy`, `MemoryQueueEffect.dfy` | the in-memory queue: operations on values, all interleavings, where each operation leaves a job |
| `MemoryJobQueue.dfy`, `MemoryQueuePlay.dfy` | the queue object with its shared entries, and all interleavings on it |
| `PostgresQueue.dfy`, `PostgresQueueWait.dfy`, `PostgresJobQueue.dfy` | the queue on a table: all interleavings, when a row can be claimed, the object |
| `JobLifecycle.dfy` | one lifecycle that both queues follow |
| `Outbox.dfy`, `OutboxSafety.dfy`, `OutboxOnce.dfy`, `OutboxRelay.dfy`, `OutboxPromise.dfy`, `OutboxSaved.dfy` | the outbox: the protocol, safety, duplicates, the batch loop and draining, when a message can be given up, and what is published and when |
| `Migration.dfy`, `MigrationEffect.dfy`, `MigrationRunner.dfy` | Apply and Rollback: resuming and undoing, which SQL they run, the runner object |
| `MigrationFile.dfy`, `MigrationParse.dfy` | the migration file: printing and parsing back, and what the parser accepts |
| `Secrets.dfy`, `SecretsShared.dfy`, `SecretsAlone.dfy` | the cached store used sequentially, under every interleaving, and how the two fit |
| `ConfigFlatten.dfy`, `ConfigOrder.dfy`, `ConfigMerge.dfy` | `flattenMap`, when its iteration order shows, and the merge of `Load` |

Assumptions: time is an integer (nanoseconds), `float64` is a real number, a failed statement or transaction has
no effect, a NULL `error` column reads as the empty string, and a job's metadata does not change.

## Where a promise does not hold as written

* `messaging/README_OUTBOX.md:68` says that messages remain until they are successfully processed. The relay marks
  a message processed after MaxRetries failures without publishing it (`messaging/relay.go:187-203`).
  `PromiseKeptExactlyWithoutLimit` states that a relay loop keeps the promise in every run if and only if it has no
  retry limit (or never fetches anything), and `GivenUpFromTheStart` gives the failing run.
* "A cancelled job never runs" is false of both queues: `CancelledAfterDequeueRuns` and `CancelledAfterClaimRuns`
  are the failing runs. In the memory queue a successful Cancel keeps the job from running if and only if the job is
  still in the queue (`CancelStopsExactlyQueuedJobs`). In the Postgres queue it does if and only if no worker holds
  the job before its handler call, or with a retry left (`CancelledNeverRunsExactlyWhenHoldersAreDone`); the status
  stays cancelled if and only if no worker holds the job at all (`CancelLastsExactlyWhenUnheld`).
* Apply followed by Rollback does not restore the version table when an applied version lies above a pending one:
  `RoundTripExactlyWhenSeparated` and `SeparableExactlyWhenPendingAbove` state the exact condition, and
  `OlderPendingNeverRoundTrips` the failing family.
* With equal priorities the result of `Load` depends on the sort, which is not stable.
  `DeterminedExactlyWhenWinnersAgree` states exactly when it does not.
* The flat map depends on Go's map iteration order if and only if two assignments give one key different values
  (`OrderIsHiddenExactlyWithoutConflict`). A dot in a key can do that, and so can an empty key without any dot
  (`DottedKeysCollide`, `EmptyKeysCollide`); non-empty keys without dots cannot (`PlainTreesHideTheOrder`).
* The comment at `jobs/job_queue_postgres.go:217` speaks of an advisory lock. The statement uses
  `FOR UPDATE SKIP LOCKED`, and that is what is modelled.

## Model

| member | source | states |
|---|---|---|
| `RetryPolicies.CalculateBackoff` | jobs/retry_policy.go:76-115 | the multiplying loop computes the closed form: 0 outside the limit, the fixed interval, or min(Initial * Multiplier^(n-1), MaxInterval) with jitter, truncated |
| `RetryPolicies.BackoffMonotone` | jobs/retry_policy.go:76-115 | without jitter, and with a multiplier of at least 1, a later retry never waits less |
| `RetryPolicies.BackoffJitterBounds` | jobs/retry_policy.go:98-115 | with jitter r the interval lies between (1-r) and (1+r) times the capped interval, up to truncation |
| `RetryPolicies.ExponentialBackoff` | jobs/retry_policy.go:86-108 | the exponential interval is the capped power times 1 - r + 2 r draw, truncated: linear in the draw |
| `RetryPolicies.BackoffByPolicy` | jobs/retry_policy.go:76-115 | 0 outside 1..MaxRetries, without retries and for unknown types; the initial interval for every retry of a fixed policy |
| `RetryPolicies.CapCommutesWithTruncate` | messaging/relay.go:273-284 | capping before or after truncating gives the same duration, for every real interval and every cap |
| `RetryPolicies.BackoffMatchesRelay` | messaging/relay.go:273-284 | without jitter the job queues and the relay wait equally long for the same parameters |
| `MemoryJobQueues.MemoryJobQueue.constructor` | jobs/job_queue.go:163-183 | a new queue is the empty queue of the model |
| `MemoryJobQueues.MemoryJobQueue.EnqueueWithDelay` | jobs/job_queue.go:191-230 | refuses a missing job or id, a closed queue and a known id; otherwise one new entry object, in `jobs` and at the tail of `queue`; every other entry stays the same object in every collection |
| `MemoryJobQueues.MemoryJobQueue.DequeueJob` | jobs/job_queue.go:354-377 | hands out the head object when it is due and puts that object in processing; rotates it to the tail when it is not; no other object of processing is replaced |
| `MemoryJobQueues.MemoryJobQueue.MarkRunning` | jobs/job_queue.go:279-282 | only the held entry changes, seen through every collection that shares it |
| `MemoryJobQueues.MemoryJobQueue.FinishJob` | jobs/job_queue.go:305-348 | the locked section after the handler: completed, back to the tail with its backoff, dead-lettered or failed, always as the same object, and only this id leaves processing |
| `MemoryJobQueues.MemoryJobQueue.PutBack` | jobs/job_queue.go:321-333 | a retry counts up, gets its next time, and the same object goes from processing to the tail |
| `MemoryJobQueues.MemoryJobQueue.GiveUp` | jobs/job_queue.go:334-347 | a failed run without retry: the same object goes from processing to the dead letters, or just leaves processing as failed |
| `MemoryJobQueues.MemoryJobQueue.Cancel` | jobs/job_queue.go:380-415 | refuses an empty or unknown id and a job that is not pending; otherwise takes it out of the queue and marks its entry cancelled; no map of entries changes |
| `MemoryJobQueues.MemoryJobQueue.RemoveFromQueue` | jobs/job_queue.go:398-404 | the loop removes exactly the first entry with the id, or nothing |
| `MemoryJobQueues.MemoryJobQueue.RequeueDeadLetteredJob` | jobs/job_queue.go:557-580 | a dead-lettered entry is reset, and the same object moves to the tail of the queue |
| `MemoryJobQueues.MemoryJobQueue.PurgeDeadLetteredJob` | jobs/job_queue.go:583-595 | exactly this id leaves `jobs` and `deadLettered`, and under the partition all collections go on sharing the entries of `jobs` |
| `MemoryQueuePlays.Play` | jobs/job_queue.go:255-348 | for every list of events of workers and callers, the object ends in the state of the model, the partition holds on it, and the pointer that each worker has kept since its dequeue is the very object in `processing` and `jobs` |
| `MemoryQueueRuns.StepKeepsInv` | jobs/job_queue.go:268-348 | every step of every party keeps the partition and the workers' exclusive holds |
| `MemoryQueueEffects.SuccessCompletes` | jobs/job_queue.go:306-347 | whatever dead-lettering is set to, a successful run ends completed and in none of the three collections, and no other job changes |
| `MemoryQueueEffects.RetryGoesToTheTail` | jobs/job_queue.go:321-333 | a failed run with a retry left under the job's policy ends pending at the tail with one more retry, and is due exactly from its backoff on |
| `MemoryQueueEffects.LastFailureGivesUp` | jobs/job_queue.go:334-347 | a failed run without one ends dead-lettered exactly when dead-lettering is on, and failed if not |
| `MemoryQueueEffects.DequeueServesTheHead` | jobs/job_queue.go:354-377 | the head is handed out exactly when its time has come, and otherwise goes behind all the others |
| `MemoryQueueEffects.EnqueueAccepts` | jobs/job_queue.go:191-230 | which jobs are accepted, and that they are due at once or exactly from their delay on |
| `MemoryQueueEffects.EnqueueRefuses` | jobs/job_queue.go:191-208 | which error a refused job gets: the first reason that holds |
| `MemoryQueueEffects.CancelTakesOut` | jobs/job_queue.go:380-415 | which cancels succeed, and that they take out this job and no other |
| `MemoryQueueEffects.RequeueStartsOver` | jobs/job_queue.go:557-580 | a requeued job has all its attempts again, is due at once and keeps no trace of the old runs |
| `MemoryQueueEffects.PurgeRemoves` | jobs/job_queue.go:583-595 | exactly a dead-lettered job can be purged, and only its id leaves the two collections |
| `MemoryQueueEffects.MarkRunningStamps` | jobs/job_queue.go:279-282 | mark-running sets the status and the start time of that job and nothing else |
| `MemoryQueueEffects.ClosedTakesNoJobs` | jobs/job_queue.go:191-230 | once closed, the queue stays closed and gets no new job in any run |
| `MemoryQueueEffects.OnlyCloseCloses` | jobs/job_queue.go:506-519 | the queue is closed by Close and by no other operation |
| `MemoryQueueRuns.PartitionAtEveryPoint` | jobs/job_queue.go:191-415 | at every point of every interleaving, Cancel in the window before mark-running included, queue, processing and deadLettered are duplicate-free, disjoint and inside jobs, every other job is completed, failed or cancelled, retry counts stay within max(0, MaxRetries), and each processing job is held by exactly one worker |
| `MemoryQueueRuns.StepSpendsWork` | jobs/job_queue.go:310-347 | every finished handler run strictly lowers the sum of remaining attempts, and no other step raises it |
| `MemoryQueueRuns.WorkIsBounded` | jobs/job_queue.go:310-347 | with no Enqueue or Requeue, handler runs, finished and under way, number at most the attempts that queued and processing jobs had left |
| `MemoryQueueRuns.RetryNeverEarly` | jobs/job_queue.go:321-333 | in every interleaving a retry is not handed out before its failure time plus its backoff |
| `MemoryQueueRuns.DelayNeverEarly` | jobs/job_queue.go:216-224 | in every interleaving a delayed job is not handed out before its delay has passed |
| `MemoryQueueRuns.DueJobIsServed` | jobs/job_queue.go:354-377 | a due entry at index i is handed out by the (i+1)-th dequeueJob call at the latest, unless cancelled, despite rotation |
| `MemoryQueueRuns.RetiredIsFinal` | jobs/job_queue.go:268-415 | a job outside all three collections is never handed out again and its entry never changes |
| `MemoryQueueRuns.CancelStopsExactlyQueuedJobs` | jobs/job_queue.go:279-282 | after a successful Cancel no continuation executes the job, and equally every continuation leaves it cancelled, if and only if the job was in the queue; then it is not even handed out |
| `MemoryQueueRuns.CancelledAfterDequeueRuns` | jobs/job_queue.go:268-282 | from an empty queue: Enqueue, dequeue, a Cancel that succeeds, and the job runs |
| `PostgresQueue.StepKeepsInv` | jobs/job_queue_postgres.go:216-429 | every statement of every worker, enqueuer and canceller keeps exclusion and the retry accounting |
| `PostgresQueue.MutualExclusion` | jobs/job_queue_postgres.go:216-297 | in every interleaving, stale Cancel writes and crashes included, no two workers hold one job and a held job is not pending |
| `PostgresQueue.RetryAccounting` | jobs/job_queue_postgres.go:300-355 | retry_count equals the number of failures returned to pending, and the handler runs at most MaxRetries + 1 times under the effective policy (the job's own, or the queue's default when its MaxRetries is 0) |
| `PostgresQueueWaits.RetryDecision` | jobs/job_queue_postgres.go:300-355 | after a failed run the job is retried exactly when its count can be read and one more is within its own MaxRetries, or the default's when its own is 0; otherwise it goes on to fail with the handler's error |
| `PostgresQueueWaits.RetryWaits` | jobs/job_queue_postgres.go:333-355 | in every interleaving a returned job can be claimed from decision time plus backoff on, and until then no claim of it changes anything |
| `PostgresQueueWaits.DelayWaits` | jobs/job_queue_postgres.go:109-165 | in every interleaving a delayed job can be claimed from its delay on, and not before |
| `PostgresQueueWaits.NoDelayIsClaimable` | jobs/job_queue_postgres.go:109-165 | without a delay the inserted row can be claimed at any time |
| `PostgresQueueWaits.ClaimTakesTheOldest` | jobs/job_queue_postgres.go:216-245 | a claim takes an oldest pending row whose time has come among the unlocked ones, and only marks it running |
| `PostgresQueueWaits.CancelAlone` | jobs/job_queue_postgres.go:390-429 | check and write of a Cancel without interruption cancel exactly a pending row |
| `PostgresQueue.CancelLastsExactlyWhenUnheld` | jobs/job_queue_postgres.go:390-429 | the status written by a Cancel lasts in every continuation if and only if no worker holds the job when it is written |
| `PostgresQueue.CancelledNeverRunsExactlyWhenHoldersAreDone` | jobs/job_queue_postgres.go:390-429 | after the write of a Cancel no continuation runs the handler again if and only if no worker holds the job before its handler call, with a retry to write, or in or after the call with a retry left under the effective policy |
| `PostgresQueue.CancelledAfterClaimRuns` | jobs/job_queue_postgres.go:390-429 | from an empty table: check of a Cancel, claim, write of the Cancel, and the handler runs |
| `PostgresQueue.WriteCompletedKeepsInv` | jobs/job_queue_postgres.go:358-371 | marking a job completed, also when the statement fails, keeps exclusion, retry accounting and the bound on handler runs |
| `PostgresQueue.WriteFailedKeepsInv` | jobs/job_queue_postgres.go:374-387 | the same for marking a job failed |
| `PostgresJobQueues.ProcessIsARun` | jobs/job_queue_postgres.go:248-355 | for every combination of faults and every handler result, processJob as one call has the effect of the worker's statements in the interleaving model |
| `PostgresJobQueues.PostgresJobQueue.EnqueueWithDelay` | jobs/job_queue_postgres.go:109-165 | succeeds exactly for a new valid id on an open queue when both statements work, and then inserts exactly one pending row |
| `PostgresJobQueues.PostgresJobQueue.DequeueJob` | jobs/job_queue_postgres.go:216-245 | claims a first claimable unlocked row in the ORDER BY order and marks it running, or finds that there is none |
| `PostgresJobQueues.PostgresJobQueue.ProcessJob` | jobs/job_queue_postgres.go:248-297 | the row afterwards, for every handler result and every combination of failing statements: untouched, failed for its metadata, completed, or as after a failure; no other row changes |
| `PostgresJobQueues.PostgresJobQueue.HandleJobFailure` | jobs/job_queue_postgres.go:300-355 | the row returns to pending with one more retry and next_retry at now plus the backoff of its effective policy exactly when that policy allows it and both statements work; otherwise it is failed with the error |
| `PostgresJobQueues.PostgresJobQueue.Cancel` | jobs/job_queue_postgres.go:390-429 | succeeds exactly on a pending row when both statements work; unknown ids are reported as such |
| `JobLifecycle.MemoryFollowsLifecycle` | jobs/job_queue.go:310-345 | through any run, with dead-lettering on or off, a job's entry in the memory queue is where its handler outcomes put it in the abstract lifecycle, and it is a dead letter exactly when it failed for good and dead-lettering is on |
| `JobLifecycle.PostgresFollowsLifecycle` | jobs/job_queue_postgres.go:300-387 | the same for its row, whatever the other jobs, workers and faults on other jobs do |
| `JobLifecycle.QueuesAgree` | jobs/retry_policy.go:118-120 | the same handler outcomes give the same status and retry count in both queues, for a job with its own policy and no fault, cancel, requeue or purge on that job; with dead-lettering on, what fails for good in Postgres is a dead letter in memory |
| `JobLifecycle.MemoryEnqueueIsNew` | jobs/job_queue.go:191-230 | a successful enqueue starts the lifecycle |
| `JobLifecycle.PostgresInsertIsNew` | jobs/job_queue_postgres.go:109-165 | a successful insert starts the lifecycle |
| `OutboxSafety.StepKeepsInv` | messaging/relay.go:185-248 | every publish, mark, commit, abort, fetch and crash keeps the accounts of deliveries and failures |
| `OutboxSafety.ProcessedWasPublishedOrGivenUp` | messaging/relay.go:185-248 | across crashes, lost marks and any number of relays and helpers, a processed row was published at least once with its saved topic and payload, or its publication failed at least MaxRetries times |
| `OutboxSafety.OnlyCommittedIsPublished` | data/postgres.go:124-150 | only messages of transactions whose commit succeeded, without a key conflict, are ever published, with the committed content |
| `OutboxSaved.PublishedWasSaved` | messaging/outbox_postgres.go:50-72 | every publication has the topic, payload and headers of a Save event under its id, whose transaction was neither aborted nor failed and stayed open until a Commit event that took effect |
| `OutboxSaved.TransactionAlone` | data/postgres.go:124-150 | Begin, Saves and Commit run alone add exactly the messages as new pending rows, or nothing |
| `OutboxSaved.RelayAttemptsExactlyWhenDue` | messaging/relay.go:185-235 | a relay publishes a message exactly when it is below the limit and new, or at least its backoff past its creation; it passes over the others and drops those at the limit |
| `OutboxSaved.HelperAlwaysAttempts` | messaging/outbox_helper.go:40-54 | PublishFromOutbox publishes every message of its batch |
| `OutboxPromise.PromiseKeptExactlyWithoutLimit` | messaging/relay.go:187-203 | in every run of one relay loop every processed message was delivered, if and only if MaxRetries is not positive or BatchSize is not |
| `OutboxPromise.NothingIsGivenUpWithoutLimit` | messaging/relay.go:187-203 | without retry limits, any number of relays and helpers marks processed only what was delivered |
| `OutboxPromise.GivenUpFromTheStart` | messaging/relay.go:185-248 | for every positive MaxRetries, a run from the empty outbox in which a message is refused that often and then dropped |
| `OutboxOnce.DuplicatesAreLostMarks` | messaging/relay.go:187-245 | with one loop, successful publishes number at most 1 plus the lost MarkProcessed calls, and retry_count stays within a positive MaxRetries |
| `OutboxOnce.ExactlyOnceWithoutLostMarks` | messaging/relay.go:187-245 | a processed message that lost no mark and was not given up was published exactly once |
| `OutboxRelays.BatchIsARun` | messaging/relay.go:185-248 | the batch loop has the effect of that publisher's steps in the interleaving model |
| `OutboxRelays.BatchSpends` | messaging/relay.go:156-248 | past the backoffs and with working marks, every non-empty batch strictly lowers the sum of MaxRetries - retry_count + 1 over pending rows |
| `OutboxRelays.OutboxDrains` | messaging/outbox_postgres.go:75-84 | the backlog is empty after at most that many batches, and no row is lost |
| `OutboxRelays.PostgresOutboxStore.GetPendingMessages` | messaging/outbox_postgres.go:75-122 | the oldest pending rows, each once, in order of creation, as many as the limit allows |
| `OutboxSafety.MarkKeepsInv` | messaging/outbox_postgres.go:125-164 | either mark of either publisher, done or lost, keeps the accounts: processed rows were delivered or failed often enough, and each retry_count is covered by failed publications |
| `OutboxRelays.PostgresOutboxStore.SaveAll` | messaging/outbox_postgres.go:50-72 | saves inside a transaction: all messages become pending rows, or none does, and which of the two is decided exactly |
| `OutboxRelays.ProcessBatch` | messaging/outbox_helper.go:34-57 | the loop of both publishers: what it fetches, and the table it leaves for every mix of failures, skips and drops |
| `Migrations.SortedUnique` | data/migration.go:100-103 | sorted sequences with the same members are equal, so registration order does not matter |
| `Migrations.ApplyCommitsAPrefix` | data/migration.go:105-146 | a run commits exactly a prefix of the pending list, as if only that prefix had been asked for, and succeeds exactly when it is the whole list |
| `Migrations.PendingAfterPrefix` | data/migration.go:106-115 | after a prefix, what is pending is the rest |
| `MigrationEffects.ApplyRunsPendingUps` | data/migration.go:105-146 | Apply runs the Ups of exactly the unapplied registered migrations up to a positive target, ascending, each once; it succeeds exactly when none fails, and then exactly these versions are added |
| `MigrationEffects.ApplyStaysInReach` | data/migration.go:112-137 | also when it fails, Apply keeps the old records and adds only versions within the target, with their descriptions |
| `MigrationEffects.RollbackRunsDowns` | data/migration.go:177-217 | Rollback runs the Downs of exactly the applied registered migrations above the target, descending, each once; it succeeds exactly when none fails, and then exactly these records are gone |
| `MigrationEffects.RollbackStaysAbove` | data/migration.go:184-208 | also when it fails, Rollback removes only records above the target |
| `Migrations.AttemptThenRest` | data/migration.go:89-147 | after any attempt, a faultless Apply ends where one from the start would |
| `Migrations.ResumeReachesTheSame` | data/migration.go:89-147 | however many attempts fail, a final success reaches the schema and version table of one uninterrupted run, and a further Apply changes nothing |
| `Migrations.DownUndoesUp` | data/migration.go:177-215 | Downs in reverse order restore schema and version table when each undoes its Up |
| `Migrations.RoundTrip` | data/migration.go:150-218 | Apply(0), then Rollback to a separating version, restores schema state and version table exactly |
| `Migrations.SeparatedByTheGreatest` | data/migration.go:178-187 | the old greatest version separates when everything pending lies above it, and so does a negative target when nothing was applied |
| `Migrations.RoundTripExactlyWhenSeparated` | data/migration.go:150-218 | whatever the SQL does, the applied versions are back if and only if the target separates old from pending |
| `Migrations.SeparableExactlyWhenPendingAbove` | data/migration.go:178-187 | such a target exists if and only if every pending version lies above every applied one |
| `Migrations.OlderPendingNeverRoundTrips` | data/migration.go:89-218 | otherwise, even when nothing fails, no Rollback after Apply(0) brings the applied versions back |
| `Migrations.ThreeAndFiveNeverRoundTrip` | data/migration.go:89-218 | versions 3 and 5 with 5 applied: one input of that family |
| `Migrations.RollbackZeroTakesTheLast` | data/migration.go:166-215 | the database after Rollback(0): one Down transaction of the greatest applied version, committed or not, or nothing when the runner does not know that version |
| `MigrationRunners.PostgresMigrationRunner.AddMigration` | data/migration.go:256-280 | accepts exactly the complete migrations with a positive unused version, and appends them |
| `MigrationRunners.PostgresMigrationRunner.ParseMigrationContent` | data/migration.go:362-396 | a file is added exactly when it parses and its migration is acceptable |
| `MigrationRunners.PostgresMigrationRunner.Apply` | data/migration.go:89-147 | the in-place sort and the loop of transactions leave exactly the database of the Apply that the theorems are about; on success the applied versions are the old ones and all registered ones within the target, and a positive target is never exceeded |
| `MigrationRunners.PostgresMigrationRunner.Rollback` | data/migration.go:150-218 | the same for Rollback, with the greatest applied version found by the loop; on success exactly the records of registered versions above the target are gone |
| `MigrationRunners.LastVersion` | data/migration.go:166-175 | the greatest applied version, or 0 when there is none |
| `MigrationFiles.ContentSplits` | cli/migration.go:99-108 | the printed file has exactly one up and one down section, whatever the name contains |
| `MigrationFiles.CreatedFileParsesBack` | data/migration.go:362-396 | for every positive version and non-empty name, the file that createMigration prints parses back to exactly that version and sanitised name |
| `MigrationParses.CreatedFileHasTheComments` | cli/migration.go:99-108 | the parsed sections are the printed comments without the blank lines around them |
| `MigrationParses.SanitizedCharacter` | cli/migration.go:80-86 | letters and digits are kept, everything else becomes an underscore |
| `MigrationParses.ParsedIsRead` | data/migration.go:366-396 | a file is cut at the first double underscore of its name and at its one DOWN mark, and its parts are the number, the name without .sql, and both texts without surrounding blanks |
| `MigrationParses.RefusedExactly` | data/migration.go:366-384 | which files are refused, and for which reason |
| `MigrationParses.ScanReadsTheNumber` | data/migration.go:371-376 | blanks, a sign and digits are read as that number when it fits in 64 bits, whatever follows |
| `MigrationParses.ScanNeedsANumber` | data/migration.go:371-376 | nothing else is read as a number |
| `MigrationParses.TrimSpaceTrims` | data/migration.go:386-387 | trimming takes away exactly the blanks around the text |
| `MigrationFiles.FilenameInjective` | cli/migration.go:80-96 | the file name determines the version and the sanitised name |
| `Secrets.CacheRefinesStore` | security/secrets.go:155-287 | every sequential run of Get, Set, Delete, refresh and Close, at any clock readings, answers as the bare store does |
| `Secrets.StepRefines` | security/secrets.go:155-287 | one call answers as the bare store, changes the store alike, and keeps the cache in agreement with it |
| `Secrets.CachedSecretStore.GetSecret` | security/secrets.go:199-225 | returns what the store holds, at any clock reading, and caches a miss |
| `SecretsAlone.GetAlone` | security/secrets.go:199-225 | the steps of GetSecret, uninterrupted, answer and cache as the sequential Get |
| `SecretsAlone.SetAlone` | security/secrets.go:228-243 | the same for SetSecret |
| `SecretsAlone.DeleteAlone` | security/secrets.go:246-258 | the same for DeleteSecret, which leaves the key in neither store nor cache |
| `SecretsAlone.RefreshAlone` | security/secrets.go:155-196 | the same for the refresher over all its keys |
| `SecretsAlone.CloseAlone` | security/secrets.go:272-287 | the same for Close, which leaves nothing in cache or memory store |
| `SecretsAlone.WrittenIsKept` | security/secrets.go:199-243 | what a Get or Set caches is answered for the whole time to live, whatever becomes of the store |
| `SecretsAlone.CachedUntilItExpires` | security/secrets.go:199-225 | before its expiration the cache answers, from then on the store |
| `Secrets.CachedSecretStore.SetSecret` | security/secrets.go:228-243 | store and cache take the value together |
| `Secrets.CachedSecretStore.DeleteSecret` | security/secrets.go:246-258 | store and cache drop the key together |
| `Secrets.CachedSecretStore.RefreshCachedSecrets` | security/secrets.go:155-196 | every cached key, and no other, gets the store's value and a new expiration |
| `Secrets.CachedSecretStore.Close` | security/secrets.go:272-287 | cache and memory store are emptied |
| `SecretsShared.StalenessIsBounded` | security/secrets.go:155-258 | in every interleaving with outside writers, a returned value was the store's value at some moment no older than cacheTTL plus the longest gap between a store reply and its cache write |
| `SecretsShared.StepKeepsInv` | security/secrets.go:155-258 | every cache entry and every value in flight was the store's value recently enough |
| `ConfigFlatten.FlattenMap` | config/source.go:256-287 | the output afterwards is that of some iteration order of every map on the way, each key visited once |
| `ConfigFlatten.FlattensOutcome` | config/source.go:256-287 | on every tree and in every such order, each key assigned to holds one of the values assigned to it, and nothing else changes |
| `ConfigFlatten.ConvertKeys` | config/source.go:266-274 | the copy of a loosely keyed map holds exactly its string keys |
| `Decimals.DecimalIsCanonical` | config/source.go:276-280 | array indices are printed without leading zeros |
| `Decimals.DecimalOfValue` | config/source.go:276-280 | digits without leading zeros are what their value prints as, so each index has one key |
| `ConfigFlatten.LoadParsed` | config/source.go:248-252 | for plain trees the flat map answers every key as the tree answers its dotted path |
| `ConfigFlatten.FlatLookupIsTreeLookup` | config/source.go:256-287 | for trees of non-empty dot-free keys, looking a key up in any flattening equals walking its segments down the tree, array indices included |
| `ConfigFlatten.EveryLeafHasItsKey` | config/source.go:256-287 | each path to a leaf has its own key, which holds exactly that leaf |
| `ConfigOrder.PlainTreesHideTheOrder` | config/source.go:256-287 | all iteration orders give a tree of non-empty dot-free keys the same flat map |
| `ConfigOrder.OrderIsHiddenExactlyWithoutConflict` | config/source.go:256-287 | for every tree, all iteration orders give the same flat map if and only if no two assignments give one key different values |
| `ConfigOrder.ConflictShows` | config/source.go:256-287 | two conflicting assignments anywhere in the tree give two orders whose results differ at that key |
| `ConfigOrder.DottedKeysCollide` | config/source.go:256-287 | a tree with a dotted key and two different flattenings of it |
| `ConfigOrder.EmptyKeysCollide` | config/source.go:256-287 | a tree with an empty key and no dot, and two different flattenings of it |
| `ConfigMerge.DefaultManager.LoadMerged` | config/manager.go:129-159 | a key is merged exactly when a loaded source defines it, with the value of one of highest priority among those |
| `ConfigMerge.DefaultManager.AddSource` | config/manager.go:344-348 | the source is registered last and the others stay |
| `ConfigMerge.MergedHoldsWinners` | config/manager.go:140-159 | the same for every order a sort may produce |
| `ConfigMerge.HighestPriorityWins` | config/manager.go:129-159 | with distinct priorities every key has the value of the highest-priority source that loaded and defines it |
| `ConfigMerge.RegistrationOrderDoesNotMatter` | config/manager.go:129-159 | with distinct priorities the merged map is the same for every registration order and every sort |
| `ConfigMerge.DeterminedExactlyWhenWinnersAgree` | config/manager.go:135-137 | every sort gives the same merged map if and only if the highest-priority definers of every key agree |
| `ConfigMerge.MergedIsHighestLeaf` | config/manager.go:129-159 | from files to merged map: a key holds the leaf of the highest-priority file that has one at its path |

## Left out

- The Redis queue (`jobs/job_queue_redis.go`): its claim is a read followed by an unchecked pipeline.
- Leader election, cron scheduling, HTTP and gRPC servers, middleware, tracing, logging, metrics, brokers, JWT, Vault, AWS and Azure: input and output, or thin wrappers over libraries.
- `data/seeder.go`: a simpler copy of the migration runner that would only add easy members.
- Queries that only report (`Get`, `List`, `GetDeadLetteredJobs`, `Status`, `ListSecrets`, `Health`).
- `mergeConfig` and validation in `config/manager.go`: reflection; its slice rebuild sorts index keys as strings.
- Environment and flag sources, and file watching, in `config/source.go`: the merge takes what a source loads as given.
- Contexts, timeouts, tickers and the waiting in `Start`, `Stop`, `Process` and `Close`: a party that stops simply has no further events, and a cancelled context is a failing statement.
- SQL text and JSON encoding: statements are table updates, and metadata, headers and payloads are values.
- Rounding, overflow and NaN of `float64`, and overflow of durations: arithmetic is over the reals and integers.
- Concurrent migration runners, and migrations that change the version table themselves.
- Sharing of `[]byte` values between callers and the secret store: secrets are values.
- `fmt.Sscanf` on a version with leading blanks outside ASCII: never part of a file that createMigration prints.
- RetryPolicies.BackoffMonotone: for policies without jitter; random draws make a later retry shorter at will.
- PostgresJobQueues.PostgresJobQueue.Cancel: the check and the write in one call; what falls between them is the subject of the interleaving model.
- OutboxRelays.PostgresOutboxStore.SaveAll: the callback's own statements on other tables are reduced to whether they succeed.
- ConfigMerge.DefaultManager.LoadMerged: sort.Slice is an insertion sort here, of which only "sorted permutation" is promised.
