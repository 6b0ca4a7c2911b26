# Stellar analytics: models and proofs

A Dafny model of the parts of the repository whose correctness depends on more than one function: the resumable parallel
backfill with its checkpoints and atomic ledger writes, gap detection and recovery, the query depth rule, the dead
letter queue under crashes, and the smaller state machines, printers and cursor walks of the API. Code that changes
state is modelled by methods and classes that are proved against a function or predicate of the values; the main results
are lemmas about those over every input, every run or every reachable state.

| file | models |
|---|---|
| `WorkerPool.dfy` | `runWithConcurrency`: the shared counter, the results array, all interleavings of its workers |
| `Checkpoint.dfy` | the checkpoint table and its upsert and updates |
| `BackfillSystem.dfy` | one backfill job as a step machine: any number of processes, crashes, cancellation, other writers |
| `BackfillSafety.dfy`, `BackfillCompletion.dfy` | what a checkpoint row proves about the ledger table, over all runs |
| `BackfillFailures.dfy` | failed ledgers along a run: their count, `resumeFrom`, and which completed rows have some |
| `BackfillOverlap.dfy` | what `completed` still means when processes of one job overlap |
| `BackfillCounts.dfy` | what a returned process has counted, done after the signal, and left in its row |
| `BackfillRun.dfy` | `runBackfill` as a program, proved to be a run of the step machine |
| `Loader.dfy` | chunked multi-row inserts, placeholders, one transaction per ledger |
| `GapDetector.dfy` | gap scans, `mergeGaps`, gap reports, recovery |
| `DepthLimit.dfy` | the query depth walk over fragments against full inlining |
| `DeadLetterQueue.dfy` | write-fsync-rename, the queue and its log, a crash between any two steps |
| `DeadLetterHistory.dfy` | what a queued entry says about the pushes of a run, and when it is retried |
| `Csv.dfy` | both CSV exports and a reader for section 2 of RFC 4180 |
| `CacheKey.dfy` | cache keys over JSON values, and the cache they index |
| `RateLimit.dfy` | fixed windows: request limits in memory and in SQL, subscription limits |
| `CircuitBreaker.dfy` | the breaker under overlapping calls |
| `Pagination.dfy`, `KeysetWalk.dfy` | offset and keyset cursor walks |
| `EventStream.dfy` | the async iterator of the in-process pub/sub |
| `LoadGrouped.dfy` | batched loading by key |
| `Decimal.dfy`, `Sequences.dfy`, `Wrappers.dfy` | printed integers and `parseInt`; joining, flattening, sorting and subsequences; optional values, results and ranges |

Where the code and its comments or documentation disagree, the model follows the code, and a lemma says what holds:

- `resumeFrom` is the last failed ledger, not the first (`indexer/src/backfill.ts:414-415`): `ResumeFromIsLastFailure`
  says what it is; restarting there covers every failure of the run if and only if there was one failure.
  `AdviceMisses`: a first run can return with failures before it if and only if there is a worker and the range has at
  least two ledgers.
- A cancelled backfill leaves its loop and is then marked completed (or failed) all the same, and a batch cut short by
  the signal still moves the checkpoint to its end (`indexer/src/backfill.ts:292-305`, `:338-346`, `:397-404`); a
  concurrency of 0, which the command line accepts, completes the job with nothing stored. `CompletedWithoutFailures` is
  the exact condition for runs with one process of the job at a time, `CompletedUnderOverlap` for all runs.
- `completed` does not mean that no ledger failed. `FailuresOfCompletedRow`: an undisturbed process that ends completed
  leaves failures if and only if it resumed a row that had some. `CompletedWithFailures`: such a row can come about if
  and only if the pool has a worker.
- `HALF_OPEN` admits any number of probes, not one (`packages/api/src/services/circuit-breaker.ts:9`): `ManyProbes`.
- A Horizon lag of exactly one ledger is ignored, and a minimum or maximum of 0 ends the gap scan
  (`indexer/src/gap-detector.ts:74`, `:132`): `BehindReportExact`, `InsideReportExact`.
- `hasNextPage` is true on an empty page of non-empty data and `hasPreviousPage` stays true on the leading page of a
  backward walk (`packages/api/src/utils/pagination.ts:62-65`): `NextFlag`, `PreviousFlag`.
- The cursor of ledger 0 is taken for no cursor (`api/src/resolvers/index.ts:96`): `CursorOfZeroRestarts`.
- A rate limit of `max` per window lets through up to `2 * max - 1` requests in an interval of that length:
  `FewerThanTwiceTheLimit` and `BoundIsMet`.
- CSV headers are never escaped, nor are stringified objects on the dashboard; `ExportRoundTrip` is the exact condition.
- A second `next()` called while one is waiting strands the first for good (`api/src/pubsub.ts:41-43`): `StrandedPerOvertake`.

## Model

| member | source | states |
|---|---|---|
| WorkerPool.PoolOutcome | indexer/src/backfill.ts:94-117 | however the workers interleave, once all have left exactly the claimed prefix has results, each from its own task; the prefix is the tasks claimed before the signal, all of them without a signal and with concurrency at least 1, none with concurrency 0 or less |
| WorkerPool.AtMostConcurrencyInFlight | indexer/src/backfill.ts:90-117 | at no point of any run are more than `concurrency` tasks in flight |
| WorkerPool.ConcurrencyIsReached | indexer/src/backfill.ts:99-115 | in every pool some run has as many tasks in flight as concurrency and tasks admit |
| WorkerPool.SignalStopsClaims | indexer/src/backfill.ts:104 | along any run nothing is claimed after the signal, and the counter ends at its start plus the claims before the signal |
| WorkerPool.SignalEndsPool | indexer/src/backfill.ts:103-112 | after the signal every worker at its loop head can leave at once, and at most two steps for each worker are left |
| WorkerPool.ClaimsAreConsecutive | indexer/src/backfill.ts:103-105 | along any run the claimed indices are consecutive, so no task is claimed twice or skipped |
| WorkerPool.PoolTerminates | indexer/src/backfill.ts:102-115 | no run has more claims, results and departures than twice the tasks plus the workers |
| WorkerPool.PoolProgress | indexer/src/backfill.ts:102-115 | until every worker has left, a claim, a result or a departure is always possible |
| WorkerPool.StepsUseUpWork | indexer/src/backfill.ts:102-112 | claims, results and departures each use up one unit of the remaining work, progress inside a task none |
| WorkerPool.ExitedPool | indexer/src/backfill.ts:115-116 | when every worker has left, an index has a result if and only if it lies below the counter; a hole needs an abort or a pool without workers |
| WorkerPool.NewPoolInv | indexer/src/backfill.ts:99-100 | a new pool satisfies the invariant, with all workers at their loop heads, at most `concurrency` of them and at least one if there is work and concurrency is positive |
| WorkerPool.ClaimKeepsInv | indexer/src/backfill.ts:103-105 | a claim keeps: claimed indices are the prefix, each awaited by exactly one worker or settled |
| WorkerPool.AdvanceKeepsInv | indexer/src/backfill.ts:107 | progress inside a task keeps the invariant |
| WorkerPool.SettleKeepsInv | indexer/src/backfill.ts:106-110 | storing a result keeps the invariant |
| WorkerPool.ExitKeepsInv | indexer/src/backfill.ts:103-104 | a worker that leaves keeps the invariant |
| WorkerPool.ExecuteKeepsInv | indexer/src/backfill.ts:94-117 | every reachable pool satisfies the invariant, keeps its size and its number of workers |
| WorkerPool.SharedPool.ClaimNext | indexer/src/backfill.ts:105 | the new shared state is that of one claim by the worker |
| WorkerPool.SharedPool.MoveTo | indexer/src/backfill.ts:107 | the worker goes on inside its task and nothing else changes |
| WorkerPool.SharedPool.StoreResult | indexer/src/backfill.ts:107-109 | the worker's own index gets the outcome and nothing else changes |
| WorkerPool.SharedPool.Stop | indexer/src/backfill.ts:103-104 | the worker is gone and nothing else changes |
| WorkerPool.Turn | indexer/src/backfill.ts:102-112 | a worker's turn is exactly one event of the pool under the signal as it stands, keeps its invariant and uses up one unit of work |
| WorkerPool.SomeTurn | indexer/src/backfill.ts:102-115 | while a worker is left, one of them takes such a turn, which extends the run so far |
| WorkerPool.RunWithConcurrency | indexer/src/backfill.ts:94-117 | terminates under any scheduling, as a run of the pool to its end; the results are those of the tasks claimed before the signal, all of them without a signal and with workers, none without workers |
| Checkpoint.CheckpointTable.CreateCheckpoint | indexer/src/checkpoint.ts:87-113 | a new row starts empty, an existing one keeps its position and counts; other jobs' rows stay |
| Checkpoint.CheckpointTable.SaveCheckpoint | indexer/src/checkpoint.ts:118-146 | the job's row takes the position and counts, a missing row stays missing; other jobs' rows stay |
| Checkpoint.CheckpointTable.MarkCheckpointCompleted | indexer/src/checkpoint.ts:151-181 | the job's row becomes completed with the given position and counts; other rows stay |
| Checkpoint.CheckpointTable.MarkCheckpointFailed | indexer/src/checkpoint.ts:186-219 | the job's row becomes failed with the message; other rows stay |
| Checkpoint.CheckpointTable.MarkCheckpointCancelled | indexer/src/checkpoint.ts:224-254 | the job's row becomes cancelled; other rows stay |
| Checkpoint.CheckpointTable.LoadCheckpoint | indexer/src/checkpoint.ts:260-298 | returns the job's row, if there is one |
| BackfillSafety.CheckpointIsSound | indexer/src/backfill.ts:244-405 | over all runs with crashes, cancellations, overlapping processes and other writers, a row never claims more successes than the table holds up to its position, and processed + skipped = total proves that the whole range is stored |
| BackfillSafety.RunOk | indexer/src/backfill.ts:223-417 | every run keeps rows, processes and pools consistent with the table, and the table only grows |
| BackfillSafety.ApplyOk | indexer/src/backfill.ts:223-417 | so does every single step of any process, every crash and every write by others |
| BackfillSafety.ActOk | indexer/src/backfill.ts:223-417 | so does every atomic step of one process |
| BackfillSafety.PoolStepKeepsInv | indexer/src/backfill.ts:180-204 | the steps of `processOneLedger` inside a worker keep the pool invariant |
| BackfillSafety.PoolStepKeepsBatch | indexer/src/backfill.ts:180-204 | they keep that every reported success is a stored ledger |
| BackfillSafety.TallyAccounted | indexer/src/backfill.ts:316-335 | the counted successes of a batch never exceed the batch's ledgers in the table, nor all outcomes its size |
| BackfillSafety.TallyOk | indexer/src/backfill.ts:316-346 | tallying a batch keeps the process's counts accounted for |
| BackfillSafety.MissingCountIsCardinality | indexer/src/backfill.ts:159-174 | the number of missing ledgers used in the bounds is the size of the set of ledgers the table lacks |
| BackfillSafety.AllStoredIffNoneMissing | indexer/src/backfill.ts:159-174 | it is zero if and only if the whole stretch is stored |
| BackfillCompletion.CheckpointIsExact | indexer/src/backfill.ts:244-405 | without cancellation and with at least one worker, over all crashed and overlapping runs: the counts add up to the ledgers up to the position, and no more of those are missing than the failed count says |
| BackfillCompletion.CompletedWithoutFailures | indexer/src/backfill.ts:293-305 | with one process of the job at a time, "completed with no failures means the range is stored" holds for all runs if and only if concurrency is at least 1 and the job cannot be cancelled |
| BackfillCompletion.MisleadingRun | indexer/src/backfill-cli.ts:43-45 | for every other configuration there is a run, one process at a time, that ends completed, without failures and with ledgers missing |
| BackfillCompletion.FullTally | indexer/src/backfill.ts:316-335 | a batch without holes yields one outcome for each of its ledgers |
| BackfillCompletion.RunExact | indexer/src/backfill.ts:223-417 | every run without cancellation keeps all counts exact |
| BackfillCompletion.RunSolo | indexer/src/backfill.ts:244-265 | running one process of the job at a time is an invariant of such runs |
| BackfillFailures.ResumeFromIsLastFailure | indexer/src/backfill.ts:281-417 | the failed count of a returned process is the count it resumed plus the length of the ascending list of its failures, which are exactly the ledgers whose tasks were rejected; `resumeFrom` is the last of them, and it is the first, or covers all of them, if and only if there is one |
| BackfillFailures.AdviceMisses | indexer/src/backfill.ts:414-415 | a first run of the job can return with failures below its `resumeFrom` if and only if there is a worker and more than one ledger |
| BackfillFailures.FailuresCounted | indexer/src/backfill.ts:316-335 | from any point of its run on, a process counts each failure once, in ascending order, and remembers the last one |
| BackfillFailures.CountedAreRejected | indexer/src/backfill.ts:107-110 | the counted failures, with those its unfinished batch still holds, are exactly the rejected ones |
| BackfillFailures.RejectedInBatch | indexer/src/backfill.ts:316-335 | the rejected ledgers of a batch in ascending order, exactly those whose result is a rejection |
| BackfillFailures.BatchFailures | indexer/src/backfill.ts:316-335 | the failed count of a batch is the length of that list, and the last failed ledger its last element |
| BackfillFailures.FailuresOfCompletedRow | indexer/src/backfill.ts:244-404 | a process that no other process of the job disturbs leaves a completed row if and only if it had no failure of its own; that row has failures if and only if the process resumed a row that had some |
| BackfillFailures.WholeBatch | indexer/src/backfill.ts:307-346 | in every configuration with a worker, a batch can be run to its end with every task processed, and with every task failed |
| BackfillFailures.FailingRun | indexer/src/backfill.ts:384-396 | so there is a first run in which every ledger fails, which leaves a failed row at the end of the range |
| BackfillFailures.RunIdle | indexer/src/backfill.ts:99-101 | without workers no run of the job ever has a failure |
| BackfillOverlap.CompletedWithFailures | indexer/src/checkpoint.ts:103-107 | with one process at a time, some run ends completed with a failed count above 0 and ledgers missing if and only if concurrency is at least 1 |
| BackfillOverlap.FailRecreateComplete | indexer/src/checkpoint.ts:103-107 | the run that does so, in every configuration with a worker: a failed row is recreated as in progress at the end of its range, and the next process completes it |
| BackfillOverlap.CompletedUnderOverlap | indexer/src/backfill.ts:244-405 | over all runs, overlapping processes included, "completed with no failures means the range is stored" holds if and only if concurrency is at least 1, the job cannot be cancelled and the range fits into one batch |
| BackfillOverlap.OverlappingRun | indexer/src/backfill.ts:338-346 | for every configuration with a worker and more than one batch, a run of overlapping processes that ends completed, without failures and with ledgers missing |
| BackfillOverlap.StoredAtTheEnd | indexer/src/backfill.ts:338-346 | what survives overlap: without cancellation and with a worker, a row without failures whose position is the end of the range proves the range stored, over all runs |
| BackfillOverlap.RunOneBatch | indexer/src/backfill.ts:338-346 | with a single batch, rows and processes never stand between two batches, along every run |
| BackfillCounts.CountsOfReturned | indexer/src/backfill.ts:107-112 | each counter of a returned process is what it resumed plus the tasks it settled that way, read off its actions: skipped are the lookups that found the ledger, processed or failed all others it claimed, and its commits are those it processed and at most its failures besides |
| BackfillCounts.FromTheStart | indexer/src/backfill.ts:240-335 | so at any moment of a run, with the outcomes still in the batch and the tasks still in each stage |
| BackfillCounts.SignalStopsBackfill | indexer/src/backfill.ts:104 | from wherever a process stands: after the signal no task is claimed, at most `concurrency` tasks still settle and at most one batch is still saved |
| BackfillCounts.EachLedgerOnce | indexer/src/backfill.ts:281-313 | a process settles no ledger twice and none outside its range; returned without a signal and with a worker it has settled every ledger from its resume point to the end |
| BackfillCounts.SecondRunSkipsAll | indexer/src/backfill.ts:186-190 | where everything from the resume point on is stored and no lookup fails, a run skips every ledger, processes and fails none and leaves the table as it was |
| BackfillCounts.OneBatchBetweenSaves | indexer/src/backfill.ts:292-346 | between one save of the checkpoint and the next at most `batchSize` tasks settle, which is what a crash makes a restart repeat |
| BackfillCounts.RowOfReturned | indexer/src/backfill.ts:384-404 | an undisturbed process leaves a row with its own counts, the end of its range, completed without and failed with failures of its own, and no error of an earlier process on a completed row that it created or recreated |
| BackfillCounts.CancelKeepsProgress | indexer/src/backfill.ts:293-305 | cancelling changes only the status of a row whose position a batch or an earlier process saved; before that it writes zero counts and a position in front of the range |
| BackfillRun.FailureMessageTells | indexer/src/backfill.ts:385-396 | the error text of a failed row determines how many ledgers failed and which was the last |
| BackfillRun.RunBackfill | indexer/src/backfill.ts:223-417 | fails exactly when start exceeds end, changing nothing; otherwise its execution is a run of the step machine to its end; its processed, skipped and failed counts are the resumed ones plus the tasks that run settled that way, `resumeFrom` is the last ledger it rejected, the row shows the same, nothing is claimed after the signal, and other jobs' rows are untouched |
| BackfillRun.Prepare | indexer/src/backfill.ts:244-265 | resumes after the position of an in-progress row or creates the row, which leads the step machine to its first loop head |
| BackfillRun.RunBatches | indexer/src/backfill.ts:292-378 | the batch loop is a run of the step machine to the final marking and touches only the job's row |
| BackfillRun.SequencesFrom | indexer/src/backfill.ts:284-287 | the consecutive ledgers from the resume point to the end |
| BackfillRun.ProcessBatch | indexer/src/backfill.ts:307-346 | one turn of the batch loop leads from one loop head of the step machine to the next |
| BackfillRun.RunBatch | indexer/src/backfill.ts:310-313 | running a batch is a run of its workers' steps until all have left |
| BackfillRun.BatchTurn | indexer/src/backfill.ts:102-115 | each scheduling turn extends that run and uses up work |
| BackfillRun.WorkerTurn | indexer/src/backfill.ts:102-112 | one worker's turn is one action of the step machine under the signal as it stands, so never a claim after it (`SignalStopsBackfill`) |
| BackfillRun.TaskTurn | indexer/src/backfill.ts:180-204 | between two awaits a task finds its ledger exactly if it is stored and the lookup succeeds, misses it otherwise, commits it or settles, and only a commit stores its ledger |
| BackfillRun.TallyResults | indexer/src/backfill.ts:316-335 | the counters grow by the outcomes of each kind, holes aside, and the last failed ledger is the last rejected one of the batch if it has one (`BatchFailures`) |
| BackfillRun.FinishBatch | indexer/src/backfill.ts:316-346 | tally and save are the step machine's two steps, which `CountsOfReturned` ties to the tasks settled, and touch only the job's row |
| BackfillRun.CancelJob | indexer/src/backfill.ts:293-305 | the cancelled turn marks the row and leads to the final marking |
| BackfillRun.MarkJob | indexer/src/backfill.ts:383-405 | the final marking is the step machine's and touches only the job's row |
| BackfillSystem.RunProcIsRun | indexer/src/backfill.ts:223-417 | a run of one process is a run of the whole system in which only that process moves |
| BackfillSafety.RunProcOk | indexer/src/backfill.ts:223-417 | it keeps the row sound for the table |
| BackfillRun.PoolStepUsesWork | indexer/src/backfill.ts:102-115 | every worker step brings the end of the batch closer |
| BackfillRun.JobIdIdentifiesRange | indexer/src/backfill.ts:238 | on one network the job id determines the range, so ranges never share a row |
| Loader.Chunk | indexer/src/loader.ts:11-17 | the chunks put together are the array; none is empty or too long and all but the last are full |
| Loader.BatchCount | indexer/src/loader.ts:149-152 | any such division has as many chunks as the batch metrics say |
| Loader.BuildBulkValues | indexer/src/loader.ts:27-46 | the text numbers every cell of every row from the start index on, and the parameters are the cells in that order |
| Loader.ValuesRoundTrip | indexer/src/loader.ts:27-46 | reading the text with parameters that hold the cells at that place gives back exactly the rows |
| Loader.InsertedRow | indexer/src/loader.ts:67-72 | after ON CONFLICT DO NOTHING a key has its old row, or else the first row given for it |
| Loader.InsertAppend | indexer/src/loader.ts:58-76 | inserting in several statements gives the same table as inserting in one |
| Loader.InsertTwice | indexer/src/loader.ts:67-72 | inserting the same rows again changes nothing |
| Loader.InsertsCommute | indexer/src/loader.ts:67-72 | two inserts give the same table in either order if and only if they agree on every key that is new |
| Loader.WriteTwice | indexer/src/loader.ts:167-190 | writing a ledger's data again changes no table |
| Loader.WritesCommute | indexer/src/loader.ts:167-190 | two ledgers can be committed in either order if and only if they agree on every key new to the tables |
| Loader.LedgersAfterWrite | indexer/src/loader.ts:171-177 | a write adds the ledger's sequence to the ledgers table and no other |
| Loader.WrittenReadsBack | indexer/src/loader.ts:67-72 | after a write the ledger, and each transaction, operation and payment whose key is new and that comes first with it, reads back from its table column by column |
| Loader.RetriesWriteOnce | indexer/src/loader.ts:145-227 | any number of attempts, each all or nothing as `WriteIngestedData` promises, leave what one write leaves, if one of them wrote |
| Loader.Connection.Query | indexer/src/loader.ts:168-199 | a statement takes effect unless refused or unreadable, and reports success only if its reply arrives; a refused COMMIT drops the work |
| Loader.Connection.InsertBatch | indexer/src/loader.ts:58-76 | one statement: on success the transaction sees the rows of the batch inserted |
| Loader.Connection.BulkInsert | indexer/src/loader.ts:52-133 | on success the transaction sees all rows inserted, in as many statements as there are batches; nothing is committed; failure needs a fault |
| Loader.InsertLedger | indexer/src/loader.ts:171-177 | on success the transaction sees the ledger's row inserted |
| Loader.InsertAll | indexer/src/loader.ts:171-181 | on success the transaction sees the ledger and all three lists inserted, in as many statements as there are batches |
| Loader.WriteAll | indexer/src/loader.ts:168-188 | on success everything is committed; on failure nothing is, unless only the reply to COMMIT was lost |
| Loader.WriteIngestedData | indexer/src/loader.ts:145-227 | atomic: success means all data committed in one transaction with the statements the metrics count, one for every hundred rows begun, an error means none, or all if only a reply was lost, and needs a fault; a transaction stays open only if the last statement sent, the ROLLBACK, was refused; without a pool nothing is written |
| GapDetector.ScanRows | indexer/src/gap-detector.ts:87-110 | the gaps of ascending rows are in normal form and cover exactly the ledgers after `before` up to `last` that are not rows |
| GapDetector.NormalFormUnique | indexer/src/gap-detector.ts:340-369 | two normal lists that cover the same ledgers are equal |
| GapDetector.TotalSizeIsCardinality | indexer/src/gap-detector.ts:239 | the sizes of a normal list add up to the number of ledgers it covers |
| GapDetector.RowCount | indexer/src/gap-detector.ts:141-146 | the count of a range is the number of its ledgers in the table |
| GapDetector.CountVersusSpan | indexer/src/gap-detector.ts:78-81 | the early exit on the count happens exactly when nothing is missing |
| GapDetector.DetectLedgerGaps | indexer/src/gap-detector.ts:47-114 | the report is in normal form and covers exactly what is missing between minimum and maximum, nothing if one of them is 0 |
| GapDetector.InsideReportExact | indexer/src/gap-detector.ts:64-81 | the report is the exact complement of the table in its span if and only if neither end is 0 or nothing is missing |
| GapDetector.DetectHorizonLag | indexer/src/gap-detector.ts:120-189 | the report is in normal form and covers exactly what is missing behind Horizon, nothing for a lag of at most one |
| GapDetector.BehindReportExact | indexer/src/gap-detector.ts:131-134 | it is exact if and only if the lag is not one or that one ledger is present |
| GapDetector.ReportedSize | indexer/src/gap-detector.ts:147-148 | the sizes of an exact report add up to expected minus present |
| GapDetector.ExactReportUnique | indexer/src/gap-detector.ts:87-110 | there is only one exact report of a range |
| Sequences.SortSorts | indexer/src/gap-detector.ts:343-348 | sorting orders the elements and keeps them, with multiplicity |
| GapDetector.SortKeeps | indexer/src/gap-detector.ts:343-348 | the sorted gaps are in order, the same ones as often and well formed |
| GapDetector.Absorb | indexer/src/gap-detector.ts:352-366 | one turn of the merge keeps the normal form and adds exactly the current gap's ledgers |
| GapDetector.MergeGaps | indexer/src/gap-detector.ts:340-369 | the result is in normal form, covers exactly the ledgers of the input and is no longer than it |
| GapDetector.MergeIsCanonical | indexer/src/gap-detector.ts:340-369 | merging ignores the order of its input, is idempotent, and gives equal results if and only if the same ledgers are covered |
| GapDetector.SumSizes | indexer/src/gap-detector.ts:239 | adds up the sizes |
| GapDetector.GenerateGapReport | indexer/src/gap-detector.ts:194-261 | the merged report covers exactly what either detector reports, and `totalMissing` is the number of those ledgers |
| GapDetector.RecoverOne | indexer/src/gap-detector.ts:306-321 | one attempt keeps: counters and failures account for all gaps tried, and the table for all they stored |
| GapDetector.RecoverGap | indexer/src/gap-detector.ts:307-320 | a turn of the loop is such an attempt |
| GapDetector.RecoverGaps | indexer/src/gap-detector.ts:302-321 | afterwards recovered plus failed gaps are all gaps found |
| GapDetector.FailuresAreErrors | indexer/src/gap-detector.ts:314-320 | the failures are exactly the gaps whose attempt threw, each with its own error, in the order of the attempts |
| GapDetector.RecoverMissingLedgers | indexer/src/gap-detector.ts:275-334 | recovery tries exactly the reported gaps and accounts for each |
| GapDetector.ScanAfterRecovery | indexer/src/gap-detector.ts:275-334 | a later scan, whatever the lowest and highest ledgers are, reports only ledgers of failed gaps; if none failed it reports nothing and the recovered count is the total missing |
| GapDetector.SameSpan | indexer/src/gap-detector.ts:56-66 | filling gaps moves neither the lowest nor the highest ledger, so the later scan is of the same span |
| DepthLimit.SelectionDepth | api/src/depthLimit.ts:15-42 | terminates for every fragment map, cyclic ones included, and leaves `visited` as it was |
| DepthLimit.InlinedOperation | api/src/depthLimit.ts:15-42 | without fragment cycles the walk measures the depth of the fully inlined operation |
| DepthLimit.WalkIsInlinedDepth | api/src/depthLimit.ts:15-42 | so it does from inside any chain of fragments |
| DepthLimit.InlineIsComplete | api/src/depthLimit.ts:32-37 | the inlining leaves no fragment behind |
| DepthLimit.ChainIsShort | api/src/depthLimit.ts:34-37 | without cycles a chain of fragments never repeats and is shorter than their number |
| DepthLimit.WalkWithinInlining | api/src/depthLimit.ts:15-42 | with cycles too, the walk never exceeds the depth of the inlining |
| DepthLimit.ValidateDepth | api/src/depthLimit.ts:44-65 | each operation measured as too deep over the last definition of every fragment is reported once, in order, with its depth; without fragment cycles these are exactly the operations that are too deep once inlined |
| DepthLimit.ReportsExactlyTooDeep | api/src/depthLimit.ts:44-65 | without cycles the reported operations are exactly those whose fully inlined depth exceeds the limit, with the last definition of each fragment |
| DepthLimit.LastDefinitionsCount | api/src/depthLimit.ts:46-51 | a name is in the fragment map if and only if some definition has it, and its selections are those of the last one |
| DepthLimit.FragmentMapUnique | api/src/depthLimit.ts:46-51 | a document has only one such map |
| DepthLimit.ReportedInOrder | api/src/depthLimit.ts:53-63 | the errors belong to operations in document order, each with its depth and its name or `anonymous`, and no operation that the walk finds too deep is left out |
| DepthLimit.WalkIsLongestPath | api/src/depthLimit.ts:15-42 | without cycles the walk finds depth n if and only if n fields, none of them starting with two underscores, are nested in each other through however many fragments |
| DepthLimit.DepthIsLongestPath | api/src/depthLimit.ts:20-30 | the same of inlined selections |
| DepthLimit.InliningKeepsPaths | api/src/depthLimit.ts:32-37 | inlining keeps exactly the paths of nested fields |
| DeadLetterQueue.AtomicWriteFile | indexer/src/error-recovery/DeadLetterQueue.ts:35-61 | the file ends with the new content on disk; at every step on the way it has its old content or the synced new one |
| DeadLetterQueue.WriteTemporary | indexer/src/error-recovery/DeadLetterQueue.ts:42-59 | the temporary file is written and synced; at every step no other file has changed |
| DeadLetterQueue.TmpPathsDiffer | indexer/src/error-recovery/DeadLetterQueue.ts:38-41 | processes, and writes of one process at different times, never share a temporary file |
| DeadLetterQueue.AtomicAppendLine | indexer/src/error-recovery/DeadLetterQueue.ts:67-74 | the same for the old text extended by the line |
| DeadLetterQueue.AppendLineExtends | indexer/src/error-recovery/DeadLetterQueue.ts:72-73 | appending keeps all of the old text, adds at most one line feed, and the line starts a line of its own |
| DeadLetterQueue.CrashKeepsView | indexer/src/error-recovery/DeadLetterQueue.ts:204-242 | where state and log are synced, a crash changes nothing that a restart sees |
| DeadLetterQueue.ReplacedState | indexer/src/error-recovery/DeadLetterQueue.ts:187-199 | at every step of replacing the state file a restart sees the old queue or the new one |
| DeadLetterQueue.ReplacedLog | indexer/src/error-recovery/DeadLetterQueue.ts:244-249 | at every step of replacing the log a restart sees the old log or the new one |
| DeadLetterQueue.KeepGood | indexer/src/error-recovery/DeadLetterQueue.ts:218-237 | loading keeps the well-formed entries in order |
| DeadLetterQueue.PersistRoundTrip | indexer/src/error-recovery/DeadLetterQueue.ts:187-237 | a persisted queue is read back as it was |
| DeadLetterQueue.DeadLetterQueue.constructor | indexer/src/error-recovery/DeadLetterQueue.ts:84-103 | a new queue holds what is on disk if it persists and loads, and is empty otherwise; if it loads it matches its disk |
| DeadLetterQueue.DeadLetterQueue.LoadFromDisk | indexer/src/error-recovery/DeadLetterQueue.ts:204-242 | missing file and other JSON leave the queue, blank and corrupted ones empty it; a queue that matches its disk still does, as a restart step of the run |
| DeadLetterQueue.DeadLetterQueue.PersistState | indexer/src/error-recovery/DeadLetterQueue.ts:187-199 | the disk then shows the queue; a crash at any step shows the queue from before or after |
| DeadLetterQueue.DeadLetterQueue.WriteToDlqFile | indexer/src/error-recovery/DeadLetterQueue.ts:244-249 | the log grows by the entry's line, a crash shows it before or after |
| DeadLetterQueue.DeadLetterQueue.Push | indexer/src/error-recovery/DeadLetterQueue.ts:108-133 | the queue after a push, on disk too, is the push step of the run; the log grows exactly when retries are used up; a crash at any step can only show that step's views |
| DeadLetterQueue.DeadLetterQueue.Remove | indexer/src/error-recovery/DeadLetterQueue.ts:150-156 | the ledger leaves the queue, on disk too if it was there, as the removal step of the run; a crash shows before or after |
| DeadLetterQueue.DeadLetterQueue.Filter | indexer/src/error-recovery/DeadLetterQueue.ts:152 | keeps the other entries in order |
| DeadLetterQueue.DeadLetterQueue.Clear | indexer/src/error-recovery/DeadLetterQueue.ts:168-171 | the queue is empty, on disk too, as the clearing step of the run; a crash shows before or after |
| DeadLetterQueue.CrashedOperation | indexer/src/error-recovery/DeadLetterQueue.ts:108-133 | for a queue that matches its disk and a crash at any step of any operation, the reloaded queue is the one from before or after, the log has only grown, a ledger that a push takes out of retries is still queued or its line ends the log, and what is found is a crash step of the run below |
| DeadLetterQueue.PushedKeeps | indexer/src/error-recovery/DeadLetterQueue.ts:108-133 | a push keeps entries distinct and below the limit, adds one attempt to its ledger (none left once it is logged) and none to others |
| DeadLetterQueue.RunKeepsQueue | indexer/src/error-recovery/DeadLetterQueue.ts:108-171 | over any run of pushes, removals, clears and restarts, each of them completed or cut short by a crash, disk and memory agree, entries stay distinct and within the limit, the log only extends, and a ledger's entry counts exactly its pushes since it was last absent |
| DeadLetterQueue.NoLedgerIsLost | indexer/src/error-recovery/DeadLetterQueue.ts:108-171 | over any such run a queued ledger leaves the queue only if it is removed, the queue is cleared, or its retries are used up and the log that the run ends with has the line of its last entry: one attempt more, its first failure, and the time and error of that push |
| DeadLetterQueue.StepKeeps | indexer/src/error-recovery/DeadLetterQueue.ts:108-171 | each step, a crashed one too, keeps the queue in order and equal to its disk, extends the log and adjusts attempts only for its own ledger |
| DeadLetterQueue.PerformedKeeps | indexer/src/error-recovery/DeadLetterQueue.ts:108-171 | so does each completed operation |
| DeadLetterQueue.StepExcuses | indexer/src/error-recovery/DeadLetterQueue.ts:108-171 | a ledger that leaves the queue in one step was removed, cleared or logged |
| DeadLetterHistory.RunRecordsPushes | indexer/src/error-recovery/DeadLetterQueue.ts:108-133 | over any run, crashes included, the entry of a ledger in memory and on disk is the summary of its pushes since it was last absent: their number, the time of the first, time and error of the last |
| DeadLetterHistory.PushLeavesOthers | indexer/src/error-recovery/DeadLetterQueue.ts:108-133 | a push leaves the entries of all other ledgers, and their order, as they were |
| DeadLetterHistory.PushRecords | indexer/src/error-recovery/DeadLetterQueue.ts:112-129 | a push adds its time and error to that summary, or ends it with the retries |
| DeadLetterHistory.WithoutKeepsOrder | indexer/src/error-recovery/DeadLetterQueue.ts:152 | removing keeps the others in their order |
| DeadLetterQueue.DeadLetterQueue.GetReadyForRetry | indexer/src/error-recovery/DeadLetterQueue.ts:138-145 | everything queued whose retries are not used up and whose backoff is over, in the order of the queue |
| DeadLetterHistory.ReadyAfterBackoff | indexer/src/error-recovery/DeadLetterQueue.ts:138-145 | over any run a ledger is ready if and only if it was pushed since it was last absent, the limit is above 1, and the backoff for the number of its pushes has passed since the last; with a limit of 1 or less it stays queued and is never ready |
| DeadLetterHistory.BackoffDoubles | indexer/src/error-recovery/DeadLetterQueue.ts:176-178 | each further failure doubles the wait until it reaches five minutes |
| Csv.TableRoundTrip | frontend/src/utils/exportUtils.ts:17-45 | a printed table reads back as its cells if and only if every piece printed without escaping is plain |
| Csv.ExportRoundTrip | packages/api/src/resolvers/analytics.ts:1159-1174 | with at least one record the export reads back as headers and cell texts if and only if there is a column, headers are plain and, on the dashboard, so are stringified objects |
| Csv.ExportReadsBack | frontend/src/utils/exportUtils.ts:17-45 | under that condition the export reads back as the headers and, record by record and column by column, the text of what the record holds under the header |
| Csv.QuotedIfSpecial | frontend/src/utils/exportUtils.ts:34-39 | a cell is quoted exactly if it contains a comma, a quote or a line feed |
| Csv.ReadPiece | packages/api/src/resolvers/analytics.ts:1164-1170 | one piece in front of a delimiter is read back if and only if it is escaped or plain |
| Csv.ReadVerbatim | frontend/src/utils/exportUtils.ts:24-33 | text printed as it is reads back if and only if it is plain |
| Csv.ReadEscaped | frontend/src/utils/exportUtils.ts:34-39 | escaped text always reads back, with commas, quotes and line feeds |
| Csv.ReplaceQuotes | frontend/src/utils/exportUtils.ts:37 | every quote doubled |
| Csv.PrintCell | frontend/src/utils/exportUtils.ts:28-40 | prints empty, scalar and object cells as each export does |
| Csv.JoinParts | frontend/src/utils/exportUtils.ts:41-44 | the parts with the separator between them |
| Csv.PrintRecord | frontend/src/utils/exportUtils.ts:28-41 | the record's cells in header order, missing ones empty, as one line |
| Csv.ArrayToCsv | frontend/src/utils/exportUtils.ts:17-45 | the whole text is the printed table, empty without data |
| CacheKey.BuildCacheKey | packages/api/src/database/cached-query.ts:128-135 | the text of the prefix and the sorted parts |
| CacheKey.PrintUnambiguous | packages/api/src/database/cached-query.ts:131 | a JSON text in front of a delimiter determines its value and where it ends |
| CacheKey.SerializedUnambiguous | packages/api/src/database/cached-query.ts:129-132 | the joined parts determine the parts |
| CacheKey.SortedUnique | packages/api/src/database/cached-query.ts:130 | sorted parts are determined by the parts as a set |
| CacheKey.KeyIdentifiesParts | packages/api/src/database/cached-query.ts:128-135 | for comparable names two keys are equal if and only if the parts are, in whatever order they were given |
| CacheKey.EqualsSignsCollide | packages/api/src/database/cached-query.ts:131 | whatever two names and two values are given, a name made of the first part and the second name gets the key of the two parts |
| CacheKey.PrintAppends | packages/api/src/database/cached-query.ts:131-132 | printing in front of a text is printing and appending |
| CacheKey.ResultCache.CachedQuery | packages/api/src/database/cached-query.ts:16-29 | whatever right entries the cache holds when the fetch returns, the answer was fetched for exactly the parts asked for, now or earlier; a hit changes nothing, a miss stores |
| CacheKey.ResultCache.Expire | packages/api/src/database/cached-query.ts:27 | expired entries go and the others stay right |
| RateLimit.MemoryRateLimitStore.IncrementKey | api/src/rateLimit.ts:21-31 | the key's window is counted or renewed, other keys stay |
| RateLimit.MemoryRateLimitStore.Prune | api/src/rateLimit.ts:33-37 | exactly the expired windows go |
| RateLimit.PostgresRateLimitStore.IncrementKey | api/src/rateLimit.ts:64-76 | the upsert gives every row what the memory store's rule gives |
| RateLimit.PostgresRateLimitStore.Prune | api/src/rateLimit.ts:78-81 | the delete removes what the memory store prunes |
| RateLimit.CheckRateLimit | api/src/rateLimit.ts:84-92 | on either store the request is counted first; it is allowed if and only if the count stays within the limit, and what remains is never negative |
| RateLimit.RemainingIsExact | api/src/rateLimit.ts:84-92 | of the further requests of a key before `resetAt` exactly the first `remaining` are allowed, whatever other keys and prunings do |
| RateLimit.PrunedAreRecent | api/src/rateLimit.ts:33-37 | over any trace a pruned store holds only keys requested less than a window ago |
| RateLimit.OneWindow | api/src/rateLimit.ts:24-30 | an open window allows no more than what is left of its limit |
| RateLimit.TwoWindows | api/src/rateLimit.ts:24-30 | an interval as long as a window sees the rest of one window and at most one fresh one |
| RateLimit.FewerThanTwiceTheLimit | api/src/rateLimit.ts:18-38 | over any trace no half-open interval of a window's length has more than 2 * max - 1 allowed requests of a key |
| RateLimit.BoundIsMet | api/src/rateLimit.ts:18-38 | for every limit of at least 1 and every window of at least two units a trace reaches that bound |
| RateLimit.PruningIsInvisible | api/src/rateLimit.ts:33-37 | pruning at any moments changes no decision |
| RateLimit.SubscriptionLimits.Check | packages/api/src/pubsub.ts:26-58 | the address's counter is renewed, counted or left at its limit, and admits accordingly |
| RateLimit.SubscriptionLimits.Cleanup | packages/api/src/pubsub.ts:60-72 | exactly the expired counters go |
| RateLimit.LimitsAreWindows | packages/api/src/pubsub.ts:26-58 | the subscription limits decide as request limits do with windows one unit longer |
| RateLimit.SubscriptionBound | packages/api/src/pubsub.ts:26-72 | an interval of the window plus one unit admits at most 2 * max - 1, and cleaning up changes no decision |
| CircuitBreaker.CircuitBreaker.TransitionIfNeeded | packages/api/src/services/circuit-breaker.ts:107-117 | an open circuit becomes half-open once the cooldown is over |
| CircuitBreaker.CircuitBreaker.Begin | packages/api/src/services/circuit-breaker.ts:61-71 | a call is admitted if and only if the circuit is not open after that transition |
| CircuitBreaker.CircuitBreaker.OnSuccess | packages/api/src/services/circuit-breaker.ts:119-132 | the success that reaches the threshold closes a half-open circuit and clears its counts; any other success outside half-open only ends the failure streak (`NextState`) |
| CircuitBreaker.CircuitBreaker.OnFailure | packages/api/src/services/circuit-breaker.ts:134-154 | the failure is counted and timed; it reopens a half-open circuit and opens a closed one that reaches the threshold |
| CircuitBreaker.CircuitBreaker.Reset | packages/api/src/services/circuit-breaker.ts:83-89 | closed, with nothing counted or remembered |
| CircuitBreaker.CircuitBreaker.GetState | packages/api/src/services/circuit-breaker.ts:91-94 | reports the state after the transition |
| CircuitBreaker.HistoryKeepsInv | packages/api/src/services/circuit-breaker.ts:61-154 | over all interleavings: closed, the failure count is below the threshold and equals the failures since the last success or reset; half-open, the success count is below its threshold and equals the successes since the circuit became half-open; open and half-open know the last failure, half-open only after the cooldown |
| CircuitBreaker.AdmissionAfterCooldown | packages/api/src/services/circuit-breaker.ts:61-71 | no call starts from an open or half-open circuit before the cooldown since the last failure, and exactly those in time are rejected |
| CircuitBreaker.OpensOnFailure | packages/api/src/services/circuit-breaker.ts:134-154 | a circuit that is not open opens exactly on the failure that completes the streak, or on any failure while half-open |
| CircuitBreaker.NextState | packages/api/src/services/circuit-breaker.ts:61-154 | over all histories the next state is exactly determined: half-open closes on the success that completes the threshold, counted from the history, and opens on any failure; open becomes half-open on the first call or query after the cooldown; closed opens on the failure that completes the streak; a reset closes; nothing else moves it, and what has just closed has nothing counted |
| CircuitBreaker.ProbeSuccessesSince | packages/api/src/services/circuit-breaker.ts:120-127 | the successes counted are all those settled since the event that made the circuit half-open |
| CircuitBreaker.ManyProbes | packages/api/src/services/circuit-breaker.ts:61-73 | half-open admits any number of calls before one settles |
| Pagination.CreateConnection | packages/api/src/utils/pagination.ts:16-77 | rejects exactly `first` with `last` and `after` with `before`; otherwise the page |
| Pagination.ForwardPage | packages/api/src/utils/pagination.ts:37-76 | a forward page is the next stretch of the data, knows whether more follows and ends with its last item's cursor |
| Pagination.WalkForward | packages/api/src/utils/pagination.ts:37-76 | following endCursor while hasNextPage terminates and rebuilds the data in order, in full pages but the last, as few as needed |
| Pagination.BackwardEdges | packages/api/src/utils/pagination.ts:45-60 | a backward page is the stretch in front of its cursor |
| Pagination.WalkBackward | packages/api/src/utils/pagination.ts:45-76 | following startCursor until a page is empty terminates and rebuilds the data from the back |
| Pagination.NextFlag | packages/api/src/utils/pagination.ts:62-64 | hasNextPage is right about whether items follow if and only if the page does not start at the end of non-empty data |
| Pagination.PreviousFlag | packages/api/src/utils/pagination.ts:65 | hasPreviousPage is right about whether items precede if and only if some do or the page ends the data |
| Pagination.AcceptedPage | packages/api/src/utils/pagination.ts:31-76 | for any accepted combination of cursors and counts: the edges are one stretch of the data, the total counts all items, both cursors belong to the ends of the stretch, and each flag is set in its own direction only |
| Pagination.OtherFlags | packages/api/src/utils/pagination.ts:62-65 | the flag of the other direction is never set, so it is right if and only if nothing lies there |
| Pagination.StaleCursorRestarts | packages/api/src/utils/pagination.ts:37-51 | a cursor that no item has is ignored |
| Pagination.NegativeCounts | packages/api/src/utils/pagination.ts:53-60 | a negative `first` cuts as many items off the end, a negative `last` leaves none |
| KeysetWalk.ValidateLimit | api/src/resolvers/index.ts:19-28 | accepts exactly the whole numbers from 1 to 100, as themselves, and takes 10 when there is none |
| KeysetWalk.SelectIsTop | api/src/resolvers/index.ts:93-104 | the query returns the highest ledgers below the bound, highest first, as many as asked for or all |
| KeysetWalk.SelectPrefix | api/src/resolvers/index.ts:101-107 | a smaller limit gives the beginning of the same rows |
| KeysetWalk.TopIsUnique | api/src/resolvers/index.ts:93-104 | no other sequence of rows answers the query |
| KeysetWalk.OneMoreRow | api/src/resolvers/index.ts:102-107 | one row more than the limit comes back if and only if a ledger is left for a next page |
| KeysetWalk.Ledgers | api/src/resolvers/index.ts:89-121 | a bad limit is reported before a bad cursor; otherwise the page has the highest ledgers below the cursor, hasNextPage tells whether any is left, and endCursor is the last edge's |
| KeysetWalk.IssuedCursor | api/src/resolvers/index.ts:30-41 | an issued cursor decodes to the sequence it encodes, and a negative one would be refused |
| KeysetWalk.CursorOfZeroRestarts | api/src/resolvers/index.ts:96-99 | an issued cursor bounds the next page if and only if it is not that of ledger 0, which starts from the top |
| KeysetWalk.NextBound | api/src/resolvers/index.ts:106-119 | while there is a next page, its cursor is accepted and bounds it below the page |
| KeysetWalk.WalkEnds | api/src/resolvers/index.ts:89-121 | following endCursor while hasNextPage ends, even if ledgers keep arriving |
| KeysetWalk.WalkIsExact | api/src/resolvers/index.ts:89-121 | while the table grows, a walk is strictly descending, returns every ledger there was below its start, only ledgers the table holds, in full pages but the last |
| KeysetWalk.WalkShowsInTurn | api/src/resolvers/index.ts:89-121 | each page of a walk is the page of its table below the last ledger of the page before |
| KeysetWalk.FullPage | api/src/resolvers/index.ts:102-119 | a page with a next one is full, ends below its bound, and a ledger is left below its end |
| KeysetWalk.WalkOfFixedStore | api/src/resolvers/index.ts:89-121 | over an unchanged table the pages together are the answer of one query without a limit |
| EventStream.NothingLost | api/src/pubsub.ts:16-65 | however calls overlap, what is published before closing is what was delivered, in order, followed by the queue |
| EventStream.StepConserves | api/src/pubsub.ts:22-58 | one call adds to delivered and queued payloads exactly what it publishes while open |
| EventStream.WaitingMeansEmpty | api/src/pubsub.ts:22-29 | a waiting consumer has an empty queue and gets the next payload |
| EventStream.NothingAfterClose | api/src/pubsub.ts:34-58 | after return or throw nothing more is delivered, the queue stays and later calls are finished |
| EventStream.StrandedPerOvertake | api/src/pubsub.ts:41-43 | a run strands exactly one promise for each next() made while another was waiting |
| EventStream.NoneStranded | api/src/pubsub.ts:41-43 | the count of stranded promises is zero if and only if every unsettled promise can still be settled |
| EventStream.StrandedForever | api/src/pubsub.ts:41-43 | a stranded promise is never settled |
| EventStream.WaitingSettles | api/src/pubsub.ts:22-58 | the calls that follow decide how a waiting call settles, whenever they come: by the next payload, finished by return(), stranded by another next(), and after throw() only by return() |
| EventStream.WaitingAtThrow | api/src/pubsub.ts:45-58 | a call waiting at throw() settles if and only if return() follows, never with a payload |
| EventStream.SettledStays | api/src/pubsub.ts:22-58 | a settled promise keeps its result |
| EventStream.Subscription.Emit | api/src/pubsub.ts:22-29 | the payload goes to the waiting call or the queue, to neither once closed |
| EventStream.Subscription.Next | api/src/pubsub.ts:34-44 | adds one promise: finished, the oldest queued payload, or waiting |
| EventStream.Subscription.Return | api/src/pubsub.ts:45-53 | closes, detaches and finishes a waiting call |
| EventStream.Subscription.Throw | api/src/pubsub.ts:54-58 | closes and detaches, and leaves a waiting call unsettled |
| LoadGrouped.LoadGrouped | api/src/loaders.ts:27-50 | result i is the subsequence of rows whose normalized key matches keys[i], duplicates of a key included |
| LoadGrouped.FilterKeepsOrder | api/src/loaders.ts:40-49 | each result has the matching rows and no others, in the order of the fetch |
| LoadGrouped.AgreesWithFilterPerKey | packages/api/src/loaders/index.ts:97-99 | equal to filtering all rows per key if and only if normalizing brings no row to a key not its own |
| LoadGrouped.EachRowPerAsking | api/src/loaders.ts:40-49 | every row comes back once for each time its key was asked for |
| LoadGrouped.BatchingIsInvisible | api/src/loaders.ts:60-75 | a key that shares its normalized form with no other key of the table gets from a batch what it would get loaded alone, whatever else is in the batch |
| Decimal.ParsePrinted | api/src/resolvers/index.ts:30-41 | parseInt reads a printed integer back, whatever non-digit text follows |
| Decimal.PrintIntInjective | indexer/src/backfill.ts:238 | different integers print differently |

## Left out

- Backfill: timestamps, progress, ETA, percentages, logging and the delay between batches; how Horizon records are fetched and normalized.
- BackfillRun.RunBackfill: runs with a database pool; without one the code keeps no checkpoint and stores nothing, so only the counts of the summary would be left to state.
- Backfill with an account filter: the ledger lookup then always misses, which the step machine allows; which transactions are fetched is not modelled.
- The checkpoint table's creation, its time columns and the widths of its integer columns.
- Loader: a statement's text is its tokens (the spelling of numbers in placeholders is not modelled), cells are texts, and the three bulk inserts are one method with the table and its columns as parameters; constraint violations and lost connections are faults of a statement; a pool that gives out no connection or one with an open transaction, durations and log lines.
- Gap detection: the separate queries of one scan are taken from one state of the table; Horizon's answer is a parameter, and so is what a backfill of a gap stores and throws; the report's extra fields and durations.
- GapDetector.RecoverMissingLedgers: what a backfill does is a function of its range; one recovery tries each range once, so only a comparison of two recoveries could tell.
- Depth rule: how graphql-js parses and visits a document; directives, arguments and aliases; the wording of the error.
- Dead letter queue: the state file is its parsed value, not JSON text; I/O exceptions and the clean-up after them; durability of the directory entry after a rename; fractional delays; the aliasing of entries returned by `getAll`; the rendered log line is a parameter.
- CSV: how numbers, dates and objects become strings; a carriage return is an ordinary character, as it is in the code.
- CacheKey.EqualsSignsCollide: gives the family of names that collide by holding one delimiter; names may also overlap across several parts, so whether two given sets of names can collide is a question of unique decipherability about all of them together, with no condition on the single names, and no converse is stated. `KeyIdentifiesParts` covers all names without equals signs, and all calls with the same names.
- Cache keys: numbers are the tokens they print as; `localeCompare` is a parameter that must be a total order on names; two different prefixes; cached null values; the time to live is an arbitrary expiry; refresh, tags and versions.
- Rate limits: one non-decreasing clock for memory and SQL; response headers.
- Circuit breaker: the waiting time in the error message and `getStats`.
- Pagination.CreateConnection: cursors are ASCII texts, so decoding loses nothing; the code decodes bytes outside ASCII as replacement characters.
- Cursors: Base64 is an injective encoding, so a cursor is the text it encodes; integer columns and numbers have no limit.
- KeysetWalk.WalkIsExact: the table only grows between pages and no sequence is negative; a limit that is null, NaN or infinite is not modelled.
- Event stream: one subscription of one topic at a time; the promises returned by return() and throw() themselves.
- LoadGrouped.LoadGrouped: equal keys share one array in the code, here they get equal sequences.
- BackfillCompletion.CheckpointIsExact: is stated for jobs that are never cancelled and have a worker; `CheckpointIsSound` is what holds of all jobs.
- Anomaly detection and forecasts, authentication, schema validation, Redis and Postgres drivers, servers, mail and chat dispatch, and the user interface: floating-point statistics, libraries and I/O.
