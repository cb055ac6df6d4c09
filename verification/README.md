# Verification model of the comment and transcript analysis service

The service analyses a YouTube video: workers that share one job table collect comments and captions, classify every
item with a language model, and build a reply network and a report.  This project models its hard core in Dafny and
proves what it promises over every run.

**The fenced job protocol.**  `JobModel` holds the rows of a job (ten steps in pipeline order, collected items, analysis
runs, result rows) and each SQL transaction as a function on them.  `Protocol` puts any number of workers over one table:
an event is one committed transaction or one read, in any interleaving; a worker may crash anywhere, sleep for any time and
wake up later, and recovery may judge any heartbeat stale.  `Safety` states the invariant, `Preservation` and `Runs` prove
that every event keeps it, and `Runs`, `ExactlyOnce`, `Verdicts`, `RequiredSteps`, `Heartbeats` and `AdminRetry` draw the
conclusions: one owner per job, superseded attempts change nothing, every item stored exactly once, counters that agree with
the rows, true verdicts, attempts that beat are not recovered, and the exact conditions under which retry and crash recovery
work.  `Transactions` says what every event writes, column by column, and what the reads find.  `Scenarios` builds concrete runs
from an empty table for the properties that fail, and `FullRun` one in which the whole pipeline succeeds.  `Store`, `Executor` and
`Orchestration` are the imperative side: classes with the code's loops, branches and in-place updates.  `JobTable.Valid` says that the tables are reachable by protocol
events alone, so whatever the coordinator and the worker do is a run of the protocol, with other workers' transactions in
between (`JobTable.Others`).

**The item coordinator**: `Coordination` says what one run does, as a function of its input, the stop flag, the results of
the futures and the order in which they complete; its lemmas hold for every such run.  The methods of `Executor` are the
coordinator itself, over the table; they do exactly that unless the attempt loses its row.  `ClassifierPool` is the queue
of classifiers beneath it, in every interleaving of the item threads with the coordinator.

**Sequential algorithms**: greedy packing (`Packing`) with its two uses (`Transcript`), the reply network (`Network`) and the
figures two programs read off it (`Metrics`), backoff (`Retry`), the output validator and the two-answer loop
(`Classification`), the report summary (`Report`), stratified sampling (`Sampling`), resumable comment
collection from a paged server (`Collection`).  `Totals` holds sums over sequences and classes.

## Assumptions

- A transaction is atomic and row locks serialize writers of one row.  `reconcile` is still two steps here, a count without
  the lock and then the fenced update.  The admin retry request is one step.
- Which stale job a poll recovers and which pending job it claims is any choice the rows allow, including none: the queries
  skip locked rows.  Time is a number each event brings along; no order is assumed.
- A worker's session keeps the step list it loaded (`expire_on_commit=False`, app/db/session.py:15-16) and flushes only changed
  columns.  So a started step is written from the cached status and attempt number, without a fence, and an analysis handler
  binds to the attempt number of its own session; `Runs.CacheIsFresh` shows that an owner loses nothing by this.  A rollback makes the
  session read the rows again, which then changes nothing.
- Analysis steps run the handlers of app/jobs/production_pipeline.py:55-78; the other handlers may return any finished status
  with any new rows, or raise.  Steps may lack a handler.
- `RetrySafe` restricts admin retry to jobs no worker is between two steps of; `AdminRetry.RetryIsSafeExactlyWhen` proves that
  this is exactly what single ownership needs, `AdminRetry.RowsAllowRetryExactlyWhen` what a caller can read off the rows, and
  `AdminRetry.RowsCannotTell` that the rows hold nothing better.
  `Store.JobTable.RetryJob` itself accepts every job, as the code does.  Every other event is unrestricted.
- Caption texts are stripped, paragraphs are stripped and non-blank, floats are exact reals or fractions.

## Where the code promises less than it seems to

- A worker that crashes between two steps leaves a running job without a running step.  Recovery selects by running step
  (app/db/repositories.py:73-85), so nothing but an admin retry reaches that job again: `Verdicts.CrashIsRecoverableExactlyWhen`,
  `Verdicts.OrphanStaysForever`.  docs/04_pipeline_jobs.md and docs/21_stale_job_recovery.md describe recovery by the stale running step only.
- `retry_job` does not look at the job's status.  On a job whose worker is between two steps it leads, from an empty table, to two
  workers inside one attempt, which the fence cannot tell apart: `AdminRetry.RetryCanShareAnAttempt`.  The rows admit this exactly
  when the job is running and none of its steps is: `AdminRetry.RowsAllowRetryExactlyWhen`.
- A required step that reports `skipped` stops the loop but is no failure: a run from an empty table ends `succeeded` with steps
  still pending (`Verdicts.SkippedRequiredEndsAsSuccess`).  A required step without a handler is no failure either: with no handlers
  at all a job ends `partial_success` (`Verdicts.NoHandlersEndAsPartialSuccess`).  `Verdicts.SucceededVerdict` is the exact condition on
  the closed rows, `RequiredSteps.ConfiguredVerdict` what is enough before the run.
- Retry-After is not capped: `Retry.OnlyRetryAfterExceedsCap`.
- `raw_text` differs from the joined segments as soon as one of several captions is blank: `Transcript.RawTextIsSegmentText`.
- Greedy segmentation is minimal for forward caption times and not for overlapping ones: `Transcript.OverlapDefeatsGreedy`.
- A negative `sample_size` is not refused and slices from the end: `Sampling.ShareIsTakenExactlyWhen`, `Sampling.NegativeSizeSelects`.
- A model reply that is JSON without being an object raises in the validator, one on which the JSON parser itself breaks raises in
  the parser, and a key rejected while the query is embedded raises before any answer.  Each fails the whole analysis step instead
  of its item: `Classification.OtherJsonFailsTheStep`, `Classification.RejectedEmbeddingFailsTheStep`, and exactly when a
  classification fails the step, `Classification.FailsTheStepExactlyWhen`.
- The sequential coordinator looks at the stop flag only before an item, so it completes if the flag is raised during the last
  one: `Coordination.SequentialMissesLateStop`, `Coordination.SequentialCompletesExactlyWhen`.  The parallel one never completes
  once it saw the flag.
- A collected transcript is collected again when a retry goes back to `collect_comments`, and its segments are stored a second
  time: `AdminRetry.TranscriptCanBeCollectedTwice` is a run from an empty table, `AdminRetry.TranscriptWaitsAgainExactlyWhen` the exact
  condition.  The exactly-once results hold over both sets of segments.
- A reply count that is too small hides replies from collection: `Collection.ThreadVisitedOnce` has the exact condition.

## Model

| member | source | states |
|---|---|---|
| Runs.EventKeepsInv | app/jobs/orchestrator.py:38-145 | every transaction of every worker keeps the whole invariant, loses no row, lowers no attempt number and revives no superseded one |
| Runs.RunKeepsInv | app/jobs/worker.py:30-58 | the same for every finite run of any number of workers |
| Runs.OneOwner | app/db/repositories.py:63-110 | in every reachable state at most one worker may change a job |
| Runs.SupersededForever | app/jobs/orchestrator.py:101-120 | an attempt that lost its row never passes the fence again, whatever anybody does |
| Runs.SupersededWritesNothing | app/analysis/result_store.py:162-174 | a worker that wakes up in a superseded attempt changes no row of any job by a result, heartbeat, reconcile, finish or release |
| Runs.BeatsRefresh | app/analysis/result_store.py:143-174 | a result or heartbeat leaves its worker in the step iff the fence held, and then the row carries the new heartbeat |
| Runs.AttemptIsFresh | app/jobs/orchestrator.py:62-69 | a start stores a number above the stored one and above that of every worker still inside the step |
| Runs.AttemptNumbersAreNotReused | app/jobs/orchestrator.py:62-69 | two starts of a step, any run in between, never share an attempt number |
| Runs.CacheIsFresh | app/jobs/orchestrator.py:46-69 | the step list an owner loaded once equals the stored statuses and attempt counts in every reachable state |
| Runs.PipelineShape | app/jobs/orchestrator.py:46-60 | every reachable job: finished prefix, at most one running step, pending suffix; no running step in a pending or closed job; finalize succeeded exactly if closed |
| Safety.PutKeepsInv | app/jobs/orchestrator.py:62-145 | a change by the only owner that leaves job and worker consistent keeps the invariant of all workers |
| Safety.ResetKeepsInv | app/db/repositories.py:73-110 | taking a job back while no worker is between steps leaves it without an owner and keeps the invariant |
| Preservation.RecordOk | app/analysis/result_store.py:85-109 | storing one outcome keeps rows, counters and the worker's remaining set in step |
| Preservation.ReconcileOk | app/analysis/result_store.py:111-141 | the fenced half of reconcile keeps the invariant although the counts are old |
| Preservation.StartOk | app/jobs/orchestrator.py:46-69 | a start computed from the cache keeps shape and verdict facts and leaves the cache exact |
| Preservation.FinishOk | app/jobs/orchestrator.py:92-120 | a fenced finish, with its handler's rows, keeps every finished analysis complete |
| Preservation.RecoverOk | app/db/repositories.py:90-98 | recovery leaves a pending job with no running step and all facts kept |
| Preservation.ReleaseOk | app/jobs/orchestrator.py:122-145 | a fenced release keeps all facts about the job |
| Preservation.CloseOk | app/jobs/orchestrator.py:155-176 | finalizing from the cache closes the job and establishes the verdict facts |
| Preservation.RetryOk | app/api/admin.py:82-104 | admin retry keeps all facts about the job and leaves no running step |
| Transactions.PositionsAreThePipeline | app/db/repositories.py:13-24 | the positions used by every transaction name the ten steps of the pipeline and its five required ones |
| Transactions.SubmitWrites | app/jobs/service.py:19-28 | a submitted job: validation succeeded at attempt one, nine blank pending steps, nothing collected |
| Transactions.RecoverableExactlyWhen | app/db/repositories.py:73-85 | a job may be recovered iff it is running and a running step of it has a heartbeat, or without one a start, before the limit |
| Transactions.PollWrites | app/db/repositories.py:90-100 | a poll that recovers a job rewinds one running row, keeps its attempts and progress, and claims the job only if it says so |
| Transactions.ClaimWrites | app/jobs/worker.py:31-39 | a claim turns a pending job running and touches no step |
| Transactions.StartWrites | app/jobs/orchestrator.py:62-69 | a start writes its own row, attempt one up, and the skips of the unconfigured pending positions it passed; the worker is inside that attempt |
| Transactions.FinishWrites | app/jobs/orchestrator.py:92-120 | a fenced finish: status, error and heartbeat of its row; the comments collected at collect_comments whatever the status, the segments only of a succeeded transcript, one run more only for a succeeded run step; and whether the worker goes on or closes the job |
| Transactions.ReleaseWrites | app/jobs/orchestrator.py:122-145 | a fenced release: the row waits again with its attempts and progress, the job is pending |
| Transactions.RecordWrites | app/analysis/result_store.py:85-109 | a fenced item result: one row more in this run and kind and its counters, or only the heartbeat when there is a row |
| Transactions.AdjustWrites | app/analysis/result_store.py:111-141 | a fenced reconcile stores total and counted figures |
| Transactions.BeatWrites | app/analysis/result_store.py:143-160 | a fenced heartbeat writes the heartbeat only |
| Transactions.LostFenceWritesNothing | app/analysis/result_store.py:162-174 | without its row, none of finish, release, heartbeat, result and reconcile writes anything |
| Transactions.CloseWrites | app/jobs/orchestrator.py:155-176 | closing writes the finalize row, and skips the pending rows behind a required failure or without a handler |
| Transactions.CloseDecides | app/jobs/orchestrator.py:158-162 | the verdict of a closed job, from the rows it has: a failed required step, else an incomplete optional one, else success |
| Transactions.RetryWrites | app/api/admin.py:82-104 | retry is accepted iff some step failed with a retryable code, and rewinds the rows from the first such step on, which keep attempts, heartbeat and progress |
| Transactions.BindReads | app/jobs/production_pipeline.py:55-78 | an analysis step has nothing to do iff its collection did not succeed or left nothing, fails without a run, and otherwise takes the newest |
| Transactions.LoadReads | app/analysis/result_store.py:31-83 | the items loaded are those collected without a row in this run |
| Transactions.CountReads | app/analysis/result_store.py:114-122 | the counts are those of the rows of this run and kind |
| FullRun.PipelineSucceeds | app/jobs/orchestrator.py:38-60 | a run from an empty table that ends in a succeeded job: every step succeeded, a comment and a caption collected, one row with its outcome for each |
| ExactlyOnce.RowsAreInsertions | app/analysis/result_store.py:85-109 | over any run, the rows of an analysis run are the earlier rows plus all insertions, with multiplicity |
| ExactlyOnce.FirstOutcomeStays | app/analysis/result_store.py:97-100 | the first outcome stored for an item is never dropped or replaced |
| ExactlyOnce.SucceededMeansEveryItemOnce | app/analysis/services.py:13-41 | when an analysis step stands succeeded, rows and collected items are in bijection, each inserted exactly once, collection had succeeded and the counters are complete |
| ExactlyOnce.ResumeLoadsTheRest | app/analysis/result_store.py:31-83 | an attempt loads exactly the items without a row; earlier insertions plus the loaded ones are the input, each once |
| ExactlyOnce.CountersAreTrue | app/analysis/result_store.py:102-108 | from an attempt's first reconcile on, the stored counters are the true counts of rows at every transaction boundary and never exceed the total |
| ExactlyOnce.UnlockedCountIsTrue | app/analysis/result_store.py:111-141 | a count taken without the lock is stored only if it is still true; the closing reconcile changes no counter and finds completed equal to total |
| Verdicts.FailedVerdict | app/jobs/orchestrator.py:155-176 | a closed job is failed iff a required step failed; then exactly one did and everything behind it is skipped |
| Verdicts.PartialVerdict | app/jobs/orchestrator.py:158-162 | partial success iff no required step failed and an optional one failed or was skipped |
| Verdicts.SucceededVerdict | app/jobs/orchestrator.py:158-162 | all steps succeeded iff the verdict is succeeded and no required step was skipped; without such a skip every step of a closed job is finished |
| Verdicts.SkippedRequiredEndsAsSuccess | app/jobs/orchestrator.py:56-60 | a run from an empty table in which a required step reports skipped ends in a succeeded job with pending steps |
| Verdicts.NoHandlersEndAsPartialSuccess | app/jobs/orchestrator.py:49-52 | a run from an empty table without any handler skips required steps and ends in partial success |
| RequiredSteps.EventKeepsRequired | app/jobs/orchestrator.py:46-60 | with a handler for each required step and none of them reporting skipped, every transaction leaves required steps skipped only behind a failed one |
| RequiredSteps.ConfiguredVerdict | app/jobs/orchestrator.py:155-176 | then a closed job is succeeded iff all its steps succeeded, and all its steps are finished |
| Heartbeats.OtherEventKeepsAlive | app/db/repositories.py:73-85 | no transaction of others touches a running attempt, except a poll whose limit lies behind its last beat |
| Heartbeats.PunctualAttemptIsNotRecovered | app/db/repositories.py:73-85 | in any run, an attempt whose last beat is never older than the limit is never recovered and is still current at the end |
| Heartbeats.BeatingAttemptIsNotRecovered | app/jobs/worker.py:31-34 | with a clock that never runs backwards, beating at gaps within the stale limit is enough for that |
| AdminRetry.RetryRewindsSuffix | app/api/admin.py:88-103 | retry leaves every step before the first retryable failure as it is, makes all later ones pending with their attempt counts, and keeps all rows |
| AdminRetry.RetryIsSafeExactlyWhen | app/api/admin.py:82-104 | after a retry the next claimer is the only owner iff no worker is between two steps |
| AdminRetry.RowsAllowRetryExactlyWhen | app/api/admin.py:85-93 | rows admit an unsafe retry iff the job is running and none of its steps is; so never when it is closed |
| AdminRetry.RetryCanShareAnAttempt | app/api/admin.py:82-104 | a run from an empty table, one accepted retry and a run after it put two workers inside one attempt of one step, both passing the fence |
| AdminRetry.RowsCannotTell | app/api/admin.py:85-93 | two runs from an empty table end in the same retryable rows, running without a running step, and only one of them allows a safe retry |
| AdminRetry.ClosedIsSafe | app/api/admin.py:82-104 | in every reachable state a closed job has no worker between two steps |
| AdminRetry.TranscriptWaitsAgainExactlyWhen | app/api/admin.py:88-99 | a retry makes a collected transcript wait again iff comment collection had failed retryably |
| AdminRetry.SecondTranscriptIsAdded | app/jobs/production_pipeline.py:40-47 | collecting it again in any later attempt adds its segments to the old ones, so new ones increase their number |
| AdminRetry.TranscriptCanBeCollectedTwice | app/api/admin.py:94-103 | a run from an empty table: a closed job with a transcript, an accepted safe retry, and the same job with the segments of two transcripts |
| Verdicts.ReleaseGivesBack | app/jobs/orchestrator.py:74-79 | a shutdown inside a step leaves step and job pending, the attempt count and everything else unchanged, no owner, and the job claimable |
| Verdicts.CrashIsRecoverableExactlyWhen | app/db/repositories.py:74-85 | after a crash some poll can recover the job iff the worker was inside a step, and then exactly the polls whose limit lies behind the row's last sign of life; otherwise the job is orphaned |
| Verdicts.CrashedJobIsClaimedAgain | app/jobs/worker.py:31-39 | such a poll hands the job, its step waiting again, to the polling worker as its only owner |
| Verdicts.OrphanStaysForever | app/db/repositories.py:73-89 | no run without an admin retry of an orphaned job ever changes it |
| Verdicts.RecoveryRewindsStaleStep | app/db/repositories.py:90-98 | recovery rewinds exactly the stale running step, keeps its attempt count, the shape and all rows |
| Store.RunSnoc | app/jobs/worker.py:54-58 | one more admissible event extends a run by exactly its effect |
| Store.OthersCoversEveryRun | app/jobs/worker.py:30-44 | every run of the other workers ends in a state that JobTable.Others allows |
| Store.JobTable.Create | app/jobs/service.py:19-28 | a submitted job starts with validation done and nine pending steps |
| Store.JobTable.RecoverStaleRunning | app/db/repositories.py:90-98 | the scan rewinds the first running step of the selected job and nothing else |
| Store.JobTable.PollOnce | app/jobs/worker.py:31-39 | recovery and claim are one transaction and exactly one protocol event |
| Store.JobTable.ListSteps | app/db/repositories.py:57-61 | the cache is the stored list in pipeline order |
| Store.JobTable.BeginStep | app/jobs/orchestrator.py:62-68 | the flush writes the skips marked in memory and the new attempt, exactly the Start event |
| Store.JobTable.FinishStepIfCurrent | app/jobs/orchestrator.py:101-120 | true iff the fence holds; exactly the Finish event, whose columns and collected rows Transactions.FinishWrites lists |
| Store.JobTable.ReleaseStepRow | app/jobs/orchestrator.py:122-145 | a fenced release of step and job, exactly the Release event |
| Store.JobTable.VerdictFlags | app/jobs/orchestrator.py:158-161 | the two scans find exactly a failed required step other than finalize, and a failed or skipped optional step |
| Store.JobTable.FinalizeJob | app/jobs/orchestrator.py:155-176 | closes the job from the cached list, exactly the Close event, and leaves it terminal |
| Store.JobTable.RetryJob | app/api/admin.py:82-104 | on any job: refuses iff no failure is retryable, otherwise the rows are rewound as Retry says; with no worker between two steps this is exactly the AdminRetry event |
| Store.JobTable.BindRun | app/jobs/production_pipeline.py:55-78 | skips, fails or binds to the newest run exactly as the stored rows say |
| Store.JobTable.LoadItems | app/analysis/result_store.py:31-83 | lists each item without a result row once, and the number of all items |
| Store.JobTable.PersistRows | app/analysis/result_store.py:85-109 | fence, insert-if-absent, and counters only for an inserted row, as the Persist transaction |
| Store.JobTable.PersistItem | app/analysis/result_store.py:85-109 | one item result is exactly one Record event; a current attempt leaves a row with this outcome, a superseded one is told so |
| Store.JobTable.BeatOnce | app/analysis/result_store.py:143-174 | a heartbeat or progress log touches only the heartbeat, and only under the fence |
| Store.JobTable.CountRows | app/analysis/result_store.py:114-122 | the unlocked count by status |
| Store.JobTable.StoreCounts | app/analysis/result_store.py:123-140 | the fenced update of total and counters |
| Store.JobTable.ReconcileStep | app/analysis/result_store.py:111-141 | count, then update, with any number of foreign transactions in between |
| Store.LongerRunIsLater | app/analysis/result_store.py:97-100 | nothing a run does later undoes rows, attempt numbers or a lost fence |
| Coordination.SubmitConserves | app/analysis/executor.py:200-211 | submitting moves one item from the queue into the window; input = recorded + in flight + waiting stays a disjoint union |
| Coordination.RecordConserves | app/analysis/executor.py:179-181 | recording moves one item out of the window and keeps the same union |
| Coordination.ConservedMeans | app/analysis/executor.py:147-188 | nothing is recorded twice, nothing in flight is recorded, and the three parts add up to the input size |
| Coordination.HandledSound | app/analysis/executor.py:179-185 | one completion records one item more, keeps the union and the limit, keeps the window full until the flag is seen, and submits nothing afterwards |
| Coordination.TurnedSound | app/analysis/executor.py:147-185 | one pass of the loop keeps all that, through looks at the flag and timeouts, and records exactly the completions it was told of |
| Coordination.DeadlineEndsTheRun | app/analysis/executor.py:148-152 | a pass that starts with the flag up and the deadline expired ends the run with a shutdown; nothing is recorded, submitted or dropped |
| Coordination.PassShutsDownExactlyWhen | app/analysis/executor.py:148-152 | without an interrupted future a pass ends with a shutdown iff the flag is up at its first look and the deadline has expired |
| Coordination.GraceStartsExactlyWhen | app/analysis/executor.py:148-176 | the deadline is set in the first pass that finds the flag up before its wait or behind a wait that reported something |
| Coordination.ReportedIsHandled | app/analysis/executor.py:177-185 | a completion that a pass was told of is recorded in it, unless the pass ends the run |
| Coordination.ParallelSound | app/analysis/executor.py:135-194 | every parallel run: union and limit kept; after the first sight of the flag nothing is submitted and only items then in flight are recorded |
| Coordination.ParallelCompletesExactlyWhen | app/analysis/executor.py:186-188 | a parallel run completes iff everything was recorded and the flag was not seen |
| Coordination.ExpiredRunShutsDown | app/analysis/executor.py:148-152 | a parallel run that reaches a pass with the deadline expired ends there with a shutdown, what was in flight stays open |
| Coordination.ParallelShutsDownExactlyWhen | app/analysis/executor.py:135-188 | without interrupted futures a parallel run ends with a shutdown iff the flag was up before the first item, or a pass was reached with the deadline expired, or the window drained with the flag seen |
| Coordination.CutMeansTooFewCompletions | app/analysis/executor.py:147-185 | a run is cut off only if fewer wake-ups than items reported a completion and the window is not empty |
| Coordination.SequentialCompletesExactlyWhen | app/analysis/executor.py:127-133 | a sequential run completes iff each look before an item finds the flag clear and each item is classified |
| Coordination.SequentialMissesLateStop | app/analysis/executor.py:127-133 | a flag raised during the last item is missed: the run completes with the flag up |
| Coordination.ReferenceMeans | app/analysis/executor.py:91-194 | either mode: no item recorded twice or from outside, exactly the input on completion, and a cause for every shutdown and error |
| Coordination.CompletedRunsAgree | app/analysis/executor.py:91-194 | a completed parallel run recorded the same multiset as a completed sequential one, whatever the completion order |
| Coordination.ParallelThreadsNeverWait | app/analysis/executor.py:53-58 | with as many classifiers as the item concurrency, no item thread of a parallel run ever waits, however the threads interleave with the coordinator |
| Executor.Recorder.Record | app/analysis/executor.py:106-119 | stores exactly this outcome, counts it once, logs at least every tenth item |
| Executor.RagRuntime.SubmitOne | app/analysis/executor.py:200-211 | takes the next item of the input, if there is one |
| Executor.RagRuntime.Settle | app/analysis/executor.py:179-181 | one completed future: its row holds what classification returned, or the run ends with its exception and the item stays open |
| Executor.RagRuntime.Drain | app/analysis/executor.py:179-185 | handles the completions of one wake-up in their order, exactly as the reference, up to a lost row |
| Executor.RagRuntime.Turn | app/analysis/executor.py:147-185 | one pass of the loop as the reference, with the shutdown at the grace deadline; a pass that goes on has stored a result or a heartbeat |
| Executor.RagRuntime.RunSequential | app/analysis/executor.py:127-133 | the sequential reference, or a prefix of it if the attempt lost its row |
| Executor.RagRuntime.RunParallel | app/analysis/executor.py:135-194 | the parallel reference, or a part of it if the attempt lost its row |
| Executor.RagRuntime.Run | app/analysis/executor.py:91-194 | does exactly what the reference says unless the attempt can no longer pass the fence; every recorded item has its row with what classification returned; what is not recorded stays open; a parallel run that completes saw no flag, and a completed run passed its fence |
| ClassifierPool.WorkConserves | app/analysis/executor.py:44-58 | in every reachable state available plus borrowed is the original set and only futures in the window hold a classifier |
| ClassifierPool.NoClassifierIsShared | app/analysis/executor.py:53-58 | in no reachable state do two items hold one classifier |
| ClassifierPool.NoThreadWaits | app/worker_main.py:173-199 | if the coordinator keeps its window within the number of classifiers, an item that wants one finds one in every interleaving |
| ClassifierPool.WaitsExactlyWhenTooFew | app/worker_main.py:174-192 | a window of n futures makes no thread wait in any run iff there are at least n classifiers |
| ClassifierPool.Pool.Acquire | app/analysis/executor.py:53-56 | waits iff no classifier is free; otherwise takes the first one, which is in nobody else's use |
| ClassifierPool.Pool.GiveBack | app/analysis/executor.py:57-58 | the classifier returns to the end of the queue, also after an exception |
| Orchestration.LoopPasses | app/jobs/orchestrator.py:46-52 | passing a finished step or skipping one without a handler keeps cache, pending writes and stored rows related |
| Orchestration.JobWorker.Analyze | app/jobs/production_pipeline.py:55-78 | one clause per end of the coordinator on the items loaded: shutdown raises the shutdown, an error raises, completion returns success, death dies, or the row was lost; without a coordinator it skips, or raises for a missing run |
| Orchestration.JobWorker.AnalyzeRun | app/analysis/services.py:13-41 | load, reconcile, run, reconcile: a normal return leaves the attempt analyzed with every item stored |
| Orchestration.JobWorker.RunStep | app/jobs/orchestrator.py:62-99 | one clause per end of the coordinator: shutdown ends in the release, an error in a failed finish, completion in a succeeded finish, death in none, or the row was lost; a failed analysis step met an item that raised, or no run |
| Orchestration.JobWorker.RunJob | app/jobs/orchestrator.py:38-60 | ends with the job closed, or with a step that this run started and lost, by the matching transaction and for a reason met in this run; the worker is free afterwards |
| Orchestration.JobWorker.RunOnce | app/jobs/worker.py:30-44 | one poll; nothing else if no job was claimed, otherwise the claimed job ends as RunJob says |
| Packing.GreedySplits | app/collectors/transcript.py:108-121 | greedy packing is an ordered partition into non-empty groups that fit |
| Packing.GreedyStaysAhead | app/collectors/transcript.py:108-121 | from any later start greedy needs no more groups than any other split |
| Packing.GreedyIsMinimal | app/collectors/transcript.py:108-121 | no split into fitting groups has fewer groups |
| Packing.GroupsAreFull | app/collectors/transcript.py:108-121 | no group but the last could take one item more |
| Packing.GroupsFlatten | app/collectors/transcript.py:108-121 | the groups of any split concatenate to the input |
| Packing.JoinGroups | app/collectors/transcript.py:124-125 | joining the joined groups is joining everything |
| Transcript.Segments | app/collectors/transcript.py:108-125 | the segmenter yields one segment per group of the greedy packing, with start, end and text of that group |
| Transcript.SegmentsPartition | app/collectors/transcript.py:108-121 | the groups partition the captions in order; no sentence end strictly inside; groups of several items obey both bounds |
| Transcript.CutsAreForced | app/collectors/transcript.py:111-119 | between two segments a sentence ended, or one caption more would exceed the characters or the seconds |
| Transcript.SegmentsSay | app/collectors/transcript.py:124-125 | each segment runs from the start of its first caption to the end of its last, and the texts of all segments join to all caption texts |
| Transcript.SegmentsAreFewest | app/collectors/transcript.py:108-121 | with nondecreasing starts and ends no such partition has fewer segments |
| Transcript.OverlapDefeatsGreedy | app/collectors/transcript.py:112-113 | with overlapping captions greedy may need two segments where one would do |
| Transcript.SegmentTextIsAllText | app/collectors/transcript.py:124-125 | the segment texts join to all caption texts |
| Transcript.RawTextIsSegmentText | app/collectors/transcript.py:77-77 | the stored text equals the joined segment texts iff no caption is blank or there is only one |
| Transcript.BoundedSections | app/analysis/definition_ingest.py:93-103 | yields the joined groups of the greedy packing of the paragraphs |
| Transcript.SectionsPartition | app/analysis/definition_ingest.py:93-103 | sections partition the paragraphs in order and obey the limit unless they are a single paragraph |
| Transcript.SectionCutsAreForced | app/analysis/definition_ingest.py:97-100 | a section ends only where the next paragraph and two line breaks more would exceed the limit |
| Transcript.SectionsAreFewest | app/analysis/definition_ingest.py:93-103 | no partition within the limit has fewer sections |
| Totals.TotalUnordered | app/reporting/network.py:27-40 | a sum over rows depends only on which rows there are |
| Totals.ClassesSum | app/reporting/network.py:27-40 | summing class by class is summing everything |
| Network.AddRow | app/reporting/network.py:27-40 | what one row adds to every node and to the edges |
| Network.Build | app/reporting/network.py:13-79 | nodes are exactly the authors of the rows and one per row without an author; with unique ids the edges are exactly the replies, column by column; each node has its row-by-row counts, edges follow row order |
| Network.AuthorCounts | app/reporting/network.py:27-40 | an author's node counts that author's comments, hateful comments and replies, whenever no author looks like an anonymous key |
| Network.AuthorIsAnswered | app/reporting/network.py:34-39 | its in-degree counts the replies to that author's comments |
| Network.AnonymousCounts | app/reporting/network.py:82-83 | a comment without an author is a node of its own with one comment |
| Network.NetworkEdgesAreReplies | app/reporting/network.py:34-40 | the edges are the replies to comments of the run, as many of them, and each joins the two authors |
| Network.NetworkUnordered | app/reporting/network.py:14-40 | nodes, figures and the multiset of edges do not depend on the order of the rows |
| Network.NodeSums | app/reporting/network.py:27-40 | comment counts add up to the rows, hate counts to the hateful rows, in-degrees and out-degrees each to the edges |
| Network.NodeBounds | app/reporting/network.py:27-40 | every node has a comment; out-degree and hate count never exceed the comment count |
| Network.HatefulEdgesBound | app/reporting/network.py:38-40 | hateful edges leaving a node never outnumber its hateful comments |
| Network.EdgesJoinNodes | app/reporting/network.py:34-40 | both ends of every edge are nodes |
| Metrics.PairKeyInjective | frontend/src/CommentNetworkGraph.tsx:273-273 | a joined pair key determines its pair when sources hold no NUL |
| Metrics.FiguresAgree | app/reporting/renderers.py:116-137 | set comprehensions and sums of the report give the same counts, isolated nodes and average degree as the filters and reduces of the page, on any nodes and edges |
| Metrics.PageAgreesWithReport | frontend/src/CommentNetworkGraph.tsx:271-298 | with sources free of NUL the density agrees too, although the page joins pairs into strings |
| Metrics.DensityMeans | app/reporting/renderers.py:135-135 | density times n(n-1) is a hundred times the number of joined pairs of different nodes, and zero for fewer than two nodes |
| Metrics.HateFigures | app/reporting/renderers.py:132-133 | both hate figures count what is hateful |
| Metrics.PairsCount | frontend/src/CommentNetworkGraph.tsx:283-283 | n keys have n(n-1) ordered pairs |
| Metrics.StoredNetworkFigures | frontend/src/CommentNetworkGraph.tsx:271-289 | on every stored network connected and isolated nodes add up, the average degree is 2E/n, distinct edges are at most n(n-1) and density lies in 0 to 100 |
| Metrics.GroupEdges | frontend/src/CommentNetworkGraph.tsx:228-238 | each group shows two ends of its edges and holds the summed frequency and hate count of its key; edges with an unknown end are left out |
| Metrics.GroupsShowTheirPair | frontend/src/CommentNetworkGraph.tsx:233-234 | the group under the key of a pair shows exactly that pair |
| Metrics.GroupsCount | frontend/src/CommentNetworkGraph.tsx:230-239 | a pair of nodes has a group iff some edge joins them; it holds the sum of the weights, one at least each, and the number of hateful ones of exactly their edges |
| Metrics.GroupingConserves | frontend/src/CommentNetworkGraph.tsx:231-239 | over all groups frequency and hate count add up to those of the shown edges |
| Metrics.StoredNetworkShowsAllEdges | frontend/src/CommentNetworkGraph.tsx:231-239 | on a stored network with unit weights no edge is left out |
| Retry.Run | app/analysis/retry.py:28-54 | the trailing error is reached iff no attempt is allowed; otherwise at most max_attempts calls, one notification per sleep with its delay, and the end the next attempt decides |
| Retry.EndIsDetermined | app/analysis/retry.py:38-54 | the attempts determine how the run ends |
| Retry.EndExactlyWhen | app/analysis/retry.py:38-54 | cancelled, answered or raised at attempt n+1 iff the first n failed repeatably without a flag and that one finds a flag, answers, or fails for good |
| Retry.DelayIs | app/analysis/retry.py:45-50 | the delay written out: Retry-After as it comes, otherwise the capped exponential with its jitter, capped again |
| Retry.DelayBounds | app/analysis/retry.py:47-50 | without Retry-After a delay lies between the capped exponential, written out, and both the jittered exponential and the cap |
| Retry.OnlyRetryAfterExceedsCap | app/analysis/retry.py:47-50 | a delay exceeds the cap iff Retry-After asks for more than the cap |
| Retry.TotalSleepUnderCap | app/analysis/retry.py:38-53 | total sleep is at most the number of sleeps times the cap |
| Retry.TotalSleepUnderGeometric | app/analysis/retry.py:38-53 | total sleep is at most the geometric sum with full jitter |
| Classification.HateProblems | app/analysis/prompt_validator.py:52-64 | no hate rule is violated iff the categories are non-empty, not unclassified, other is alone, and no_target goes only with profanity and no target group |
| Classification.Validate | app/analysis/prompt_validator.py:23-79 | no error is recorded iff the answer meets every rule |
| Classification.AcceptsExactlyWhen | app/analysis/prompt_validator.py:23-79 | an answer is accepted iff it has the eight fields, a boolean flag, three lists, a Korean syllable, and allowed categories that are only unclassified, only other, or real ones with no_target used properly |
| Classification.AskTwice | app/analysis/rag_classifier.py:125-170 | at most two answers and 2*max_attempts calls; only a valid answer is returned; the end is the one Classification.EndsExactlyWhen describes |
| Classification.ClassifyText | app/analysis/rag_classifier.py:75-170 | retrieval first, then the two answers; at most 2*max_attempts calls for answers; only a valid answer is returned; the end is the one Classification.EndsExactlyWhen describes |
| Classification.ClassificationIsDetermined | app/analysis/rag_classifier.py:75-170 | stop flags, requests, stores and answers determine the end |
| Classification.EndsExactlyWhen | app/analysis/rag_classifier.py:75-170 | each of the seven ends iff: a flag up or a request cancelled; a key rejected; embedding or all stores failed; a request failed; an answer that breaks the parser or the validator; a valid answer; two answers that were not valid |
| Classification.StopsCleanlyExactlyWhen | app/analysis/executor.py:214-217 | the future raises the shutdown, so the item stays open, iff a flag was up before retrieval or a reached pass, or the embedding or such a pass's request was cancelled |
| Classification.FutureExactlyWhen | app/analysis/executor.py:214-242 | shutdown, error or stored outcome for each end; a valid answer is stored with its own flag and categories |
| Classification.Retrieve | app/analysis/rag_classifier.py:76-112 | ends on a raised flag, a cancelled or rejected embedding, any other embedding error, or the failure of all three stores, and otherwise goes on |
| Classification.FailsTheStepExactlyWhen | app/analysis/executor.py:214-222 | the future raises an error that fails the step iff a key was rejected by the embedding or a reached pass, or a reached pass was answered by neither an object nor no JSON |
| Classification.RejectedEmbeddingFailsTheStep | app/analysis/retriever.py:56-56 | an embedding request rejected over the key ends the classification with that error |
| Classification.OtherJsonFailsTheStep | app/analysis/rag_classifier.py:184-191 | a first reply that is JSON but no object ends the classification with an uncaught error |
| Classification.OutcomesAreLabelled | app/analysis/executor.py:214-242 | exactly a valid answer and the errors of retrieval, request and output are stored; a hateful result has a real category, any other only unclassified, a failure nothing |
| Report.SummaryAddsUp | app/reporting/builder.py:106-116 | total = succeeded + failed + missing; hateful items never outnumber category mentions; the distribution is empty iff nothing is hateful |
| Report.SummaryCounts | app/reporting/builder.py:106-116 | every figure counts the results it speaks of, and the distribution lists each named category but unclassified with the number of times it is named |
| Sampling.RoundingError | app/analysis/example_loaders.py:62-62 | rounding half to even errs by at most one half |
| Sampling.TiesGoToEven | app/analysis/example_loaders.py:62-62 | halfway between two integers the even one is taken |
| Sampling.Grouped | app/analysis/example_loaders.py:55-58 | the groups and their first-seen order |
| Sampling.CategoriesInOrder | app/analysis/example_loaders.py:55-61 | of two categories the one listed first occurs before the first document of the other |
| Sampling.RankedIsStable | app/analysis/example_loaders.py:63-63 | documents of one rank keep their order |
| Sampling.StratifiedSample | app/analysis/example_loaders.py:46-65 | returns the input if it is small enough, otherwise each category's choice in order |
| Sampling.ClampIsIdle | app/analysis/example_loaders.py:62-62 | for a proper sample the clamp to the group size never takes effect |
| Sampling.ShareIsTakenExactlyWhen | app/analysis/example_loaders.py:62-64 | a category gives exactly its rounded share iff that share does not round below zero, so always for sizes from zero on |
| Sampling.SampleSize | app/analysis/example_loaders.py:60-65 | a proper sample misses the requested size by at most half the number of categories |
| Sampling.LowestRanked | app/analysis/example_loaders.py:63-64 | what a category gives is sorted by rank and has ranks no higher than what it keeps |
| Sampling.SampleIsSelection | app/analysis/example_loaders.py:60-65 | nothing is selected more often than it occurs |
| Sampling.NegativeSizeSelects | app/analysis/example_loaders.py:62-64 | asking for minus one of two documents of a category selects the one with the lower rank |
| Collection.IterReplies | app/external/youtube.py:77-89 | all pages in order without the embedded replies |
| Collection.IterThread | app/external/youtube.py:61-72 | the comment, its embedded replies, and the missing ones if the count asks for them |
| Collection.IterComments | app/external/youtube.py:49-75 | all threads of all pages in order |
| Collection.ThreadVisitedOnce | app/external/youtube.py:61-89 | in a thread that lists each reply once nothing is visited twice, its own comment comes first, and the visit is complete iff the reply count exceeds the embedded replies or all replies are embedded |
| Collection.TrueCountIsEnough | app/external/youtube.py:71-72 | a reply count that is not too small makes the visit complete |
| Collection.ListingVisitsOnce | app/external/youtube.py:49-89 | the whole listing is visited without repetition, parents before replies |
| Collection.ListingIsCompleteExactlyWhen | app/external/youtube.py:49-89 | everything listed is visited iff the reply count of every thread is enough |
| Collection.CollectAll | app/collectors/comments.py:16-45 | the loop with its two dictionaries upserts the records in order |
| Collection.CollectingKeepsIdentities | app/collectors/comments.py:16-45 | one row per comment id, no row dropped, no stored row's identity changed, fresh keys distinct |
| Collection.StoredAsListed | app/collectors/comments.py:31-43 | every comment of a listing is stored with its content, parent id, reply flag and depth as listed |
| Collection.RepliesAreLinked | app/collectors/comments.py:31-34 | every stored reply points at the row of its parent |
| Collection.LinksAreReal | app/collectors/comments.py:31-34 | no row ever points at anything but the row of its parent, whatever the order of the comments |
| Collection.ResumedCollectionIsOneCollection | app/collectors/comments.py:16-45 | a collection cut short anywhere and run again leaves exactly the rows of one full run |
| Collection.CollectionIsComplete | app/collectors/comments.py:12-45 | over such a server: one row per visited comment, keys distinct, every reply linked; with true reply counts everything listed is visited |

## Left out

- HTTP routes, authentication, key storage, real database, migrations, HTML and XLSX rendering, React pages, observability: plumbing
  around libraries.
- Model and embedding calls, prompts, JSON extraction, retrieved documents and the context status: any answer may come back, and any
  store may fail.
- Operation logs, `finished_at`, step metrics and error messages: written beside the columns modelled, read by no transition.
- Runtime metrics and progress payloads of the coordinator: counters for logs.
- Liveness: nothing is proved about workers that never run again; a coordinator that outlives the observed wake-ups is cut off like a crash (`Coordination.CutMeansTooFewCompletions`).
- Job deletion and several transcripts' snapshot rows; segments are modelled as the set the load query sees.
- Executor.RagRuntime.Run: an item's text and source type are not modelled; classification is a fixed function of the item within one run.
- Transcript.SegmentsAreFewest: one direction only; forward times are sufficient, not necessary, for a minimal result, and a caller can check them before the call.
- Transcript.BoundedSections: the split at blank lines and the hashing of sections are not modelled; one section at a time.
- Retry.Run: the date form of Retry-After and the parsing of its text are not modelled; a delay is any real.
- Network.Build: labels, channel ids and the self-edge count of the summary are not modelled.
- Metrics.PageAgreesWithReport: the page's node filter, sizes and classes and the report's list of top authors are not modelled.
- Sampling.StratifiedSample: exact fractions instead of floats; the digest behind a rank is any number.
- Classification.Validate: the wording of errors and the one warning are not modelled.
- Report.SummaryAddsUp: representative comments and the stored report payload are not modelled.
- Collection.CollectAll: copied comment fields are one opaque value; network errors end the list of records early.
