/**
 Each event of the protocol keeps the invariant.
 */
module Preservation {
  import opened JobModel
  import opened Protocol
  import opened Safety

  // ----- result rows ----------------------------------------------------------------------------------

  lemma CountsSplit(rows: map<ItemId, Outcome>)
    ensures CountOk(rows, true) + CountOk(rows, false) == |rows|
  {
    var t, f := set x | x in rows && rows[x].ok == true, set x | x in rows && rows[x].ok == false;
    assert t + f == rows.Keys && t !! f;
  }

  lemma CountsAfterInsert(rows: map<ItemId, Outcome>, item: ItemId, o: Outcome, ok: bool)
    requires item !in rows
    ensures CountOk(rows[item := o], ok) == CountOk(rows, ok) + (if o.ok == ok then 1 else 0)
  {
    var before := set x | x in rows && rows[x].ok == ok;
    var rows' := rows[item := o];
    var after := set x | x in rows' && rows'[x].ok == ok;
    if o.ok == ok {
      assert after == before + {item};
    } else {
      assert after == before;
    }
  }

  lemma NewJobOk(now: Time)
    ensures JobOk(NewJob(now))
  {
  }

  /** While a step runs, no required step of an open job has failed. */
  lemma RunningMeansNoFailure(job: Job, r: int)
    requires JobOk(job) && !Terminal(job.status)
    requires 0 <= r < |job.steps| && job.steps[r].status.Running?
    ensures r < FINALIZE_JOB && NoFailedRequired(job.steps)
    ensures forall a :: r < a < |job.steps| ==> job.steps[a].status.Pending?
    ensures forall a :: 0 <= a < r ==> Finished(job.steps[a].status)
  {
    forall a ensures !FailedRequired(job.steps, a) {
      if FailedRequired(job.steps, a) && a < r {
        assert false;
      }
    }
  }

  /** Steps that only differ in non-failed positions have the same failed required steps. */
  lemma FailuresFrom(old_: seq<Step>, new_: seq<Step>)
    requires |new_| == |old_|
    requires forall a :: 0 <= a < |new_| && new_[a].status.Failed? ==> old_[a].status.Failed?
    ensures forall a :: FailedRequired(new_, a) ==> FailedRequired(old_, a)
  {
  }

  lemma RecoverOk(job: Job)
    requires JobOk(job) && job.status.JobRunning? && !NoRunning(job.steps)
    ensures JobOk(Recover(job)) && Evolves(job, Recover(job)) && NoRunning(Recover(job).steps)
    ensures Recover(job).status.JobPending?
  {
    var r := FirstRunning(job.steps, 0);
    RunningMeansNoFailure(job, r);
    FailuresFrom(job.steps, Recover(job).steps);
  }

  lemma ReleaseOk(job: Job, i: nat, attempt: nat)
    requires JobOk(job) && job.status.JobRunning? && Fenced(job, i, attempt)
    ensures JobOk(ReleaseStep(job, i, attempt)) && Evolves(job, ReleaseStep(job, i, attempt))
  {
    RunningMeansNoFailure(job, i);
    FailuresFrom(job.steps, ReleaseStep(job, i, attempt).steps);
  }

  lemma ClaimOk(job: Job)
    requires JobOk(job) && !Terminal(job.status)
    ensures JobOk(job.(status := JobRunning)) && Evolves(job, job.(status := JobRunning))
  {
  }

  /** A write that touches only heartbeat, progress or the error column of step i. */
  lemma TouchOk(job: Job, job': Job, i: nat)
    requires JobOk(job) && i < |job.steps| && job.steps[i].status.Running? && !Terminal(job.status)
    requires job'.status == job.status && |job'.steps| == |job.steps|
    requires forall x :: 0 <= x < |job.steps| && x != i ==> job'.steps[x] == job.steps[x]
    requires job'.steps[i].status.Running? && job'.steps[i].attempts == job.steps[i].attempts
    requires job'.steps[i].startedAt == job.steps[i].startedAt
    requires job'.comments == job.comments && job'.segments == job.segments && job'.runs == job.runs
    requires ResultsOk(job') && ResultsKept(job, job')
    requires forall k: Kind :: AnalyzeStep(k) != i ==> Rows(job', job.runs, k) == Rows(job, job.runs, k)
    ensures JobOk(job') && Evolves(job, job')
    ensures CacheOf(job'.steps) == CacheOf(job.steps)
  {
    FailuresFrom(job.steps, job'.steps);
    forall k: Kind | job'.steps[AnalyzeStep(k)].status.Succeeded?
      ensures AnalysisComplete(job', k)
    {
      assert AnalysisComplete(job, k);
    }
  }

  lemma HeartbeatOk(job: Job, i: nat, attempt: nat, now: Time)
    requires JobOk(job) && !Terminal(job.status) && Fenced(job, i, attempt)
    ensures var job' := Heartbeat(job, i, attempt, now);
            && JobOk(job') && Evolves(job, job') && CacheOf(job'.steps) == CacheOf(job.steps)
            && NoFailedRequired(job'.steps)
  {
    RunningMeansNoFailure(job, i);
    var job' := Heartbeat(job, i, attempt, now);
    TouchOk(job, job', i);
    FailuresFrom(job.steps, job'.steps);
  }

  lemma ReconcileOk(job: Job, p: Worker, now: Time)
    requires JobOk(job) && p.InStep? && WorkerOk(job, p) && Fenced(job, p.index, p.attempt) && p.phase.Counted?
    ensures var job' := Reconcile(job, p.index, p.attempt, p.phase.total, p.phase.succeeded, p.phase.failed, now);
            JobOk(job') && Evolves(job, job') && WorkerOk(job', p.(phase := AdjustPhase(p.phase)))
  {
    hide CountOk, Shape, FailStop, VerdictOk, StepsEvolve, Dated;
    var k := KindOf(p.index);
    var rows := Rows(job, p.phase.run, k);
    var job' := Reconcile(job, p.index, p.attempt, p.phase.total, p.phase.succeeded, p.phase.failed, now);
    RunningMeansNoFailure(job, p.index);
    TouchOk(job, job', p.index);
    FailuresFrom(job.steps, job'.steps);
    CountsSplit(rows);
    RowsWithin(job, p.phase.run, k);
    if p.phase.closing {
      assert forall x :: x in Sources(job, k) && x !in rows.Keys ==> x in p.phase.remaining;
      assert rows.Keys == Sources(job, k);
    }
  }

  lemma RowsWithin(job: Job, run: nat, k: Kind)
    requires ResultsOk(job)
    ensures Rows(job, run, k).Keys <= Sources(job, k)
  {
    if RunKey(run, k) in job.results {
      assert job.results[RunKey(run, k)].Keys <= Sources(job, k);
    }
  }

  /** What inserting one row does to the rows of every run. */
  lemma InsertedRows(job: Job, job': Job, run: nat, k: Kind, item: ItemId, o: Outcome)
    requires ResultsOk(job) && run <= job.runs && item in Sources(job, k) && item !in Rows(job, run, k)
    requires job'.results == job.results[RunKey(run, k) := Rows(job, run, k)[item := o]]
    requires job'.comments == job.comments && job'.segments == job.segments && job'.runs == job.runs
    ensures ResultsOk(job') && ResultsKept(job, job')
    ensures Rows(job', run, k) == Rows(job, run, k)[item := o]
    ensures forall r: nat, kind: Kind :: RunKey(r, kind) != RunKey(run, k) ==> Rows(job', r, kind) == Rows(job, r, kind)
  {
    RowsWithin(job, run, k);
  }

  lemma RecordOk(job: Job, p: Worker, item: ItemId, o: Outcome, now: Time)
    requires JobOk(job) && p.InStep? && WorkerOk(job, p) && Fenced(job, p.index, p.attempt)
    requires p.phase.Persisting? && item in p.phase.remaining
    ensures var job' := Persist(job, p.index, p.attempt, p.phase.run, KindOf(p.index), item, o, now);
            JobOk(job') && Evolves(job, job')
            && WorkerOk(job', p.(phase := RecordPhase(p.phase, item)))
  {
    hide CountOk, Shape, FailStop, VerdictOk, AnalysisComplete, StepsEvolve, Dated;
    var i, run, k := p.index, p.phase.run, KindOf(p.index);
    var rows := Rows(job, run, k);
    var job' := Persist(job, i, p.attempt, run, k, item, o, now);
    assert item !in rows;
    InsertedRows(job, job', run, k, item, o);
    RunningMeansNoFailure(job, i);
    TouchOk(job, job', i);
    FailuresFrom(job.steps, job'.steps);
    RecordedCounters(rows, job.steps[i].progress, p.phase.total, item, o);
    assert p.phase.remaining - {item} == Sources(job', k) - Rows(job', run, k).Keys;
  }

  lemma RecordedCounters(rows: map<ItemId, Outcome>, c: Progress, total: nat, item: ItemId, o: Outcome)
    requires ProgressExact(c, rows, total) && item !in rows
    ensures ProgressExact(Advanced(c, o.ok), rows[item := o], total)
  {
    CountsAfterInsert(rows, item, o, true);
    CountsAfterInsert(rows, item, o, false);
    assert |rows[item := o]| == |rows| + 1;
  }

  // ----- starting, finishing and closing ----------------------------------------------------------------

  lemma StartOk(job: Job, p: Worker, k: nat, now: Time)
    requires JobOk(job) && p.Looping? && WorkerOk(job, p)
    requires p.cursor <= k < FINALIZE_JOB && p.cache[k].status.Pending?
    ensures var attempt := p.cache[k].attempts + 1;
            var job' := StartStep(job, p.cache, p.cursor, k, now);
            var cache := Swept(p.cache, p.cursor, k)[k := CachedStep(Running, attempt)];
            && JobOk(job') && Evolves(job, job')
            && attempt == job.steps[k].attempts + 1
            && WorkerOk(job', InStep(p.job, cache, k, attempt, Handling))
  {
    hide JobOk, Evolves;
    StartJobOk(job, p, k, now);
    StartWorkerOk(job, p, k, now);
  }

  lemma StartJobOk(job: Job, p: Worker, k: nat, now: Time)
    requires JobOk(job) && p.Looping? && WorkerOk(job, p)
    requires p.cursor <= k < FINALIZE_JOB && p.cache[k].status.Pending?
    ensures var job' := StartStep(job, p.cache, p.cursor, k, now);
            JobOk(job') && Evolves(job, job')
  {
    hide VerdictOk, ResultsOk;
    var job' := StartStep(job, p.cache, p.cursor, k, now);
    FailuresFrom(job.steps, job'.steps);
    assert forall x :: k < x < FINALIZE_JOB ==> job.steps[x].status.Pending?;
    KeepsResults(job, job');
    forall kind: Kind | job'.steps[AnalyzeStep(kind)].status.Succeeded?
      ensures AnalysisComplete(job', kind)
    {
      assert AnalysisComplete(job, kind);
      CompleteIsLater(job, kind, k);
    }
  }

  lemma KeepsResults(job: Job, job': Job)
    requires ResultsOk(job) && job'.results == job.results && job'.runs == job.runs
    requires job'.comments == job.comments && job'.segments == job.segments
    ensures ResultsOk(job')
  {
  }

  lemma StartWorkerOk(job: Job, p: Worker, k: nat, now: Time)
    requires JobOk(job) && p.Looping? && WorkerOk(job, p)
    requires p.cursor <= k < FINALIZE_JOB && p.cache[k].status.Pending?
    ensures var attempt := p.cache[k].attempts + 1;
            var job' := StartStep(job, p.cache, p.cursor, k, now);
            var cache := Swept(p.cache, p.cursor, k)[k := CachedStep(Running, attempt)];
            && attempt == job.steps[k].attempts + 1
            && WorkerOk(job', InStep(p.job, cache, k, attempt, Handling))
  {
    hide VerdictOk, ResultsOk, AnalysisComplete, FailStop;
    var attempt := p.cache[k].attempts + 1;
    var job' := StartStep(job, p.cache, p.cursor, k, now);
    var cache := Swept(p.cache, p.cursor, k)[k := CachedStep(Running, attempt)];
    assert cache == CacheOf(job'.steps);
    FailuresFrom(job.steps, job'.steps);
  }

  /** A succeeded analysis step lies in the finished prefix, and so does the collection it read. */
  lemma CompleteIsLater(job: Job, kind: Kind, k: nat)
    requires JobOk(job) && job.steps[AnalyzeStep(kind)].status.Succeeded?
    requires k < FINALIZE_JOB && !Finished(job.steps[k].status)
    ensures AnalyzeStep(kind) < k && CollectStep(kind) < k
  {
    if k < AnalyzeStep(kind) {
      assert false;
    }
  }

  /** The finished row alone, before the artifacts of the handler join the transaction. */
  ghost function Stamped(job: Job, i: nat, result: StepResult, now: Time): Job
    requires i < |job.steps|
  {
    job.(steps := job.steps[i :=
      job.steps[i].(status := result.status, error := result.error, heartbeatAt := Some(now))])
  }

  /** Steps behind the running one wait, so what the handler collected or opened invalidates no finished analysis. */
  lemma ArtifactsOk(job: Job, job': Job, i: nat, status: StepStatus, new_: Artifacts, k: Kind)
    requires JobOk(job) && i < FINALIZE_JOB && job.steps[i].status.Running?
    requires job'.comments == job.comments && job'.segments == job.segments
    requires job'.runs == job.runs && job'.results == job.results
    requires |job'.steps| == |job.steps| && forall x :: 0 <= x < |job.steps| && x != i ==> job'.steps[x] == job.steps[x]
    requires AnalyzeStep(k) != i && job.steps[AnalyzeStep(k)].status.Succeeded?
    ensures AnalysisComplete(WithArtifacts(job', i, status, new_), k)
  {
    CompleteIsLater(job, k, i);
    assert AnalysisComplete(job, k);
  }

  lemma FinishRows(job: Job, p: Worker, result: StepResult, now: Time)
    requires JobOk(job) && p.InStep? && WorkerOk(job, p) && Fenced(job, p.index, p.attempt) && Finished(result.status)
    ensures var steps := Stamped(job, p.index, result, now).steps;
            && Shape(steps) && StepsEvolve(job.steps, steps) && NoRunning(steps)
            && steps[FINALIZE_JOB].status.Pending?
            && CacheOf(steps) == p.cache[p.index := CachedStep(result.status, p.attempt)]
            && (forall a :: FailedRequired(steps, a) ==> a == p.index)
            && (forall x :: p.index < x < |steps| ==> steps[x].status.Pending?)
            && (forall x :: 0 <= x <= p.index ==> Finished(steps[x].status))
  {
    RunningMeansNoFailure(job, p.index);
    var steps := Stamped(job, p.index, result, now).steps;
    forall a | FailedRequired(steps, a) ensures a == p.index {
      assert a != p.index ==> FailedRequired(job.steps, a);
    }
  }

  lemma FinishOk(job: Job, p: Worker, result: StepResult, new_: Artifacts, now: Time)
    requires JobOk(job) && p.InStep? && WorkerOk(job, p) && Fenced(job, p.index, p.attempt)
    requires MayFinish(p.phase, p.index, result.status)
    ensures var job' := FinishStep(job, p.index, p.attempt, result, new_, now);
            JobOk(job') && Evolves(job, job') && WorkerOk(job', AfterStep(p, result))
  {
    hide JobOk, Evolves, WorkerOk;
    FinishJobOk(job, p, result, new_, now);
    FinishWorkerOk(job, p, result, new_, now);
  }

  /** The finished step's rows, with its artifacts. */
  lemma FinishSteps(job: Job, p: Worker, result: StepResult, new_: Artifacts, now: Time)
    requires p.InStep? && Fenced(job, p.index, p.attempt)
    ensures var job' := FinishStep(job, p.index, p.attempt, result, new_, now);
            var stamped := Stamped(job, p.index, result, now);
            && job' == WithArtifacts(stamped, p.index, result.status, new_)
            && job'.steps == stamped.steps && job'.results == job.results && job'.status == job.status
            && job.comments <= job'.comments && job.segments <= job'.segments && job.runs <= job'.runs
  {
  }

  lemma FinishJobOk(job: Job, p: Worker, result: StepResult, new_: Artifacts, now: Time)
    requires JobOk(job) && p.InStep? && WorkerOk(job, p) && Fenced(job, p.index, p.attempt)
    requires MayFinish(p.phase, p.index, result.status)
    ensures var job' := FinishStep(job, p.index, p.attempt, result, new_, now);
            JobOk(job') && Evolves(job, job')
  {
    hide FinishStep, WithArtifacts, AnalysisComplete, Shape, VerdictOk, CacheExact;
    var i := p.index;
    var stamped := Stamped(job, i, result, now);
    var job' := FinishStep(job, i, p.attempt, result, new_, now);
    FinishRows(job, p, result, now);
    FinishSteps(job, p, result, new_, now);
    forall k: Kind | job'.steps[AnalyzeStep(k)].status.Succeeded?
      ensures AnalysisComplete(job', k)
    {
      FinishKeepsAnalysis(job, p, result, new_, now, k);
    }
  }

  /** An analysis that stands succeeded after the finish is complete: it was before, or it is the one that finished. */
  lemma FinishKeepsAnalysis(job: Job, p: Worker, result: StepResult, new_: Artifacts, now: Time, k: Kind)
    requires JobOk(job) && p.InStep? && WorkerOk(job, p) && Fenced(job, p.index, p.attempt)
    requires MayFinish(p.phase, p.index, result.status)
    requires AnalyzeStep(k) < |Stamped(job, p.index, result, now).steps|
    requires Stamped(job, p.index, result, now).steps[AnalyzeStep(k)].status.Succeeded?
    ensures AnalysisComplete(FinishStep(job, p.index, p.attempt, result, new_, now), k)
  {
    hide Shape, FailStop, VerdictOk, ResultsOk;
    if AnalyzeStep(k) != p.index {
      ArtifactsOk(job, Stamped(job, p.index, result, now), p.index, result.status, new_, k);
    } else {
      assert AnalysisComplete(job, k);
    }
  }

  lemma FinishWorkerOk(job: Job, p: Worker, result: StepResult, new_: Artifacts, now: Time)
    requires JobOk(job) && p.InStep? && WorkerOk(job, p) && Fenced(job, p.index, p.attempt)
    requires MayFinish(p.phase, p.index, result.status)
    ensures WorkerOk(FinishStep(job, p.index, p.attempt, result, new_, now), AfterStep(p, result))
  {
    hide FinishStep, WithArtifacts, AnalysisComplete, Shape, FailStop, VerdictOk, ResultsOk;
    var i := p.index;
    var job' := FinishStep(job, i, p.attempt, result, new_, now);
    FinishRows(job, p, result, now);
    FinishSteps(job, p, result, new_, now);
    if !result.status.Succeeded? && Required(i) {
      assert FailedRequired(job'.steps, i) || SkippedRequired(job'.steps, i);
    }
  }

  lemma VerdictMeans(cache: seq<CachedStep>, steps: seq<Step>)
    requires |cache| == STEP_COUNT && cache == CacheOf(steps)
    ensures RequiredFailed(cache) <==> !NoFailedRequired(steps)
    ensures OptionalIncomplete(cache) <==> exists a :: IncompleteOptional(steps, a)
  {
    if RequiredFailed(cache) {
      var i :| 0 <= i < |cache| && i != FINALIZE_JOB && Required(i) && cache[i].status.Failed?;
      assert FailedRequired(steps, i);
    }
    if !NoFailedRequired(steps) {
      var a :| FailedRequired(steps, a);
      assert cache[a].status.Failed?;
    }
    if OptionalIncomplete(cache) {
      var i :| 0 <= i < |cache| && !Required(i) && (cache[i].status.Failed? || cache[i].status.Skipped?);
      assert IncompleteOptional(steps, i);
    }
    if exists a :: IncompleteOptional(steps, a) {
      var a :| IncompleteOptional(steps, a);
      assert cache[a].status == steps[a].status;
    }
  }

  /** The rows as they stand once the loop has skipped the steps without handlers, before the verdict is written. */
  ghost function SweptRows(job: Job, cache: seq<CachedStep>, from: nat, now: Time): Job {
    job.(steps := seq(|job.steps|, x requires 0 <= x < |job.steps| =>
      if from <= x < FINALIZE_JOB && x < |cache| && cache[x].status.Pending? then SkippedRow(job.steps[x], now)
      else job.steps[x]))
  }

  lemma SweepOk(job: Job, cache: seq<CachedStep>, from: nat, now: Time)
    requires JobOk(job) && job.status.JobRunning? && NoRunning(job.steps) && CacheExact(cache, job.steps)
    requires from == FINALIZE_JOB || NoFailedRequired(job.steps)
    requires forall x :: 0 <= x < from && from < FINALIZE_JOB ==> Finished(job.steps[x].status)
    ensures var mid := SweptRows(job, cache, from, now);
            && JobOk(mid) && Evolves(job, mid) && NoRunning(mid.steps)
            && Swept(cache, from, FINALIZE_JOB) == CacheOf(mid.steps)
  {
    var mid := SweptRows(job, cache, from, now);
    FailuresFrom(job.steps, mid.steps);
    forall a, b | 0 <= a < b < FINALIZE_JOB && !Finished(mid.steps[a].status)
      ensures mid.steps[b].status.Pending?
    {
      assert !Finished(job.steps[a].status);
    }
    forall k: Kind | mid.steps[AnalyzeStep(k)].status.Succeeded?
      ensures AnalysisComplete(mid, k)
    {
      assert AnalysisComplete(job, k);
    }
  }

  /** The verdict on a job all of whose skips are already stored. */
  ghost function Concluded(job: Job, now: Time): Job
    requires |job.steps| == STEP_COUNT
  {
    Finalize(job, CacheOf(job.steps), FINALIZE_JOB, now)
  }

  lemma CloseSteps(job: Job, cache: seq<CachedStep>, from: nat, now: Time)
    requires JobOk(job) && job.status.JobRunning? && NoRunning(job.steps) && CacheExact(cache, job.steps)
    requires Swept(cache, from, FINALIZE_JOB) == CacheOf(SweptRows(job, cache, from, now).steps)
    ensures Finalize(job, cache, from, now) == Concluded(SweptRows(job, cache, from, now), now)
  {
    var mid := SweptRows(job, cache, from, now);
    assert Swept(CacheOf(mid.steps), FINALIZE_JOB, FINALIZE_JOB) == CacheOf(mid.steps);
    assert Finalize(job, cache, from, now).steps == Concluded(mid, now).steps;
  }

  /** The closed steps: the finalize row is done, and pending rows turn skipped exactly behind a failure. */
  lemma ConcludedSteps(job: Job, now: Time)
    requires JobOk(job) && job.status.JobRunning? && NoRunning(job.steps)
    ensures var job' := Concluded(job, now);
            && Shape(job'.steps) && NoRunning(job'.steps) && StepsEvolve(job.steps, job'.steps)
            && job'.steps[FINALIZE_JOB].status.Succeeded?
            && (forall a :: FailedRequired(job'.steps, a) <==> FailedRequired(job.steps, a))
            && (forall x :: 0 <= x < FINALIZE_JOB ==>
                  job'.steps[x] == if !NoFailedRequired(job.steps) && job.steps[x].status.Pending?
                                   then SkippedRow(job.steps[x], now) else job.steps[x])
            && job'.status == (if !NoFailedRequired(job.steps) then JobFailed
                               else if exists a :: IncompleteOptional(job.steps, a) then JobPartialSuccess
                               else JobSucceeded)
  {
    var job' := Concluded(job, now);
    var c := CacheOf(job.steps);
    assert Swept(c, FINALIZE_JOB, FINALIZE_JOB) == c;
    VerdictMeans(c, job.steps);
    FailuresFrom(job.steps, job'.steps);
    FailuresFrom(job'.steps, job.steps);
  }

  ghost predicate Concludable(job: Job) {
    && JobOk(job) && job.status.JobRunning? && NoRunning(job.steps)
    && (|| (exists a :: FailedRequired(job.steps, a) || SkippedRequired(job.steps, a))
        || (forall x :: 0 <= x < FINALIZE_JOB ==> Finished(job.steps[x].status)))
  }

  lemma ConcludedFailStop(job: Job, now: Time)
    requires Concludable(job)
    ensures |job.steps| == STEP_COUNT && FailStop(Concluded(job, now))
  {
    hide Concluded, VerdictOk, AnalysisComplete, ResultsOk;
    ConcludedSteps(job, now);
  }

  lemma ConcludedVerdict(job: Job, now: Time)
    requires Concludable(job)
    ensures |job.steps| == STEP_COUNT && VerdictOk(Concluded(job, now))
  {
    hide Concluded, AnalysisComplete, ResultsOk;
    ConcludedSteps(job, now);
    var job' := Concluded(job, now);
    if NoFailedRequired(job.steps) {
      forall a ensures IncompleteOptional(job'.steps, a) <==> IncompleteOptional(job.steps, a) {
      }
      forall a | SkippedRequired(job.steps, a) ensures SkippedRequired(job'.steps, a) {
      }
    }
  }

  /** Closing writes nothing but status and steps. */
  lemma ConcludedKeeps(job: Job, now: Time)
    requires |job.steps| == STEP_COUNT
    ensures var job' := Concluded(job, now);
            && job'.results == job.results && job'.runs == job.runs
            && job'.comments == job.comments && job'.segments == job.segments
  {
  }

  lemma ConcludeOk(job: Job, now: Time)
    requires Concludable(job)
    ensures |job.steps| == STEP_COUNT
    ensures JobOk(Concluded(job, now)) && Evolves(job, Concluded(job, now)) && Terminal(Concluded(job, now).status)
  {
    hide Concluded, FailStop, VerdictOk;
    var job' := Concluded(job, now);
    ConcludedSteps(job, now);
    ConcludedKeeps(job, now);
    ConcludedFailStop(job, now);
    ConcludedVerdict(job, now);
    VerdictNotRunning(job');
    forall k: Kind | job'.steps[AnalyzeStep(k)].status.Succeeded?
      ensures AnalysisComplete(job', k)
    {
      assert AnalysisComplete(job, k);
    }
  }

  lemma VerdictNotRunning(job: Job)
    requires VerdictOk(job)
    ensures NoRunning(job.steps) && job.steps[FINALIZE_JOB].status.Succeeded?
  {
  }

  lemma CloseOk(job: Job, p: Worker, now: Time)
    requires JobOk(job) && WorkerOk(job, p)
    requires p.Finalizing? || p.Looping?
    ensures var job' := Finalize(job, p.cache, if p.Looping? then p.cursor else FINALIZE_JOB, now);
            JobOk(job') && Evolves(job, job') && Terminal(job'.status)
  {
    var from := if p.Looping? then p.cursor else FINALIZE_JOB;
    var mid := SweptRows(job, p.cache, from, now);
    SweepOk(job, p.cache, from, now);
    CloseSteps(job, p.cache, from, now);
    if p.Finalizing? {
      var a :| FailedRequired(job.steps, a) || SkippedRequired(job.steps, a);
      assert FailedRequired(mid.steps, a) || SkippedRequired(mid.steps, a);
    } else {
      assert forall x :: 0 <= x < FINALIZE_JOB ==> Finished(mid.steps[x].status);
    }
    ConcludeOk(mid, now);
    EvolvesTransitive(job, mid, Concluded(mid, now));
  }

  lemma RetryOk(job: Job)
    requires JobOk(job) && Retryable(job)
    ensures JobOk(Retry(job)) && Evolves(job, Retry(job)) && NoRunning(Retry(job).steps)
  {
    var f := FirstRetryable(job.steps, 0);
    var job' := Retry(job);
    assert f < FINALIZE_JOB;
    assert forall a :: 0 <= a < f ==> Finished(job.steps[a].status);
    forall a ensures !FailedRequired(job'.steps, a) {
      if FailedRequired(job'.steps, a) {
        assert a < f && FailedRequired(job.steps, a);
        assert false;
      }
    }
    forall k: Kind | job'.steps[AnalyzeStep(k)].status.Succeeded?
      ensures AnalysisComplete(job', k)
    {
      assert AnalysisComplete(job, k);
    }
  }
}
