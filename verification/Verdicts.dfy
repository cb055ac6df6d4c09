/**
 How jobs end, and what a shutdown or a crash leaves behind.
 */
module Verdicts {
  import opened JobModel
  import opened Protocol
  import opened Safety
  import opened Preservation
  import opened Runs
  import opened Scenarios

  ghost predicate AllSucceeded(job: Job) {
    forall a :: 0 <= a < |job.steps| ==> job.steps[a].status.Succeeded?
  }

  ghost predicate AllFinished(job: Job) {
    forall a :: 0 <= a < |job.steps| ==> Finished(job.steps[a].status)
  }

  /** Failed: a required step failed.  Then exactly one did, nothing behind it ran, and all that is marked skipped. */
  lemma FailedVerdict(s: System, es: seq<Event>, j: JobId)
    requires Init(s) && CanRun(s, es) && j in Exec(s, es).jobs && Terminal(Exec(s, es).jobs[j].status)
    ensures var job := Exec(s, es).jobs[j];
            && (job.status.JobFailed? <==> exists r :: FailedRequired(job.steps, r))
            && (forall r, x :: FailedRequired(job.steps, r) && FailedRequired(job.steps, x) ==> r == x)
            && |job.steps| == STEP_COUNT
            && (forall r, x :: FailedRequired(job.steps, r) && r < x < FINALIZE_JOB ==> job.steps[x].status.Skipped?)
            && (job.status.JobFailed? ==> AllFinished(job))
  {
    hide CanRun, Exec;
    RunKeepsInv(s, es);
    var job := Exec(s, es).jobs[j];
    forall r, x | FailedRequired(job.steps, r) && FailedRequired(job.steps, x) ensures r == x {
    }
  }

  /** Partial success: no required step failed, but an optional one failed or was skipped. */
  lemma PartialVerdict(s: System, es: seq<Event>, j: JobId)
    requires Init(s) && CanRun(s, es) && j in Exec(s, es).jobs && Terminal(Exec(s, es).jobs[j].status)
    ensures var job := Exec(s, es).jobs[j];
            job.status.JobPartialSuccess? <==>
              NoFailedRequired(job.steps) && exists a :: IncompleteOptional(job.steps, a)
  {
    hide CanRun, Exec;
    RunKeepsInv(s, es);
  }

  /**
   Succeeded means that all steps succeeded exactly when no required step was skipped: a required step that
   reports `skipped` stops the loop without counting as a failure.
   */
  lemma SucceededVerdict(s: System, es: seq<Event>, j: JobId)
    requires Init(s) && CanRun(s, es) && j in Exec(s, es).jobs && Terminal(Exec(s, es).jobs[j].status)
    ensures var job := Exec(s, es).jobs[j];
            && (AllSucceeded(job) <==> job.status.JobSucceeded? && forall a :: !SkippedRequired(job.steps, a))
            && ((forall a :: !SkippedRequired(job.steps, a)) ==> AllFinished(job))
  {
    hide CanRun, Exec;
    RunKeepsInv(s, es);
    var job := Exec(s, es).jobs[j];
    if AllSucceeded(job) {
      assert forall a :: !FailedRequired(job.steps, a) && !IncompleteOptional(job.steps, a);
    }
    if job.status.JobSucceeded? && forall a :: !SkippedRequired(job.steps, a) {
      forall a | 0 <= a < |job.steps| ensures job.steps[a].status.Succeeded? {
        assert !FailedRequired(job.steps, a) && !IncompleteOptional(job.steps, a) && !SkippedRequired(job.steps, a);
      }
    }
  }

  // ----- required steps that are skipped -------------------------------------------------------------------------

  ghost predicate Skips(s: System, es: seq<Event>, j: JobId, verdict: JobStatus) {
    && Init(s) && CanRun(s, es) && j in Exec(s, es).jobs
    && var job := Exec(s, es).jobs[j];
    && job.status == verdict && exists a :: SkippedRequired(job.steps, a)
  }

  /** The run: the metadata handler reports `skipped`, and the worker closes the job. */
  function MetadataSkipped(): seq<Event> {
    [Start(FIRST, CONFIGURED, COLLECT_METADATA, 0), Finish(FIRST, StepResult(Skipped, OtherCode), NOTHING, 0),
     Close(FIRST, CONFIGURED, 0)]
  }

  /** A required step that reports `skipped` ends the loop: a run from the start to success with waiting steps. */
  lemma SkippedRequiredEndsAsSuccess()
    ensures exists s, es, j :: Skips(s, es, j, JobSucceeded) && !AllFinished(Exec(s, es).jobs[j])
  {
    hide CanRun, Exec;
    Opens();
    var t := Exec(Empty(), Opening());
    SkipsMetadata(t);
    RunsConcat(Empty(), Opening(), MetadataSkipped());
    assert Skips(Empty(), Opening() + MetadataSkipped(), SOME_JOB, JobSucceeded);
  }

  lemma SkipsMetadata(t: System)
    requires OnJob(t, FIRST, Looping(SOME_JOB, CacheOf(NewJob(0).steps), 0))
    requires t.jobs[SOME_JOB] == NewJob(0).(status := JobRunning)
    ensures CanRun(t, MetadataSkipped())
    ensures var u := Exec(t, MetadataSkipped());
            && SOME_JOB in u.jobs && u.jobs[SOME_JOB].status.JobSucceeded?
            && SkippedRequired(u.jobs[SOME_JOB].steps, COLLECT_METADATA) && !AllFinished(u.jobs[SOME_JOB])
  {
    hide CanRun, Exec, Finalize;
    var e, f, g := MetadataSkipped()[0], MetadataSkipped()[1], MetadataSkipped()[2];
    var a := Apply(t, e);
    assert OnlyMetadata(a.jobs[SOME_JOB].steps, Running);
    assert a.workers[FIRST].cache == CacheOf(a.jobs[SOME_JOB].steps);
    var b := Apply(a, f);
    AfterMetadata(a, b);
    FinalizesSkipped(b.jobs[SOME_JOB], b.workers[FIRST].cache);
    ThreeEvents(t, e, f, g);
  }

  /** Only input validation and the metadata step have been touched. */
  ghost predicate OnlyMetadata(steps: seq<Step>, status: StepStatus) {
    && |steps| == STEP_COUNT && steps[VALIDATE_INPUT].status.Succeeded? && steps[COLLECT_METADATA].status == status
    && forall i :: COLLECT_METADATA < i < STEP_COUNT ==> steps[i].status.Pending?
  }

  lemma AfterMetadata(a: System, b: System)
    requires SOME_JOB in a.jobs && FIRST in a.workers && a.workers[FIRST].InStep?
    requires a.workers[FIRST].job == SOME_JOB && a.workers[FIRST].index == COLLECT_METADATA
    requires OnlyMetadata(a.jobs[SOME_JOB].steps, Running)
    requires a.workers[FIRST].attempt == a.jobs[SOME_JOB].steps[COLLECT_METADATA].attempts
    requires a.workers[FIRST].cache == CacheOf(a.jobs[SOME_JOB].steps)
    requires b == Apply(a, Finish(FIRST, StepResult(Skipped, OtherCode), NOTHING, 0))
    ensures OnJob(b, FIRST, Finalizing(SOME_JOB, CacheOf(b.jobs[SOME_JOB].steps)))
    ensures OnlyMetadata(b.jobs[SOME_JOB].steps, Skipped)
  {
    assert b.workers[FIRST].cache == CacheOf(b.jobs[SOME_JOB].steps);
  }

  lemma FinalizesSkipped(job: Job, cache: seq<CachedStep>)
    requires OnlyMetadata(job.steps, Skipped) && cache == CacheOf(job.steps)
    ensures var closed := Finalize(job, cache, FINALIZE_JOB, 0);
            && closed.status.JobSucceeded? && |closed.steps| == STEP_COUNT
            && SkippedRequired(closed.steps, COLLECT_METADATA) && closed.steps[BUILD_REPORT_SNAPSHOT].status.Pending?
  {
    assert Swept(cache, FINALIZE_JOB, FINALIZE_JOB) == cache;
    VerdictMeans(cache, job.steps);
  }

  /** Without any handler nothing is run, all steps are skipped, and the job still counts as a partial success. */
  lemma NoHandlersEndAsPartialSuccess()
    ensures exists s, es, j :: Skips(s, es, j, JobPartialSuccess)
  {
    hide CanRun, Exec;
    Opens();
    var t := Exec(Empty(), Opening());
    var e := Close(FIRST, {}, 0);
    NothingConfigured(t);
    OneEvent(t, e);
    RunsConcat(Empty(), Opening(), [e]);
    assert Skips(Empty(), Opening() + [e], SOME_JOB, JobPartialSuccess);
  }

  lemma NothingConfigured(t: System)
    requires OnJob(t, FIRST, Looping(SOME_JOB, CacheOf(NewJob(0).steps), 0))
    requires t.jobs[SOME_JOB] == NewJob(0).(status := JobRunning)
    ensures Enabled(t, Close(FIRST, {}, 0))
    ensures var job := Apply(t, Close(FIRST, {}, 0)).jobs[SOME_JOB];
            job.status.JobPartialSuccess? && SkippedRequired(job.steps, COLLECT_METADATA)
  {
    var job := t.jobs[SOME_JOB];
    var cache := CacheOf(job.steps);
    var mid := SweptRows(job, cache, 0, 0);
    assert Swept(cache, 0, FINALIZE_JOB) == CacheOf(mid.steps);
    VerdictMeans(CacheOf(mid.steps), mid.steps);
    assert IncompleteOptional(mid.steps, COLLECT_COMMENTS);
    forall a ensures !FailedRequired(mid.steps, a) {
    }
  }

  // ----- shutdown ---------------------------------------------------------------------------------------------

  /**
   A worker told to stop gives its step and its job back: both wait again under the same attempt count, nothing else
   of the job changes, nobody owns it, and any idle worker may claim it at once.
   */
  lemma ReleaseGivesBack(s: System, w: WorkerId, j: JobId, v: WorkerId)
    requires Inv(s) && Owns(s, w, j) && s.workers[w].InStep?
    requires v in s.workers && s.workers[v].Idle?
    ensures var t, i := Apply(s, Release(w)), s.workers[w].index;
            && i < |s.jobs[j].steps|
            && t.jobs[j] == s.jobs[j].(status := JobPending, steps := s.jobs[j].steps[i := Rewound(s.jobs[j].steps[i])])
            && t.jobs[j].steps[i].status.Pending? && t.jobs[j].steps[i].attempts == s.jobs[j].steps[i].attempts
            && Shape(t.jobs[j].steps) && NoRunning(t.jobs[j].steps)
            && (forall u :: u in t.workers ==> !Owns(t, u, j))
            && Enabled(t, Poll(v, 0, None, Some(j)))
  {
    var t, p := Apply(s, Release(w)), s.workers[w];
    assert WorkerOk(s.jobs[j], p);
    RunningMeansNoFailure(s.jobs[j], p.index);
    ReleaseOk(s.jobs[j], p.index, p.attempt);
    EventKeepsInv(s, Release(w));
    PendingIsFree(t, j);
  }

  // ----- crashes ----------------------------------------------------------------------------------------------

  /** A running job without a running step and without an owner. */
  ghost predicate Orphaned(s: System, j: JobId) {
    && j in s.jobs && s.jobs[j].status.JobRunning? && NoRunning(s.jobs[j].steps)
    && forall w :: w in s.workers ==> !Owns(s, w, j)
  }

  /** The last sign of life of a started row. */
  function LastSign(step: Step): Time
    requires step.startedAt.Some?
  {
    if step.heartbeatAt.Some? then step.heartbeatAt.value else step.startedAt.value
  }

  /**
   A crash inside a step can be recovered exactly by the polls whose limit lies behind the row's last sign of life; a
   crash between steps can be recovered by no poll at all.
   */
  lemma CrashIsRecoverableExactlyWhen(s: System, w: WorkerId, j: JobId)
    requires Inv(s) && Owns(s, w, j)
    ensures var p, t := s.workers[w], Apply(s, Crash(w));
            && t.jobs == s.jobs
            && (p.InStep? <==> exists stale: Time :: Recoverable(t.jobs[j], stale))
            && (p.InStep? ==>
                  && p.index < |t.jobs[j].steps| && t.jobs[j].steps[p.index].startedAt.Some?
                  && forall stale: Time ::
                       Recoverable(t.jobs[j], stale) <==> LastSign(t.jobs[j].steps[p.index]) < stale)
            && (Unfenced(p) <==> Orphaned(t, j))
  {
    var p := s.workers[w];
    var t := Apply(s, Crash(w));
    OwnerIsAlone(s, w, j);
    assert forall v :: v in t.workers ==> !Owns(t, v, j);
    assert WorkerOk(s.jobs[j], p);
    if p.InStep? {
      assert t.jobs[j].steps[p.index].status.Running?;
      OnlyRunning(t.jobs[j], p.index);
      assert Recoverable(t.jobs[j], LastSign(t.jobs[j].steps[p.index]) + 1);
    }
  }

  lemma OnlyRunning(job: Job, r: nat)
    requires JobOk(job) && job.status.JobRunning? && r < |job.steps| && job.steps[r].status.Running?
    ensures job.steps[r].startedAt.Some?
    ensures forall stale: Time :: Recoverable(job, stale) <==> LastSign(job.steps[r]) < stale
  {
    RunningMeansNoFailure(job, r);
    assert forall a :: 0 <= a < |job.steps| && job.steps[a].status.Running? ==> a == r;
    forall stale: Time ensures Stale(job.steps[r], stale) <==> LastSign(job.steps[r]) < stale {
    }
  }

  /** And such a poll hands the crashed job, its step waiting again, to the polling worker as its only owner. */
  lemma CrashedJobIsClaimedAgain(s: System, w: WorkerId, j: JobId, v: WorkerId, stale: Time)
    requires Inv(s) && Owns(s, w, j) && s.workers[w].InStep?
    requires v in s.workers && (v == w || s.workers[v].Idle?)
    requires Recoverable(s.jobs[j], stale)
    ensures var t, e := Apply(s, Crash(w)), Poll(v, stale, Some(j), Some(j));
            && Enabled(t, e)
            && var u := Apply(t, e);
            && u.workers[v] == Claimed(j)
            && u.jobs[j] == Recover(s.jobs[j]).(status := JobRunning)
            && NoRunning(u.jobs[j].steps) && u.jobs[j].results == s.jobs[j].results
            && forall x :: Owns(u, x, j) <==> x == v
  {
    hide FirstRunning;
    var t, e := Apply(s, Crash(w)), Poll(v, stale, Some(j), Some(j));
    RecoverOk(s.jobs[j]);
    var u := Apply(t, e);
    EventKeepsInv(s, Crash(w));
    EventKeepsInv(t, e);
    assert Owns(u, v, j);
    forall x | Owns(u, x, j) ensures x == v {
      OwnerIsAlone(u, v, j);
    }
  }

  predicate NoRetryOf(es: seq<Event>, j: JobId) {
    forall i :: 0 <= i < |es| ==> es[i] != AdminRetry(j)
  }

  /** No event but admin retry touches a job that runs without a running step and without an owner. */
  lemma OrphanRowsStay(s: System, e: Event, j: JobId)
    requires Orphaned(s, j) && Enabled(s, e) && e != AdminRetry(j)
    ensures j in Apply(s, e).jobs && Apply(s, e).jobs[j] == s.jobs[j]
  {
    hide Recover, Retry, StartStep, Finalize, WithArtifacts, NewJob, Rewound;
    var a := Actor(e);
    if a.Some? && !s.workers[a.value].Idle? && s.workers[a.value].job == j {
      assert !Owns(s, a.value, j);
    }
  }

  /** No event lets its worker own a job that was running and that it did not own. */
  lemma ActorStaysOut(s: System, e: Event, j: JobId, w: WorkerId)
    requires Inv(s) && Orphaned(s, j) && Enabled(s, e) && e != AdminRetry(j) && Actor(e) == Some(w)
    requires j in Apply(s, e).jobs && Apply(s, e).jobs[j] == s.jobs[j]
    ensures !Owns(Apply(s, e), w, j)
  {
    hide Inv, NewJob, Retry, Recover, StartStep, Finalize, FinishStep, ReleaseStep, Persist, Reconcile, Heartbeat;
    assert !Owns(s, w, j);
  }

  lemma OrphanStep(s: System, e: Event, j: JobId)
    requires Inv(s) && Orphaned(s, j) && Admissible(s, e) && e != AdminRetry(j)
    ensures Orphaned(Apply(s, e), j) && Apply(s, e).jobs[j] == s.jobs[j]
  {
    hide Inv, Apply, Enabled, Owns, RetrySafe;
    OrphanRowsStay(s, e, j);
    forall w | w in Apply(s, e).workers ensures !Owns(Apply(s, e), w, j) {
      if Actor(e) == Some(w) {
        ActorStaysOut(s, e, j, w);
      } else {
        BystanderStaysOut(s, e, j, w);
      }
    }
  }

  lemma BystanderStaysOut(s: System, e: Event, j: JobId, w: WorkerId)
    requires Orphaned(s, j) && Enabled(s, e) && Actor(e) != Some(w) && w in Apply(s, e).workers
    requires j in Apply(s, e).jobs && Apply(s, e).jobs[j] == s.jobs[j]
    ensures !Owns(Apply(s, e), w, j)
  {
    hide NewJob, Retry, Recover, StartStep, Finalize, FinishStep, ReleaseStep, Persist, Reconcile, Heartbeat;
    assert w in s.workers && !Owns(s, w, j);
  }

  /** Recovery looks for a running step, so nothing but an admin retry ever touches an orphaned job again. */
  lemma {:induction false} OrphanStaysForever(s: System, es: seq<Event>, j: JobId)
    requires Inv(s) && Orphaned(s, j) && CanRun(s, es) && NoRetryOf(es, j)
    ensures Orphaned(Exec(s, es), j) && Exec(s, es).jobs[j] == s.jobs[j]
    decreases |es|
  {
    if es != [] {
      assert es[0] != AdminRetry(j);
      EventKeepsInv(s, es[0]);
      OrphanStep(s, es[0], j);
      OrphanStaysForever(Apply(s, es[0]), es[1..], j);
    }
  }

  /** Recovery rewinds nothing but the running step of its job, and only when that heartbeat is older than the limit. */
  lemma RecoveryRewindsStaleStep(job: Job, staleBefore: Time)
    requires JobOk(job) && Recoverable(job, staleBefore)
    ensures var r, job' := FirstRunning(job.steps, 0), Recover(job);
            && r < FINALIZE_JOB && Stale(job.steps[r], staleBefore)
            && job'.status.JobPending?
            && job'.steps == job.steps[r := Rewound(job.steps[r])]
            && job'.steps[r].attempts == job.steps[r].attempts
            && Shape(job'.steps) && job'.results == job.results
  {
    var i :| 0 <= i < |job.steps| && job.steps[i].status.Running? && Stale(job.steps[i], staleBefore);
    RunningMeansNoFailure(job, i);
    var r := FirstRunning(job.steps, 0);
    assert r == i;
    RecoverOk(job);
  }
}
