/**
 What is enough, before a run, for a succeeded job to mean that every step succeeded.
 */
module RequiredSteps {
  import opened JobModel
  import opened Protocol
  import opened Safety
  import opened Preservation
  import opened Runs
  import opened Verdicts

  predicate RequiredConfigured(configured: set<int>) {
    forall i :: 0 < i < FINALIZE_JOB && Required(i) ==> i in configured
  }

  /** Every required step has a handler, and no handler of a required step reports `skipped`. */
  predicate KeepsToRequired(s: System, e: Event)
    requires Enabled(s, e)
  {
    match e
    case Start(_, configured, _, _) => RequiredConfigured(configured)
    case Close(_, configured, _) => RequiredConfigured(configured)
    case Finish(w, result, _, _) => Required(s.workers[w].index) ==> !result.status.Skipped?
    case _ => true
  }

  predicate RunKeepsToRequired(s: System, es: seq<Event>)
    requires CanRun(s, es)
    decreases |es|
  {
    es != [] ==> KeepsToRequired(s, es[0]) && RunKeepsToRequired(Apply(s, es[0]), es[1..])
  }

  /** Required steps are skipped only behind a required one that failed; input validation never waits. */
  ghost predicate RequiredRun(steps: seq<Step>) {
    && |steps| == STEP_COUNT && steps[VALIDATE_INPUT].status.Succeeded?
    && forall a :: SkippedRequired(steps, a) ==> FailedBefore(steps, a)
  }

  ghost predicate FailedBefore(steps: seq<Step>, a: int) {
    exists r :: r < a && FailedRequired(steps, r)
  }

  ghost predicate AllRequiredRun(s: System) {
    forall j :: j in s.jobs ==> RequiredRun(s.jobs[j].steps)
  }

  /** A change that skips no required step and undoes no failure. */
  lemma NothingSkipped(before: seq<Step>, after: seq<Step>)
    requires RequiredRun(before) && |after| == STEP_COUNT && after[VALIDATE_INPUT].status.Succeeded?
    requires forall a :: SkippedRequired(after, a) ==> SkippedRequired(before, a)
    requires forall r :: FailedRequired(before, r) ==> FailedRequired(after, r)
    ensures RequiredRun(after)
  {
    forall a | SkippedRequired(after, a) ensures FailedBefore(after, a) {
      assert FailedBefore(before, a);
      var r :| r < a && FailedRequired(before, r);
      assert FailedRequired(after, r);
    }
  }

  lemma StartKeepsRequired(job: Job, p: Worker, configured: set<int>, k: nat, now: Time)
    requires JobOk(job) && RequiredRun(job.steps) && p.Looping? && WorkerOk(job, p) && RequiredConfigured(configured)
    requires p.cursor <= k < FINALIZE_JOB && p.cache[k].status.Pending? && Passed(p.cache, configured, p.cursor, k)
    ensures RequiredRun(StartStep(job, p.cache, p.cursor, k, now).steps)
  {
    hide Shape, FailStop, VerdictOk, AnalysisComplete, ResultsOk;
    var after := StartStep(job, p.cache, p.cursor, k, now).steps;
    forall a | SkippedRequired(after, a) ensures SkippedRequired(job.steps, a) {
      assert a != k && p.cache[a].status == job.steps[a].status;
    }
    NothingSkipped(job.steps, after);
  }

  lemma FinishKeepsRequired(job: Job, i: nat, attempt: nat, result: StepResult, new_: Artifacts, now: Time)
    requires JobOk(job) && !Terminal(job.status) && RequiredRun(job.steps) && i < FINALIZE_JOB
    requires Required(i) ==> !result.status.Skipped?
    ensures RequiredRun(FinishStep(job, i, attempt, result, new_, now).steps)
  {
    hide Shape, FailStop, VerdictOk, AnalysisComplete, ResultsOk;
    NothingSkipped(job.steps, FinishStep(job, i, attempt, result, new_, now).steps);
  }

  lemma CloseKeepsRequired(job: Job, p: Worker, configured: set<int>, now: Time)
    requires JobOk(job) && RequiredRun(job.steps) && WorkerOk(job, p) && RequiredConfigured(configured)
    requires p.Finalizing? || (p.Looping? && Passed(p.cache, configured, p.cursor, FINALIZE_JOB))
    ensures RequiredRun(Finalize(job, p.cache, if p.Looping? then p.cursor else FINALIZE_JOB, now).steps)
  {
    hide AnalysisComplete, ResultsOk, VerdictOk;
    var from := if p.Looping? then p.cursor else FINALIZE_JOB;
    var mid := SweptRows(job, p.cache, from, now);
    SweepOk(job, p.cache, from, now);
    CloseSteps(job, p.cache, from, now);
    forall a | SkippedRequired(mid.steps, a) ensures SkippedRequired(job.steps, a) {
      assert p.cache[a].status == job.steps[a].status;
    }
    NothingSkipped(job.steps, mid.steps);
    ConcludedSteps(mid, now);
    var after := Concluded(mid, now).steps;
    if NoFailedRequired(mid.steps) {
      forall a | SkippedRequired(after, a) ensures SkippedRequired(mid.steps, a) {
      }
      NothingSkipped(mid.steps, after);
    } else {
      var r :| FailedRequired(mid.steps, r);
      forall a | SkippedRequired(after, a) ensures FailedBefore(after, a) {
        SkippedBehind(mid, after, r, a);
      }
    }
  }

  lemma WaitingIsBehind(steps: seq<Step>, r: int, a: int)
    requires Shape(steps) && FailedRequired(steps, r) && 0 <= a < FINALIZE_JOB && steps[a].status.Pending?
    ensures r < a
  {
  }

  /** At the close of a failed job, what is skipped lies behind a failure. */
  lemma SkippedBehind(mid: Job, after: seq<Step>, r: int, a: int)
    requires JobOk(mid) && RequiredRun(mid.steps) && FailedRequired(mid.steps, r) && SkippedRequired(after, a)
    requires |after| == STEP_COUNT && forall x :: FailedRequired(after, x) <==> FailedRequired(mid.steps, x)
    requires after[a].status == mid.steps[a].status || mid.steps[a].status.Pending?
    ensures FailedBefore(after, a)
  {
    if mid.steps[a].status.Pending? {
      WaitingIsBehind(mid.steps, r, a);
      assert FailedRequired(after, r);
    } else {
      assert SkippedRequired(mid.steps, a);
      assert FailedBefore(mid.steps, a);
      var x :| x < a && FailedRequired(mid.steps, x);
      assert FailedRequired(after, x);
    }
  }

  lemma RetryKeepsRequired(job: Job)
    requires JobOk(job) && Retryable(job) && RequiredRun(job.steps)
    ensures RequiredRun(Retry(job).steps)
  {
    hide AnalysisComplete, ResultsOk, VerdictOk;
    var f, after := FirstRetryable(job.steps, 0), Retry(job).steps;
    forall a | SkippedRequired(after, a) ensures FailedBefore(after, a) {
      assert a < f && SkippedRequired(job.steps, a);
      assert FailedBefore(job.steps, a);
      var r :| r < a && FailedRequired(job.steps, r);
      assert FailedRequired(after, r);
    }
  }

  lemma PollKeepsRequired(s: System, e: Event)
    requires AllRequiredRun(s) && e.Poll? && Enabled(s, e)
    ensures AllRequiredRun(Apply(s, e))
  {
    hide RequiredRun, Recover;
    if e.recovered.Some? {
      var r: JobId := e.recovered.value;
      assert r in s.jobs;
      RecoverKeepsRequired(s.jobs[r]);
    }
  }

  lemma EventKeepsRequired(s: System, e: Event)
    requires Inv(s) && AllRequiredRun(s) && Admissible(s, e) && KeepsToRequired(s, e)
    ensures AllRequiredRun(Apply(s, e))
  {
    hide JobOk, WorkerOk, Apart, RequiredRun, FailedBefore, StartStep, FinishStep, Finalize, Retry, Recover;
    hide ReleaseStep, Persist, Reconcile, Heartbeat, NewJob;
    match e
    case Submit(_, now) => NewRequiredRun(now);
    case AdminRetry(j) => RetryKeepsRequired(s.jobs[j]);
    case Poll(_, _, _, _) => PollKeepsRequired(s, e);
    case Start(w, configured, k, now) =>
      StartKeepsRequired(s.jobs[s.workers[w].job], s.workers[w], configured, k, now);
    case Finish(w, result, new_, now) =>
      var p := s.workers[w];
      if Fenced(s.jobs[p.job], p.index, p.attempt) {
        FencedIsOpen(s.jobs[p.job], p);
        FinishKeepsRequired(s.jobs[p.job], p.index, p.attempt, result, new_, now);
      }
    case Close(w, configured, now) =>
      CloseKeepsRequired(s.jobs[s.workers[w].job], s.workers[w], configured, now);
    case Release(w) =>
      var p := s.workers[w];
      ReleaseKeepsRequired(s.jobs[p.job], p.index, p.attempt);
    case Adjust(w, now) =>
      var p := s.workers[w];
      TouchKeepsRequired(
        s.jobs[p.job],
        Reconcile(s.jobs[p.job], p.index, p.attempt, p.phase.total, p.phase.succeeded, p.phase.failed, now)) by {
        SameStatuses(s, e);
      }
    case Record(w, item, o, now) =>
      var p := s.workers[w];
      TouchKeepsRequired(
        s.jobs[p.job], Persist(s.jobs[p.job], p.index, p.attempt, p.phase.run, KindOf(p.index), item, o, now)) by {
        SameStatuses(s, e);
      }
    case Beat(w, now) =>
      var p := s.workers[w];
      TouchKeepsRequired(s.jobs[p.job], Heartbeat(s.jobs[p.job], p.index, p.attempt, now)) by {
        SameStatuses(s, e);
      }
    case _ =>
  }

  lemma FencedIsOpen(job: Job, p: Worker)
    requires p.InStep? && WorkerOk(job, p) && Fenced(job, p.index, p.attempt)
    ensures !Terminal(job.status) && p.index < FINALIZE_JOB
  {
  }

  lemma NewRequiredRun(now: Time)
    ensures RequiredRun(NewJob(now).steps)
  {
  }

  lemma RecoverKeepsRequired(job: Job)
    requires RequiredRun(job.steps)
    ensures RequiredRun(Recover(job).steps)
  {
    NothingSkipped(job.steps, Recover(job).steps);
  }

  lemma ReleaseKeepsRequired(job: Job, i: nat, attempt: nat)
    requires RequiredRun(job.steps)
    ensures RequiredRun(ReleaseStep(job, i, attempt).steps)
  {
    NothingSkipped(job.steps, ReleaseStep(job, i, attempt).steps);
  }

  ghost predicate Statuses(a: Job, b: Job) {
    |a.steps| == |b.steps| && forall i :: 0 <= i < |a.steps| ==> b.steps[i].status == a.steps[i].status
  }

  lemma TouchKeepsRequired(job: Job, job': Job)
    requires RequiredRun(job.steps) && Statuses(job, job')
    ensures RequiredRun(job'.steps)
  {
    NothingSkipped(job.steps, job'.steps);
  }

  lemma SameStatuses(s: System, e: Event)
    requires Enabled(s, e) && (e.Adjust? || e.Record? || e.Beat?)
    ensures var p := s.workers[e.w];
            match e
            case Adjust(_, now) =>
              Statuses(s.jobs[p.job],
                Reconcile(s.jobs[p.job], p.index, p.attempt, p.phase.total, p.phase.succeeded, p.phase.failed, now))
            case Record(_, item, o, now) =>
              Statuses(s.jobs[p.job],
                Persist(s.jobs[p.job], p.index, p.attempt, p.phase.run, KindOf(p.index), item, o, now))
            case Beat(_, now) => Statuses(s.jobs[p.job], Heartbeat(s.jobs[p.job], p.index, p.attempt, now))
            case _ => true
  {
  }

  lemma {:induction false} RunKeepsRequired(s: System, es: seq<Event>)
    requires Inv(s) && AllRequiredRun(s) && CanRun(s, es) && RunKeepsToRequired(s, es)
    ensures AllRequiredRun(Exec(s, es))
    decreases |es|
  {
    hide Inv, AllRequiredRun, KeepsToRequired;
    if es != [] {
      EventKeepsInv(s, es[0]);
      EventKeepsRequired(s, es[0]);
      RunKeepsRequired(Apply(s, es[0]), es[1..]);
    }
  }

  /**
   What is enough before the run: if every required step has a handler and none of them reports `skipped`, a job closes
   as succeeded exactly when all its steps succeeded, and every step of a closed job is finished.
   */
  lemma ConfiguredVerdict(s: System, es: seq<Event>, j: JobId)
    requires Init(s) && CanRun(s, es) && RunKeepsToRequired(s, es)
    requires j in Exec(s, es).jobs && Terminal(Exec(s, es).jobs[j].status)
    ensures var job := Exec(s, es).jobs[j];
            (AllSucceeded(job) <==> job.status.JobSucceeded?) && AllFinished(job)
  {
    hide CanRun, Exec, RunKeepsToRequired;
    RunKeepsInv(s, es);
    RunKeepsRequired(s, es);
    SucceededVerdict(s, es, j);
    FailedVerdict(s, es, j);
    var job := Exec(s, es).jobs[j];
    assert RequiredRun(job.steps);
    if !job.status.JobFailed? {
      forall a ensures !SkippedRequired(job.steps, a) {
        assert SkippedRequired(job.steps, a) ==> FailedBefore(job.steps, a);
      }
    }
  }
}
