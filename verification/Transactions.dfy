/**
 What each transaction writes, column by column: every event of the protocol, said of the rows it finds and leaves.
 */
module Transactions {
  import opened JobModel
  import opened Protocol
  import opened Safety
  import opened Preservation
  import opened Runs

  /** The order of the pipeline, and which steps are required. */
  const PIPELINE: seq<(string, bool)> := [
    ("validate_input", true),
    ("collect_metadata", true),
    ("collect_comments", false),
    ("collect_transcript", false),
    ("create_analysis_run", true),
    ("analyze_comments", false),
    ("analyze_script", false),
    ("build_comment_network", false),
    ("build_report_snapshot", true),
    ("finalize_job", true)]

  /** The positions used everywhere are those of the pipeline. */
  lemma PositionsAreThePipeline()
    ensures |PIPELINE| == STEP_COUNT
    ensures forall i :: 0 <= i < STEP_COUNT ==> (Required(i) <==> PIPELINE[i].1)
    ensures PIPELINE[VALIDATE_INPUT].0 == "validate_input" && PIPELINE[COLLECT_METADATA].0 == "collect_metadata"
    ensures PIPELINE[CREATE_ANALYSIS_RUN].0 == "create_analysis_run" && PIPELINE[FINALIZE_JOB].0 == "finalize_job"
    ensures PIPELINE[CollectStep(Comments)].0 == "collect_comments"
    ensures PIPELINE[CollectStep(Script)].0 == "collect_transcript"
    ensures PIPELINE[AnalyzeStep(Comments)].0 == "analyze_comments"
    ensures PIPELINE[AnalyzeStep(Script)].0 == "analyze_script"
    ensures forall k: Kind :: KindOf(AnalyzeStep(k)) == k && IsAnalysis(AnalyzeStep(k))
    ensures forall i :: IsAnalysis(i) ==> i == AnalyzeStep(Comments) || i == AnalyzeStep(Script)
  {
  }

  /** The worker is in a step whose row is still running under its attempt number. */
  ghost predicate Current(s: System, w: WorkerId) {
    && w in s.workers && s.workers[w].InStep?
    && var p := s.workers[w];
    && p.job in s.jobs && p.index < |s.jobs[p.job].steps|
    && s.jobs[p.job].steps[p.index].status == Running && s.jobs[p.job].steps[p.index].attempts == p.attempt
  }

  /** Only the row of step i may differ. */
  ghost predicate OnlyRow(a: Job, b: Job, i: nat) {
    && |b.steps| == |a.steps| && i < |a.steps|
    && forall x :: 0 <= x < |a.steps| && x != i ==> b.steps[x] == a.steps[x]
  }

  /** Nothing was collected, opened or stored. */
  ghost predicate SameData(a: Job, b: Job) {
    b.comments == a.comments && b.segments == a.segments && b.runs == a.runs && b.results == a.results
  }

  ghost predicate OnlyJob(s: System, t: System, j: JobId) {
    t.jobs.Keys == s.jobs.Keys && forall x :: x in s.jobs && x != j ==> t.jobs[x] == s.jobs[x]
  }

  lemma SubmitWrites(s: System, j: JobId, now: Time)
    requires Enabled(s, Submit(j, now))
    ensures var t := Apply(s, Submit(j, now));
            && t.jobs.Keys == s.jobs.Keys + {j} && t.workers == s.workers
            && var job := t.jobs[j];
            && job.status == JobPending && |job.steps| == 10
            && job.comments == {} && job.segments == {} && job.runs == 0 && job.results == map[]
            && job.steps[0] == Step(Succeeded, 1, NoError, Some(now), None, Progress(None, 0, 0, 0))
            && forall i :: 1 <= i < 10 ==>
                 job.steps[i] == Step(Pending, 0, NoError, None, None, Progress(None, 0, 0, 0))
  {
  }

  /** A job may be recovered iff it and one of its steps are running and the step's last sign of life is too old. */
  lemma RecoverableExactlyWhen(job: Job, stale: Time)
    ensures Recoverable(job, stale) <==>
              && job.status == JobRunning
              && exists i :: 0 <= i < |job.steps| && job.steps[i].status == Running && SilentSince(job.steps[i], stale)
  {
    forall i | 0 <= i < |job.steps| ensures Stale(job.steps[i], stale) <==> SilentSince(job.steps[i], stale) {
    }
  }

  ghost predicate SilentSince(step: Step, stale: Time) {
    exists t: Time :: t < stale &&
      (step.heartbeatAt == Some(t) || (step.heartbeatAt == None && step.startedAt == Some(t)))
  }

  /** The poll: one stale running row waits again, and one waiting job is taken. */
  lemma PollWrites(s: System, w: WorkerId, stale: Time, j: JobId, c: Option<JobId>)
    requires Inv(s) && Enabled(s, Poll(w, stale, Some(j), c))
    ensures var a, b := s.jobs[j], Apply(s, Poll(w, stale, Some(j), c)).jobs[j];
            && SameData(a, b) && b.status == (if c == Some(j) then JobRunning else JobPending)
            && exists r :: 0 <= r < |a.steps| && OnlyRow(a, b, r) && a.steps[r].status == Running
                           && b.steps[r] == Step(Pending, a.steps[r].attempts, NoError, None, None, a.steps[r].progress)
  {
    var a := s.jobs[j];
    var r := FirstRunning(a.steps, 0);
    assert OnlyRow(a, Apply(s, Poll(w, stale, Some(j), c)).jobs[j], r);
  }

  lemma ClaimWrites(s: System, w: WorkerId, stale: Time, r: Option<JobId>, j: JobId)
    requires Enabled(s, Poll(w, stale, r, Some(j))) && r != Some(j)
    ensures var a, t := s.jobs[j], Apply(s, Poll(w, stale, r, Some(j)));
            && t.jobs[j].status == JobRunning && t.jobs[j].steps == a.steps && SameData(a, t.jobs[j])
            && a.status == JobPending && t.workers[w] == Claimed(j)
  {
  }

  /** A start: its own row, and the skips of the positions it passed. */
  lemma StartWrites(s: System, w: WorkerId, configured: set<int>, k: nat, now: Time)
    requires Inv(s) && Enabled(s, Start(w, configured, k, now))
    ensures var p, t := s.workers[w], Apply(s, Start(w, configured, k, now));
            var a, b := s.jobs[p.job], t.jobs[p.job];
            && OnlyJob(s, t, p.job) && b.status == a.status && SameData(a, b)
            && k < |a.steps| == |b.steps| && a.steps[k].status == Pending && k in configured
            && (forall x :: p.cursor <= x < k && a.steps[x].status == Pending ==> x !in configured)
            && t.workers[w].InStep? && t.workers[w].job == p.job && t.workers[w].index == k
            && t.workers[w].attempt == a.steps[k].attempts + 1 && t.workers[w].phase == Handling
            && b.steps[k] ==
               Step(Running, a.steps[k].attempts + 1, a.steps[k].error, Some(now), Some(now), a.steps[k].progress)
            && (forall x :: 0 <= x < |a.steps| && x != k ==>
                  var o := a.steps[x];
                  b.steps[x] ==
                  if p.cursor <= x < k && o.status == Pending
                    then Step(Skipped, o.attempts, OtherCode, o.startedAt, Some(now), o.progress) else o)
  {
    assert WorkerOk(s.jobs[s.workers[w].job], s.workers[w]);
  }

  /**
   A finish under the fence: result, error and heartbeat of its own row; the comments its handler collected whatever the
   result; the segments only of a transcript that succeeded; and one more run only for a run step that succeeded.
   */
  lemma FinishWrites(s: System, w: WorkerId, result: StepResult, new_: Artifacts, now: Time)
    requires Enabled(s, Finish(w, result, new_, now)) && Current(s, w)
    ensures var p, t := s.workers[w], Apply(s, Finish(w, result, new_, now));
            var a, b := s.jobs[p.job], t.jobs[p.job];
            var i, o := p.index, s.jobs[p.job].steps[p.index];
            && OnlyJob(s, t, p.job) && b.status == a.status && OnlyRow(a, b, i)
            && b.steps[i] == Step(result.status, o.attempts, result.error, o.startedAt, Some(now), o.progress)
            && b.results == a.results
            && b.comments == (if i == 2 then a.comments + new_.comments else a.comments)
            && b.segments == (if i == 3 && result.status == Succeeded then a.segments + new_.segments else a.segments)
            && b.runs == (if i == 4 && result.status == Succeeded then a.runs + 1 else a.runs)
            && (i < |p.cache| == 10 ==>
                  var cache := p.cache[i := CachedStep(result.status, p.attempt)];
                  t.workers[w] == if i in {0, 1, 4, 8, 9} && result.status != Succeeded then Finalizing(p.job, cache)
                                  else Looping(p.job, cache, i + 1))
  {
  }

  lemma ReleaseWrites(s: System, w: WorkerId)
    requires Enabled(s, Release(w)) && Current(s, w) && s.jobs[s.workers[w].job].status == JobRunning
    ensures var p, t := s.workers[w], Apply(s, Release(w));
            var a, b := s.jobs[p.job], t.jobs[p.job];
            var i, o := p.index, s.jobs[p.job].steps[p.index];
            && OnlyJob(s, t, p.job) && b.status == JobPending && OnlyRow(a, b, i) && SameData(a, b)
            && b.steps[i] == Step(Pending, o.attempts, NoError, None, None, o.progress)
            && t.workers[w] == Idle
  {
  }

  lemma BeatWrites(s: System, w: WorkerId, now: Time)
    requires Enabled(s, Beat(w, now)) && Current(s, w)
    ensures var p, t := s.workers[w], Apply(s, Beat(w, now));
            var a, b := s.jobs[p.job], t.jobs[p.job];
            var i, o := p.index, s.jobs[p.job].steps[p.index];
            && OnlyJob(s, t, p.job) && b.status == a.status && OnlyRow(a, b, i) && SameData(a, b)
            && b.steps[i] == Step(Running, o.attempts, o.error, o.startedAt, Some(now), o.progress)
  {
  }

  /** The rows of one run and kind, as a map. */
  function ResultRows(job: Job, run: nat, k: Kind): map<ItemId, Outcome> {
    if RunKey(run, k) in job.results then job.results[RunKey(run, k)] else map[]
  }

  /** An item result under the fence: one row more and its counters, or nothing but the heartbeat. */
  lemma RecordWrites(s: System, w: WorkerId, item: ItemId, o: Outcome, now: Time)
    requires Enabled(s, Record(w, item, o, now)) && Current(s, w)
    ensures var p, t := s.workers[w], Apply(s, Record(w, item, o, now));
            var a, b := s.jobs[p.job], t.jobs[p.job];
            var i, kind := p.index, if p.index == 5 then Comments else Script;
            var before, q := ResultRows(a, p.phase.run, kind), a.steps[i].progress;
            var added := if item in before then 0 else 1;
            && OnlyJob(s, t, p.job) && b.status == a.status && OnlyRow(a, b, i)
            && t.workers[w] == p.(phase := Persisting(p.phase.run, p.phase.total, p.phase.remaining - {item}))
            && b.comments == a.comments && b.segments == a.segments && b.runs == a.runs
            && (forall run: nat, k: Kind :: ResultRows(b, run, k) ==
                  if run == p.phase.run && k == kind && item !in before then before[item := o]
                  else ResultRows(a, run, k))
            && b.steps[i] ==
               Step(Running, a.steps[i].attempts, a.steps[i].error, a.steps[i].startedAt, Some(now),
                 Progress(q.total, q.completed + added,
                   q.succeeded + (if o.ok then added else 0), q.failed + (if o.ok then 0 else added)))
  {
    var p := s.workers[w];
    assert s.jobs[p.job].steps[p.index].progress.completed >= 0;
  }

  lemma AdjustWrites(s: System, w: WorkerId, now: Time)
    requires Enabled(s, Adjust(w, now)) && Current(s, w)
    ensures var p, t := s.workers[w], Apply(s, Adjust(w, now));
            var a, b := s.jobs[p.job], t.jobs[p.job];
            var i, o, ph := p.index, s.jobs[p.job].steps[p.index], p.phase;
            && OnlyJob(s, t, p.job) && b.status == a.status && OnlyRow(a, b, i) && SameData(a, b)
            && b.steps[i] ==
               Step(Running, o.attempts, o.error, o.startedAt, Some(now),
                 Progress(Some(ph.total), ph.succeeded + ph.failed, ph.succeeded, ph.failed))
            && t.workers[w] ==
               p.(phase := if ph.closing then Analyzed(ph.run) else Persisting(ph.run, ph.total, ph.remaining))
  {
  }

  /** Under a lost fence none of them writes anything, and the worker is free. */
  lemma LostFenceWritesNothing(s: System, e: Event)
    requires Enabled(s, e) && (e.Finish? || e.Release? || e.Beat? || e.Record? || e.Adjust?) && !Current(s, e.w)
    ensures Apply(s, e).jobs == s.jobs && Apply(s, e).workers[e.w] == Idle
  {
  }

  ghost predicate FailedAtRequired(steps: seq<Step>)
    requires |steps| == 10
  {
    exists r :: r in {0, 1, 4, 8} && steps[r].status == Failed
  }

  ghost predicate IncompleteAtOptional(steps: seq<Step>)
    requires |steps| == 10
  {
    exists r :: r in {2, 3, 5, 6, 7} && (steps[r].status == Failed || steps[r].status == Skipped)
  }

  lemma RequiredIsListed(steps: seq<Step>)
    requires |steps| == STEP_COUNT
    ensures NoFailedRequired(steps) <==> !FailedAtRequired(steps)
    ensures (exists a :: IncompleteOptional(steps, a)) <==> IncompleteAtOptional(steps)
  {
    if FailedAtRequired(steps) {
      var r :| r in {0, 1, 4, 8} && steps[r].status == Failed;
      assert FailedRequired(steps, r);
    }
    if IncompleteAtOptional(steps) {
      var r :| r in {2, 3, 5, 6, 7} && (steps[r].status == Failed || steps[r].status == Skipped);
      assert IncompleteOptional(steps, r);
    }
  }

  /** The row a closed job has where it had this one. */
  function ClosedRow(o: Step, skip: bool, now: Time): Step {
    if o.status == Pending && skip then Step(Skipped, o.attempts, OtherCode, o.startedAt, Some(now), o.progress) else o
  }

  lemma FinalizeRows(a: Job, cache: seq<CachedStep>, from: nat, now: Time)
    requires |a.steps| == STEP_COUNT && cache == CacheOf(a.steps)
    ensures var b := Finalize(a, cache, from, now);
            && SameData(a, b) && |b.steps| == 10
            && var f := a.steps[9];
            && b.steps[9] == Step(Succeeded, f.attempts + 1, f.error, Some(now), Some(now), f.progress)
            && forall x :: 0 <= x < 9 ==>
                 b.steps[x] == ClosedRow(a.steps[x], FailedAtRequired(a.steps) || from <= x, now)
  {
    FailureInCache(a.steps, cache, from, now);
    assert Swept(cache, from, FINALIZE_JOB)[9] == cache[9];
    hide Swept, RequiredFailed, FailedAtRequired, Verdict;
  }

  /** Closing: the finalize row, and the skips of the positions passed or behind a required failure. */
  lemma CloseWrites(s: System, w: WorkerId, configured: set<int>, now: Time)
    requires Inv(s) && Enabled(s, Close(w, configured, now))
    ensures var p, t := s.workers[w], Apply(s, Close(w, configured, now));
            var a, b := s.jobs[p.job], t.jobs[p.job];
            && OnlyJob(s, t, p.job) && SameData(a, b) && |a.steps| == |b.steps| == 10 && t.workers[w] == Idle
            && var f := a.steps[9];
            && b.steps[9] == Step(Succeeded, f.attempts + 1, f.error, Some(now), Some(now), f.progress)
            && forall x :: 0 <= x < 9 ==>
                 b.steps[x] ==
                 ClosedRow(a.steps[x], FailedAtRequired(a.steps) || (p.Looping? && p.cursor <= x), now)
  {
    var p := s.workers[w];
    var from := if p.Looping? then p.cursor else FINALIZE_JOB;
    OwnerRows(s, w);
    hide JobOk, WorkerOk, Inv, Finalize, ClosedRow;
    FinalizeRows(s.jobs[p.job], p.cache, from, now);
  }

  lemma OwnerRows(s: System, w: WorkerId)
    requires Inv(s) && w in s.workers && (s.workers[w].Looping? || s.workers[w].Finalizing?)
    ensures var p := s.workers[w];
            && p.job in s.jobs && JobOk(s.jobs[p.job]) && WorkerOk(s.jobs[p.job], p)
            && |s.jobs[p.job].steps| == STEP_COUNT && p.cache == CacheOf(s.jobs[p.job].steps)
            && s.jobs[p.job].status == JobRunning && NoRunning(s.jobs[p.job].steps)
            && (p.Looping? ==> NoFailedRequired(s.jobs[p.job].steps))
            && (p.Looping? ==> p.cursor <= FINALIZE_JOB)
            && (p.Looping? ==> forall x :: 0 <= x < p.cursor ==> Finished(s.jobs[p.job].steps[x].status))
  {
    assert WorkerOk(s.jobs[s.workers[w].job], s.workers[w]);
  }

  lemma FailureInCache(steps: seq<Step>, cache: seq<CachedStep>, from: nat, now: Time)
    requires |steps| == STEP_COUNT && cache == CacheOf(steps)
    ensures RequiredFailed(Swept(cache, from, FINALIZE_JOB)) <==> FailedAtRequired(steps)
  {
    var c := Swept(cache, from, FINALIZE_JOB);
    if FailedAtRequired(steps) {
      var r :| r in {0, 1, 4, 8} && steps[r].status == Failed;
      assert c[r].status == Failed && Required(r) && r != FINALIZE_JOB;
    }
    if RequiredFailed(c) {
      var i :| 0 <= i < |c| && i != FINALIZE_JOB && Required(i) && c[i].status.Failed?;
      assert i in {0, 1, 4, 8} && steps[i].status == Failed;
    }
  }

  /** And the verdict, from the rows it leaves. */
  lemma CloseDecides(s: System, w: WorkerId, configured: set<int>, now: Time)
    requires Inv(s) && Enabled(s, Close(w, configured, now))
    ensures var b := Apply(s, Close(w, configured, now)).jobs[s.workers[w].job];
            && |b.steps| == 10
            && b.status == (if FailedAtRequired(b.steps) then JobFailed
                            else if IncompleteAtOptional(b.steps) then JobPartialSuccess else JobSucceeded)
  {
    hide Apply, Enabled, JobOk;
    EventKeepsInv(s, Close(w, configured, now));
    CloseLeavesVerdict(s, w, configured, now);
  }

  lemma CloseLeavesVerdict(s: System, w: WorkerId, configured: set<int>, now: Time)
    requires Inv(s) && Enabled(s, Close(w, configured, now)) && Inv(Apply(s, Close(w, configured, now)))
    ensures var b := Apply(s, Close(w, configured, now)).jobs[s.workers[w].job];
            && |b.steps| == 10
            && b.status == (if FailedAtRequired(b.steps) then JobFailed
                            else if IncompleteAtOptional(b.steps) then JobPartialSuccess else JobSucceeded)
  {
    var b := Apply(s, Close(w, configured, now)).jobs[s.workers[w].job];
    assert JobOk(b) && Terminal(b.status);
    RequiredIsListed(b.steps);
  }

  /** A failed step with a retryable code stands at x or before. */
  ghost predicate FailedRetryablyUpTo(steps: seq<Step>, x: int) {
    exists i :: 0 <= i <= x && i < |steps| && steps[i].status == Failed && steps[i].error == RetryableCode
  }

  /** Admin retry: accepted for a failed step with a retryable code, and rewinding from the first such step. */
  lemma RetryWrites(s: System, j: JobId)
    requires j in s.jobs
    ensures Enabled(s, AdminRetry(j)) <==> FailedRetryablyUpTo(s.jobs[j].steps, |s.jobs[j].steps|)
    ensures Enabled(s, AdminRetry(j)) ==>
              var a, t := s.jobs[j], Apply(s, AdminRetry(j));
              var b := t.jobs[j];
              && OnlyJob(s, t, j) && t.workers == s.workers && b.status == JobPending && SameData(a, b)
              && |a.steps| == |b.steps|
              && forall x :: 0 <= x < |a.steps| ==>
                   var o := a.steps[x];
                   b.steps[x] ==
                   if !FailedRetryablyUpTo(a.steps, x) then o
                   else Step(Pending, o.attempts, NoError, None, o.heartbeatAt, o.progress)
  {
    hide FailedRetryablyUpTo;
    var a := s.jobs[j];
    var f := FirstRetryable(a.steps, 0);
    RetryableIsFirst(a.steps, |a.steps|);
    forall x | 0 <= x < |a.steps| ensures f <= x <==> FailedRetryablyUpTo(a.steps, x) {
      RetryableIsFirst(a.steps, x);
    }
  }

  lemma RetryableIsFirst(steps: seq<Step>, x: int)
    requires 0 <= x <= |steps|
    ensures FailedRetryablyUpTo(steps, x) <==> FirstRetryable(steps, 0) <= x && FirstRetryable(steps, 0) < |steps|
  {
    var f := FirstRetryable(steps, 0);
    if f < |steps| {
      assert RetryableFailure(steps[f]);
    }
    forall i | 0 <= i < f ensures !(steps[i].status == Failed && steps[i].error == RetryableCode) {
      assert !RetryableFailure(steps[i]);
    }
  }

  // ----- what the analysis handler reads --------------------------------------------------------------------------

  /** Skip unless collection succeeded and there is something; fail without a run; otherwise take the newest run. */
  lemma BindReads(s: System, w: WorkerId)
    requires Inv(s) && Enabled(s, Bind(w))
    ensures var p, t := s.workers[w], Apply(s, Bind(w));
            var a := s.jobs[p.job];
            var collected := if p.index == 5 then 2 else 3;
            var items := if p.index == 5 then a.comments else a.segments;
            && t.jobs == s.jobs && |a.steps| == 10
            && t.workers[w] ==
               p.(phase := if a.steps[collected].status != Succeeded || items == {} then NothingToAnalyze
                           else if a.runs == 0 then Handling else Bound(a.runs))
  {
    assert JobOk(s.jobs[s.workers[w].job]);
  }

  lemma LoadReads(s: System, w: WorkerId)
    requires Enabled(s, Load(w))
    ensures var p, t := s.workers[w], Apply(s, Load(w));
            var a := s.jobs[p.job];
            var items := if p.index == 5 then a.comments else a.segments;
            var rows := ResultRows(a, p.phase.run, if p.index == 5 then Comments else Script);
            && t.jobs == s.jobs
            && t.workers[w] == p.(phase := Loaded(p.phase.run, |items|, set x | x in items && x !in rows))
  {
    var p := s.workers[w];
    var a := s.jobs[p.job];
    var rows := Rows(a, p.phase.run, KindOf(p.index));
    var items := Sources(a, KindOf(p.index));
    assert items - rows.Keys == set x | x in items && x !in rows;
  }

  lemma CountReads(s: System, w: WorkerId)
    requires Enabled(s, Count(w))
    ensures var p, t := s.workers[w], Apply(s, Count(w));
            var rows := ResultRows(s.jobs[p.job], p.phase.run, if p.index == 5 then Comments else Script);
            && t.jobs == s.jobs && t.workers[w].InStep? && t.workers[w].phase.Counted?
            && t.workers[w].phase.succeeded == |set x | x in rows && rows[x].ok == true|
            && t.workers[w].phase.failed == |set x | x in rows && rows[x].ok == false|
            && t.workers[w].phase.total == p.phase.total && t.workers[w].phase.remaining == p.phase.remaining
  {
  }
}
