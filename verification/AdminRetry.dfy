/**
 Admin retry: what it rewinds, when it keeps a single owner, and what happens when it does not.
 */
module AdminRetry {
  import opened JobModel
  import opened Protocol
  import opened Safety
  import opened Preservation
  import opened Runs
  import opened Scenarios
  import Totals

  /** Retry leaves everything before the first retryable failure alone; all from there on waits, attempts kept. */
  lemma RetryRewindsSuffix(job: Job)
    requires JobOk(job) && Retryable(job)
    ensures var f, job' := FirstRetryable(job.steps, 0), Retry(job);
            && f < FINALIZE_JOB && job'.status.JobPending? && Shape(job'.steps)
            && job'.steps[..f] == job.steps[..f]
            && (forall x :: 0 <= x < f ==> Finished(job'.steps[x].status))
            && (forall x :: f <= x < STEP_COUNT ==>
                  job'.steps[x].status.Pending? && job'.steps[x].attempts == job.steps[x].attempts)
            && job'.results == job.results && Sources(job', Comments) == Sources(job, Comments) && job'.runs == job.runs
            && NoFailedRequired(job'.steps)
  {
    RetryOk(job);
  }

  // ----- when it is safe --------------------------------------------------------------------------------------

  /**
   retry_job does not look at the job status.  The next claimer is the only owner exactly when no worker is between two
   steps of the job.
   */
  lemma RetryIsSafeExactlyWhen(s: System, j: JobId, v: WorkerId)
    requires Inv(s) && j in s.jobs && Retryable(s.jobs[j]) && v in s.workers && s.workers[v].Idle?
    ensures var t := Apply(s, AdminRetry(j));
            && Enabled(t, Poll(v, 0, None, Some(j)))
            && var u := Apply(t, Poll(v, 0, None, Some(j)));
            RetrySafe(s, j) <==> forall w :: Owns(u, w, j) ==> w == v
  {
    var t := Apply(s, AdminRetry(j));
    var u := Apply(t, Poll(v, 0, None, Some(j)));
    RetryOk(s.jobs[j]);
    if !RetrySafe(s, j) {
      var w :| w in s.workers && Unfenced(s.workers[w]) && s.workers[w].job == j;
      assert Owns(u, w, j) && w != v;
    } else {
      forall w | Owns(u, w, j) ensures w == v {
      }
    }
  }

  /** The rows of a job whose worker, if it has one, is between two steps. */
  predicate BetweenRows(job: Job) {
    job.status.JobRunning? && forall i :: 0 <= i < |job.steps| ==> !job.steps[i].status.Running?
  }

  ghost predicate UnsafeWith(s: System, j: JobId, job: Job) {
    Inv(s) && j in s.jobs && s.jobs[j] == job && !RetrySafe(s, j)
  }

  /**
   What a caller can check before the call: the rows of a job admit an unsafe retry exactly when the job is running
   and none of its steps is.  In particular a closed job can always be retried.
   */
  lemma RowsAllowRetryExactlyWhen(j: JobId, job: Job)
    requires JobOk(job)
    ensures (exists s :: UnsafeWith(s, j, job)) <==> BetweenRows(job)
    ensures Terminal(job.status) ==> !BetweenRows(job)
  {
    if exists s :: UnsafeWith(s, j, job) {
      var s :| UnsafeWith(s, j, job);
      var w :| w in s.workers && Unfenced(s.workers[w]) && s.workers[w].job == j;
      assert WorkerOk(job, s.workers[w]);
    }
    if BetweenRows(job) {
      var p := Lurking(j, job);
      var s := System(map[j := job], map[0 := p]);
      assert WorkerOk(job, p);
      assert s.workers[0] == p && Unfenced(p);
      assert UnsafeWith(s, j, job);
    }
  }

  /** A worker that such rows may hide. */
  ghost function Lurking(j: JobId, job: Job): Worker {
    if NoFailedRequired(job.steps) then Claimed(j) else Finalizing(j, CacheOf(job.steps))
  }

  // ----- an unsafe retry --------------------------------------------------------------------------------------

  /**
   A run from the start, a retry that the endpoint accepts, and a run after it end with two workers inside the same
   attempt of the same step, both of which pass the fence.
   */
  ghost predicate SharedAttempt(s: System, es: seq<Event>, es': seq<Event>, j: JobId, v: WorkerId, w: WorkerId) {
    && Init(s) && CanRun(s, es) && Enabled(Exec(s, es), AdminRetry(j))
    && var t := Apply(Exec(s, es), AdminRetry(j));
    && CanRun(t, es')
    && var u := Exec(t, es');
    && v != w && Owns(u, v, j) && Owns(u, w, j)
    && u.workers[v].InStep? && u.workers[w].InStep?
    && u.workers[v].index == u.workers[w].index && u.workers[v].attempt == u.workers[w].attempt
  }

  /** The retry puts the comments back; the second worker collects them, while the first one is still there. */
  lemma SecondJoins(t: System)
    requires Between(t, FIRST, 3, Never()) && OnJob(t, SECOND, Idle) && CommentsFailed(t.jobs[SOME_JOB])
    ensures Enabled(t, AdminRetry(SOME_JOB)) && SOME_JOB in Apply(t, AdminRetry(SOME_JOB)).jobs
    ensures var r := Apply(t, AdminRetry(SOME_JOB));
            var es := Claiming(SECOND) + Both(SECOND, 2, OK, NOTHING);
            && CanRun(r, es)
            && var u, tries := Exec(r, es), Tries(r.jobs[SOME_JOB]);
            && Between(u, SECOND, 3, tries) && tries[3] == 0
            && OnJob(u, FIRST, t.workers[FIRST])
  {
    hide CanRun, Exec;
    var r := Retried(t);
    var tries := Tries(r.jobs[SOME_JOB]);
    RejoinsAt2(r, tries);
  }

  /** The rows after a retry that goes back to collecting comments. */
  lemma Retried(t: System) returns (r: System)
    requires OnJob(t, SECOND, Idle) && CommentsFailed(t.jobs[SOME_JOB])
    ensures Enabled(t, AdminRetry(SOME_JOB)) && r == Apply(t, AdminRetry(SOME_JOB))
    ensures OnJob(r, SECOND, Idle) && r.workers == t.workers
    ensures var job := r.jobs[SOME_JOB];
            && job.status.JobPending? && job.segments == t.jobs[SOME_JOB].segments
            && Waiting(job, 2, Tries(job)) && Tries(job) == Tries(t.jobs[SOME_JOB])
            && job.steps[0].status.Succeeded? && job.steps[1].status.Succeeded?
  {
    r := Apply(t, AdminRetry(SOME_JOB));
  }

  /** The second worker claims the job that waits again and collects the comments. */
  lemma RejoinsAt2(r: System, tries: seq<nat>)
    requires OnJob(r, SECOND, Idle) && r.jobs[SOME_JOB].status.JobPending?
    requires Waiting(r.jobs[SOME_JOB], 2, tries)
    requires r.jobs[SOME_JOB].steps[0].status.Succeeded? && r.jobs[SOME_JOB].steps[1].status.Succeeded?
    ensures var es := Claiming(SECOND) + Both(SECOND, 2, OK, NOTHING);
            && CanRun(r, es)
            && var u := Exec(r, es);
            && Between(u, SECOND, 3, tries) && u.jobs[SOME_JOB].segments == r.jobs[SOME_JOB].segments
            && (forall v :: v in r.workers && v != SECOND ==> v in u.workers && u.workers[v] == r.workers[v])
  {
    hide CanRun, Exec, Apply, Enabled;
    ClaimsAndLoads(r, SECOND);
    var c := Exec(r, Claiming(SECOND));
    RunsOneStep(c, SECOND, c.workers[SECOND].cache, 0, 2, OK, NOTHING, tries);
    RunsConcat(r, Claiming(SECOND), Both(SECOND, 2, OK, NOTHING));
  }

  /** Both then start the next step under one attempt number. */
  lemma BothStart(u: System, tries: seq<nat>)
    requires Between(u, SECOND, 3, tries) && tries[3] == 0 && FIRST in u.workers
    requires u.workers[FIRST].Looping? && u.workers[FIRST].job == SOME_JOB && u.workers[FIRST].cursor == 3
    requires WaitingCache(u.workers[FIRST].cache, 3, Never())
    ensures var es := [Start(FIRST, CONFIGURED, 3, 0), Start(SECOND, CONFIGURED, 3, 0)];
            && CanRun(u, es)
            && var x := Exec(u, es);
            && Owns(x, FIRST, SOME_JOB) && Owns(x, SECOND, SOME_JOB)
            && x.workers[FIRST].InStep? && x.workers[SECOND].InStep?
            && x.workers[FIRST].index == x.workers[SECOND].index
            && x.workers[FIRST].attempt == x.workers[SECOND].attempt
  {
    TwoEvents(u, Start(FIRST, CONFIGURED, 3, 0), Start(SECOND, CONFIGURED, 3, 0));
  }

  /** The input that breaks single ownership: a retry accepted while the job's worker is between two steps. */
  lemma RetryCanShareAnAttempt()
    ensures exists s, es, es', j, v, w :: SharedAttempt(s, es, es', j, v, w)
  {
    hide CanRun, Exec, Apply, Enabled;
    FailsOnce();
    var t := Exec(Empty(), ToFailure());
    SecondJoins(t);
    var r := Apply(t, AdminRetry(SOME_JOB));
    var es1 := Claiming(SECOND) + Both(SECOND, 2, OK, NOTHING);
    var es2 := [Start(FIRST, CONFIGURED, 3, 0), Start(SECOND, CONFIGURED, 3, 0)];
    BothStart(Exec(r, es1), Tries(r.jobs[SOME_JOB]));
    RunsConcat(r, es1, es2);
    assert SharedAttempt(Empty(), ToFailure(), es1 + es2, SOME_JOB, FIRST, SECOND);
  }

  /** Two runs from the start that end in the same rows, of which only one allows a safe retry. */
  ghost predicate SameRows(s: System, es: seq<Event>, es': seq<Event>, j: JobId) {
    && Init(s) && CanRun(s, es) && CanRun(s, es')
    && Exec(s, es).jobs == Exec(s, es').jobs && j in Exec(s, es).jobs
    && Retryable(Exec(s, es).jobs[j]) && BetweenRows(Exec(s, es).jobs[j])
    && RetrySafe(Exec(s, es), j) && !RetrySafe(Exec(s, es'), j)
  }

  /** So no better test of the rows exists: where they say running without a running step, both are reachable. */
  lemma RowsCannotTell()
    ensures exists s, es, es', j :: SameRows(s, es, es', j)
  {
    hide CanRun, Exec;
    FailsOnce();
    var t := Exec(Empty(), ToFailure());
    RunKeepsInv(Empty(), ToFailure());
    assert WorkerOk(t.jobs[SOME_JOB], t.workers[FIRST]);
    OneEvent(t, Crash(FIRST));
    RunsConcat(Empty(), ToFailure(), [Crash(FIRST)]);
    CrashFrees(t);
    assert !RetrySafe(t, SOME_JOB);
    assert SameRows(Empty(), ToFailure() + [Crash(FIRST)], ToFailure(), SOME_JOB);
  }

  lemma CrashFrees(t: System)
    requires Inv(t) && Between(t, FIRST, 3, Never())
    ensures RetrySafe(Apply(t, Crash(FIRST)), SOME_JOB)
  {
    OwnerIsAlone(t, FIRST, SOME_JOB);
    var u := Apply(t, Crash(FIRST));
    forall w | w in u.workers && Unfenced(u.workers[w]) ensures u.workers[w].job != SOME_JOB {
      assert w != FIRST && !Owns(t, w, SOME_JOB);
    }
  }

  // ----- a second transcript ----------------------------------------------------------------------------------

  /** A retry makes a collected transcript wait again exactly when comment collection had failed retryably. */
  lemma TranscriptWaitsAgainExactlyWhen(job: Job)
    requires JobOk(job) && Retryable(job) && job.steps[COLLECT_TRANSCRIPT].status.Succeeded?
    ensures Retry(job).steps[COLLECT_TRANSCRIPT].status.Pending? <==> RetryableFailure(job.steps[COLLECT_COMMENTS])
  {
    var f := FirstRetryable(job.steps, 0);
    forall a | 0 <= a < COLLECT_COMMENTS ensures !RetryableFailure(job.steps[a]) {
      assert RetryableFailure(job.steps[a]) ==> FailedRequired(job.steps, a);
    }
    assert f <= COLLECT_TRANSCRIPT <==> f == COLLECT_COMMENTS;
  }

  /**
   When any later attempt collects such a transcript again, its segments join the ones already there; with new segments
   the job then has more of them than one transcript has.
   */
  lemma SecondTranscriptIsAdded(s: System, j: JobId, es: seq<Event>, e: Event)
    requires Inv(s) && j in s.jobs && Retryable(s.jobs[j]) && RetrySafe(s, j)
    requires var steps := s.jobs[j].steps;
             && |steps| == STEP_COUNT && steps[COLLECT_TRANSCRIPT].status.Succeeded?
             && RetryableFailure(steps[COLLECT_COMMENTS])
    requires var t := Apply(s, AdminRetry(j));
             CanRun(t, es) && e.Finish? && Enabled(Exec(t, es), e) && e.result.status.Succeeded?
    requires var u := Exec(Apply(s, AdminRetry(j)), es);
             var p := u.workers[e.w];
             p.job == j && p.index == COLLECT_TRANSCRIPT && Fenced(u.jobs[j], p.index, p.attempt)
    ensures Apply(s, AdminRetry(j)).jobs[j].steps[COLLECT_TRANSCRIPT].status.Pending?
    ensures var u := Exec(Apply(s, AdminRetry(j)), es);
            var after := Apply(u, e).jobs[j];
            && s.jobs[j].segments <= u.jobs[j].segments
            && after.segments == u.jobs[j].segments + e.artifacts.segments
            && (e.artifacts.segments !! u.jobs[j].segments ==>
                  |after.segments| >= |s.jobs[j].segments| + |e.artifacts.segments|)
  {
    hide CanRun, Exec, JobOk, WorkerOk, Apart;
    TranscriptWaitsAgainExactlyWhen(s.jobs[j]);
    var t := Apply(s, AdminRetry(j));
    EventKeepsInv(s, AdminRetry(j));
    RunKeepsInv(t, es);
    assert Evolves(t.jobs[j], Exec(t, es).jobs[j]);
    Totals.SubsetSize(s.jobs[j].segments, Exec(t, es).jobs[j].segments);
  }

  /** A closed job with a collected transcript, an accepted retry, and the same job with two transcripts' segments. */
  ghost predicate CollectedTwice(
    s: System, es: seq<Event>, es': seq<Event>, j: JobId, a: set<ItemId>, b: set<ItemId>)
  {
    && Init(s) && CanRun(s, es) && Admissible(Exec(s, es), AdminRetry(j))
    && Terminal(Exec(s, es).jobs[j].status) && Transcribed(Exec(s, es).jobs[j], a)
    && var r := Apply(Exec(s, es), AdminRetry(j));
    && CanRun(r, es') && j in Exec(r, es').jobs && Transcribed(Exec(r, es').jobs[j], a + b)
    && a != {} && b != {} && a !! b
  }

  ghost predicate Transcribed(job: Job, segments: set<ItemId>) {
    && |job.steps| == STEP_COUNT && job.steps[COLLECT_TRANSCRIPT].status.Succeeded? && job.segments == segments
  }

  function Captions(n: int): Artifacts {
    Artifacts({}, {ItemId(n)})
  }

  function ToClosed(): seq<Event> {
    ToFailure() + Both(FIRST, 3, OK, Captions(1)) + [Close(FIRST, COLLECTORS, 0)]
  }

  /** Comments fail, the transcript is collected, and the job is closed. */
  lemma ClosesWithTranscript()
    ensures CanRun(Empty(), ToClosed())
    ensures var t := Exec(Empty(), ToClosed());
            && OnJob(t, SECOND, Idle) && Terminal(t.jobs[SOME_JOB].status) && CommentsFailed(t.jobs[SOME_JOB])
            && Transcribed(t.jobs[SOME_JOB], {ItemId(1)})
  {
    hide CanRun, Exec, Apply, Enabled;
    var s := Empty();
    FailsOnce();
    var t := Exec(s, ToFailure());
    GoesOn(t, FIRST, 3, OK, Captions(1), Never());
    RunsConcat(s, ToFailure(), Both(FIRST, 3, OK, Captions(1)));
    var es := ToFailure() + Both(FIRST, 3, OK, Captions(1));
    var u := Exec(s, es);
    PrefixRows(t.jobs[SOME_JOB], u.jobs[SOME_JOB], 3);
    RunKeepsInv(s, es);
    Closes(u, FIRST, 4, Never());
    OneEvent(u, Close(FIRST, COLLECTORS, 0));
    RunsConcat(s, es, [Close(FIRST, COLLECTORS, 0)]);
  }

  /** The input that shows it: the retry of that closed job collects the captions a second time. */
  lemma TranscriptCanBeCollectedTwice()
    ensures exists s, es, es', j, a, b :: CollectedTwice(s, es, es', j, a, b)
  {
    hide CanRun, Exec, Apply, Enabled;
    var s := Empty();
    ClosesWithTranscript();
    var t := Exec(s, ToClosed());
    assert Init(s);
    ClosedIsSafe(s, ToClosed(), SOME_JOB);
    var r := Retried(t);
    var tries := Tries(r.jobs[SOME_JOB]);
    RejoinsAt2(r, tries);
    var es := Claiming(SECOND) + Both(SECOND, 2, OK, NOTHING);
    var u := Exec(r, es);
    GoesOn(u, SECOND, 3, OK, Captions(2), tries);
    RunsConcat(r, es, Both(SECOND, 3, OK, Captions(2)));
    assert CollectedTwice(s, ToClosed(), es + Both(SECOND, 3, OK, Captions(2)), SOME_JOB, {ItemId(1)}, {ItemId(2)});
  }

  /** A closed job can always be retried safely. */
  lemma ClosedIsSafe(s: System, es: seq<Event>, j: JobId)
    requires Init(s) && CanRun(s, es) && j in Exec(s, es).jobs && Terminal(Exec(s, es).jobs[j].status)
    ensures RetrySafe(Exec(s, es), j)
  {
    hide CanRun, Exec;
    RunKeepsInv(s, es);
    var t := Exec(s, es);
    forall w | w in t.workers && Unfenced(t.workers[w]) ensures t.workers[w].job != j {
      assert WorkerOk(t.jobs[t.workers[w].job], t.workers[w]);
    }
  }
}
