/**
 Concrete runs from an empty table: one job, two workers, a few steps.  They are the inputs that show where the code
 promises less than it seems to.
 */
module Scenarios {
  import opened JobModel
  import opened Protocol
  import opened Safety
  import opened Runs

  const FIRST: WorkerId := 1
  const SECOND: WorkerId := 2
  const SOME_JOB: JobId := 0
  const NOTHING := Artifacts({}, {})

  /** The positions that have a handler while steps are run, and fewer of them where a job is closed early. */
  const CONFIGURED: set<int> := {1, 2, 3, 4, 5, 6, 7, 8}
  const COLLECTORS: set<int> := {1, 2, 3}

  /** A step that runs no analysis. */
  predicate Plain(k: nat) {
    k == 1 || k == 2 || k == 3 || k == 4 || k == 7 || k == 8
  }

  /** How often each step was started. */
  function Tries(job: Job): seq<nat> {
    seq(|job.steps|, i requires 0 <= i < |job.steps| => job.steps[i].attempts)
  }

  /** From this position on, every step waits and was started that often. */
  ghost predicate Waiting(job: Job, from: nat, tries: seq<nat>) {
    && |job.steps| == |tries| == STEP_COUNT
    && forall i :: from <= i < STEP_COUNT ==> job.steps[i].status.Pending? && job.steps[i].attempts == tries[i]
  }

  ghost predicate WaitingCache(cache: seq<CachedStep>, from: nat, tries: seq<nat>) {
    |cache| == |tries| == STEP_COUNT && forall i :: from <= i < STEP_COUNT ==> cache[i] == CachedStep(Pending, tries[i])
  }

  ghost predicate OnJob(s: System, w: WorkerId, p: Worker) {
    SOME_JOB in s.jobs && w in s.workers && s.workers[w] == p
  }

  /** Worker w is between two steps of the job, at this position, with everything waiting from there on. */
  ghost predicate Between(s: System, w: WorkerId, cursor: nat, tries: seq<nat>) {
    && SOME_JOB in s.jobs && w in s.workers
    && s.workers[w].Looping? && s.workers[w].job == SOME_JOB && s.workers[w].cursor == cursor
    && WaitingCache(s.workers[w].cache, cursor, tries) && Waiting(s.jobs[SOME_JOB], cursor, tries)
  }

  // ----- runs of two and three events ---------------------------------------------------------------------------

  lemma TwoEvents(s: System, e: Event, f: Event)
    requires Admissible(s, e) && Admissible(Apply(s, e), f)
    ensures CanRun(s, [e, f]) && Exec(s, [e, f]) == Apply(Apply(s, e), f)
  {
    hide Apply, Enabled, RetrySafe, CanRun, Exec;
    OneEvent(s, e);
    OneEvent(Apply(s, e), f);
    RunsConcat(s, [e], [f]);
    assert [e] + [f] == [e, f];
  }

  lemma ThreeEvents(s: System, e: Event, f: Event, g: Event)
    requires Admissible(s, e) && Admissible(Apply(s, e), f) && Admissible(Apply(Apply(s, e), f), g)
    ensures CanRun(s, [e, f, g]) && Exec(s, [e, f, g]) == Apply(Apply(Apply(s, e), f), g)
  {
    hide Apply, Enabled, RetrySafe, CanRun, Exec;
    OneEvent(s, e);
    TwoEvents(Apply(s, e), f, g);
    RunsConcat(s, [e], [f, g]);
    assert [e] + [f, g] == [e, f, g];
  }

  // ----- one step -------------------------------------------------------------------------------------------------

  /** Everything but worker w and the rows from step k on stays as it was. */
  ghost predicate SameBut(s: System, t: System, w: WorkerId, k: nat) {
    && SOME_JOB in s.jobs && SOME_JOB in t.jobs
    && k <= |s.jobs[SOME_JOB].steps| && k <= |t.jobs[SOME_JOB].steps|
    && t.jobs[SOME_JOB].steps[..k] == s.jobs[SOME_JOB].steps[..k]
    && t.jobs[SOME_JOB].status == s.jobs[SOME_JOB].status
    && forall v :: v in s.workers && v != w ==> v in t.workers && t.workers[v] == s.workers[v]
  }

  /** Worker w is in its current attempt of step k, with everything behind it waiting. */
  ghost predicate InAttempt(s: System, w: WorkerId, k: nat, tries: seq<nat>) {
    && SOME_JOB in s.jobs && w in s.workers && s.workers[w].InStep? && s.workers[w].job == SOME_JOB
    && s.workers[w].index == k && s.workers[w].phase.Handling?
    && WaitingCache(s.workers[w].cache, k + 1, tries) && Waiting(s.jobs[SOME_JOB], k + 1, tries)
    && Fenced(s.jobs[SOME_JOB], k, s.workers[w].attempt)
  }

  lemma StartsStep(s: System, w: WorkerId, cache: seq<CachedStep>, cursor: nat, k: nat, tries: seq<nat>)
    requires OnJob(s, w, Looping(SOME_JOB, cache, cursor)) && cursor <= k && Plain(k)
    requires Waiting(s.jobs[SOME_JOB], k, tries) && WaitingCache(cache, k, tries)
    requires forall i :: cursor <= i < k ==> !cache[i].status.Pending?
    ensures Enabled(s, Start(w, CONFIGURED, k, 0))
    ensures var t := Apply(s, Start(w, CONFIGURED, k, 0));
            && InAttempt(t, w, k, tries) && SameBut(s, t, w, k)
            && Grew(s.jobs[SOME_JOB], t.jobs[SOME_JOB], 0, OK, NOTHING)
  {
    var t := Apply(s, Start(w, CONFIGURED, k, 0));
    assert t.jobs[SOME_JOB].steps[..k] == s.jobs[SOME_JOB].steps[..k];
  }

  /** What a finished step adds: comments, the segments of a transcript, a run. */
  ghost predicate Grew(a: Job, b: Job, k: nat, result: StepResult, new_: Artifacts) {
    && b.results == a.results
    && b.comments == (if k == 2 then a.comments + new_.comments else a.comments)
    && b.segments == (if k == 3 && result.status.Succeeded? then a.segments + new_.segments else a.segments)
    && b.runs == (if k == 4 && result.status.Succeeded? then a.runs + 1 else a.runs)
  }

  lemma EndsStep(s: System, w: WorkerId, k: nat, result: StepResult, new_: Artifacts, tries: seq<nat>)
    requires InAttempt(s, w, k, tries) && Plain(k)
    requires result.status.Succeeded? || (Finished(result.status) && !Required(k))
    ensures Enabled(s, Finish(w, result, new_, 0))
    ensures var t := Apply(s, Finish(w, result, new_, 0));
            && Between(t, w, k + 1, tries) && SameBut(s, t, w, k)
            && t.jobs[SOME_JOB].steps[k].status == result.status && t.jobs[SOME_JOB].steps[k].error == result.error
            && Grew(s.jobs[SOME_JOB], t.jobs[SOME_JOB], k, result, new_)
  {
    var t := Apply(s, Finish(w, result, new_, 0));
    assert t.jobs[SOME_JOB].steps[..k] == s.jobs[SOME_JOB].steps[..k];
  }

  function Both(w: WorkerId, k: nat, result: StepResult, new_: Artifacts): seq<Event> {
    [Start(w, CONFIGURED, k, 0), Finish(w, result, new_, 0)]
  }

  /** A worker runs step k, whose handler ends with `result`, and goes on. */
  lemma RunsOneStep(
    s: System, w: WorkerId, cache: seq<CachedStep>, cursor: nat, k: nat, result: StepResult, new_: Artifacts,
    tries: seq<nat>)
    requires OnJob(s, w, Looping(SOME_JOB, cache, cursor)) && cursor <= k && Plain(k)
    requires Waiting(s.jobs[SOME_JOB], k, tries) && WaitingCache(cache, k, tries)
    requires forall i :: cursor <= i < k ==> !cache[i].status.Pending?
    requires result.status.Succeeded? || (Finished(result.status) && !Required(k))
    ensures CanRun(s, Both(w, k, result, new_))
    ensures var u := Exec(s, Both(w, k, result, new_));
            && Between(u, w, k + 1, tries) && SameBut(s, u, w, k)
            && u.jobs[SOME_JOB].steps[k].status == result.status && u.jobs[SOME_JOB].steps[k].error == result.error
            && Grew(s.jobs[SOME_JOB], u.jobs[SOME_JOB], k, result, new_)
  {
    hide CanRun, Exec, Apply, Enabled, InAttempt, Between;
    StartsStep(s, w, cache, cursor, k, tries);
    EndsStep(Apply(s, Start(w, CONFIGURED, k, 0)), w, k, result, new_, tries);
    TwoEvents(s, Start(w, CONFIGURED, k, 0), Finish(w, result, new_, 0));
  }

  /** The same from one state between two steps to the next. */
  lemma GoesOn(s: System, w: WorkerId, k: nat, result: StepResult, new_: Artifacts, tries: seq<nat>)
    requires Between(s, w, k, tries) && Plain(k)
    requires result.status.Succeeded? || (Finished(result.status) && !Required(k))
    ensures CanRun(s, Both(w, k, result, new_))
    ensures var u := Exec(s, Both(w, k, result, new_));
            && Between(u, w, k + 1, tries) && SameBut(s, u, w, k)
            && u.jobs[SOME_JOB].steps[k].status == result.status && u.jobs[SOME_JOB].steps[k].error == result.error
            && Grew(s.jobs[SOME_JOB], u.jobs[SOME_JOB], k, result, new_)
  {
    hide CanRun, Exec;
    RunsOneStep(s, w, s.workers[w].cache, k, k, result, new_, tries);
  }

  // ----- claiming -------------------------------------------------------------------------------------------------

  function Claiming(w: WorkerId): seq<Event> {
    [Poll(w, 0, None, Some(SOME_JOB)), MarkRunning(w), LoadSteps(w)]
  }

  /** An idle worker claims the waiting job and loads its steps. */
  lemma ClaimsAndLoads(s: System, w: WorkerId)
    requires OnJob(s, w, Idle) && s.jobs[SOME_JOB].status.JobPending?
    ensures CanRun(s, Claiming(w))
    ensures var u, job := Exec(s, Claiming(w)), s.jobs[SOME_JOB];
            && OnJob(u, w, Looping(SOME_JOB, CacheOf(job.steps), 0)) && u.jobs[SOME_JOB] == job.(status := JobRunning)
            && (forall v :: v in s.workers && v != w ==> v in u.workers && u.workers[v] == s.workers[v])
  {
    hide CanRun, Exec;
    ThreeEvents(s, Poll(w, 0, None, Some(SOME_JOB)), MarkRunning(w), LoadSteps(w));
  }

  function Never(): seq<nat> {
    Tries(NewJob(0))[0 := 0]
  }

  /** An empty table with two workers. */
  function Empty(): System {
    System(map[], map[FIRST := Idle, SECOND := Idle])
  }

  function Opening(): seq<Event> {
    [Submit(SOME_JOB, 0)] + Claiming(FIRST)
  }

  /** The job is submitted, and the first worker has claimed it. */
  lemma Opens()
    ensures Init(Empty()) && CanRun(Empty(), Opening())
    ensures var t := Exec(Empty(), Opening());
            && OnJob(t, FIRST, Looping(SOME_JOB, CacheOf(NewJob(0).steps), 0)) && OnJob(t, SECOND, Idle)
            && t.jobs[SOME_JOB] == NewJob(0).(status := JobRunning)
            && Waiting(t.jobs[SOME_JOB], 1, Never()) && WaitingCache(CacheOf(NewJob(0).steps), 1, Never())
            && NewJob(0).steps[0].status.Succeeded?
  {
    hide CanRun, Exec;
    var s := Empty();
    OneEvent(s, Submit(SOME_JOB, 0));
    ClaimsAndLoads(Apply(s, Submit(SOME_JOB, 0)), FIRST);
    RunsConcat(s, [Submit(SOME_JOB, 0)], Claiming(FIRST));
  }

  const OK := StepResult(Succeeded, NoError)
  const RETRYABLE := StepResult(Failed, RetryableCode)

  function ToFailure(): seq<Event> {
    Opening() + Both(FIRST, 1, OK, NOTHING) + Both(FIRST, 2, RETRYABLE, NOTHING)
  }

  /** What the rows in front show. */
  ghost predicate CommentsFailed(job: Job) {
    && |job.steps| == STEP_COUNT && job.steps[0].status.Succeeded? && job.steps[1].status.Succeeded?
    && RetryableFailure(job.steps[2])
  }

  /** The first worker collects metadata, fails to collect comments in a retryable way, and is between two steps. */
  lemma FailsOnce()
    ensures Init(Empty()) && CanRun(Empty(), ToFailure())
    ensures var t := Exec(Empty(), ToFailure());
            && Between(t, FIRST, 3, Never()) && OnJob(t, SECOND, Idle) && t.jobs[SOME_JOB].status.JobRunning?
            && CommentsFailed(t.jobs[SOME_JOB]) && t.jobs[SOME_JOB].segments == {}
  {
    hide CanRun, Exec, Apply, Enabled;
    var s := Empty();
    Opens();
    var b := Exec(s, Opening());
    RunsOneStep(b, FIRST, b.workers[FIRST].cache, 0, 1, OK, NOTHING, Never());
    RunsConcat(s, Opening(), Both(FIRST, 1, OK, NOTHING));
    var es := Opening() + Both(FIRST, 1, OK, NOTHING);
    var c := Exec(s, es);
    GoesOn(c, FIRST, 2, RETRYABLE, NOTHING, Never());
    RunsConcat(s, es, Both(FIRST, 2, RETRYABLE, NOTHING));
    var d := Exec(s, ToFailure());
    PrefixRows(b.jobs[SOME_JOB], c.jobs[SOME_JOB], 1);
    PrefixRows(c.jobs[SOME_JOB], d.jobs[SOME_JOB], 2);
  }

  lemma PrefixRows(a: Job, b: Job, k: nat)
    requires k <= |a.steps| && k <= |b.steps| && a.steps[..k] == b.steps[..k]
    ensures forall i :: 0 <= i < k ==> a.steps[i] == b.steps[i]
  {
    forall i | 0 <= i < k ensures a.steps[i] == b.steps[i] {
      assert a.steps[i] == a.steps[..k][i];
    }
  }

  // ----- closing --------------------------------------------------------------------------------------------------

  /** A worker that has passed all steps with handlers closes the job; the rows it passed stay as they are. */
  lemma Closes(s: System, w: WorkerId, cursor: nat, tries: seq<nat>)
    requires Inv(s) && Between(s, w, cursor, tries) && 4 <= cursor <= FINALIZE_JOB
    ensures Enabled(s, Close(w, COLLECTORS, 0))
    ensures var t := Apply(s, Close(w, COLLECTORS, 0));
            && OnJob(t, w, Idle) && Terminal(t.jobs[SOME_JOB].status)
            && (forall v :: v in s.workers && v != w ==> v in t.workers && t.workers[v] == s.workers[v])
            && |t.jobs[SOME_JOB].steps| == STEP_COUNT
            && (forall i :: 0 <= i < cursor ==> t.jobs[SOME_JOB].steps[i] == s.jobs[SOME_JOB].steps[i])
            && t.jobs[SOME_JOB].segments == s.jobs[SOME_JOB].segments
  {
    var job := s.jobs[SOME_JOB];
    assert WorkerOk(job, s.workers[w]);
    var t := Apply(s, Close(w, COLLECTORS, 0));
    forall i | 0 <= i < cursor ensures t.jobs[SOME_JOB].steps[i] == job.steps[i] {
      assert Finished(job.steps[i].status);
    }
  }
}
