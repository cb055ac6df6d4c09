/**
 Many workers over one job table, as a transition system.

 One event is one committed transaction (or one read) of one worker, in any interleaving.  A worker may stop
 for any time and wake up later, may crash at any point, and recovery may judge any heartbeat stale.
 */
module Protocol {
  import opened JobModel

  /** Where an analysis handler stands between its own transactions. */
  datatype Phase =
    | Handling
    | NothingToAnalyze
    | Bound(run: nat)
    | Loaded(run: nat, total: nat, remaining: set<ItemId>)
    | Counted(run: nat, total: nat, remaining: set<ItemId>, closing: bool, succeeded: nat, failed: nat)
    | Persisting(run: nat, total: nat, remaining: set<ItemId>)
    | Analyzed(run: nat)

  datatype Worker =
    | Idle
    | Claimed(job: JobId)
    | Marked(job: JobId)
    | Looping(job: JobId, cache: seq<CachedStep>, cursor: nat)
    | Finalizing(job: JobId, cache: seq<CachedStep>)
    | InStep(job: JobId, cache: seq<CachedStep>, index: nat, attempt: nat, phase: Phase)

  datatype System = System(jobs: map<JobId, Job>, workers: map<WorkerId, Worker>)

  datatype Event =
    | Submit(j: JobId, now: Time)
    | Poll(w: WorkerId, staleBefore: Time, recovered: Option<JobId>, claimed: Option<JobId>)
    | MarkRunning(w: WorkerId)
    | LoadSteps(w: WorkerId)
    | Start(w: WorkerId, configured: set<int>, k: nat, now: Time)
    | Bind(w: WorkerId)
    | Load(w: WorkerId)
    | Count(w: WorkerId)
    | Adjust(w: WorkerId, now: Time)
    | Record(w: WorkerId, item: ItemId, outcome: Outcome, now: Time)
    | Beat(w: WorkerId, now: Time)
    | Finish(w: WorkerId, result: StepResult, artifacts: Artifacts, now: Time)
    | Release(w: WorkerId)
    | Close(w: WorkerId, configured: set<int>, now: Time)
    | Crash(w: WorkerId)
    | AdminRetry(j: JobId)

  function Actor(e: Event): Option<WorkerId> {
    match e
    case Submit(_, _) => None
    case AdminRetry(_) => None
    case _ => Some(e.w)
  }

  function CacheOf(steps: seq<Step>): seq<CachedStep> {
    seq(|steps|, i requires 0 <= i < |steps| => CachedStep(steps[i].status, steps[i].attempts))
  }

  /** Two moments of a worker inside one attempt of one step. */
  predicate SameAttempt(p: Worker, q: Worker) {
    && p.InStep? && q.InStep?
    && p.job == q.job && p.cache == q.cache && p.index == q.index && p.attempt == q.attempt
  }

  /** Sections in which a worker writes without any fence. */
  predicate Unfenced(w: Worker) {
    w.Claimed? || w.Marked? || w.Looping? || w.Finalizing?
  }

  /** The worker may change its job: it is in an unfenced section, or its attempt passes the fence. */
  predicate Owns(s: System, w: WorkerId, j: JobId) {
    && w in s.workers && j in s.jobs
    && var p := s.workers[w];
    && !p.Idle? && p.job == j
    && (Unfenced(p) || (p.InStep? && Fenced(s.jobs[j], p.index, p.attempt)))
  }

  /** An attempt that was started but can no longer pass the fence. */
  predicate Superseded(job: Job, i: nat, attempt: nat) {
    i < |job.steps| && attempt <= job.steps[i].attempts && !Fence(job.steps[i], attempt)
  }

  /** No position in [from, k) stops the run_job loop: it is not pending, or has no handler. */
  predicate Passed(cache: seq<CachedStep>, configured: set<int>, from: nat, k: nat) {
    forall x :: from <= x < k && x < |cache| && cache[x].status.Pending? ==> x !in configured
  }

  predicate MayFinish(phase: Phase, index: nat, status: StepStatus) {
    && Finished(status)
    && (IsAnalysis(index) ==>
          && (status.Succeeded? ==> phase.Analyzed?)
          && (status.Skipped? ==> phase.NothingToAnalyze?))
  }

  predicate Enabled(s: System, e: Event) {
    && (Actor(e).Some? ==>
          var w := Actor(e).value;
          w in s.workers && (s.workers[w].Idle? || s.workers[w].job in s.jobs))
    && match e
       case Submit(j, _) => j !in s.jobs
       case AdminRetry(j) => j in s.jobs && Retryable(s.jobs[j])
       case Poll(w, stale, r, c) =>
         && s.workers[w].Idle?
         && (r.Some? ==> r.value in s.jobs && Recoverable(s.jobs[r.value], stale))
         && (c.Some? ==> c.value in s.jobs && AfterRecovery(s, r)[c.value].status.JobPending?)
       case MarkRunning(w) => s.workers[w].Claimed?
       case LoadSteps(w) => s.workers[w].Marked?
       case Start(w, configured, k, _) =>
         var p := s.workers[w];
         && p.Looping? && p.cursor <= k < FINALIZE_JOB && k < |p.cache| && k in configured
         && p.cache[k].status.Pending? && Passed(p.cache, configured, p.cursor, k)
       case Bind(w) => var p := s.workers[w]; p.InStep? && p.phase.Handling? && IsAnalysis(p.index)
       case Load(w) => var p := s.workers[w]; p.InStep? && p.phase.Bound?
       case Count(w) =>
         var p := s.workers[w];
         p.InStep? && (p.phase.Loaded? || (p.phase.Persisting? && p.phase.remaining == {}))
       case Adjust(w, _) => var p := s.workers[w]; p.InStep? && p.phase.Counted?
       case Record(w, item, _, _) =>
         var p := s.workers[w]; p.InStep? && p.phase.Persisting? && item in p.phase.remaining
       case Beat(w, _) => var p := s.workers[w]; p.InStep? && p.phase.Persisting?
       case Finish(w, result, _, _) =>
         var p := s.workers[w]; p.InStep? && MayFinish(p.phase, p.index, result.status)
       case Release(w) => s.workers[w].InStep?
       case Close(w, configured, _) =>
         var p := s.workers[w];
         || (p.Finalizing? && |p.cache| == STEP_COUNT)
         || (p.Looping? && |p.cache| == STEP_COUNT && Passed(p.cache, configured, p.cursor, FINALIZE_JOB))
       case Crash(w) => true
  }

  function AfterRecovery(s: System, r: Option<JobId>): map<JobId, Job>
    requires r.Some? ==> r.value in s.jobs
  {
    if r.Some? then s.jobs[r.value := Recover(s.jobs[r.value])] else s.jobs
  }

  /** Worker w moves to p and its job's rows become job. */
  function Put(s: System, w: WorkerId, p: Worker, j: JobId, job: Job): System {
    System(s.jobs[j := job], s.workers[w := p])
  }

  function Move(s: System, w: WorkerId, p: Worker): System {
    s.(workers := s.workers[w := p])
  }

  function AfterStep(p: Worker, result: StepResult): Worker
    requires p.InStep? && p.index < |p.cache|
  {
    var cache := p.cache[p.index := CachedStep(result.status, p.attempt)];
    if !result.status.Succeeded? && Required(p.index) then Finalizing(p.job, cache)
    else Looping(p.job, cache, p.index + 1)
  }

  /** What the handler of an analysis step reads before it decides: collection finished, and something to analyze. */
  predicate Collected(job: Job, k: Kind) {
    && CollectStep(k) < |job.steps|
    && job.steps[CollectStep(k)].status.Succeeded?
    && Sources(job, k) != {}
  }

  function BindPhase(job: Job, index: nat): Phase {
    if !Collected(job, KindOf(index)) then NothingToAnalyze
    else if job.runs == 0 then Handling
    else Bound(job.runs)
  }

  function LoadPhase(job: Job, index: nat, run: nat): Phase {
    var sources := Sources(job, KindOf(index));
    Loaded(run, |sources|, sources - Rows(job, run, KindOf(index)).Keys)
  }

  function CountPhase(job: Job, index: nat, ph: Phase): Phase
    requires ph.Loaded? || ph.Persisting?
  {
    var rows := Rows(job, ph.run, KindOf(index));
    Counted(ph.run, ph.total, ph.remaining, ph.Persisting?, CountOk(rows, true), CountOk(rows, false))
  }

  function AdjustPhase(ph: Phase): Phase
    requires ph.Counted?
  {
    if ph.closing then Analyzed(ph.run) else Persisting(ph.run, ph.total, ph.remaining)
  }

  function RecordPhase(ph: Phase, item: ItemId): Phase
    requires ph.Persisting?
  {
    Persisting(ph.run, ph.total, ph.remaining - {item})
  }

  /** A fenced write by p that found its row superseded: the handler stops and the worker is free again. */
  function Fencing(s: System, w: WorkerId, p: Worker, ok: Worker, job: Job): System
    requires p.InStep? && p.job in s.jobs
  {
    if Fenced(s.jobs[p.job], p.index, p.attempt) then Put(s, w, ok, p.job, job) else Move(s, w, Idle)
  }

  function Apply(s: System, e: Event): System
    requires Enabled(s, e)
  {
    match e
    case Submit(j, now) => s.(jobs := s.jobs[j := NewJob(now)])
    case AdminRetry(j) => s.(jobs := s.jobs[j := Retry(s.jobs[j])])
    case Poll(w, _, r, c) =>
      var jobs := AfterRecovery(s, r);
      if c.None? then s.(jobs := jobs)
      else Put(s.(jobs := jobs), w, Claimed(c.value), c.value, jobs[c.value].(status := JobRunning))
    case MarkRunning(w) =>
      var j := s.workers[w].job;
      Put(s, w, Marked(j), j, s.jobs[j].(status := JobRunning))
    case LoadSteps(w) =>
      var j := s.workers[w].job;
      Move(s, w, Looping(j, CacheOf(s.jobs[j].steps), 0))
    case Start(w, configured, k, now) =>
      var p := s.workers[w];
      var attempt := p.cache[k].attempts + 1;
      var cache := Swept(p.cache, p.cursor, k)[k := CachedStep(Running, attempt)];
      Put(s, w, InStep(p.job, cache, k, attempt, Handling), p.job, StartStep(s.jobs[p.job], p.cache, p.cursor, k, now))
    case Bind(w) =>
      var p := s.workers[w];
      Move(s, w, p.(phase := BindPhase(s.jobs[p.job], p.index)))
    case Load(w) =>
      var p := s.workers[w];
      Move(s, w, p.(phase := LoadPhase(s.jobs[p.job], p.index, p.phase.run)))
    case Count(w) =>
      var p := s.workers[w];
      Move(s, w, p.(phase := CountPhase(s.jobs[p.job], p.index, p.phase)))
    case Adjust(w, now) =>
      var p := s.workers[w];
      Fencing(s, w, p, p.(phase := AdjustPhase(p.phase)),
        Reconcile(s.jobs[p.job], p.index, p.attempt, p.phase.total, p.phase.succeeded, p.phase.failed, now))
    case Record(w, item, o, now) =>
      var p := s.workers[w];
      Fencing(s, w, p, p.(phase := RecordPhase(p.phase, item)),
        Persist(s.jobs[p.job], p.index, p.attempt, p.phase.run, KindOf(p.index), item, o, now))
    case Beat(w, now) =>
      var p := s.workers[w];
      Fencing(s, w, p, p, Heartbeat(s.jobs[p.job], p.index, p.attempt, now))
    case Finish(w, result, artifacts, now) =>
      var p := s.workers[w];
      var next := if p.index < |p.cache| then AfterStep(p, result) else Idle;
      Fencing(s, w, p, next, FinishStep(s.jobs[p.job], p.index, p.attempt, result, artifacts, now))
    case Release(w) =>
      var p := s.workers[w];
      Fencing(s, w, p, Idle, ReleaseStep(s.jobs[p.job], p.index, p.attempt))
    case Close(w, _, now) =>
      var p := s.workers[w];
      Put(s, w, Idle, p.job, Finalize(s.jobs[p.job], p.cache, if p.Looping? then p.cursor else FINALIZE_JOB, now))
    case Crash(w) => Move(s, w, Idle)
  }

  // ----- runs ---------------------------------------------------------------------------------------

  /** No worker is inside an unfenced section of j. */
  predicate RetrySafe(s: System, j: JobId) {
    forall w :: w in s.workers && Unfenced(s.workers[w]) ==> s.workers[w].job != j
  }

  /** An event the operating rules admit: anything, except retrying a job some worker is between two steps of. */
  predicate Admissible(s: System, e: Event) {
    Enabled(s, e) && (e.AdminRetry? ==> RetrySafe(s, e.j))
  }

  predicate CanRun(s: System, es: seq<Event>)
    decreases |es|
  {
    es != [] ==> Admissible(s, es[0]) && CanRun(Apply(s, es[0]), es[1..])
  }

  function Exec(s: System, es: seq<Event>): System
    requires CanRun(s, es)
    decreases |es|
  {
    if es == [] then s else Exec(Apply(s, es[0]), es[1..])
  }

  predicate Init(s: System) {
    s.jobs == map[] && forall w :: w in s.workers ==> s.workers[w].Idle?
  }
}
