/**
 The rows of one analysis job and the SQL transactions that change them.

 A job owns its ten steps (always listed in pipeline order), the comment and transcript rows that
 collection stores, the analysis runs it has opened and the result rows of those runs.  Every function
 below is one committed transaction, seen from the tables.
 */
module JobModel {

  datatype Option<+T> = None | Some(value: T)

  type JobId = int
  type WorkerId = int
  type Time = int

  /** The primary key of a comment snapshot or transcript segment. */
  datatype ItemId = ItemId(uuid: int)

  datatype StepStatus = Pending | Running | Succeeded | Failed | Skipped

  datatype JobStatus = JobPending | JobRunning | JobSucceeded | JobPartialSuccess | JobFailed

  datatype Kind = Comments | Script

  /** An error code, as far as admin retry tells codes apart. */
  datatype ErrorCode = NoError | RetryableCode | OtherCode

  /** The outcome stored for one item: its status and an opaque payload. */
  datatype Outcome = Outcome(ok: bool, payload: int)

  datatype Progress = Progress(total: Option<nat>, completed: nat, succeeded: nat, failed: nat)

  datatype Step = Step(
    status: StepStatus,
    attempts: nat,
    error: ErrorCode,
    startedAt: Option<Time>,
    heartbeatAt: Option<Time>,
    progress: Progress)

  datatype RunKey = RunKey(run: nat, kind: Kind)

  /** `runs` counts the analysis runs created so far; the newest one has that number. */
  datatype Job = Job(
    status: JobStatus,
    steps: seq<Step>,
    comments: set<ItemId>,
    segments: set<ItemId>,
    runs: nat,
    results: map<RunKey, map<ItemId, Outcome>>)

  /** The columns of a step that a worker keeps in its session after loading the list once. */
  datatype CachedStep = CachedStep(status: StepStatus, attempts: nat)

  /** What a step handler returns. */
  datatype StepResult = StepResult(status: StepStatus, error: ErrorCode)

  /** Rows a handler adds in the transaction that also finishes its step. */
  datatype Artifacts = Artifacts(comments: set<ItemId>, segments: set<ItemId>)

  // The pipeline: positions of the steps in DEFAULT_JOB_STEPS.
  const VALIDATE_INPUT := 0
  const COLLECT_METADATA := 1
  const COLLECT_COMMENTS := 2
  const COLLECT_TRANSCRIPT := 3
  const CREATE_ANALYSIS_RUN := 4
  const ANALYZE_COMMENTS := 5
  const ANALYZE_SCRIPT := 6
  const BUILD_COMMENT_NETWORK := 7
  const BUILD_REPORT_SNAPSHOT := 8
  const FINALIZE_JOB := 9
  const STEP_COUNT := 10

  predicate Required(i: int) {
    i !in {COLLECT_COMMENTS, COLLECT_TRANSCRIPT, ANALYZE_COMMENTS, ANALYZE_SCRIPT, BUILD_COMMENT_NETWORK}
  }

  predicate IsAnalysis(i: int) {
    i == ANALYZE_COMMENTS || i == ANALYZE_SCRIPT
  }

  function KindOf(i: int): Kind {
    if i == ANALYZE_COMMENTS then Comments else Script
  }

  function AnalyzeStep(k: Kind): nat {
    if k.Comments? then ANALYZE_COMMENTS else ANALYZE_SCRIPT
  }

  function CollectStep(k: Kind): nat {
    if k.Comments? then COLLECT_COMMENTS else COLLECT_TRANSCRIPT
  }

  predicate Finished(s: StepStatus) {
    s.Succeeded? || s.Failed? || s.Skipped?
  }

  predicate Terminal(s: JobStatus) {
    s.JobSucceeded? || s.JobPartialSuccess? || s.JobFailed?
  }

  /** The fencing test: the row is still `running` under the attempt number the writer was given. */
  predicate Fence(step: Step, attempt: nat) {
    step.status.Running? && step.attempts == attempt
  }

  predicate Fenced(job: Job, i: nat, attempt: nat) {
    i < |job.steps| && Fence(job.steps[i], attempt)
  }

  function Sources(job: Job, k: Kind): set<ItemId> {
    if k.Comments? then job.comments else job.segments
  }

  function Rows(job: Job, run: nat, k: Kind): map<ItemId, Outcome> {
    if RunKey(run, k) in job.results then job.results[RunKey(run, k)] else map[]
  }

  function CountOk(rows: map<ItemId, Outcome>, ok: bool): nat {
    |set x | x in rows && rows[x].ok == ok|
  }

  /** The counters of a step say exactly what the result rows say. */
  predicate ProgressExact(p: Progress, rows: map<ItemId, Outcome>, total: nat) {
    p == Progress(Some(total), |rows|, CountOk(rows, true), CountOk(rows, false))
  }

  // ----- transactions -----------------------------------------------------------------------------

  /** The reset that release and recovery share: the step waits again, its attempt count stays. */
  function Rewound(step: Step): Step {
    step.(status := Pending, error := NoError, startedAt := None, heartbeatAt := None)
  }

  /** A freshly submitted job: input validation has already succeeded, everything else waits. */
  function NewJob(now: Time): Job {
    var blank := Step(Pending, 0, NoError, None, None, Progress(None, 0, 0, 0));
    Job(JobPending,
        seq(STEP_COUNT, i =>
          if i == VALIDATE_INPUT then blank.(status := Succeeded, attempts := 1, startedAt := Some(now)) else blank),
        {}, {}, 0, map[])
  }

  /** coalesce(heartbeat_at, started_at) < stale_before; an absent time compares as false. */
  predicate Stale(step: Step, staleBefore: Time) {
    match (step.heartbeatAt, step.startedAt)
    case (Some(t), _) => t < staleBefore
    case (None, Some(t)) => t < staleBefore
    case (None, None) => false
  }

  predicate Recoverable(job: Job, staleBefore: Time) {
    && job.status.JobRunning?
    && exists i :: 0 <= i < |job.steps| && job.steps[i].status.Running? && Stale(job.steps[i], staleBefore)
  }

  /** The position of the first running step. */
  function FirstRunning(steps: seq<Step>, from: nat): (r: nat)
    requires from <= |steps|
    ensures from <= r <= |steps|
    ensures r < |steps| ==> steps[r].status.Running?
    ensures forall i :: from <= i < r ==> !steps[i].status.Running?
    decreases |steps| - from
  {
    if from == |steps| || steps[from].status.Running? then from else FirstRunning(steps, from + 1)
  }

  function Recover(job: Job): Job {
    var r := FirstRunning(job.steps, 0);
    if r == |job.steps| then job
    else job.(status := JobPending, steps := job.steps[r := Rewound(job.steps[r])])
  }

  /** The cache after the run_job loop has passed positions [from, to): steps without a handler are skipped. */
  function Swept(cache: seq<CachedStep>, from: nat, to: nat): seq<CachedStep> {
    seq(|cache|, x requires 0 <= x < |cache| =>
      if from <= x < to && cache[x].status.Pending? then cache[x].(status := Skipped) else cache[x])
  }

  function SkippedRow(step: Step, now: Time): Step {
    step.(status := Skipped, error := OtherCode, heartbeatAt := Some(now))
  }

  /**
   Starts step k.  The session flushes what it changed in memory: the skipped positions before k and the
   new status and attempt number of k, both computed from the cache and written without any fence.
   */
  function StartStep(job: Job, cache: seq<CachedStep>, from: nat, k: nat, now: Time): Job
    requires k < |cache|
  {
    job.(steps := seq(|job.steps|, x requires 0 <= x < |job.steps| =>
      if x == k then
        job.steps[x].(status := Running, attempts := cache[k].attempts + 1,
                      startedAt := Some(now), heartbeatAt := Some(now))
      else if from <= x < k && x < |cache| && cache[x].status.Pending? then SkippedRow(job.steps[x], now)
      else job.steps[x]))
  }

  /** Rows that become visible together with the finished step. */
  function WithArtifacts(job: Job, i: nat, status: StepStatus, new_: Artifacts): Job {
    if i == COLLECT_COMMENTS then job.(comments := job.comments + new_.comments)
    else if i == COLLECT_TRANSCRIPT && status.Succeeded? then job.(segments := job.segments + new_.segments)
    else if i == CREATE_ANALYSIS_RUN && status.Succeeded? then job.(runs := job.runs + 1)
    else job
  }

  function FinishStep(job: Job, i: nat, attempt: nat, result: StepResult, new_: Artifacts, now: Time): Job {
    if !Fenced(job, i, attempt) then job
    else
      WithArtifacts(
        job.(steps := job.steps[i :=
          job.steps[i].(status := result.status, error := result.error, heartbeatAt := Some(now))]),
        i, result.status, new_)
  }

  function ReleaseStep(job: Job, i: nat, attempt: nat): Job {
    if !Fenced(job, i, attempt) then job
    else
      job.(steps := job.steps[i := Rewound(job.steps[i])],
           status := if job.status.JobRunning? then JobPending else job.status)
  }

  predicate RequiredFailed(cache: seq<CachedStep>) {
    exists i :: 0 <= i < |cache| && i != FINALIZE_JOB && Required(i) && cache[i].status.Failed?
  }

  predicate OptionalIncomplete(cache: seq<CachedStep>) {
    exists i :: 0 <= i < |cache| && !Required(i) && (cache[i].status.Failed? || cache[i].status.Skipped?)
  }

  function Verdict(cache: seq<CachedStep>): JobStatus {
    if RequiredFailed(cache) then JobFailed
    else if OptionalIncomplete(cache) then JobPartialSuccess
    else JobSucceeded
  }

  /** Closes the job from the cache alone; positions from `from` on still had no handler. */
  function Finalize(job: Job, cache: seq<CachedStep>, from: nat, now: Time): Job
    requires |cache| == STEP_COUNT
  {
    var c := Swept(cache, from, FINALIZE_JOB);
    job.(
      status := Verdict(c),
      steps := seq(|job.steps|, x requires 0 <= x < |job.steps| =>
        if x == FINALIZE_JOB then
          job.steps[x].(status := Succeeded, attempts := c[x].attempts + 1,
                        startedAt := Some(now), heartbeatAt := Some(now))
        else if x < |cache| && cache[x].status.Pending? && (RequiredFailed(c) || from <= x) then
          SkippedRow(job.steps[x], now)
        else job.steps[x]))
  }

  predicate RetryableFailure(step: Step) {
    step.status.Failed? && step.error.RetryableCode?
  }

  /** The position of the first retryable failure. */
  function FirstRetryable(steps: seq<Step>, from: nat): (r: nat)
    requires from <= |steps|
    ensures from <= r <= |steps|
    ensures r < |steps| ==> RetryableFailure(steps[r])
    ensures forall i :: from <= i < r ==> !RetryableFailure(steps[i])
    decreases |steps| - from
  {
    if from == |steps| || RetryableFailure(steps[from]) then from else FirstRetryable(steps, from + 1)
  }

  predicate Retryable(job: Job) {
    FirstRetryable(job.steps, 0) < |job.steps|
  }

  /** Admin retry: the first retryable failure and everything behind it wait again. */
  function Retry(job: Job): Job {
    var f := FirstRetryable(job.steps, 0);
    if f == |job.steps| then job
    else
      job.(status := JobPending,
           steps := seq(|job.steps|, x requires 0 <= x < |job.steps| =>
             if x < f then job.steps[x]
             else job.steps[x].(status := Pending, error := NoError, startedAt := None)))
  }

  function Heartbeat(job: Job, i: nat, attempt: nat, now: Time): Job {
    if !Fenced(job, i, attempt) then job
    else job.(steps := job.steps[i := job.steps[i].(heartbeatAt := Some(now))])
  }

  function Advanced(p: Progress, ok: bool): Progress {
    p.(completed := p.completed + 1,
       succeeded := p.succeeded + (if ok then 1 else 0),
       failed := p.failed + (if ok then 0 else 1))
  }

  /** One item result: fence, insert-if-absent, and the counters only if a row was inserted. */
  function Persist(job: Job, i: nat, attempt: nat, run: nat, k: Kind, item: ItemId, o: Outcome, now: Time): Job {
    if !Fenced(job, i, attempt) then job
    else if item in Rows(job, run, k) then Heartbeat(job, i, attempt, now)
    else
      job.(
        results := job.results[RunKey(run, k) := Rows(job, run, k)[item := o]],
        steps := job.steps[i :=
          job.steps[i].(progress := Advanced(job.steps[i].progress, o.ok), heartbeatAt := Some(now))])
  }

  /** The fenced half of reconcile; the counts were taken earlier, without the row lock. */
  function Reconcile(job: Job, i: nat, attempt: nat, total: nat, succeeded: nat, failed: nat, now: Time): Job {
    if !Fenced(job, i, attempt) then job
    else
      job.(steps := job.steps[i := job.steps[i].(
        progress := Progress(Some(total), succeeded + failed, succeeded, failed), heartbeatAt := Some(now))])
  }

  /** The rows of a query, in some order, each once. */
  method Listed(ids: set<ItemId>) returns (items: seq<ItemId>)
    ensures (set x | x in items) == ids
    ensures forall a, b :: 0 <= a < b < |items| ==> items[a] != items[b]
  {
    var rest := ids;
    items := [];
    while rest != {}
      invariant forall x :: x in ids <==> x in rest || x in items
      invariant forall x :: x in items ==> x !in rest
      invariant forall a, b :: 0 <= a < b < |items| ==> items[a] != items[b]
      decreases rest
    {
      var x :| x in rest;
      items := items + [x];
      rest := rest - {x};
    }
  }
}
