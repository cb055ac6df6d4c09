/**
 The invariant of the job protocol, kept by every event of every worker.
 */
module Safety {
  import opened JobModel
  import opened Protocol

  // ----- what holds of one job ----------------------------------------------------------------------

  /** Finished prefix, at most one running step, all-pending suffix. */
  ghost predicate Shape(steps: seq<Step>) {
    && |steps| == STEP_COUNT
    && forall a, b :: 0 <= a < b < FINALIZE_JOB && !Finished(steps[a].status) ==> steps[b].status.Pending?
  }

  ghost predicate NoRunning(steps: seq<Step>) {
    forall a :: 0 <= a < |steps| ==> !steps[a].status.Running?
  }

  ghost predicate FailedRequired(steps: seq<Step>, a: int) {
    0 <= a < |steps| && a < FINALIZE_JOB && Required(a) && steps[a].status.Failed?
  }

  ghost predicate SkippedRequired(steps: seq<Step>, a: int) {
    0 <= a < |steps| && a < FINALIZE_JOB && Required(a) && steps[a].status.Skipped?
  }

  ghost predicate IncompleteOptional(steps: seq<Step>, a: int) {
    0 <= a < |steps| && !Required(a) && (steps[a].status.Failed? || steps[a].status.Skipped?)
  }

  ghost predicate NoFailedRequired(steps: seq<Step>) {
    forall a :: !FailedRequired(steps, a)
  }

  /** Behind a failed required step nothing ever ran: it waits, or the closed job skipped it. */
  ghost predicate FailStop(job: Job) {
    forall a, b :: FailedRequired(job.steps, a) && a < b < FINALIZE_JOB && b < |job.steps| ==>
      if Terminal(job.status) then job.steps[b].status.Skipped? else job.steps[b].status.Pending?
  }

  ghost predicate VerdictOk(job: Job) {
    && |job.steps| == STEP_COUNT
    && job.steps[FINALIZE_JOB].status.Succeeded?
    && NoRunning(job.steps)
    && (job.status.JobFailed? <==> !NoFailedRequired(job.steps))
    && (!job.status.JobFailed? ==> (job.status.JobPartialSuccess? <==> exists a :: IncompleteOptional(job.steps, a)))
    && (forall b :: 0 <= b < FINALIZE_JOB && job.steps[b].status.Pending? ==>
          !job.status.JobFailed? && exists a :: SkippedRequired(job.steps, a))
  }

  /** A succeeded analysis step: collection had finished, every item has its row, and the counters say so. */
  ghost predicate AnalysisComplete(job: Job, k: Kind) {
    && |job.steps| == STEP_COUNT
    && Collected(job, k)
    && Rows(job, job.runs, k).Keys == Sources(job, k)
    && ProgressExact(job.steps[AnalyzeStep(k)].progress, Rows(job, job.runs, k), |Sources(job, k)|)
  }

  ghost predicate ResultsOk(job: Job) {
    forall key :: key in job.results ==> key.run <= job.runs && job.results[key].Keys <= Sources(job, key.kind)
  }

  /** A running row shows when it was started. */
  ghost predicate Dated(steps: seq<Step>) {
    forall a :: 0 <= a < |steps| && steps[a].status.Running? ==> steps[a].startedAt.Some?
  }

  ghost predicate JobOk(job: Job) {
    && Shape(job.steps) && Dated(job.steps)
    && FailStop(job)
    && ResultsOk(job)
    && (Terminal(job.status) ==> VerdictOk(job))
    && (!Terminal(job.status) ==> job.steps[FINALIZE_JOB].status.Pending?)
    && (job.status.JobPending? ==> NoRunning(job.steps) && NoFailedRequired(job.steps))
    && (forall k: Kind :: job.steps[AnalyzeStep(k)].status.Succeeded? ==> AnalysisComplete(job, k))
  }

  // ----- what holds of one worker and its job ---------------------------------------------------------

  /** The cached list says what the table says: reading it again would change nothing. */
  ghost predicate CacheExact(cache: seq<CachedStep>, steps: seq<Step>) {
    cache == CacheOf(steps)
  }

  ghost predicate BetweenSteps(job: Job) {
    job.status.JobRunning? && NoRunning(job.steps)
  }

  ghost predicate WorkOk(job: Job, index: nat, run: nat, total: nat, remaining: set<ItemId>) {
    var k := KindOf(index);
    && IsAnalysis(index) && Collected(job, k)
    && run == job.runs && 0 < run
    && total == |Sources(job, k)|
    && remaining == Sources(job, k) - Rows(job, run, k).Keys
  }

  ghost predicate CountersOk(job: Job, index: nat, run: nat, total: nat) {
    index < |job.steps| && ProgressExact(job.steps[index].progress, Rows(job, run, KindOf(index)), total)
  }

  ghost predicate PhaseOk(job: Job, index: nat, ph: Phase) {
    match ph
    case Handling => true
    case NothingToAnalyze => IsAnalysis(index) && !Collected(job, KindOf(index))
    case Bound(run) => IsAnalysis(index) && Collected(job, KindOf(index)) && run == job.runs && 0 < run
    case Loaded(run, total, remaining) => WorkOk(job, index, run, total, remaining)
    case Counted(run, total, remaining, closing, succeeded, failed) =>
      && WorkOk(job, index, run, total, remaining)
      && succeeded == CountOk(Rows(job, run, KindOf(index)), true)
      && failed == CountOk(Rows(job, run, KindOf(index)), false)
      && (closing ==> remaining == {} && CountersOk(job, index, run, total))
    case Persisting(run, total, remaining) =>
      && WorkOk(job, index, run, total, remaining)
      && CountersOk(job, index, run, total)
    case Analyzed(run) => IsAnalysis(index) && run == job.runs && AnalysisComplete(job, KindOf(index))
  }

  /** The part of InStep that needs the attempt to be the current one. */
  ghost predicate CurrentOk(job: Job, p: Worker)
    requires p.InStep?
  {
    && job.status.JobRunning?
    && CacheExact(p.cache, job.steps)
    && NoFailedRequired(job.steps)
    && PhaseOk(job, p.index, p.phase)
  }

  ghost predicate WorkerOk(job: Job, p: Worker) {
    match p
    case Idle => true
    case Claimed(_) => BetweenSteps(job) && NoFailedRequired(job.steps)
    case Marked(_) => BetweenSteps(job) && NoFailedRequired(job.steps)
    case Looping(_, cache, cursor) =>
      && BetweenSteps(job) && NoFailedRequired(job.steps)
      && CacheExact(cache, job.steps)
      && cursor <= FINALIZE_JOB
      && forall x :: 0 <= x < cursor && x < |job.steps| ==> Finished(job.steps[x].status)
    case Finalizing(_, cache) =>
      && BetweenSteps(job)
      && CacheExact(cache, job.steps)
      && exists a :: FailedRequired(job.steps, a) || SkippedRequired(job.steps, a)
    case InStep(_, cache, index, attempt, _) =>
      && index < FINALIZE_JOB && index < |job.steps| && |cache| == STEP_COUNT
      && 1 <= attempt <= job.steps[index].attempts
      && (Fence(job.steps[index], attempt) ==> CurrentOk(job, p))
  }

  /** Two workers never share ownership, nor an attempt number of the same step. */
  ghost predicate Apart(s: System, v: WorkerId, w: WorkerId)
    requires v in s.workers && w in s.workers
  {
    var p, q := s.workers[v], s.workers[w];
    (!p.Idle? && !q.Idle? && p.job == q.job) ==>
      && !(Owns(s, v, p.job) && Owns(s, w, q.job))
      && (p.InStep? && q.InStep? && p.index == q.index ==> p.attempt != q.attempt)
  }

  ghost predicate Inv(s: System) {
    && (forall j :: j in s.jobs ==> JobOk(s.jobs[j]))
    && (forall w :: w in s.workers && !s.workers[w].Idle? ==>
          s.workers[w].job in s.jobs && WorkerOk(s.jobs[s.workers[w].job], s.workers[w]))
    && (forall v, w :: v in s.workers && w in s.workers && v != w ==> Apart(s, v, w))
  }

  // ----- how one transaction may change the rows of a job ----------------------------------------------

  /** Attempt numbers only grow, and a number that lost the fence never passes it again. */
  ghost predicate StepsEvolve(a: seq<Step>, b: seq<Step>) {
    && |a| == |b|
    && forall i :: 0 <= i < |a| ==>
         && a[i].attempts <= b[i].attempts
         && (b[i].status.Running? && b[i].attempts == a[i].attempts ==> a[i].status.Running?)
  }

  /** Result rows are never dropped or overwritten; collected items are never dropped. */
  ghost predicate ResultsKept(a: Job, b: Job) {
    && a.comments <= b.comments && a.segments <= b.segments && a.runs <= b.runs
    && forall run: nat, k: Kind, x :: x in Rows(a, run, k) ==>
         x in Rows(b, run, k) && Rows(b, run, k)[x] == Rows(a, run, k)[x]
  }

  ghost predicate Evolves(a: Job, b: Job) {
    StepsEvolve(a.steps, b.steps) && ResultsKept(a, b)
  }

  lemma EvolvesTransitive(a: Job, b: Job, c: Job)
    requires Evolves(a, b) && Evolves(b, c)
    ensures Evolves(a, c)
  {
  }

  /** Every other worker of the job keeps its invariant when its owner (or nobody) changes the rows. */
  lemma StaleStaysOk(job: Job, job': Job, p: Worker)
    requires WorkerOk(job, p) && StepsEvolve(job.steps, job'.steps)
    requires p.InStep? && !Fenced(job, p.index, p.attempt)
    ensures WorkerOk(job', p) && !Fenced(job', p.index, p.attempt)
  {
  }

  /** The rule behind most events: one worker moves and changes a job that nobody else owns. */
  lemma PutKeepsInv(s: System, w: WorkerId, p: Worker, j: JobId, job: Job)
    requires Inv(s) && w in s.workers && j in s.jobs
    requires forall v :: v in s.workers && v != w ==> !Owns(s, v, j)
    requires JobOk(job) && StepsEvolve(s.jobs[j].steps, job.steps)
    requires p.Idle? || (p.job == j && WorkerOk(job, p))
    requires p.InStep? ==>
               forall v :: && v in s.workers && v != w && s.workers[v].InStep?
                           && s.workers[v].job == j && s.workers[v].index == p.index ==>
               s.workers[v].attempt != p.attempt
    ensures Inv(Put(s, w, p, j, job))
  {
    var t := Put(s, w, p, j, job);
    forall v | v in s.workers && v != w && !s.workers[v].Idle? && s.workers[v].job == j
      ensures WorkerOk(job, s.workers[v]) && !Owns(t, v, j)
    {
      assert !Owns(s, v, j);
      StaleStaysOk(s.jobs[j], job, s.workers[v]);
    }
    forall v, u | v in t.workers && u in t.workers && v != u
      ensures Apart(t, v, u)
    {
      assert v != w && u != w ==> Apart(s, v, u);
    }
  }

  /** A worker that only moves, without touching any row. */
  lemma MoveKeepsInv(s: System, w: WorkerId, p: Worker)
    requires Inv(s) && w in s.workers
    requires p.Idle? || (!s.workers[w].Idle? && p.job == s.workers[w].job && WorkerOk(s.jobs[p.job], p))
    requires p.InStep? ==> s.workers[w].InStep? && p.index == s.workers[w].index && p.attempt == s.workers[w].attempt
    requires !p.Idle? && Unfenced(p) ==> Unfenced(s.workers[w])
    ensures Inv(Move(s, w, p))
  {
    var t := Move(s, w, p);
    forall v, u | v in t.workers && u in t.workers && v != u
      ensures Apart(t, v, u)
    {
      assert Apart(s, v, u);
    }
  }

  /** Recovery and admin retry: nobody is in an unfenced section, and afterwards no step is running. */
  lemma ResetKeepsInv(s: System, j: JobId, job: Job)
    requires Inv(s) && j in s.jobs && RetrySafe(s, j)
    requires JobOk(job) && StepsEvolve(s.jobs[j].steps, job.steps) && NoRunning(job.steps)
    ensures Inv(s.(jobs := s.jobs[j := job]))
    ensures forall v :: v in s.workers ==> !Owns(s.(jobs := s.jobs[j := job]), v, j)
  {
    var t := s.(jobs := s.jobs[j := job]);
    forall v | v in s.workers && !s.workers[v].Idle? && s.workers[v].job == j
      ensures WorkerOk(job, s.workers[v]) && !Owns(t, v, j)
    {
    }
    forall v, u | v in t.workers && u in t.workers && v != u
      ensures Apart(t, v, u)
    {
      assert Apart(s, v, u);
    }
  }
}
