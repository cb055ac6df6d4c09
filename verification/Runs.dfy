/**
 The main results about every run of every number of workers.
 */
module Runs {
  import opened JobModel
  import opened Protocol
  import opened Safety
  import opened Preservation

  // ----- one event ------------------------------------------------------------------------------------

  ghost predicate Good(s: System, t: System) {
    && Inv(t)
    && forall j :: j in s.jobs ==> j in t.jobs && Evolves(s.jobs[j], t.jobs[j])
  }

  lemma EvolvesReflexive(s: System)
    ensures forall j :: j in s.jobs ==> Evolves(s.jobs[j], s.jobs[j])
  {
  }

  /** An owner keeps everybody else out. */
  lemma OwnerIsAlone(s: System, w: WorkerId, j: JobId)
    requires Inv(s) && Owns(s, w, j)
    ensures forall v :: v in s.workers && v != w ==> !Owns(s, v, j)
  {
    forall v | v in s.workers && v != w ensures !Owns(s, v, j) {
      assert Apart(s, v, w);
    }
  }

  lemma OwnerPuts(s: System, w: WorkerId, p: Worker, job: Job)
    requires Inv(s) && w in s.workers && !s.workers[w].Idle? && Owns(s, w, s.workers[w].job)
    requires var j := s.workers[w].job;
             && JobOk(job) && Evolves(s.jobs[j], job)
             && (p.Idle? || (p.job == j && WorkerOk(job, p)))
             && (p.InStep? && s.workers[w].InStep? ==>
                   p.index == s.workers[w].index && p.attempt == s.workers[w].attempt)
             && (p.InStep? && !s.workers[w].InStep? ==>
                   p.index < |s.jobs[j].steps| && p.attempt > s.jobs[j].steps[p.index].attempts)
    ensures Good(s, Put(s, w, p, s.workers[w].job, job))
  {
    var j := s.workers[w].job;
    OwnerIsAlone(s, w, j);
    EvolvesReflexive(s);
    forall v | && p.InStep? && v in s.workers && v != w && s.workers[v].InStep?
               && s.workers[v].job == j && s.workers[v].index == p.index
      ensures s.workers[v].attempt != p.attempt
    {
      assert Apart(s, v, w);
    }
    PutKeepsInv(s, w, p, j, job);
  }

  lemma Moves(s: System, w: WorkerId, p: Worker)
    requires Inv(s) && w in s.workers
    requires p.Idle? || (!s.workers[w].Idle? && p.job == s.workers[w].job && WorkerOk(s.jobs[p.job], p))
    requires p.InStep? ==> s.workers[w].InStep? && p.index == s.workers[w].index && p.attempt == s.workers[w].attempt
    requires !p.Idle? && Unfenced(p) ==> Unfenced(s.workers[w])
    ensures Good(s, Move(s, w, p))
  {
    EvolvesReflexive(s);
    MoveKeepsInv(s, w, p);
  }

  lemma SubmitKeepsInv(s: System, j: JobId, now: Time)
    requires Inv(s) && j !in s.jobs
    ensures Good(s, s.(jobs := s.jobs[j := NewJob(now)]))
  {
    NewJobOk(now);
    EvolvesReflexive(s);
    var t := s.(jobs := s.jobs[j := NewJob(now)]);
    forall v, u | v in t.workers && u in t.workers && v != u ensures Apart(t, v, u) {
      assert Apart(s, v, u);
    }
  }

  lemma RecoveryKeepsInv(s: System, r: JobId, stale: Time)
    requires Inv(s) && r in s.jobs && Recoverable(s.jobs[r], stale)
    ensures var t := s.(jobs := s.jobs[r := Recover(s.jobs[r])]);
            Good(s, t) && t.jobs[r].status.JobPending?
  {
    RecoverOk(s.jobs[r]);
    EvolvesReflexive(s);
    ResetKeepsInv(s, r, Recover(s.jobs[r]));
  }

  lemma PendingIsFree(s: System, j: JobId)
    requires Inv(s) && j in s.jobs && s.jobs[j].status.JobPending?
    ensures forall v :: v in s.workers ==> !Owns(s, v, j)
  {
  }

  lemma ClaimKeepsInv(s: System, w: WorkerId, c: JobId)
    requires Inv(s) && w in s.workers && s.workers[w].Idle? && c in s.jobs && s.jobs[c].status.JobPending?
    ensures Good(s, Put(s, w, Claimed(c), c, s.jobs[c].(status := JobRunning)))
  {
    PendingIsFree(s, c);
    ClaimOk(s.jobs[c]);
    EvolvesReflexive(s);
    PutKeepsInv(s, w, Claimed(c), c, s.jobs[c].(status := JobRunning));
  }

  lemma PollKeepsInv(s: System, e: Event)
    requires Inv(s) && e.Poll? && Enabled(s, e)
    ensures Good(s, Apply(s, e))
  {
    hide JobOk, WorkerOk, Apart, Evolves, Recover;
    EvolvesReflexive(s);
    var mid := s.(jobs := AfterRecovery(s, e.recovered));
    if e.recovered.Some? {
      RecoveryKeepsInv(s, e.recovered.value, e.staleBefore);
    }
    if e.claimed.Some? {
      ClaimKeepsInv(mid, e.w, e.claimed.value);
      forall j | j in s.jobs ensures Evolves(s.jobs[j], Apply(s, e).jobs[j]) {
        EvolvesTransitive(s.jobs[j], mid.jobs[j], Apply(s, e).jobs[j]);
      }
    }
  }

  lemma RetryKeepsInv(s: System, j: JobId)
    requires Inv(s) && j in s.jobs && Retryable(s.jobs[j]) && RetrySafe(s, j)
    ensures Good(s, s.(jobs := s.jobs[j := Retry(s.jobs[j])]))
  {
    RetryOk(s.jobs[j]);
    EvolvesReflexive(s);
    ResetKeepsInv(s, j, Retry(s.jobs[j]));
  }

  /** Reads of the analysis handler: the phase they lead to describes the rows as they are. */
  lemma ReadKeepsInv(s: System, e: Event)
    requires Inv(s) && Enabled(s, e) && (e.Bind? || e.Load? || e.Count?)
    ensures Good(s, Apply(s, e))
  {
    var p := s.workers[e.w];
    var job := s.jobs[p.job];
    var q := Apply(s, e).workers[e.w];
    Moves(s, e.w, q);
  }

  /** A fenced event whose fence fails only frees the worker. */
  lemma RefusedKeepsInv(s: System, e: Event)
    requires Inv(s) && Enabled(s, e) && (e.Adjust? || e.Record? || e.Beat? || e.Finish? || e.Release?)
    requires !Fenced(s.jobs[s.workers[e.w].job], s.workers[e.w].index, s.workers[e.w].attempt)
    ensures Good(s, Apply(s, e))
  {
    Moves(s, e.w, Idle);
  }

  lemma CountingKeepsInv(s: System, e: Event)
    requires Inv(s) && Enabled(s, e) && (e.Adjust? || e.Record?)
    requires Fenced(s.jobs[s.workers[e.w].job], s.workers[e.w].index, s.workers[e.w].attempt)
    ensures Good(s, Apply(s, e))
  {
    var w, p := e.w, s.workers[e.w];
    var job := s.jobs[p.job];
    if e.Adjust? {
      ReconcileOk(job, p, e.now);
      OwnerPuts(s, w, p.(phase := AdjustPhase(p.phase)), Apply(s, e).jobs[p.job]);
    } else {
      RecordOk(job, p, e.item, e.outcome, e.now);
      OwnerPuts(s, w, p.(phase := RecordPhase(p.phase, e.item)), Apply(s, e).jobs[p.job]);
    }
  }

  lemma BeatKeepsInv(s: System, e: Event)
    requires Inv(s) && Enabled(s, e) && e.Beat?
    requires Fenced(s.jobs[s.workers[e.w].job], s.workers[e.w].index, s.workers[e.w].attempt)
    ensures Good(s, Apply(s, e))
  {
    hide Apart, Good, NoFailedRequired, Evolves, CacheOf;
    var p := s.workers[e.w];
    HeartbeatOk(s.jobs[p.job], p.index, p.attempt, e.now);
    BeatenWorkerOk(s.jobs[p.job], p, e.now);
    OwnerPuts(s, e.w, p, Apply(s, e).jobs[p.job]);
  }

  /** A heartbeat changes nothing that its worker relies on. */
  lemma BeatenWorkerOk(job: Job, p: Worker, now: Time)
    requires JobOk(job) && p.InStep? && WorkerOk(job, p) && Fenced(job, p.index, p.attempt)
    ensures WorkerOk(Heartbeat(job, p.index, p.attempt, now), p)
  {
    HeartbeatOk(job, p.index, p.attempt, now);
  }

  lemma ReleaseKeepsInv(s: System, e: Event)
    requires Inv(s) && Enabled(s, e) && e.Release?
    requires Fenced(s.jobs[s.workers[e.w].job], s.workers[e.w].index, s.workers[e.w].attempt)
    ensures Good(s, Apply(s, e))
  {
    hide Apart, Good, Evolves;
    var p := s.workers[e.w];
    ReleaseOk(s.jobs[p.job], p.index, p.attempt);
    OwnerPuts(s, e.w, Idle, Apply(s, e).jobs[p.job]);
  }

  lemma FinishKeepsInv(s: System, e: Event)
    requires Inv(s) && Enabled(s, e) && e.Finish?
    requires Fenced(s.jobs[s.workers[e.w].job], s.workers[e.w].index, s.workers[e.w].attempt)
    ensures Good(s, Apply(s, e))
  {
    var p := s.workers[e.w];
    FinishOk(s.jobs[p.job], p, e.result, e.artifacts, e.now);
    OwnerPuts(s, e.w, AfterStep(p, e.result), Apply(s, e).jobs[p.job]);
  }

  lemma FencedKeepsInv(s: System, e: Event)
    requires Inv(s) && Enabled(s, e) && (e.Adjust? || e.Record? || e.Beat? || e.Finish? || e.Release?)
    ensures Good(s, Apply(s, e))
  {
    if !Fenced(s.jobs[s.workers[e.w].job], s.workers[e.w].index, s.workers[e.w].attempt) {
      RefusedKeepsInv(s, e);
    } else if e.Adjust? || e.Record? {
      CountingKeepsInv(s, e);
    } else if e.Finish? {
      FinishKeepsInv(s, e);
    } else if e.Beat? {
      BeatKeepsInv(s, e);
    } else {
      ReleaseKeepsInv(s, e);
    }
  }

  lemma MarkKeepsInv(s: System, e: Event)
    requires Inv(s) && Enabled(s, e) && e.MarkRunning?
    ensures Good(s, Apply(s, e))
  {
    var p := s.workers[e.w];
    ClaimOk(s.jobs[p.job]);
    OwnerPuts(s, e.w, Marked(p.job), s.jobs[p.job].(status := JobRunning));
  }

  lemma StartKeepsInv(s: System, e: Event)
    requires Inv(s) && Enabled(s, e) && e.Start?
    ensures Good(s, Apply(s, e))
  {
    var p := s.workers[e.w];
    assert WorkerOk(s.jobs[p.job], p);
    StartOk(s.jobs[p.job], p, e.k, e.now);
    OwnerPuts(s, e.w, Apply(s, e).workers[e.w], Apply(s, e).jobs[p.job]);
  }

  lemma CloseKeepsInv(s: System, e: Event)
    requires Inv(s) && Enabled(s, e) && e.Close?
    ensures Good(s, Apply(s, e))
  {
    var p := s.workers[e.w];
    CloseOk(s.jobs[p.job], p, e.now);
    OwnerPuts(s, e.w, Idle, Apply(s, e).jobs[p.job]);
  }

  lemma UnfencedKeepsInv(s: System, e: Event)
    requires Inv(s) && Enabled(s, e) && (e.MarkRunning? || e.LoadSteps? || e.Start? || e.Close?)
    ensures Good(s, Apply(s, e))
  {
    match e
    case MarkRunning(_) => MarkKeepsInv(s, e);
    case LoadSteps(w) =>
      var j := s.workers[w].job;
      Moves(s, w, Looping(j, CacheOf(s.jobs[j].steps), 0));
    case Start(_, _, _, _) => StartKeepsInv(s, e);
    case Close(_, _, _) => CloseKeepsInv(s, e);
  }

  lemma EventKeepsInv(s: System, e: Event)
    requires Inv(s) && Admissible(s, e)
    ensures Good(s, Apply(s, e))
  {
    match e
    case Submit(j, now) => SubmitKeepsInv(s, j, now);
    case AdminRetry(j) => RetryKeepsInv(s, j);
    case Poll(_, _, _, _) => PollKeepsInv(s, e);
    case Crash(w) => Moves(s, w, Idle);
    case Bind(_) => ReadKeepsInv(s, e);
    case Load(_) => ReadKeepsInv(s, e);
    case Count(_) => ReadKeepsInv(s, e);
    case MarkRunning(_) => UnfencedKeepsInv(s, e);
    case LoadSteps(_) => UnfencedKeepsInv(s, e);
    case Start(_, _, _, _) => UnfencedKeepsInv(s, e);
    case Close(_, _, _) => UnfencedKeepsInv(s, e);
    case _ => FencedKeepsInv(s, e);
  }

  // ----- whole runs -----------------------------------------------------------------------------------

  lemma {:induction false} RunKeepsInv(s: System, es: seq<Event>)
    requires Inv(s) && CanRun(s, es)
    ensures Good(s, Exec(s, es))
    decreases |es|
  {
    EvolvesReflexive(s);
    if es != [] {
      var t := Apply(s, es[0]);
      EventKeepsInv(s, es[0]);
      RunKeepsInv(t, es[1..]);
      forall j | j in s.jobs ensures Evolves(s.jobs[j], Exec(s, es).jobs[j]) {
        EvolvesTransitive(s.jobs[j], t.jobs[j], Exec(s, es).jobs[j]);
      }
    }
  }

  lemma OneEvent(s: System, e: Event)
    requires Admissible(s, e)
    ensures CanRun(s, [e]) && Exec(s, [e]) == Apply(s, e)
  {
    assert [e][1..] == [];
  }

  lemma {:induction false} RunsConcat(s: System, es: seq<Event>, es': seq<Event>)
    requires CanRun(s, es) && CanRun(Exec(s, es), es')
    ensures CanRun(s, es + es') && Exec(s, es + es') == Exec(Exec(s, es), es')
    decreases |es|
  {
    if es == [] {
      assert es + es' == es';
    } else {
      assert (es + es')[1..] == es[1..] + es';
      RunsConcat(Apply(s, es[0]), es[1..], es');
    }
  }

  /** A run splits anywhere. */
  lemma {:induction false} RunSplits(s: System, es: seq<Event>, k: nat)
    requires CanRun(s, es) && k <= |es|
    ensures CanRun(s, es[..k]) && CanRun(Exec(s, es[..k]), es[k..])
    ensures Exec(Exec(s, es[..k]), es[k..]) == Exec(s, es)
    decreases |es|
  {
    if k == 0 {
      assert es[0..] == es && es[..0] == [];
    } else {
      assert es[..k][1..] == es[1..][..k - 1] && es[1..][k - 1..] == es[k..];
      RunSplits(Apply(s, es[0]), es[1..], k - 1);
    }
  }

  /** In every state of every run, a job has at most one owner. */
  lemma OneOwner(s: System, es: seq<Event>, j: JobId, v: WorkerId, w: WorkerId)
    requires Init(s) && CanRun(s, es)
    requires Owns(Exec(s, es), v, j) && Owns(Exec(s, es), w, j)
    ensures v == w
  {
    hide CanRun, Exec;
    RunKeepsInv(s, es);
    OwnerIsAlone(Exec(s, es), w, j);
  }

  /** Once an attempt is superseded it stays superseded, whatever anybody does later. */
  lemma SupersededForever(s: System, es: seq<Event>, j: JobId, i: nat, attempt: nat)
    requires Inv(s) && CanRun(s, es) && j in s.jobs
    requires Superseded(s.jobs[j], i, attempt)
    ensures j in Exec(s, es).jobs && Superseded(Exec(s, es).jobs[j], i, attempt)
  {
    hide CanRun, Exec;
    RunKeepsInv(s, es);
    assert Evolves(s.jobs[j], Exec(s, es).jobs[j]);
  }

  /**
   A superseded worker that wakes up at any later time, still inside its step, changes no row of any job:
   not by an item result, a heartbeat, a reconcile, a finish or a release.
   */
  lemma SupersededWritesNothing(s: System, es: seq<Event>, w: WorkerId, e: Event)
    requires Inv(s) && CanRun(s, es) && w in s.workers && s.workers[w].InStep?
    requires var p := s.workers[w]; p.job in s.jobs && Superseded(s.jobs[p.job], p.index, p.attempt)
    requires var t, p := Exec(s, es), s.workers[w];
             && w in t.workers && t.workers[w].InStep?
             && t.workers[w].job == p.job && t.workers[w].index == p.index && t.workers[w].attempt == p.attempt
             && Enabled(t, e) && Actor(e) == Some(w)
    ensures Apply(Exec(s, es), e).jobs == Exec(s, es).jobs
  {
    hide CanRun, Exec;
    var p := s.workers[w];
    SupersededForever(s, es, p.job, p.index, p.attempt);
  }

  /** An item result or a heartbeat that leaves its worker inside the step has refreshed the heartbeat of the row. */
  lemma BeatsRefresh(s: System, e: Event)
    requires Inv(s) && (e.Beat? || e.Record?) && Enabled(s, e)
    ensures var p, t := s.workers[e.w], Apply(s, e);
            t.workers[e.w].InStep? <==>
              && Fenced(t.jobs[p.job], p.index, p.attempt)
              && t.jobs[p.job].steps[p.index].heartbeatAt == Some(e.now)
              && Fenced(s.jobs[p.job], p.index, p.attempt)
  {
  }

  /** A started attempt carries a number that no earlier attempt of the step ever had. */
  lemma AttemptIsFresh(s: System, e: Event)
    requires Inv(s) && e.Start? && Enabled(s, e)
    ensures var p := s.workers[e.w];
            var q := Apply(s, e).workers[e.w];
            && q.InStep? && q.index == e.k
            && q.attempt == s.jobs[p.job].steps[e.k].attempts + 1
            && q.attempt == Apply(s, e).jobs[p.job].steps[e.k].attempts
            && forall v :: && v in s.workers && s.workers[v].InStep?
                           && s.workers[v].job == p.job && s.workers[v].index == e.k ==>
                 s.workers[v].attempt < q.attempt
  {
    var p := s.workers[e.w];
    StartOk(s.jobs[p.job], p, e.k, e.now);
    assert WorkerOk(s.jobs[p.job], p);
  }

  /** Two starts of the same step, with any run in between, never share a number. */
  lemma AttemptNumbersAreNotReused(s: System, first: Event, es: seq<Event>, second: Event)
    requires Inv(s) && first.Start? && Enabled(s, first) && CanRun(Apply(s, first), es)
    requires var t := Exec(Apply(s, first), es);
             && second.Start? && Enabled(t, second) && second.k == first.k
             && t.workers[second.w].job == s.workers[first.w].job
    ensures var t := Exec(Apply(s, first), es);
            Apply(s, first).workers[first.w].attempt < Apply(t, second).workers[second.w].attempt
  {
    hide CanRun, Exec;
    EventKeepsInv(s, first);
    RunKeepsInv(Apply(s, first), es);
    AttemptIsFresh(s, first);
    AttemptIsFresh(Exec(Apply(s, first), es), second);
    var j := s.workers[first.w].job;
    assert Evolves(Apply(s, first).jobs[j], Exec(Apply(s, first), es).jobs[j]);
  }

  /** The list an owner loaded once still says what the table says, so deciding on it is deciding on a fresh read. */
  lemma CacheIsFresh(s: System, es: seq<Event>, w: WorkerId)
    requires Init(s) && CanRun(s, es)
    requires var t := Exec(s, es);
             && w in t.workers && (t.workers[w].Looping? || t.workers[w].Finalizing? || t.workers[w].InStep?)
             && Owns(t, w, t.workers[w].job)
    ensures var t := Exec(s, es);
            t.workers[w].cache == CacheOf(t.jobs[t.workers[w].job].steps)
  {
    hide CanRun, Exec;
    RunKeepsInv(s, es);
    var t := Exec(s, es);
    assert WorkerOk(t.jobs[t.workers[w].job], t.workers[w]);
  }

  /** The pipeline shape, in every state of every run. */
  lemma PipelineShape(s: System, es: seq<Event>, j: JobId)
    requires Init(s) && CanRun(s, es) && j in Exec(s, es).jobs
    ensures var job := Exec(s, es).jobs[j];
            && Shape(job.steps)
            && (forall a, b :: 0 <= a < STEP_COUNT && 0 <= b < STEP_COUNT ==>
                  job.steps[a].status.Running? && job.steps[b].status.Running? ==> a == b)
            && (job.status.JobPending? ==> NoRunning(job.steps))
            && (Terminal(job.status) ==> NoRunning(job.steps))
            && (job.steps[FINALIZE_JOB].status.Succeeded? <==> Terminal(job.status))
  {
    hide CanRun, Exec;
    RunKeepsInv(s, es);
    var job := Exec(s, es).jobs[j];
    forall a, b | && 0 <= a < STEP_COUNT && 0 <= b < STEP_COUNT
                  && job.steps[a].status.Running? && job.steps[b].status.Running?
      ensures a == b
    {
    }
  }
}
