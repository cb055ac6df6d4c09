/**
 The tables as a mutable object.  Every method is one transaction of one worker (or one admin call), written the way
 the code writes it, and proved to be the corresponding protocol event.
 */
module Store {
  import opened JobModel
  import opened Protocol
  import opened Safety
  import opened Runs

  /** What an analysis attempt is bound to: its job, step, run and attempt number. */
  datatype Context = Context(job: JobId, step: nat, run: nat, attempt: nat)

  lemma RunSnoc(s: System, es: seq<Event>, e: Event)
    requires CanRun(s, es) && Admissible(Exec(s, es), e)
    ensures CanRun(s, es + [e]) && Exec(s, es + [e]) == Apply(Exec(s, es), e)
  {
    OneEvent(Exec(s, es), e);
    RunsConcat(s, es, [e]);
  }

  predicate NotBy(es: seq<Event>, w: WorkerId) {
    forall i :: 0 <= i < |es| ==> Actor(es[i]) != Some(w)
  }

  lemma OthersKeepWorker(s: System, e: Event, w: WorkerId)
    requires Enabled(s, e) && Actor(e) != Some(w) && w in s.workers
    ensures w in Apply(s, e).workers && Apply(s, e).workers[w] == s.workers[w]
  {
    hide NewJob, Retry, Recover, StartStep, Finalize, FinishStep, ReleaseStep, Persist, Reconcile, Heartbeat;
  }

  /** Every run of the other workers, however long, ends in a state that the contract of JobTable.Others describes. */
  lemma {:induction false} OthersCoversEveryRun(origin: System, history: seq<Event>, es: seq<Event>, w: WorkerId)
    requires CanRun(origin, history) && CanRun(Exec(origin, history), es) && NotBy(es, w)
    requires w in Exec(origin, history).workers
    ensures CanRun(origin, history + es) && Exec(origin, history + es) == Exec(Exec(origin, history), es)
    ensures w in Exec(origin, history + es).workers
    ensures Exec(origin, history + es).workers[w] == Exec(origin, history).workers[w]
  {
    hide CanRun, Exec;
    RunsConcat(origin, history, es);
    RunKeepsWorker(Exec(origin, history), es, w);
  }

  lemma {:induction false} RunKeepsWorker(s: System, es: seq<Event>, w: WorkerId)
    requires CanRun(s, es) && NotBy(es, w) && w in s.workers
    ensures w in Exec(s, es).workers && Exec(s, es).workers[w] == s.workers[w]
    decreases |es|
  {
    hide Apply, Enabled;
    if es != [] {
      OthersKeepWorker(s, es[0], w);
      RunKeepsWorker(Apply(s, es[0]), es[1..], w);
    }
  }

  /** What a job may have become since. */
  ghost predicate Later(s: System, t: System, j: JobId) {
    j in s.jobs ==> j in t.jobs && Evolves(s.jobs[j], t.jobs[j])
  }

  lemma LongerRunIsLater(s: System, before: seq<Event>, es: seq<Event>, j: JobId)
    requires Init(s) && CanRun(s, es) && before <= es
    ensures CanRun(s, before) && Later(Exec(s, before), Exec(s, es), j)
  {
    hide CanRun, Exec, Evolves;
    assert es[..|before|] == before;
    RunSplits(s, es, |before|);
    RunKeepsInv(s, before);
    RunKeepsInv(Exec(s, before), es[|before|..]);
  }

  /** The row of an item: it was stored, with this outcome. */
  ghost predicate HasRow(s: System, c: Context, x: ItemId, o: Outcome) {
    && c.job in s.jobs && x in Rows(s.jobs[c.job], c.run, KindOf(c.step))
    && Rows(s.jobs[c.job], c.run, KindOf(c.step))[x] == o
  }

  lemma RowStays(s: System, t: System, c: Context, x: ItemId, o: Outcome)
    requires Later(s, t, c.job) && HasRow(s, c, x, o)
    ensures HasRow(t, c, x, o)
  {
  }

  /** The attempt was started and can no longer pass the fence. */
  ghost predicate Lost(s: System, c: Context) {
    c.job in s.jobs && Superseded(s.jobs[c.job], c.step, c.attempt)
  }

  class JobTable {
    var jobs: map<JobId, Job>
    ghost var workers: map<WorkerId, Worker>
    ghost const origin: System
    ghost var history: seq<Event>

    ghost function View(): System
      reads this
    {
      System(jobs, workers)
    }

    /** Every state of the tables is reached by protocol events alone. */
    ghost predicate Valid()
      reads this
    {
      Init(origin) && CanRun(origin, history) && View() == Exec(origin, history)
    }

    lemma Safe()
      requires Valid()
      ensures Inv(View())
    {
      hide CanRun, Exec;
      RunKeepsInv(origin, history);
    }

    /** A worker that is inside a step is inside a step of a stored job. */
    lemma Present(w: WorkerId)
      requires Valid() && w in workers
      ensures Inv(View())
      ensures workers[w].InStep? ==> workers[w].job in jobs && workers[w].index < |jobs[workers[w].job].steps|
    {
      hide CanRun, Exec;
      Safe();
      assert workers[w].InStep? ==> WorkerOk(jobs[workers[w].job], workers[w]);
    }

    constructor (ids: set<WorkerId>)
      ensures Valid() && jobs == map[] && workers == (map w | w in ids :: Idle)
    {
      jobs := map[];
      workers := map w | w in ids :: Idle;
      origin := System(map[], map w | w in ids :: Idle);
      history := [];
    }

    /** Bookkeeping: the rows now hold what event e makes of them; the worker moves on. */
    ghost method Did(s: System, e: Event)
      requires Init(origin) && CanRun(origin, history) && s == Exec(origin, history)
      requires Admissible(s, e) && jobs == Apply(s, e).jobs
      modifies this`workers, this`history
      ensures Valid() && View() == Apply(s, e) && history == old(history) + [e]
    {
      hide CanRun, Exec;
      RunSnoc(origin, history, e);
      history := history + [e];
      workers := Apply(s, e).workers;
    }

    /** Nothing that happened after the events `before` undid what was stored then. */
    lemma SinceThen(before: seq<Event>, j: JobId)
      requires Valid() && before <= history
      ensures CanRun(origin, before) && Later(Exec(origin, before), View(), j)
    {
      hide CanRun, Exec, Evolves;
      LongerRunIsLater(origin, before, history, j);
    }

    /**
     Time passes: other workers may run any number of transactions.  Callers know only this contract, which covers
     every such run (OthersCoversEveryRun).
     */
    method Others(w: WorkerId)
      requires Valid() && w in workers
      modifies this
      ensures Valid() && w in workers && workers[w] == old(workers[w])
      ensures old(history) <= history
      ensures forall i :: |old(history)| <= i < |history| ==> Actor(history[i]) != Some(w)
    {
    }

    // ----- jobs and steps ----------------------------------------------------------------------------

    method Create(j: JobId, now: Time)
      requires Valid() && j !in jobs
      modifies this
      ensures Valid() && View() == Apply(old(View()), Submit(j, now))
    {
      hide CanRun, Exec;
      ghost var s := View();
      var steps := [];
      while |steps| < STEP_COUNT
        invariant |steps| <= STEP_COUNT
        invariant steps == NewJob(now).steps[..|steps|]
      {
        var blank := Step(Pending, 0, NoError, None, None, Progress(None, 0, 0, 0));
        if |steps| == VALIDATE_INPUT {
          blank := blank.(status := Succeeded, attempts := 1, startedAt := Some(now));
        }
        steps := steps + [blank];
      }
      assert steps == NewJob(now).steps;
      jobs := jobs[j := Job(JobPending, steps, {}, {}, 0, map[])];
      Did(s, Submit(j, now));
    }

    /** Rewinds the first running step of the job that the stale query locked. */
    method RecoverStaleRunning(j: JobId, staleBefore: Time)
      requires j in jobs && Recoverable(jobs[j], staleBefore)
      modifies this`jobs
      ensures jobs == old(jobs)[j := Recover(old(jobs)[j])]
    {
      var job := jobs[j];
      var r := 0;
      while !job.steps[r].status.Running?
        invariant r < |job.steps|
        invariant exists i :: r <= i < |job.steps| && job.steps[i].status.Running?
        invariant FirstRunning(job.steps, 0) == FirstRunning(job.steps, r)
        decreases |job.steps| - r
      {
        r := r + 1;
      }
      var step := job.steps[r];
      step := step.(status := Pending, error := NoError);
      step := step.(startedAt := None, heartbeatAt := None);
      jobs := jobs[j := job.(steps := job.steps[r := step], status := JobPending)];
    }

    /** The poll transaction: recover one stale job, then claim a pending one; row locks decide what the queries see. */
    method PollOnce(w: WorkerId, staleBefore: Time, recovered: Option<JobId>, claimed: Option<JobId>)
      requires Valid() && Enabled(View(), Poll(w, staleBefore, recovered, claimed))
      modifies this
      ensures Valid() && View() == Apply(old(View()), Poll(w, staleBefore, recovered, claimed))
      ensures history == old(history) + [Poll(w, staleBefore, recovered, claimed)]
    {
      hide CanRun, Exec;
      ghost var s := View();
      if recovered.Some? {
        RecoverStaleRunning(recovered.value, staleBefore);
      }
      if claimed.Some? {
        jobs := jobs[claimed.value := jobs[claimed.value].(status := JobRunning)];
      }
      Did(s, Poll(w, staleBefore, recovered, claimed));
    }

    method SetRunning(w: WorkerId, j: JobId)
      requires Valid() && w in workers && workers[w] == Claimed(j)
      modifies this
      ensures Valid() && w in workers && workers[w] == Marked(j)
      ensures old(Enabled(View(), MarkRunning(w))) && View() == Apply(old(View()), MarkRunning(w))
      ensures history == old(history) + [MarkRunning(w)]
    {
      hide CanRun, Exec;
      Safe();
      ghost var s := View();
      jobs := jobs[j := jobs[j].(status := JobRunning)];
      Did(s, MarkRunning(w));
    }

    method ListSteps(w: WorkerId, j: JobId) returns (cache: seq<CachedStep>)
      requires Valid() && w in workers && workers[w] == Marked(j)
      modifies this
      ensures Valid() && w in workers && workers[w] == Looping(j, cache, 0) && |cache| == STEP_COUNT
      ensures old(Enabled(View(), LoadSteps(w))) && View() == Apply(old(View()), LoadSteps(w))
      ensures history == old(history) + [LoadSteps(w)]
    {
      hide CanRun, Exec;
      Safe();
      ghost var s := View();
      var steps := jobs[j].steps;
      cache := seq(|steps|, i requires 0 <= i < |steps| => CachedStep(steps[i].status, steps[i].attempts));
      Did(s, LoadSteps(w));
    }

    /** Flushes the skipped steps marked in memory, then the started step: no fence, values from the cache. */
    method BeginStep(w: WorkerId, j: JobId, ghost base: seq<CachedStep>, ghost from: nat, ghost configured: set<int>,
                     dirty: set<int>, k: nat, attempt: nat, now: Time)
      requires Valid() && w in workers && workers[w] == Looping(j, base, from) && j in jobs
      requires |base| == STEP_COUNT && Enabled(View(), Start(w, configured, k, now))
      requires dirty == set x | from <= x < k && base[x].status.Pending?
      requires attempt == base[k].attempts + 1
      modifies this
      ensures Valid() && history == old(history) + [Start(w, configured, k, now)] && w in workers
      ensures workers[w] == InStep(j, Swept(base, from, k)[k := CachedStep(Running, attempt)], k, attempt, Handling)
      ensures View() == Apply(old(View()), Start(w, configured, k, now))
    {
      hide CanRun, Exec;
      Safe();
      ghost var s := View();
      var job := jobs[j];
      var steps := job.steps;
      var x := 0;
      while x < |steps|
        invariant 0 <= x <= |steps| == |job.steps|
        invariant forall y :: 0 <= y < x ==> steps[y] == StartStep(job, base, from, k, now).steps[y]
        invariant forall y :: x <= y < |steps| ==> steps[y] == job.steps[y]
      {
        if x in dirty {
          steps := steps[x := steps[x].(status := Skipped, error := OtherCode, heartbeatAt := Some(now))];
        } else if x == k {
          var step := steps[x].(status := Running, attempts := attempt);
          steps := steps[x := step.(startedAt := Some(now), heartbeatAt := Some(now))];
        }
        x := x + 1;
      }
      assert steps == StartStep(job, base, from, k, now).steps;
      jobs := jobs[j := job.(steps := steps)];
      Did(s, Start(w, configured, k, now));
    }

    /** UPDATE ... WHERE status = 'running' AND attempt_count = :attempt, together with the rows the handler added. */
    method FinishStepIfCurrent(
      w: WorkerId, j: JobId, i: nat, attempt: nat, result: StepResult, artifacts: Artifacts, now: Time)
      returns (current: bool)
      requires Valid() && Enabled(View(), Finish(w, result, artifacts, now))
      requires workers[w].job == j && workers[w].index == i && workers[w].attempt == attempt
      modifies this
      ensures Valid() && View() == Apply(old(View()), Finish(w, result, artifacts, now))
      ensures history == old(history) + [Finish(w, result, artifacts, now)]
      ensures current <==> old(Fenced(jobs[j], i, attempt))
    {
      hide CanRun, Exec;
      Safe();
      ghost var s := View();
      var job := jobs[j];
      current := job.steps[i].status.Running? && job.steps[i].attempts == attempt;
      if current {
        var step := job.steps[i].(status := result.status, error := result.error);
        job := job.(steps := job.steps[i := step.(heartbeatAt := Some(now))]);
        if i == COLLECT_COMMENTS {
          job := job.(comments := job.comments + artifacts.comments);
        } else if i == COLLECT_TRANSCRIPT && result.status.Succeeded? {
          job := job.(segments := job.segments + artifacts.segments);
        } else if i == CREATE_ANALYSIS_RUN && result.status.Succeeded? {
          job := job.(runs := job.runs + 1);
        }
        jobs := jobs[j := job];
      }
      Did(s, Finish(w, result, artifacts, now));
    }

    method ReleaseStepRow(w: WorkerId, j: JobId, i: nat, attempt: nat)
      requires Valid() && Enabled(View(), Release(w))
      requires workers[w].job == j && workers[w].index == i && workers[w].attempt == attempt
      modifies this
      ensures Valid() && View() == Apply(old(View()), Release(w)) && history == old(history) + [Release(w)]
    {
      hide CanRun, Exec;
      Safe();
      ghost var s := View();
      var job := jobs[j];
      if job.steps[i].status.Running? && job.steps[i].attempts == attempt {
        var step := job.steps[i].(status := Pending, error := NoError, startedAt := None, heartbeatAt := None);
        job := job.(steps := job.steps[i := step]);
        if job.status.JobRunning? {
          job := job.(status := JobPending);
        }
        jobs := jobs[j := job];
      }
      Did(s, Release(w));
    }

    /** The two any(...) tests of _finalize. */
    static method VerdictFlags(cache: seq<CachedStep>) returns (requiredFailed: bool, optionalIncomplete: bool)
      ensures requiredFailed == RequiredFailed(cache) && optionalIncomplete == OptionalIncomplete(cache)
    {
      requiredFailed, optionalIncomplete := false, false;
      for x := 0 to |cache|
        invariant requiredFailed <==>
                  exists i :: 0 <= i < x && i != FINALIZE_JOB && Required(i) && cache[i].status.Failed?
        invariant optionalIncomplete <==>
                  exists i :: 0 <= i < x && !Required(i) && (cache[i].status.Failed? || cache[i].status.Skipped?)
      {
        var status := cache[x].status;
        requiredFailed := requiredFailed || (x != FINALIZE_JOB && Required(x) && status.Failed?);
        optionalIncomplete := optionalIncomplete || (!Required(x) && (status.Failed? || status.Skipped?));
      }
    }

    /** The rows of a closed job: the finalize row, and the skips in memory or behind a required failure. */
    static method FinalRows(
      job: Job, ghost base: seq<CachedStep>, ghost from: nat, cache: seq<CachedStep>, dirty: set<int>,
      requiredFailed: bool, now: Time)
      returns (steps: seq<Step>)
      requires |base| == |job.steps| == STEP_COUNT && cache == Swept(base, from, FINALIZE_JOB)
      requires dirty == set x | from <= x < FINALIZE_JOB && base[x].status.Pending?
      requires requiredFailed == RequiredFailed(cache)
      ensures steps == Finalize(job, base, from, now).steps
    {
      hide RequiredFailed, Verdict;
      ghost var closed := Finalize(job, base, from, now);
      steps := job.steps;
      var x := 0;
      while x < |steps|
        invariant 0 <= x <= |steps| == |job.steps|
        invariant forall y :: 0 <= y < x ==> steps[y] == closed.steps[y]
        invariant forall y :: x <= y < |steps| ==> steps[y] == job.steps[y]
      {
        if x == FINALIZE_JOB {
          var step := steps[x].(status := Succeeded, attempts := cache[x].attempts + 1);
          steps := steps[x := step.(startedAt := Some(now), heartbeatAt := Some(now))];
        } else if x in dirty || (requiredFailed && cache[x].status.Pending?) {
          steps := steps[x := steps[x].(status := Skipped, error := OtherCode, heartbeatAt := Some(now))];
        }
        x := x + 1;
      }
      assert steps == closed.steps;
    }

    /** _finalize: the verdict from the cached list, the finalize row, and the skips behind a required failure. */
    method FinalizeJob(
      w: WorkerId, j: JobId, ghost configured: set<int>, ghost base: seq<CachedStep>, ghost from: nat,
      cache: seq<CachedStep>, dirty: set<int>, now: Time)
      requires Valid() && Enabled(View(), Close(w, configured, now)) && workers[w].job == j && j in jobs
      requires workers[w].cache == base && from == (if workers[w].Looping? then workers[w].cursor else FINALIZE_JOB)
      requires |base| == STEP_COUNT && cache == Swept(base, from, FINALIZE_JOB)
      requires dirty == set x | from <= x < FINALIZE_JOB && base[x].status.Pending?
      modifies this
      ensures Valid() && View() == Apply(old(View()), Close(w, configured, now)) && old(history) <= history
      ensures Terminal(jobs[j].status)
    {
      hide CanRun, Exec, Swept, RequiredFailed, OptionalIncomplete;
      Safe();
      ghost var s := View();
      var requiredFailed, optionalIncomplete := VerdictFlags(cache);
      var job := jobs[j];
      assert JobOk(job);
      var steps := FinalRows(job, base, from, cache, dirty, requiredFailed, now);
      var verdict :=
        if requiredFailed then JobFailed else if optionalIncomplete then JobPartialSuccess else JobSucceeded;
      jobs := jobs[j := job.(steps := steps, status := verdict)];
      Did(s, Close(w, configured, now));
    }

    /** The process dies; no row changes. */
    ghost method Dies(w: WorkerId)
      requires Valid() && w in workers
      modifies this`workers, this`history
      ensures Valid() && w in workers && workers[w] == Idle && history == old(history) + [Crash(w)]
    {
      hide CanRun, Exec;
      Safe();
      Did(View(), Crash(w));
    }

    /**
     Admin retry, on any job: 409 when no failure is retryable, otherwise rewind from the first one.  The tables stay
     within the protocol when no worker is between two steps of the job.
     */
    method RetryJob(j: JobId) returns (accepted: bool)
      requires Valid() && j in jobs
      modifies this
      ensures accepted == old(Retryable(jobs[j]))
      ensures jobs == old(jobs)[j := Retry(old(jobs)[j])] && workers == old(workers)
      ensures !accepted || old(RetrySafe(View(), j)) ==> Valid()
      ensures accepted && old(RetrySafe(View(), j)) ==> View() == Apply(old(View()), AdminRetry(j))
    {
      hide CanRun, Exec;
      ghost var s := View();
      var job := jobs[j];
      var f := 0;
      while f < |job.steps| && !(job.steps[f].status.Failed? && job.steps[f].error.RetryableCode?)
        invariant 0 <= f <= |job.steps|
        invariant FirstRetryable(job.steps, 0) == FirstRetryable(job.steps, f)
      {
        f := f + 1;
      }
      accepted := f < |job.steps|;
      if accepted {
        var steps := job.steps;
        var x := f;
        while x < |steps|
          invariant f <= x <= |steps| == |job.steps|
          invariant forall y :: 0 <= y < x ==> steps[y] == Retry(job).steps[y]
          invariant forall y :: x <= y < |steps| ==> steps[y] == job.steps[y]
        {
          steps := steps[x := steps[x].(status := Pending, error := NoError, startedAt := None)];
          x := x + 1;
        }
        assert steps == Retry(job).steps;
        jobs := jobs[j := job.(steps := steps, status := JobPending)];
        if RetrySafe(s, j) {
          Did(s, AdminRetry(j));
        }
      }
    }

    // ----- item results ------------------------------------------------------------------------------

    ghost predicate At(w: WorkerId, c: Context, ph: Phase)
      reads this
    {
      && w in workers && workers[w].InStep? && c.job in jobs
      && workers[w].job == c.job && workers[w].index == c.step && workers[w].attempt == c.attempt
      && workers[w].phase == ph
    }

    /** The reads with which an analysis handler decides: skip, fail for want of a run, or bind to the newest run. */
    method BindRun(w: WorkerId, j: JobId, i: nat) returns (ph: Phase)
      requires Valid() && w in workers && workers[w].InStep? && workers[w].phase.Handling?
      requires workers[w].job == j && workers[w].index == i && IsAnalysis(i)
      modifies this
      ensures Valid() && w in workers && workers[w] == old(workers[w]).(phase := ph)
      ensures history == old(history) + [Bind(w)]
      ensures old(Enabled(View(), Bind(w))) && View() == Apply(old(View()), Bind(w))
      ensures ph.NothingToAnalyze? || ph.Handling? || ph.Bound?
    {
      hide CanRun, Exec;
      Safe();
      ghost var s := View();
      var job := jobs[j];
      var collect := if i == ANALYZE_COMMENTS then COLLECT_COMMENTS else COLLECT_TRANSCRIPT;
      var sources := if i == ANALYZE_COMMENTS then job.comments else job.segments;
      if !job.steps[collect].status.Succeeded? || |sources| == 0 {
        ph := NothingToAnalyze;
      } else if job.runs == 0 {
        ph := Handling;
      } else {
        ph := Bound(job.runs);
      }
      Did(s, Bind(w));
    }

    /** The items without a result row, in some order, and the number of all items. */
    method LoadItems(w: WorkerId, c: Context) returns (total: nat, items: seq<ItemId>)
      requires Valid() && At(w, c, Bound(c.run))
      modifies this
      ensures Valid() && At(w, c, Loaded(c.run, total, set x | x in items))
      ensures forall a, b :: 0 <= a < b < |items| ==> items[a] != items[b]
      ensures SameAttempt(old(workers[w]), workers[w]) && history == old(history) + [Load(w)]
      ensures View() == Apply(old(View()), Load(w))
    {
      hide CanRun, Exec;
      Safe();
      ghost var s := View();
      var job := jobs[c.job];
      var k := KindOf(c.step);
      total := |Sources(job, k)|;
      items := Listed(Sources(job, k) - Rows(job, c.run, k).Keys);
      Did(s, Load(w));
    }

    /** One item: fence, insert if absent, and count only what was inserted. */
    static method PersistRows(job0: Job, c: Context, item: ItemId, o: Outcome, now: Time)
      returns (stale: bool, job: Job)
      requires c.step < |job0.steps|
      ensures stale <==> !Fenced(job0, c.step, c.attempt)
      ensures job == Persist(job0, c.step, c.attempt, c.run, KindOf(c.step), item, o, now)
    {
      job := job0;
      var step := job.steps[c.step];
      stale := !(step.status.Running? && step.attempts == c.attempt);
      if !stale {
        step := step.(heartbeatAt := Some(now));
        var key := RunKey(c.run, KindOf(c.step));
        var rows := if key in job.results then job.results[key] else map[];
        if item !in rows {
          job := job.(results := job.results[key := rows[item := o]]);
          var p := step.progress.(completed := step.progress.completed + 1);
          p := if o.ok then p.(succeeded := p.succeeded + 1) else p.(failed := p.failed + 1);
          step := step.(progress := p);
        }
        job := job.(steps := job.steps[c.step := step]);
      }
    }

    /** An item that a current attempt still has to store has no row yet. */
    lemma RemainingIsNew(w: WorkerId, c: Context, total: nat, remaining: set<ItemId>, item: ItemId)
      requires Inv(View()) && At(w, c, Persisting(c.run, total, remaining)) && item in remaining
      ensures 1 <= c.attempt && c.step < |jobs[c.job].steps| && c.attempt <= jobs[c.job].steps[c.step].attempts
      ensures Fenced(jobs[c.job], c.step, c.attempt) ==> item !in Rows(jobs[c.job], c.run, KindOf(c.step))
    {
      assert WorkerOk(jobs[c.job], workers[w]);
    }

    method PersistItem(
      w: WorkerId, c: Context, ghost total: nat, ghost remaining: set<ItemId>, item: ItemId, o: Outcome, now: Time)
      returns (stale: bool)
      requires Valid() && At(w, c, Persisting(c.run, total, remaining)) && item in remaining
      modifies this
      ensures Valid() && w in workers && View() == Apply(old(View()), Record(w, item, o, now))
      ensures history == old(history) + [Record(w, item, o, now)]
      ensures stale ==> workers[w] == Idle && Lost(View(), c)
      ensures !stale ==> HasRow(View(), c, item, o)
      ensures !stale ==> At(w, c, Persisting(c.run, total, remaining - {item}))
      ensures !stale ==> SameAttempt(old(workers[w]), workers[w])
    {
      hide CanRun, Exec;
      Safe();
      ghost var s := View();
      RemainingIsNew(w, c, total, remaining, item);
      var job;
      stale, job := PersistRows(jobs[c.job], c, item, o, now);
      if !stale {
        jobs := jobs[c.job := job];
      }
      Did(s, Record(w, item, o, now));
    }

    method BeatOnce(w: WorkerId, c: Context, ghost total: nat, ghost remaining: set<ItemId>, now: Time)
      returns (stale: bool)
      requires Valid() && At(w, c, Persisting(c.run, total, remaining))
      modifies this
      ensures Valid() && w in workers && View() == Apply(old(View()), Beat(w, now))
      ensures history == old(history) + [Beat(w, now)]
      ensures stale ==> workers[w] == Idle && Lost(View(), c)
      ensures !stale ==> workers[w] == old(workers[w])
    {
      hide CanRun, Exec;
      Safe();
      assert WorkerOk(jobs[c.job], workers[w]);
      ghost var s := View();
      var step := jobs[c.job].steps[c.step];
      stale := !(step.status.Running? && step.attempts == c.attempt);
      if !stale {
        jobs := jobs[c.job := jobs[c.job].(steps := jobs[c.job].steps[c.step := step.(heartbeatAt := Some(now))])];
      }
      Did(s, Beat(w, now));
    }

    /** The count query of reconcile: no lock is held. */
    method CountRows(w: WorkerId, c: Context) returns (succeeded: nat, failed: nat)
      requires Valid() && Enabled(View(), Count(w))
      requires At(w, c, workers[w].phase) && workers[w].phase.run == c.run
      modifies this
      ensures Valid() && w in workers && View() == Apply(old(View()), Count(w)) && old(history) <= history
      ensures var ph := old(workers[w].phase);
              At(w, c, Counted(c.run, ph.total, ph.remaining, ph.Persisting?, succeeded, failed))
              && SameAttempt(old(workers[w]), workers[w])
    {
      hide CanRun, Exec;
      Safe();
      ghost var s := View();
      var rows := Rows(jobs[c.job], c.run, KindOf(c.step));
      succeeded := |set x | x in rows && rows[x].ok == true|;
      failed := |set x | x in rows && rows[x].ok == false|;
      Did(s, Count(w));
    }

    /** The fenced update of reconcile. */
    method StoreCounts(
      w: WorkerId, c: Context, total: nat, ghost remaining: set<ItemId>, ghost closing: bool,
      succeeded: nat, failed: nat, now: Time)
      returns (stale: bool)
      requires Valid() && At(w, c, Counted(c.run, total, remaining, closing, succeeded, failed))
      modifies this
      ensures Valid() && w in workers && View() == Apply(old(View()), Adjust(w, now)) && old(history) <= history
      ensures stale ==> workers[w] == Idle && Lost(View(), c)
      ensures !stale ==>
                workers[w] ==
                old(workers[w]).(phase := if closing then Analyzed(c.run) else Persisting(c.run, total, remaining))
    {
      hide CanRun, Exec;
      Safe();
      assert WorkerOk(jobs[c.job], workers[w]);
      ghost var s := View();
      var step := jobs[c.job].steps[c.step];
      stale := !(step.status.Running? && step.attempts == c.attempt);
      if !stale {
        var p := Progress(Some(total), succeeded + failed, succeeded, failed);
        step := step.(progress := p, heartbeatAt := Some(now));
        jobs := jobs[c.job := jobs[c.job].(steps := jobs[c.job].steps[c.step := step])];
      }
      Did(s, Adjust(w, now));
    }

    /** reconcile: count, then update under the fence; anybody may run in between. */
    method ReconcileStep(w: WorkerId, c: Context, total: nat, now: Time)
      returns (stale: bool, succeeded: nat, failed: nat)
      requires Valid() && Enabled(View(), Count(w))
      requires At(w, c, workers[w].phase) && workers[w].phase.run == c.run && workers[w].phase.total == total
      modifies this
      ensures Valid() && w in workers && old(history) <= history
      ensures stale ==> workers[w] == Idle && Lost(View(), c)
      ensures !stale ==>
                workers[w] == old(workers[w]).(phase := if old(workers[w].phase.Persisting?) then Analyzed(c.run)
                                                        else Persisting(c.run, total, old(workers[w].phase.remaining)))
    {
      hide CanRun, Exec;
      ghost var ph := workers[w].phase;
      succeeded, failed := CountRows(w, c);
      Others(w);
      Safe();
      stale := StoreCounts(w, c, total, ph.remaining, ph.Persisting?, succeeded, failed, now);
    }
  }
}
