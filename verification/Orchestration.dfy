/**
 The worker: poll, run_job with its loop over the cached step list, run_step, and the analysis service.
 Every table access is a protocol event and any number of other workers run between two of them.
 */
module Orchestration {
  import opened JobModel
  import opened Protocol
  import opened Safety
  import opened Store
  import opened Coordination
  import opened Executor

  /** How a handler ends: a result with the rows it added, or an exception run_step tells apart; or the process dies. */
  datatype HandlerEnd =
    | Returns(result: StepResult, artifacts: Artifacts)
    | RaisesShutdown
    | RaisesStale
    | Raises(error: ErrorCode)
    | Dies

  datatype JobEnd = JobClosed | StepLost(step: nat, attempt: nat, end: HandlerEnd)

  /** What this worker knows of itself inside a step. */
  ghost predicate Inside(t: JobTable, w: WorkerId, j: JobId, cache: seq<CachedStep>, i: nat, attempt: nat)
    reads t
  {
    && w in t.workers && t.workers[w].InStep? && t.workers[w].job == j
    && t.workers[w].cache == cache && t.workers[w].index == i && t.workers[w].attempt == attempt
  }

  /** The run_job loop at position i: what is cached, what was flushed last, and which skips only exist in memory. */
  ghost predicate LoopState(
    base: seq<CachedStep>, from: nat, cache: seq<CachedStep>, dirty: set<int>, configured: set<int>, i: nat)
  {
    && |base| == STEP_COUNT && from <= i <= FINALIZE_JOB
    && cache == Swept(base, from, i)
    && Passed(base, configured, from, i)
    && dirty == set x | from <= x < i && base[x].status.Pending?
  }

  lemma LoopStarts(base: seq<CachedStep>, configured: set<int>, i: nat)
    requires |base| == STEP_COUNT && i <= FINALIZE_JOB
    ensures LoopState(base, i, base, {}, configured, i)
  {
  }

  lemma LoopPasses(
    base: seq<CachedStep>, from: nat, cache: seq<CachedStep>, dirty: set<int>, configured: set<int>, i: nat)
    requires LoopState(base, from, cache, dirty, configured, i) && i < FINALIZE_JOB
    ensures cache[i] == base[i]
    ensures !cache[i].status.Pending? ==> LoopState(base, from, cache, dirty, configured, i + 1)
    ensures cache[i].status.Pending? && i !in configured ==>
              LoopState(base, from, cache[i := cache[i].(status := Skipped)], dirty + {i}, configured, i + 1)
  {
  }

  /** Where the worker stands after step i has finished with the given status. */
  function Resumed(j: JobId, cache: seq<CachedStep>, i: nat, status: StepStatus): Worker {
    if !status.Succeeded? && Required(i) then Finalizing(j, cache) else Looping(j, cache, i + 1)
  }

  /** The last transaction of a step: released, abandoned, or finished with the handler's result or its error. */
  ghost predicate EndedBy(history: seq<Event>, w: WorkerId, end: HandlerEnd, now: Time) {
    && history != []
    && history[|history| - 1] ==
       match end
       case RaisesShutdown => Event.Release(w)
       case RaisesStale => Crash(w)
       case Dies => Crash(w)
       case Returns(result, artifacts) => Event.Finish(w, result, artifacts, now)
       case Raises(error) => Event.Finish(w, StepResult(Failed, error), Artifacts({}, {}), now)
  }

  predicate EndsWith(end: HandlerEnd, status: StepStatus) {
    (end.Returns? && end.result.status == status) || (end.Raises? && status.Failed?)
  }

  // ----- why a handler ends as it does ------------------------------------------------------------------------

  /** Event number n was worker w loading exactly these items. */
  ghost predicate Loads(origin: System, history: seq<Event>, n: nat, w: WorkerId, items: seq<ItemId>) {
    && n < |history| && history[n] == Load(w) && CanRun(origin, history[..n + 1])
    && var s := Exec(origin, history[..n + 1]);
    && w in s.workers && s.workers[w].InStep? && s.workers[w].phase.Loaded?
    && s.workers[w].phase.remaining == Ids(items)
  }

  /** Event number n was worker w finding collected items but no analysis run. */
  ghost predicate FindsNoRun(origin: System, history: seq<Event>, n: nat, w: WorkerId) {
    && n < |history| && history[n] == Bind(w) && CanRun(origin, history[..n + 1])
    && var s := Exec(origin, history[..n + 1]);
    && w in s.workers && s.workers[w].InStep? && s.workers[w].phase.Handling?
  }

  /** Event number n was worker w starting step i. */
  ghost predicate Starts(history: seq<Event>, n: nat, w: WorkerId, i: nat) {
    n < |history| && history[n].Start? && history[n].w == w && history[n].k == i
  }

  /** The items a coordinator was run on, and whether it found the stop flag up. */
  datatype CoordinatorRun = CoordinatorRun(items: seq<ItemId>, flag: bool)

  /** The worker loaded exactly the items of this run, no earlier than event number `since`. */
  ghost predicate LoadedFor(origin: System, history: seq<Event>, since: nat, w: WorkerId, run: CoordinatorRun) {
    Distinct(run.items) && exists n: nat :: since <= n && Loads(origin, history, n, w, run.items)
  }

  ghost predicate NoRunFound(origin: System, history: seq<Event>, since: nat, w: WorkerId) {
    exists n: nat :: since <= n && FindsNoRun(origin, history, n, w)
  }

  /** Some future of the run raised an error. */
  ghost predicate RaisedError(run: Option<CoordinatorRun>, classify: ItemId -> Classified) {
    run.Some? && exists x :: x in run.value.items && classify(x).ErrorRaised?
  }

  /** The run fits this end: no other end of the handler goes with how its coordinator ended. */
  ghost predicate RunExplains(
    origin: System, history: seq<Event>, since: nat, w: WorkerId, run: CoordinatorRun,
    runtime: RagRuntime, env: Env, end: HandlerEnd)
  {
    && LoadedFor(origin, history, since, w, run)
    && var e := runtime.Expected(run.items, env, run.flag).end;
    match end
    case Returns(_, _) => e == Some(Completed)
    case RaisesShutdown => e == Some(ShutdownRequested)
    case Raises(_) => e == Some(Unexpected)
    case Dies => e == Some(Cut)
    case RaisesStale => true
  }

  /** An analysis handler ends for a reason it met since event number `since`; a flag it found up is still up. */
  ghost predicate Explained(
    origin: System, history: seq<Event>, since: nat, w: WorkerId, runtime: RagRuntime, env: Env, stop: bool,
    end: HandlerEnd)
  {
    || end.Returns? || end.RaisesStale?
    || (end.Raises? && NoRunFound(origin, history, since, w))
    || exists run: CoordinatorRun ::
         (run.flag ==> stop) && RunExplains(origin, history, since, w, run, runtime, env, end)
  }

  lemma LoadsStays(origin: System, before: seq<Event>, history: seq<Event>, n: nat, w: WorkerId, items: seq<ItemId>)
    requires before <= history && Loads(origin, before, n, w, items)
    ensures Loads(origin, history, n, w, items)
  {
    hide CanRun, Exec;
    assert history[..n + 1] == before[..n + 1];
  }

  lemma LoadedForStays(
    origin: System, before: seq<Event>, history: seq<Event>, since: nat, earlier: nat, w: WorkerId,
    run: CoordinatorRun)
    requires before <= history && earlier <= since && LoadedFor(origin, before, since, w, run)
    ensures LoadedFor(origin, history, earlier, w, run)
  {
    hide CanRun, Exec, Loads, Distinct;
    var n: nat :| since <= n && Loads(origin, before, n, w, run.items);
    LoadsStays(origin, before, history, n, w, run.items);
  }

  lemma NoRunFoundStays(
    origin: System, before: seq<Event>, history: seq<Event>, since: nat, earlier: nat, w: WorkerId)
    requires before <= history && earlier <= since && NoRunFound(origin, before, since, w)
    ensures NoRunFound(origin, history, earlier, w)
  {
    hide CanRun, Exec;
    var n: nat :| since <= n && FindsNoRun(origin, before, n, w);
    assert history[..n + 1] == before[..n + 1];
    assert FindsNoRun(origin, history, n, w);
  }

  lemma ExplainedStays(
    origin: System, before: seq<Event>, history: seq<Event>, since: nat, earlier: nat, w: WorkerId,
    runtime: RagRuntime, env: Env, stop: bool, end: HandlerEnd)
    requires before <= history && earlier <= since && Explained(origin, before, since, w, runtime, env, stop, end)
    ensures Explained(origin, history, earlier, w, runtime, env, stop, end)
  {
    hide CanRun, Exec, NoRunFound, LoadedFor;
    if end.Raises? && NoRunFound(origin, before, since, w) {
      NoRunFoundStays(origin, before, history, since, earlier, w);
    } else if !end.Returns? && !end.RaisesStale? {
      var run: CoordinatorRun :|
        (run.flag ==> stop) && RunExplains(origin, before, since, w, run, runtime, env, end);
      LoadedForStays(origin, before, history, since, earlier, w, run);
      assert RunExplains(origin, history, earlier, w, run, runtime, env, end);
    }
  }

  /** Nothing this attempt could still do would reach the row. */
  ghost predicate Gone(s: System, j: JobId, i: nat, attempt: nat) {
    j in s.jobs && Superseded(s.jobs[j], i, attempt)
  }

  /** Why a worker got no further in this step: it gave the step back, lost it, or died. */
  ghost predicate LostBecause(
    s: System, j: JobId, i: nat, attempt: nat, handlers: map<int, HandlerEnd>, end: HandlerEnd)
  {
    && (!IsAnalysis(i) ==> i in handlers && end == handlers[i])
    && (Gone(s, j, i, attempt) || end.Dies? || (end.RaisesStale? && !IsAnalysis(i)))
  }

  class JobWorker {
    const table: JobTable
    const runtime: RagRuntime

    constructor (table: JobTable, runtime: RagRuntime)
      ensures this.table == table && this.runtime == runtime
    {
      this.table, this.runtime := table, runtime;
    }

    /** The production handlers of the two analysis steps, up to the analysis service. */
    method Analyze(w: WorkerId, j: JobId, ghost cache: seq<CachedStep>, i: nat, attempt: nat, env: Env, now: Time)
      returns (end: HandlerEnd, ghost run: Option<CoordinatorRun>)
      requires table.Valid() && runtime.itemConcurrency >= 1 && IsAnalysis(i)
      requires Inside(table, w, j, cache, i, attempt) && table.workers[w].phase.Handling?
      modifies table, runtime
      ensures table.Valid() && w in table.workers && old(table.history) <= table.history
      ensures end.RaisesStale? ==> table.workers[w] == Idle && Gone(table.View(), j, i, attempt)
      ensures !end.RaisesStale? ==> Inside(table, w, j, cache, i, attempt)
      ensures end.Returns? ==> MayFinish(table.workers[w].phase, i, end.result.status)
      ensures end.Returns? ==> end.result.status.Succeeded? || end.result.status.Skipped?
      ensures run.None? ==>
                || end.RaisesStale? || (end.Returns? && end.result.status.Skipped?)
                || (end == Raises(OtherCode) && NoRunFound(table.origin, table.history, |old(table.history)|, w))
      ensures run.Some? ==>
                && LoadedFor(table.origin, table.history, |old(table.history)|, w, run.value)
                && (run.value.flag && !end.RaisesStale? ==> runtime.stop)
                && (end.Returns? ==> end.result.status.Succeeded?)
      ensures run.Some? ==>
                var e := runtime.Expected(run.value.items, env, run.value.flag).end;
                && (e == Some(ShutdownRequested) ==> end.RaisesShutdown? || end.RaisesStale?)
                && (e == Some(Unexpected) ==> end == Raises(OtherCode) || end.RaisesStale?)
                && (e == Some(Completed) ==> end.Returns? || end.RaisesStale?)
                && (e == Some(Cut) ==> end.Dies? || end.RaisesStale?)
                && (|| e == Some(ShutdownRequested) || e == Some(Unexpected) || e == Some(Completed) || e == Some(Cut))
      ensures end.Raises? ==>
                || NoRunFound(table.origin, table.history, |old(table.history)|, w)
                || RaisedError(run, runtime.classify)
    {
      hide CanRun, Exec, Superseded, NoRunFound, LoadedFor, Reference, RaisedError;
      run := None;
      table.Others(w);
      ghost var before := table.history;
      var ph := table.BindRun(w, j, i);
      if ph.NothingToAnalyze? {
        return Returns(StepResult(Skipped, OtherCode), Artifacts({}, {})), None;
      }
      if ph.Handling? {
        NothingFound(w, before);
        return Raises(OtherCode), None;
      }
      ghost var bound := table.history;
      end, run := AnalyzeRun(w, Context(j, i, ph.run, attempt), cache, env, now);
      if run.Some? {
        LoadedForStays(table.origin, table.history, table.history, |bound|, |old(table.history)|, w, run.value);
      }
    }

    lemma NothingFound(w: WorkerId, before: seq<Event>)
      requires table.Valid() && table.history == before + [Bind(w)]
      requires w in table.workers && table.workers[w].InStep? && table.workers[w].phase.Handling?
      ensures forall since: nat :: since <= |before| ==> NoRunFound(table.origin, table.history, since, w)
    {
      hide CanRun, Exec;
      assert table.history[..|before| + 1] == table.history;
      assert FindsNoRun(table.origin, table.history, |before|, w);
    }

    lemma LoadedNow(w: WorkerId, before: seq<Event>, items: seq<ItemId>)
      requires table.Valid() && table.history == before + [Load(w)]
      requires w in table.workers && table.workers[w].InStep? && table.workers[w].phase.Loaded?
      requires table.workers[w].phase.remaining == Ids(items)
      ensures Loads(table.origin, table.history, |before|, w, items)
    {
      hide CanRun, Exec;
      assert table.history[..|before| + 1] == table.history;
    }

    /** CommentAnalyzer.analyze and ScriptAnalyzer.analyze: load what is missing, reconcile, run, reconcile. */
    method AnalyzeRun(w: WorkerId, c: Context, ghost cache: seq<CachedStep>, env: Env, now: Time)
      returns (end: HandlerEnd, ghost run: Option<CoordinatorRun>)
      requires table.Valid() && runtime.itemConcurrency >= 1 && IsAnalysis(c.step)
      requires Inside(table, w, c.job, cache, c.step, c.attempt) && table.workers[w].phase == Bound(c.run)
      modifies table, runtime
      ensures table.Valid() && w in table.workers && old(table.history) <= table.history
      ensures end.RaisesStale? ==> table.workers[w] == Idle && Lost(table.View(), c)
      ensures !end.RaisesStale? ==> Inside(table, w, c.job, cache, c.step, c.attempt)
      ensures end.Returns? ==> table.workers[w].phase == Analyzed(c.run) && end.result.status.Succeeded?
      ensures run.None? ==> end.RaisesStale?
      ensures run.Some? ==>
                && LoadedFor(table.origin, table.history, |old(table.history)|, w, run.value)
                && (run.value.flag && !end.RaisesStale? ==> runtime.stop)
      ensures run.Some? ==>
                var e := runtime.Expected(run.value.items, env, run.value.flag).end;
                && (e == Some(ShutdownRequested) ==> end.RaisesShutdown? || end.RaisesStale?)
                && (e == Some(Unexpected) ==> end == Raises(OtherCode) || end.RaisesStale?)
                && (e == Some(Completed) ==> end.Returns? || end.RaisesStale?)
                && (e == Some(Cut) ==> end.Dies? || end.RaisesStale?)
                && (|| e == Some(ShutdownRequested) || e == Some(Unexpected) || e == Some(Completed) || e == Some(Cut))
      ensures end.Raises? ==> RaisedError(run, runtime.classify)
    {
      hide CanRun, Exec, Inv, JobTable.Valid, Lost, Loads, Reference;
      table.Others(w);
      table.Present(w);
      ghost var before, flag := table.history, runtime.stop;
      var total, items := table.LoadItems(w, c);
      assert Ids(items) == set x | x in items;
      LoadedNow(w, before, items);
      ghost var loaded := table.history;
      var stale := Reconcile(w, c, cache, total, items, now);
      if stale {
        return RaisesStale, None;
      }
      end := RunItems(w, c, cache, total, items, env, now);
      run := Some(CoordinatorRun(items, flag));
      LoadsStays(table.origin, loaded, table.history, |before|, w, items);
    }

    /** The opening reconcile. */
    method Reconcile(
      w: WorkerId, c: Context, ghost cache: seq<CachedStep>, total: nat, ghost items: seq<ItemId>, now: Time)
      returns (stale: bool)
      requires table.Valid() && Inside(table, w, c.job, cache, c.step, c.attempt)
      requires table.At(w, c, Loaded(c.run, total, Ids(items)))
      modifies table
      ensures table.Valid() && w in table.workers && old(table.history) <= table.history
      ensures stale ==> table.workers[w] == Idle && Lost(table.View(), c)
      ensures !stale ==> table.At(w, c, Persisting(c.run, total, Ids(items)))
      ensures !stale ==> Inside(table, w, c.job, cache, c.step, c.attempt)
    {
      hide CanRun, Exec, Inv, JobTable.Valid, Lost;
      table.Others(w);
      table.Present(w);
      var succeeded, failed;
      stale, succeeded, failed := table.ReconcileStep(w, c, total, now);
      table.Present(w);
    }

    /** The four ends of a run whose attempt keeps its row. */
    lemma ExpectedEnds(items: seq<ItemId>, env: Env, flag: bool)
      requires Distinct(items) && runtime.itemConcurrency >= 1
      ensures var e := runtime.Expected(items, env, flag).end;
              && (|| e == Some(ShutdownRequested) || e == Some(Unexpected) || e == Some(Completed) || e == Some(Cut))
              && (e == Some(Unexpected) ==> exists x :: x in items && runtime.classify(x).ErrorRaised?)
      ensures flag ==> runtime.Expected(items, env, flag).stop
    {
      hide Reference;
      ReferenceMeans(runtime.parallel, items, runtime.itemConcurrency, env, runtime.classify, flag);
      FlagStays(runtime.parallel, items, runtime.itemConcurrency, env, runtime.classify, flag);
      match runtime.Expected(items, env, flag).end.value {
        case Completed =>
        case ShutdownRequested =>
        case Unexpected =>
        case Cut =>
      }
    }

    /** The coordinator and the closing reconcile. */
    method RunItems(
      w: WorkerId, c: Context, ghost cache: seq<CachedStep>, total: nat, items: seq<ItemId>, env: Env, now: Time)
      returns (end: HandlerEnd)
      requires table.Valid() && runtime.itemConcurrency >= 1 && IsAnalysis(c.step) && Distinct(items)
      requires Inside(table, w, c.job, cache, c.step, c.attempt)
      requires table.At(w, c, Persisting(c.run, total, Ids(items)))
      modifies table, runtime
      ensures table.Valid() && w in table.workers && old(table.history) <= table.history
      ensures end.RaisesStale? ==> table.workers[w] == Idle && Lost(table.View(), c)
      ensures !end.RaisesStale? ==> Inside(table, w, c.job, cache, c.step, c.attempt)
      ensures old(runtime.stop) && !end.RaisesStale? ==> runtime.stop
      ensures var e := runtime.Expected(items, env, old(runtime.stop)).end;
              && (e == Some(ShutdownRequested) ==> end.RaisesShutdown? || end.RaisesStale?)
              && (e == Some(Unexpected) ==> end == Raises(OtherCode) || end.RaisesStale?)
              && (e == Some(Completed) ==> end.Returns? || end.RaisesStale?)
              && (e == Some(Cut) ==> end.Dies? || end.RaisesStale?)
              && (|| e == Some(ShutdownRequested) || e == Some(Unexpected) || e == Some(Completed) || e == Some(Cut))
      ensures end.Raises? ==> exists x :: x in items && runtime.classify(x).ErrorRaised?
      ensures end.Returns? ==> table.workers[w].phase == Analyzed(c.run) && end.result.status.Succeeded?
    {
      hide CanRun, Exec, Inv, JobTable.Valid, Lost, Rowed, MarkKept, RagRuntime.Expected;
      ExpectedEnds(items, env, runtime.stop);
      var runEnd;
      ghost var k;
      runEnd, k := runtime.Run(table, w, c, items, total, env);
      match runEnd {
        case StaleStep => return RaisesStale;
        case ShutdownRequested => return RaisesShutdown;
        case Unexpected => return Raises(OtherCode);
        case Cut => return Dies;
        case Completed =>
          SameIds(k.recorded, items);
          table.Others(w);
          table.Present(w);
          var stale, succeeded, failed := table.ReconcileStep(w, c, total, now);
          if stale {
            return RaisesStale;
          }
          return Returns(StepResult(Succeeded, NoError), Artifacts({}, {}));
      }
    }

    lemma SameIds(a: seq<ItemId>, b: seq<ItemId>)
      requires multiset(a) == multiset(b)
      ensures Ids(b) - Ids(a) == {}
    {
      forall x | x in b ensures x in a {
        assert x in multiset(b);
      }
    }

    /** _run_step after the start was committed: handler, then release, discard or fenced finish. */
    method RunStep(
      w: WorkerId, j: JobId, ghost cache: seq<CachedStep>, i: nat, attempt: nat, handlers: map<int, HandlerEnd>,
      env: Env, now: Time)
      returns (finished: Option<StepStatus>, end: HandlerEnd, ghost run: Option<CoordinatorRun>)
      requires table.Valid() && runtime.itemConcurrency >= 1 && |cache| == STEP_COUNT && i < FINALIZE_JOB
      requires Inside(table, w, j, cache, i, attempt) && table.workers[w].phase.Handling? && i in handlers
      requires handlers[i].Returns? ==> Finished(handlers[i].result.status)
      modifies table, runtime
      ensures table.Valid() && w in table.workers && old(table.history) <= table.history
      ensures EndedBy(table.history, w, end, now)
      ensures !IsAnalysis(i) ==> end == handlers[i] && run.None?
      ensures IsAnalysis(i) ==>
                Explained(table.origin, table.history, |old(table.history)|, w, runtime, env, runtime.stop, end)
      ensures run.Some? ==> LoadedFor(table.origin, table.history, |old(table.history)|, w, run.value)
      ensures run.Some? ==>
                var e := runtime.Expected(run.value.items, env, run.value.flag).end;
                var last := if table.history == [] then Crash(w) else table.history[|table.history| - 1];
                var lost := last == Crash(w) && Gone(table.View(), j, i, attempt);
                && (e == Some(ShutdownRequested) ==> finished.None? && (last == Event.Release(w) || lost))
                && (e == Some(Unexpected) ==>
                      last == Event.Finish(w, StepResult(Failed, OtherCode), Artifacts({}, {}), now) || lost)
                && (e == Some(Completed) ==>
                      lost || (last.Finish? && last.w == w && last.result.status.Succeeded?))
                && (e == Some(Cut) ==> finished.None? && last == Crash(w))
      ensures IsAnalysis(i) && finished == Some(Failed) ==>
                || NoRunFound(table.origin, table.history, |old(table.history)|, w)
                || RaisedError(run, runtime.classify)
      ensures finished.None? ==> table.workers[w] == Idle && LostBecause(table.View(), j, i, attempt, handlers, end)
      ensures finished.Some? ==> EndsWith(end, finished.value)
      ensures finished.Some? ==>
                table.workers[w] == Resumed(j, cache[i := CachedStep(finished.value, attempt)], i, finished.value)
    {
      hide CanRun, Exec, Inv, JobTable.Valid, Explained, Gone, Later, NoRunFound, LoadedFor, RaisedError, Reference;
      end, run := handlers[i], None;
      if IsAnalysis(i) {
        end, run := Analyze(w, j, cache, i, attempt, env, now);
        AnalyzeExplains(w, |old(table.history)|, env, end, run);
      }
      ghost var handled, noRun := table.history, NoRunFound(table.origin, table.history, |old(table.history)|, w);
      finished := EndStep(w, j, cache, i, attempt, end, now);
      if IsAnalysis(i) {
        ExplainedStays(
          table.origin, handled, table.history, |old(table.history)|, |old(table.history)|, w, runtime, env,
          runtime.stop, end);
      }
      if noRun {
        NoRunFoundStays(table.origin, handled, table.history, |old(table.history)|, |old(table.history)|, w);
      }
      if run.Some? {
        LoadedForStays(table.origin, handled, table.history, |old(table.history)|, |old(table.history)|, w, run.value);
      }
    }

    /** What Analyze promises about its run is an explanation of its end. */
    lemma AnalyzeExplains(w: WorkerId, since: nat, env: Env, end: HandlerEnd, run: Option<CoordinatorRun>)
      requires run.None? ==>
                 || end.RaisesStale? || (end.Returns? && end.result.status.Skipped?)
                 || (end == Raises(OtherCode) && NoRunFound(table.origin, table.history, since, w))
      requires run.Some? ==>
                 && LoadedFor(table.origin, table.history, since, w, run.value)
                 && (run.value.flag && !end.RaisesStale? ==> runtime.stop)
      requires run.Some? ==>
                 var e := runtime.Expected(run.value.items, env, run.value.flag).end;
                 && (e == Some(ShutdownRequested) ==> end.RaisesShutdown? || end.RaisesStale?)
                 && (e == Some(Unexpected) ==> end == Raises(OtherCode) || end.RaisesStale?)
                 && (e == Some(Completed) ==> end.Returns? || end.RaisesStale?)
                 && (e == Some(Cut) ==> end.Dies? || end.RaisesStale?)
                 && (|| e == Some(ShutdownRequested) || e == Some(Unexpected) || e == Some(Completed)
                     || e == Some(Cut))
      ensures Explained(table.origin, table.history, since, w, runtime, env, runtime.stop, end)
    {
      hide CanRun, Exec, NoRunFound, LoadedFor, Reference;
      if run.Some? && !end.RaisesStale? {
        assert RunExplains(table.origin, table.history, since, w, run.value, runtime, env, end);
      }
    }

    /** The last transaction of a step. */
    method EndStep(
      w: WorkerId, j: JobId, ghost cache: seq<CachedStep>, i: nat, attempt: nat, end: HandlerEnd, now: Time)
      returns (finished: Option<StepStatus>)
      requires table.Valid() && |cache| == STEP_COUNT && i < FINALIZE_JOB && w in table.workers
      requires end.RaisesStale? || Inside(table, w, j, cache, i, attempt)
      requires end.Returns? ==> MayFinish(table.workers[w].phase, i, end.result.status)
      requires end.Raises? ==> MayFinish(table.workers[w].phase, i, Failed)
      modifies table
      ensures table.Valid() && w in table.workers && old(table.history) <= table.history
      ensures EndedBy(table.history, w, end, now)
      ensures old(Gone(table.View(), j, i, attempt)) ==> Gone(table.View(), j, i, attempt)
      ensures finished.None? ==> table.workers[w] == Idle
      ensures finished.None? ==> Gone(table.View(), j, i, attempt) || end.Dies? || end.RaisesStale?
      ensures finished.Some? ==> EndsWith(end, finished.value)
      ensures finished.Some? ==>
                table.workers[w] == Resumed(j, cache[i := CachedStep(finished.value, attempt)], i, finished.value)
    {
      hide CanRun, Exec, Inv, Gone;
      ghost var before, s := table.history, table.View();
      table.Others(w);
      table.Present(w);
      match end {
        case RaisesShutdown =>
          finished := GiveBack(w, j, cache, i, attempt);
        case RaisesStale =>
          table.Dies(w);
          finished := None;
        case Dies =>
          table.Dies(w);
          finished := None;
        case Returns(result, artifacts) =>
          finished := Finish(w, j, cache, i, attempt, result, artifacts, now);
        case Raises(error) =>
          finished := Finish(w, j, cache, i, attempt, StepResult(Failed, error), Artifacts({}, {}), now);
      }
      GoneStays(before, s, j, i, attempt);
    }

    lemma GoneStays(before: seq<Event>, s: System, j: JobId, i: nat, attempt: nat)
      requires table.Valid() && before <= table.history
      requires CanRun(table.origin, before) ==> s == Exec(table.origin, before)
      ensures Gone(s, j, i, attempt) ==> Gone(table.View(), j, i, attempt)
    {
      hide CanRun, Exec;
      table.SinceThen(before, j);
    }

    method GiveBack(w: WorkerId, j: JobId, ghost cache: seq<CachedStep>, i: nat, attempt: nat)
      returns (finished: Option<StepStatus>)
      requires table.Valid() && Inside(table, w, j, cache, i, attempt)
      modifies table
      ensures table.Valid() && w in table.workers && table.history == old(table.history) + [Event.Release(w)]
      ensures finished.None? && table.workers[w] == Idle && Gone(table.View(), j, i, attempt)
    {
      hide CanRun, Exec;
      table.Safe();
      assert WorkerOk(table.jobs[j], table.workers[w]);
      table.ReleaseStepRow(w, j, i, attempt);
      finished := None;
    }

    method Finish(
      w: WorkerId, j: JobId, ghost cache: seq<CachedStep>, i: nat, attempt: nat, result: StepResult,
      artifacts: Artifacts, now: Time)
      returns (finished: Option<StepStatus>)
      requires table.Valid() && |cache| == STEP_COUNT && i < FINALIZE_JOB
      requires Inside(table, w, j, cache, i, attempt) && MayFinish(table.workers[w].phase, i, result.status)
      modifies table
      ensures table.Valid() && w in table.workers
      ensures table.history == old(table.history) + [Event.Finish(w, result, artifacts, now)]
      ensures finished.None? ==> table.workers[w] == Idle && Gone(table.View(), j, i, attempt)
      ensures finished.Some? ==> finished.value == result.status
      ensures finished.Some? ==>
                table.workers[w] == Resumed(j, cache[i := CachedStep(finished.value, attempt)], i, finished.value)
    {
      hide CanRun, Exec;
      table.Safe();
      assert WorkerOk(table.jobs[j], table.workers[w]);
      var current := table.FinishStepIfCurrent(w, j, i, attempt, result, artifacts, now);
      finished := if current then Some(result.status) else None;
    }

    ghost predicate StartedSince(since: nat, w: WorkerId, i: nat)
      reads table
    {
      exists n: nat :: since <= n && Starts(table.history, n, w, i)
    }

    lemma StartsWiden(w: WorkerId, i: nat, since: nat, earlier: nat)
      requires earlier <= since && StartedSince(since, w, i)
      ensures StartedSince(earlier, w, i)
    {
    }

    lemma NoRunFoundWidens(w: WorkerId, since: nat, earlier: nat)
      requires earlier <= since
      ensures NoRunFound(table.origin, table.history, since, w) ==> NoRunFound(table.origin, table.history, earlier, w)
    {
    }

    lemma ExplainedWiden(w: WorkerId, since: nat, earlier: nat, env: Env, end: HandlerEnd)
      requires earlier <= since
      ensures Explained(table.origin, table.history, since, w, runtime, env, runtime.stop, end) ==>
                Explained(table.origin, table.history, earlier, w, runtime, env, runtime.stop, end)
    {
      if Explained(table.origin, table.history, since, w, runtime, env, runtime.stop, end) {
        ExplainedStays(
          table.origin, table.history, table.history, since, earlier, w, runtime, env, runtime.stop, end);
      }
    }

    /**
     How a job run ends: the job is closed; or a step that this run started was given back, lost or died in, by the
     transaction that its handler's end calls for, and for a reason this run met.
     */
    ghost predicate JobEndOk(
      w: WorkerId, j: JobId, handlers: map<int, HandlerEnd>, envs: int -> Env, now: Time, since: nat, end: JobEnd)
      reads table, runtime
    {
      match end
      case JobClosed => j in table.jobs && Terminal(table.jobs[j].status)
      case StepLost(i, attempt, e) =>
        && StartedSince(since, w, i)
        && EndedBy(table.history, w, e, now)
        && LostBecause(table.View(), j, i, attempt, handlers, e)
        && (IsAnalysis(i) ==>
              Explained(table.origin, table.history, since, w, runtime, envs(i), runtime.stop, e))
    }

    /**
     run_job.  The step list is read once; positions without a handler are marked skipped in memory and flushed by
     the next commit.  The run ends with the job closed, or with the step lost to recovery, released or abandoned.
     */
    method RunJob(w: WorkerId, j: JobId, handlers: map<int, HandlerEnd>, envs: int -> Env, now: Time)
      returns (end: JobEnd)
      requires table.Valid() && runtime.itemConcurrency >= 1
      requires w in table.workers && table.workers[w] == Claimed(j)
      requires forall i :: i in handlers && handlers[i].Returns? ==> Finished(handlers[i].result.status)
      modifies table, runtime
      ensures table.Valid() && w in table.workers && table.workers[w] == Idle && old(table.history) <= table.history
      ensures JobEndOk(w, j, handlers, envs, now, |old(table.history)|, end)
    {
      hide CanRun, Exec, Inv, EndedBy, Explained, LostBecause;
      var cache := Enter(w, j, handlers.Keys);
      ghost var base, from := cache, 0;
      var dirty: set<int> := {};
      var i := 0;
      while i < FINALIZE_JOB
        invariant AtLoop(w, j, base, from, cache, dirty, handlers.Keys, i) && old(table.history) <= table.history
      {
        LoopPasses(base, from, cache, dirty, handlers.Keys, i);
        if !cache[i].status.Pending? {
          i := i + 1;
          continue;
        }
        if i !in handlers {
          cache := cache[i := cache[i].(status := Skipped)];
          dirty := dirty + {i};
          i := i + 1;
          continue;
        }
        ghost var before := table.history;
        var finished, stepEnd, run := StartAndRun(w, j, base, from, cache, dirty, i, handlers, envs(i), now);
        if finished.None? {
          StartsWiden(w, i, |before|, |old(table.history)|);
          ExplainedWiden(w, |before|, |old(table.history)|, envs(i), stepEnd);
          return StepLost(i, cache[i].attempts + 1, stepEnd);
        }
        cache := cache[i := CachedStep(finished.value, cache[i].attempts + 1)];
        base, dirty := cache, {};
        LoopStarts(base, handlers.Keys, i + 1);
        LoopStarts(base, handlers.Keys, FINALIZE_JOB);
        if !finished.value.Succeeded? && Required(i) {
          from := FINALIZE_JOB;
          break;
        }
        from := i + 1;
        i := i + 1;
      }
      Close(w, j, handlers.Keys, base, from, cache, dirty, now);
      end := JobClosed;
    }

    /** The claimed job is marked running again and its steps are read, in two transactions. */
    method Enter(w: WorkerId, j: JobId, ghost configured: set<int>) returns (cache: seq<CachedStep>)
      requires table.Valid() && w in table.workers && table.workers[w] == Claimed(j)
      modifies table
      ensures AtLoop(w, j, cache, 0, cache, {}, configured, 0) && old(table.history) <= table.history
    {
      hide CanRun, Exec;
      table.Others(w);
      table.SetRunning(w, j);
      table.Others(w);
      cache := table.ListSteps(w, j);
      LoopStarts(cache, configured, 0);
    }

    ghost predicate AtLoop(
      w: WorkerId, j: JobId, base: seq<CachedStep>, from: nat, cache: seq<CachedStep>, dirty: set<int>,
      configured: set<int>, i: nat)
      reads table
    {
      && table.Valid() && w in table.workers && table.workers[w] == Looping(j, base, from)
      && LoopState(base, from, cache, dirty, configured, i)
    }

    /** Commits the start of step i, with the skips marked before it, and runs it. */
    method StartAndRun(
      w: WorkerId, j: JobId, ghost base: seq<CachedStep>, ghost from: nat, cache: seq<CachedStep>, dirty: set<int>,
      i: nat, handlers: map<int, HandlerEnd>, env: Env, now: Time)
      returns (finished: Option<StepStatus>, end: HandlerEnd, ghost run: Option<CoordinatorRun>)
      requires runtime.itemConcurrency >= 1 && i < FINALIZE_JOB && i in handlers
      requires AtLoop(w, j, base, from, cache, dirty, handlers.Keys, i) && cache[i].status.Pending?
      requires handlers[i].Returns? ==> Finished(handlers[i].result.status)
      modifies table, runtime
      ensures table.Valid() && w in table.workers && old(table.history) <= table.history
      ensures StartedSince(|old(table.history)|, w, i) && EndedBy(table.history, w, end, now)
      ensures !IsAnalysis(i) ==> end == handlers[i]
      ensures IsAnalysis(i) ==>
                Explained(table.origin, table.history, |old(table.history)|, w, runtime, env, runtime.stop, end)
      ensures IsAnalysis(i) && finished == Some(Failed) ==>
                || NoRunFound(table.origin, table.history, |old(table.history)|, w)
                || RaisedError(run, runtime.classify)
      ensures finished.None? ==>
                table.workers[w] == Idle && LostBecause(table.View(), j, i, cache[i].attempts + 1, handlers, end)
      ensures finished.Some? ==> EndsWith(end, finished.value)
      ensures finished.Some? ==>
                var next := cache[i := CachedStep(finished.value, cache[i].attempts + 1)];
                table.workers[w] == Resumed(j, next, i, finished.value)
    {
      hide CanRun, Exec, EndedBy, Explained, LostBecause;
      var attempt := cache[i].attempts + 1;
      LoopPasses(base, from, cache, dirty, handlers.Keys, i);
      table.Others(w);
      table.Safe();
      ghost var before := table.history;
      table.BeginStep(w, j, base, from, handlers.Keys, dirty, i, attempt, now);
      ghost var started := table.history;
      assert Starts(started, |before|, w, i);
      var running := cache[i := CachedStep(Running, attempt)];
      finished, end, run := RunStep(w, j, running, i, attempt, handlers, env, now);
      assert Starts(table.history, |before|, w, i);
      ExplainedWiden(w, |started|, |old(table.history)|, env, end);
      NoRunFoundWidens(w, |started|, |old(table.history)|);
      assert finished.Some? ==>
        running[i := CachedStep(finished.value, attempt)] == cache[i := CachedStep(finished.value, attempt)];
    }

    /** The last commit of run_job. */
    method Close(
      w: WorkerId, j: JobId, ghost configured: set<int>, ghost base: seq<CachedStep>, ghost from: nat,
      cache: seq<CachedStep>, dirty: set<int>, now: Time)
      requires table.Valid() && w in table.workers
      requires LoopState(base, from, cache, dirty, configured, FINALIZE_JOB)
      requires || (table.workers[w] == Finalizing(j, base) && from == FINALIZE_JOB)
               || table.workers[w] == Looping(j, base, from)
      modifies table
      ensures table.Valid() && w in table.workers && table.workers[w] == Idle && old(table.history) <= table.history
      ensures j in table.jobs && Terminal(table.jobs[j].status)
    {
      hide CanRun, Exec;
      table.Others(w);
      table.Safe();
      table.FinalizeJob(w, j, configured, base, from, cache, dirty, now);
    }

    /** run_once: recover and claim in one transaction, then run the claimed job; false when there is nothing to do. */
    method RunOnce(
      w: WorkerId, staleBefore: Time, recovered: Option<JobId>, claimed: Option<JobId>,
      handlers: map<int, HandlerEnd>, envs: int -> Env, now: Time)
      returns (worked: bool, ghost end: JobEnd)
      requires table.Valid() && runtime.itemConcurrency >= 1
      requires Enabled(table.View(), Poll(w, staleBefore, recovered, claimed))
      requires forall i :: i in handlers && handlers[i].Returns? ==> Finished(handlers[i].result.status)
      modifies table, runtime
      ensures table.Valid() && w in table.workers && table.workers[w] == Idle && worked == claimed.Some?
      ensures old(table.history) + [Poll(w, staleBefore, recovered, claimed)] <= table.history
      ensures !worked ==> table.View() == Apply(old(table.View()), Poll(w, staleBefore, recovered, claimed))
      ensures worked ==> JobEndOk(w, claimed.value, handlers, envs, now, |old(table.history)| + 1, end)
    {
      hide CanRun, Exec;
      table.PollOnce(w, staleBefore, recovered, claimed);
      worked := claimed.Some?;
      end := JobClosed;
      if worked {
        end := RunJob(w, claimed.value, handlers, envs, now);
      }
    }
  }
}
