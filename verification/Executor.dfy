/**
 The bounded item coordinator over the table: a window of classification futures, recorded in whatever order they
 complete, under the fence of the attempt.  Any number of other workers run between two of its transactions.
 */
module Executor {
  import opened JobModel
  import opened Protocol
  import opened Safety
  import opened Store
  import opened Coordination

  /** Worker w stored a result or a heartbeat, no earlier than event number `since`. */
  ghost predicate Refreshed(history: seq<Event>, since: nat, w: WorkerId) {
    exists i :: since <= i < |history| && (history[i].Record? || history[i].Beat?) && history[i].w == w
  }

  lemma RefreshedWiden(before: seq<Event>, history: seq<Event>, since: nat, earlier: nat, w: WorkerId)
    requires before <= history && earlier <= since && Refreshed(before, since, w)
    ensures Refreshed(history, earlier, w)
  {
    var i :| since <= i < |before| && (before[i].Record? || before[i].Beat?) && before[i].w == w;
    assert history[i] == before[i];
  }

  lemma RefreshedFrom(history: seq<Event>, since: nat, earlier: nat, w: WorkerId)
    requires earlier <= since
    ensures Refreshed(history, since, w) ==> Refreshed(history, earlier, w)
  {
  }

  lemma RefreshedLast(history: seq<Event>, since: nat, w: WorkerId)
    requires since < |history|
    requires var e := history[|history| - 1]; (e.Record? || e.Beat?) && e.w == w
    ensures Refreshed(history, since, w)
  {
  }

  /** Every recorded item has its row, and the row holds what classification returned for the item. */
  ghost predicate Rowed(s: System, c: Context, recorded: seq<ItemId>, classify: ItemId -> Classified) {
    forall x :: x in recorded ==> classify(x).Classified? && HasRow(s, c, x, classify(x).outcome)
  }

  lemma RowedLater(s: System, t: System, c: Context, recorded: seq<ItemId>, classify: ItemId -> Classified)
    requires Later(s, t, c.job) && Rowed(s, c, recorded, classify)
    ensures Rowed(t, c, recorded, classify)
  {
    hide Later, HasRow;
    forall x | x in recorded ensures classify(x).Classified? && HasRow(t, c, x, classify(x).outcome) {
      RowStays(s, t, c, x, classify(x).outcome);
    }
  }

  lemma OneLess(items: seq<ItemId>, recorded: seq<ItemId>, x: ItemId)
    ensures Ids(items) - Ids(recorded + [x]) == Ids(items) - Ids(recorded) - {x}
  {
  }

  /** The counters a run keeps for its progress log; record() is the only writer. */
  class Recorder {
    var completed: nat
    var succeeded: nat
    var failed: nat
    var lastLogged: nat

    ghost predicate Valid()
      reads this
    {
      completed == succeeded + failed && lastLogged <= completed < lastLogged + 10
    }

    constructor ()
      ensures Valid() && completed == 0
    {
      completed, succeeded, failed, lastLogged := 0, 0, 0, 0;
    }

    /** Persist, count, and log at least every tenth item. */
    method Record(
      table: JobTable, w: WorkerId, c: Context, ghost total: nat, ghost remaining: set<ItemId>,
      item: ItemId, o: Outcome, logNow: bool, now: Time)
      returns (stale: bool, ghost stored: bool)
      requires Valid() && table.Valid() && table.At(w, c, Persisting(c.run, total, remaining)) && item in remaining
      modifies this, table
      ensures table.Valid() && w in table.workers && old(table.history) <= table.history
      ensures stored ==> HasRow(table.View(), c, item, o)
      ensures stale ==> table.workers[w] == Idle && Lost(table.View(), c)
      ensures !stale ==> stored && Valid() && completed == old(completed) + 1
      ensures !stale ==> succeeded == old(succeeded) + (if o.ok then 1 else 0)
      ensures !stale ==> table.At(w, c, Persisting(c.run, total, remaining - {item}))
      ensures !stale ==> SameAttempt(old(table.workers[w]), table.workers[w])
      ensures !stale ==> Refreshed(table.history, |old(table.history)|, w)
    {
      hide CanRun, Exec, Inv, HasRow, Lost, Refreshed, Later;
      stale := PersistOne(table, w, c, total, remaining, item, o, now);
      stored := !stale;
      if stale {
        return;
      }
      ghost var rows, before := table.View(), table.history;
      completed := completed + 1;
      succeeded := succeeded + (if o.ok then 1 else 0);
      failed := failed + (if o.ok then 0 else 1);
      if completed - lastLogged >= 10 || logNow {
        stale := Beat(table, w, c, total, remaining - {item}, now);
        lastLogged := completed;
      }
      table.SinceThen(before, c.job);
      RowStays(rows, table.View(), c, item, o);
      RefreshedWiden(before, table.history, |old(table.history)|, |old(table.history)|, w);
    }

    static method PersistOne(
      table: JobTable, w: WorkerId, c: Context, ghost total: nat, ghost remaining: set<ItemId>,
      item: ItemId, o: Outcome, now: Time)
      returns (stale: bool)
      requires table.Valid() && table.At(w, c, Persisting(c.run, total, remaining)) && item in remaining
      modifies table
      ensures table.Valid() && w in table.workers && old(table.history) <= table.history
      ensures stale ==> table.workers[w] == Idle && Lost(table.View(), c)
      ensures !stale ==> HasRow(table.View(), c, item, o)
      ensures !stale ==> table.At(w, c, Persisting(c.run, total, remaining - {item}))
      ensures !stale ==> SameAttempt(old(table.workers[w]), table.workers[w])
      ensures Refreshed(table.history, |old(table.history)|, w)
    {
      hide CanRun, Exec, Inv, JobTable.Valid, HasRow, Lost, Refreshed;
      table.Others(w);
      table.Present(w);
      stale := table.PersistItem(w, c, total, remaining, item, o, now);
      RefreshedLast(table.history, |old(table.history)|, w);
    }

    /** heartbeat() or progress(): fenced, and they write nothing but the heartbeat. */
    static method Beat(
      table: JobTable, w: WorkerId, c: Context, ghost total: nat, ghost remaining: set<ItemId>, now: Time)
      returns (stale: bool)
      requires table.Valid() && table.At(w, c, Persisting(c.run, total, remaining))
      modifies table
      ensures table.Valid() && w in table.workers && old(table.history) <= table.history
      ensures stale ==> table.workers[w] == Idle && Lost(table.View(), c)
      ensures !stale ==> table.workers[w] == old(table.workers[w])
      ensures !stale ==> table.At(w, c, Persisting(c.run, total, remaining))
      ensures Refreshed(table.history, |old(table.history)|, w)
    {
      hide CanRun, Exec, Inv, JobTable.Valid, Lost, Refreshed;
      table.Others(w);
      table.Present(w);
      stale := table.BeatOnce(w, c, total, remaining, now);
      RefreshedLast(table.history, |old(table.history)|, w);
      table.Present(w);
    }
  }

  class RagRuntime {
    const parallel: bool
    const itemConcurrency: nat
    const classify: ItemId -> Classified
    var stop: bool

    constructor (parallel: bool, itemConcurrency: nat, classify: ItemId -> Classified)
      requires itemConcurrency >= 1
      ensures this.parallel == parallel && this.itemConcurrency == itemConcurrency && this.classify == classify
    {
      this.parallel, this.itemConcurrency, this.classify := parallel, itemConcurrency, classify;
      stop := false;
    }

    /** What this runtime does with these items, unless the attempt loses its row. */
    ghost function Expected(items: seq<ItemId>, env: Env, flag: bool): State {
      Reference(parallel, items, itemConcurrency, env, classify, flag)
    }

    /** Reads the stop event; a signal may have set it since, and nothing ever clears it. */
    method IsStopped(signal: bool) returns (s: bool)
      modifies this
      ensures s == stop && stop == (old(stop) || signal)
    {
      stop := stop || signal;
      s := stop;
    }

    /**
     Either mode.  A run does exactly what the reference says, item by item, unless its attempt loses the row; then it
     did a part of that.  Each recorded item has its row with what classification returned for it, and what was not
     recorded is exactly what stays open.  The last clauses are what that means for every run.
     */
    method Run(table: JobTable, w: WorkerId, c: Context, items: seq<ItemId>, ghost total: nat, env: Env)
      returns (end: RunEnd, ghost k: State)
      requires table.Valid() && table.At(w, c, Persisting(c.run, total, Ids(items))) && Distinct(items)
      requires itemConcurrency >= 1
      modifies this, table
      ensures table.Valid() && w in table.workers && old(table.history) <= table.history
      ensures end.StaleStep? ==>
                && k.recorded <= Expected(items, env, old(stop)).recorded
                && table.workers[w] == Idle && Lost(table.View(), c)
      ensures !end.StaleStep? ==>
                && k == Expected(items, env, old(stop)) && k.end == Some(end) && stop == k.stop
                && table.At(w, c, Persisting(c.run, total, Ids(items) - Ids(k.recorded)))
                && SameAttempt(old(table.workers[w]), table.workers[w])
      ensures Rowed(table.View(), c, k.recorded, classify)
      ensures Distinct(k.recorded) && Ids(k.recorded) <= Ids(items)
      ensures end.Completed? ==> multiset(k.recorded) == multiset(items)
      ensures end.Completed? && parallel ==> !stop
      ensures end.Completed? ==> Refreshed(table.history, |old(table.history)|, w)
      ensures MarkKept(k)
    {
      hide CanRun, Exec, Inv, JobTable.Valid, Rowed, Lost, Parallel, Sequential, CauseOf, Refreshed;
      var recorder := new Recorder();
      ReferenceMeans(parallel, items, itemConcurrency, env, classify, stop);
      if parallel {
        ParallelCompletesExactlyWhen(items, itemConcurrency, env, classify, stop);
        end, k := RunParallel(table, recorder, w, c, items, total, env);
      } else {
        end, k := RunSequential(table, recorder, w, c, items, total, env);
      }
      PrefixDistinct(k.recorded, Expected(items, env, old(stop)).recorded);
    }

    lemma PrefixDistinct(a: seq<ItemId>, b: seq<ItemId>)
      requires a <= b && Distinct(b)
      ensures Distinct(a) && Ids(a) <= Ids(b)
    {
    }

    // ----- one item after the other -------------------------------------------------------------------------

    /** The sequential loop before item i. */
    ghost predicate InOrder(
      table: JobTable, recorder: Recorder, w: WorkerId, c: Context, items: seq<ItemId>, total: nat, k: State)
      reads table, recorder
    {
      && k.recorded <= items && k.end.None? && k.mark.None? && table.Valid() && recorder.Valid()
      && table.At(w, c, Persisting(c.run, total, Ids(items) - Ids(k.recorded)))
      && Rowed(table.View(), c, k.recorded, classify)
    }

    lemma OpenItem(items: seq<ItemId>, i: nat)
      requires i < |items| && Distinct(items)
      ensures items[i] in Ids(items) - Ids(items[..i]) && items[..i + 1] == items[..i] + [items[i]]
    {
    }

    /** Item i of the sequential loop, once the stop flag was found clear. */
    method ClassifyAndRecord(
      table: JobTable, recorder: Recorder, w: WorkerId, c: Context, items: seq<ItemId>, ghost total: nat,
      ghost k0: State, env: Env, i: nat)
      returns (end: Option<RunEnd>, ghost k: State)
      requires i == |k0.recorded| < |items| && Distinct(items)
      requires InOrder(table, recorder, w, c, items, total, k0)
      modifies table, recorder
      ensures table.Valid() && w in table.workers && old(table.history) <= table.history
      ensures Rowed(table.View(), c, k.recorded, classify)
      ensures end == Some(StaleStep) ==>
                && classify(items[i]).Classified? && table.workers[w] == Idle && Lost(table.View(), c)
                && (k.recorded == k0.recorded || k.recorded == k0.recorded + [items[i]]) && k.mark.None?
      ensures end != Some(StaleStep) ==> SameAttempt(old(table.workers[w]), table.workers[w])
      ensures end.None? ==>
                && classify(items[i]).Classified? && k == k0.(recorded := k0.recorded + [items[i]])
                && InOrder(table, recorder, w, c, items, total, k)
      ensures end.Some? && !end.value.StaleStep? ==>
                && end == (if classify(items[i]).StopRaised? then Some(ShutdownRequested) else Some(Unexpected))
                && !classify(items[i]).Classified? && k == k0.(end := end)
                && table.At(w, c, Persisting(c.run, total, Ids(items) - Ids(k.recorded)))
    {
      hide CanRun, Exec, Inv, HasRow, Lost, Later, Refreshed;
      k := k0;
      match classify(items[i]) {
        case StopRaised => end, k := Some(ShutdownRequested), k0.(end := Some(ShutdownRequested));
        case ErrorRaised => end, k := Some(Unexpected), k0.(end := Some(Unexpected));
        case Classified(o) =>
          OpenItem(items, i);
          assert k0.recorded == items[..i];
          OneLess(items, k0.recorded, items[i]);
          ghost var rows, before := table.View(), table.history;
          var stale;
          ghost var stored;
          stale, stored := recorder.Record(
            table, w, c, total, Ids(items) - Ids(k0.recorded), items[i], o, env.logs(i), env.times(i));
          table.SinceThen(before, c.job);
          RowedLater(rows, table.View(), c, k0.recorded, classify);
          if stored {
            k := k0.(recorded := k0.recorded + [items[i]]);
          }
          end := if stale then Some(StaleStep) else None;
      }
    }

    method RunSequential(
      table: JobTable, recorder: Recorder, w: WorkerId, c: Context, items: seq<ItemId>, ghost total: nat, env: Env)
      returns (end: RunEnd, ghost k: State)
      requires table.Valid() && table.At(w, c, Persisting(c.run, total, Ids(items))) && Distinct(items)
      requires recorder.Valid() && itemConcurrency >= 1
      modifies this, table, recorder
      ensures table.Valid() && w in table.workers && old(table.history) <= table.history
      ensures Rowed(table.View(), c, k.recorded, classify) && k.mark.None?
      ensures end.Completed? ==> Refreshed(table.history, |old(table.history)|, w)
      ensures end.StaleStep? ==>
                && k.recorded <= Sequential(items, env, classify, Fresh(old(stop))).recorded
                && table.workers[w] == Idle && Lost(table.View(), c)
      ensures !end.StaleStep? ==>
                && k == Sequential(items, env, classify, Fresh(old(stop))) && k.end == Some(end) && stop == k.stop
                && table.At(w, c, Persisting(c.run, total, Ids(items) - Ids(k.recorded)))
                && SameAttempt(old(table.workers[w]), table.workers[w])
    {
      hide CanRun, Exec, Inv, JobTable.Valid, Rowed, Lost, CauseOf, HasRow, Refreshed, Sequential;
      ghost var start := table.workers[w];
      ghost var expected := Sequential(items, env, classify, Fresh(stop));
      k := Fresh(stop);
      var i := 0;
      assert Ids(items) - Ids([]) == Ids(items);
      assert Rowed(table.View(), c, [], classify) by {
        NothingRowed(table.View(), c);
      }
      while i < |items|
        invariant i == |k.recorded| <= |items| && InOrder(table, recorder, w, c, items, total, k)
        invariant Sequential(items, env, classify, k) == expected && k.stop == stop
        invariant old(table.history) <= table.history && SameAttempt(start, table.workers[w])
        decreases |items| - i
      {
        SequentialUnfolds(items, env, classify, k);
        var stopped := IsStopped(env.stops(i));
        if stopped {
          k := k.(stop := true, end := Some(ShutdownRequested));
          return ShutdownRequested, k;
        }
        var halt: Option<RunEnd>;
        ghost var k0 := k;
        halt, k := ClassifyAndRecord(table, recorder, w, c, items, total, k, env, i);
        assert !k0.stop && !env.stops(i);
        if halt.Some? {
          return halt.value, k;
        }
        i := i + 1;
      }
      ghost var before := table.history;
      end, k := FinishSequential(table, recorder, w, c, items, total, env, k);
      RefreshedFrom(table.history, |before|, |old(table.history)|, w);
    }

    /** After the last item, during which the flag may have been raised. */
    method FinishSequential(
      table: JobTable, ghost recorder: Recorder, w: WorkerId, c: Context, items: seq<ItemId>, ghost total: nat,
      env: Env, ghost k0: State)
      returns (end: RunEnd, ghost k: State)
      requires InOrder(table, recorder, w, c, items, total, k0) && |k0.recorded| == |items| && k0.stop == stop
      modifies this, table
      ensures table.Valid() && w in table.workers && old(table.history) <= table.history
      ensures k == Sequential(items, env, classify, k0) && stop == k.stop
      ensures Rowed(table.View(), c, k.recorded, classify) && k.mark.None?
      ensures end.Completed? ==> Refreshed(table.history, |old(table.history)|, w)
      ensures end.StaleStep? ==> table.workers[w] == Idle && Lost(table.View(), c)
      ensures !end.StaleStep? ==>
                && k.end == Some(end)
                && table.At(w, c, Persisting(c.run, total, Ids(items) - Ids(k.recorded)))
                && SameAttempt(old(table.workers[w]), table.workers[w])
    {
      hide CanRun, Exec, Inv, Lost, Rowed, HasRow, Refreshed, Later;
      ghost var rows, before := table.View(), table.history;
      stop := stop || env.stops(|items|);
      var stale := Recorder.Beat(table, w, c, total, Ids(items) - Ids(k0.recorded), env.times(|items|));
      table.SinceThen(before, c.job);
      RowedLater(rows, table.View(), c, k0.recorded, classify);
      k := k0.(stop := stop, end := Some(Completed));
      end := if stale then StaleStep else Completed;
    }

    lemma NothingRowed(s: System, c: Context)
      ensures Rowed(s, c, [], classify)
    {
    }

    // ----- a window of futures ------------------------------------------------------------------------------

    /** The coordinator between two completions, over a table in which its attempt still runs. */
    ghost predicate Going(
      table: JobTable, recorder: Recorder, w: WorkerId, c: Context, items: seq<ItemId>, total: nat, k: State)
      reads this, table, recorder
    {
      && table.Valid() && recorder.Valid() && Distinct(items) && Sound(items, itemConcurrency, k)
      && k.end.None? && k.stop == stop
      && table.At(w, c, Persisting(c.run, total, Ids(items) - Ids(k.recorded)))
      && Rowed(table.View(), c, k.recorded, classify)
    }

    /** The coordinator at an early end. */
    ghost predicate Stopped(
      table: JobTable, w: WorkerId, c: Context, items: seq<ItemId>, total: nat, end: RunEnd, k: State)
      reads this, table
    {
      && table.Valid() && w in table.workers && Sound(items, itemConcurrency, k)
      && Rowed(table.View(), c, k.recorded, classify)
      && (end.StaleStep? ==> table.workers[w] == Idle && Lost(table.View(), c))
      && (!end.StaleStep? ==>
            && k.end == Some(end) && k.stop == stop
            && table.At(w, c, Persisting(c.run, total, Ids(items) - Ids(k.recorded))))
    }

    /** The locals of the loop say what the coordinator's state says. */
    ghost predicate Holds(k: State, inFlight: set<ItemId>, next: nat, shutdown: bool) {
      k.inFlight == inFlight && k.next == next && k.shutdown == shutdown
    }

    /** Submits the next item, if there is one. */
    static method SubmitOne(items: seq<ItemId>, inFlight: set<ItemId>, next: nat, ghost k0: State)
      returns (inFlight': set<ItemId>, next': nat, ghost k: State)
      requires k0.inFlight == inFlight && k0.next == next
      ensures k == Submitted(items, k0)
      ensures inFlight' == Submitted(items, k0).inFlight && next' == Submitted(items, k0).next
    {
      inFlight', next', k := inFlight, next, Submitted(items, k0);
      if next < |items| {
        inFlight' := inFlight + {items[next]};
        next' := next + 1;
      }
    }

    /** The futures of one wake-up that really were in flight, each once. */
    static method Completions(arrivals: seq<Arrival>, inFlight: set<ItemId>) returns (done: seq<Arrival>)
      ensures done == Ready(arrivals, inFlight)
    {
      done := [];
      for n := 0 to |arrivals|
        invariant done == Ready(arrivals[..n], inFlight)
      {
        assert arrivals[..n + 1][..n] == arrivals[..n];
        if arrivals[n].item in inFlight && forall b :: b in done ==> b.item != arrivals[n].item {
          done := done + [arrivals[n]];
        }
      }
      assert arrivals[..|arrivals|] == arrivals;
    }

    lemma InFlightIsOpen(items: seq<ItemId>, k: State, x: ItemId)
      requires Distinct(items) && Sound(items, itemConcurrency, k) && x in k.inFlight
      ensures x in Ids(items) - Ids(k.recorded)
    {
      ConservedMeans(items, k.recorded, k.inFlight, k.next);
    }

    /** One completed future: record what it yields, or end with its exception and leave the item open. */
    method Settle(
      table: JobTable, recorder: Recorder, w: WorkerId, c: Context, items: seq<ItemId>, ghost total: nat,
      arrival: Arrival, ghost k0: State)
      returns (end: Option<RunEnd>, ghost k: State)
      requires Going(table, recorder, w, c, items, total, k0) && Fed(items, itemConcurrency, k0)
      requires arrival.item in k0.inFlight
      modifies table, recorder
      ensures old(table.history) <= table.history
      ensures end.None? ==> Going(table, recorder, w, c, items, total, k)
      ensures end.None? ==> Refreshed(table.history, |old(table.history)|, w)
      ensures end.Some? ==> end.value != Completed && Stopped(table, w, c, items, total, end.value, k)
      ensures end != Some(StaleStep) ==> k == Settled(k0, arrival.item, classify) && k.end == end
      ensures end == Some(StaleStep) ==> k.recorded <= Settled(k0, arrival.item, classify).recorded
      ensures end != Some(StaleStep) ==>
                w in table.workers && SameAttempt(old(table.workers[w]), table.workers[w])
    {
      hide CanRun, Exec, Inv, Sound, Fed, HasRow, Lost, Later, Refreshed;
      var x := arrival.item;
      SettledSound(items, itemConcurrency, k0, x, classify);
      InFlightIsOpen(items, k0, x);
      k := Settled(k0, x, classify);
      match classify(x) {
        case StopRaised => end := Some(ShutdownRequested);
        case ErrorRaised => end := Some(Unexpected);
        case Classified(o) =>
          OneLess(items, k0.recorded, x);
          ghost var rows, before := table.View(), table.history;
          var stale;
          ghost var stored;
          stale, stored := recorder.Record(
            table, w, c, total, Ids(items) - Ids(k0.recorded), x, o, arrival.logNow, arrival.now);
          table.SinceThen(before, c.job);
          RowedLater(rows, table.View(), c, k0.recorded, classify);
          if !stored {
            k := k0;
          }
          end := if stale then Some(StaleStep) else None;
      }
    }

    /** Handles the futures one wait() reported, in their order. */
    method Drain(
      table: JobTable, recorder: Recorder, w: WorkerId, c: Context, items: seq<ItemId>, ghost total: nat,
      done: seq<Arrival>, inFlight0: set<ItemId>, next0: nat, shutdown0: bool, ghost k0: State)
      returns (end: Option<RunEnd>, inFlight: set<ItemId>, next: nat, shutdown: bool, ghost k: State)
      requires Going(table, recorder, w, c, items, total, k0) && Fed(items, itemConcurrency, k0)
      requires Holds(k0, inFlight0, next0, shutdown0) && k0.end.None?
      requires DistinctArrivals(done) && forall a :: a in done ==> a.item in k0.inFlight
      modifies this, table, recorder
      ensures old(table.history) <= table.history
      ensures end.None? ==> Going(table, recorder, w, c, items, total, k) && Holds(k, inFlight, next, shutdown)
      ensures end.None? && done != [] ==> Refreshed(table.history, |old(table.history)|, w)
      ensures end.Some? ==> end.value != Completed && Stopped(table, w, c, items, total, end.value, k)
      ensures end != Some(StaleStep) ==> k == Drained(items, k0, done, classify) && k.end == end
      ensures end == Some(StaleStep) ==> k.recorded <= Drained(items, k0, done, classify).recorded
      ensures end != Some(StaleStep) ==>
                w in table.workers && SameAttempt(old(table.workers[w]), table.workers[w])
    {
      hide CanRun, Exec, Inv, JobTable.Valid, Sound, Fed, Rowed, Lost, Refreshed, Handled;
      ghost var start := table.workers[w];
      inFlight, next, shutdown, k := inFlight0, next0, shutdown0, k0;
      for n := 0 to |done|
        invariant Going(table, recorder, w, c, items, total, k) && Holds(k, inFlight, next, shutdown)
        invariant k == Drained(items, k0, done[..n], classify)
        invariant old(table.history) <= table.history && SameAttempt(start, table.workers[w])
        invariant n > 0 ==> Refreshed(table.history, |old(table.history)|, w)
      {
        ghost var before := table.history;
        assert done[..n + 1][..n] == done[..n];
        DrainedSound(items, itemConcurrency, k0, done[..n], classify);
        DrainedExtends(items, itemConcurrency, k0, done, n + 1, classify);
        assert done[n].item in k.inFlight;
        end, inFlight, next, shutdown, k := Handle(
          table, recorder, w, c, items, total, done[n], inFlight, next, shutdown, k);
        if end.Some? {
          return;
        }
        RefreshedWiden(table.history, table.history, |before|, |old(table.history)|, w);
      }
      end := None;
      assert done[..|done|] == done;
    }

    /** One completed future, and the next one submitted unless the flag is up. */
    method Handle(
      table: JobTable, recorder: Recorder, w: WorkerId, c: Context, items: seq<ItemId>, ghost total: nat,
      arrival: Arrival, inFlight0: set<ItemId>, next0: nat, shutdown0: bool, ghost k0: State)
      returns (end: Option<RunEnd>, inFlight: set<ItemId>, next: nat, shutdown: bool, ghost k: State)
      requires Going(table, recorder, w, c, items, total, k0) && Fed(items, itemConcurrency, k0)
      requires Holds(k0, inFlight0, next0, shutdown0) && arrival.item in inFlight0
      modifies this, table, recorder
      ensures old(table.history) <= table.history
      ensures end.None? ==> Going(table, recorder, w, c, items, total, k) && Holds(k, inFlight, next, shutdown)
      ensures end.None? ==> Refreshed(table.history, |old(table.history)|, w)
      ensures end.Some? ==> end.value != Completed && Stopped(table, w, c, items, total, end.value, k)
      ensures end != Some(StaleStep) ==> k == Handled(items, k0, arrival, classify) && k.end == end
      ensures end == Some(StaleStep) ==> k.recorded <= Handled(items, k0, arrival, classify).recorded
      ensures end != Some(StaleStep) ==>
                w in table.workers && SameAttempt(old(table.workers[w]), table.workers[w])
    {
      hide CanRun, Exec, Inv, JobTable.Valid, Sound, Fed, Rowed, Lost, Refreshed, Later, Submitted;
      inFlight, next, shutdown := inFlight0, next0, shutdown0;
      HandledSound(items, itemConcurrency, k0, arrival, classify);
      RefilledKeeps(items, Settled(k0, arrival.item, classify), arrival.stopAfter);
      end, k := Settle(table, recorder, w, c, items, total, arrival, k0);
      if end.Some? {
        return;
      }
      inFlight := inFlight - {arrival.item};
      inFlight, next, shutdown, k := Refill(items, inFlight, next, shutdown, arrival.stopAfter, k);
    }

    /** After a result was recorded: look at the flag, and submit unless shutting down. */
    method Refill(
      items: seq<ItemId>, inFlight0: set<ItemId>, next0: nat, shutdown0: bool, signal: bool, ghost k0: State)
      returns (inFlight: set<ItemId>, next: nat, shutdown: bool, ghost k: State)
      requires Holds(k0, inFlight0, next0, shutdown0) && k0.stop == stop
      modifies this
      ensures k == Refilled(items, k0, signal) && Holds(k, inFlight, next, shutdown) && k.stop == stop
    {
      inFlight, next, shutdown, k := inFlight0, next0, shutdown0, Look(k0, signal);
      var stopped := IsStopped(signal);
      if stopped {
        shutdown := true;
      }
      if !shutdown {
        inFlight, next, k := SubmitOne(items, inFlight, next, k);
      }
    }

    /** Nothing completed before the timeout: beat, and log if it is time to. */
    method WaitOut(
      table: JobTable, w: WorkerId, c: Context, items: seq<ItemId>, ghost total: nat, wait: Wait, ghost k: State)
      returns (stale: bool)
      requires table.Valid() && Rowed(table.View(), c, k.recorded, classify)
      requires table.At(w, c, Persisting(c.run, total, Ids(items) - Ids(k.recorded)))
      modifies table
      ensures table.Valid() && w in table.workers && old(table.history) <= table.history
      ensures Rowed(table.View(), c, k.recorded, classify)
      ensures Refreshed(table.history, |old(table.history)|, w)
      ensures stale ==> table.workers[w] == Idle && Lost(table.View(), c)
      ensures !stale ==> table.workers[w] == old(table.workers[w])
      ensures !stale ==> table.At(w, c, Persisting(c.run, total, Ids(items) - Ids(k.recorded)))
    {
      hide CanRun, Exec, Inv, Rowed, Lost, Refreshed, Later;
      ghost var rows, before := table.View(), table.history;
      stale := Recorder.Beat(table, w, c, total, Ids(items) - Ids(k.recorded), wait.now);
      ghost var beaten := table.history;
      if !stale && wait.logNow {
        stale := Recorder.Beat(table, w, c, total, Ids(items) - Ids(k.recorded), wait.now);
      }
      RefreshedWiden(beaten, table.history, |before|, |before|, w);
      table.SinceThen(before, c.job);
      RowedLater(rows, table.View(), c, k.recorded, classify);
    }

    /** One pass of the coordinator loop. */
    method Turn(
      table: JobTable, recorder: Recorder, w: WorkerId, c: Context, items: seq<ItemId>, ghost total: nat, wait: Wait,
      inFlight0: set<ItemId>, next0: nat, shutdown0: bool, deadline0: bool, ghost k0: State)
      returns (halt: Option<RunEnd>, inFlight: set<ItemId>, next: nat, shutdown: bool, deadline: bool, ghost k: State)
      requires Going(table, recorder, w, c, items, total, k0) && Fed(items, itemConcurrency, k0)
      requires Holds(k0, inFlight0, next0, shutdown0) && k0.deadline == deadline0
      modifies this, table, recorder
      ensures old(table.history) <= table.history
      ensures halt.None? ==> Going(table, recorder, w, c, items, total, k) && Holds(k, inFlight, next, shutdown)
      ensures halt.None? ==> k.deadline == deadline && Refreshed(table.history, |old(table.history)|, w)
      ensures halt.Some? ==> halt.value != Completed && Stopped(table, w, c, items, total, halt.value, k)
      ensures halt != Some(StaleStep) ==> k == Turned(items, k0, wait, classify) && k.end == halt
      ensures halt == Some(StaleStep) ==> k.recorded <= Turned(items, k0, wait, classify).recorded
      ensures halt != Some(StaleStep) ==>
                w in table.workers && SameAttempt(old(table.workers[w]), table.workers[w])
    {
      hide CanRun, Exec, Inv, JobTable.Valid, Sound, Fed, Rowed, Lost, Refreshed, Drained, Ready, Distinct;
      inFlight, next := inFlight0, next0;
      LookSound(items, itemConcurrency, k0, wait.stopBefore);
      shutdown, deadline, k := LookLimited(shutdown0, deadline0, wait.stopBefore, k0);
      LookSound(items, itemConcurrency, k, wait.stopAfter);
      if deadline && wait.expired {
        EndSound(items, itemConcurrency, k, ShutdownRequested);
        k := k.(end := Some(ShutdownRequested));
        halt := Some(ShutdownRequested);
        return;
      }
      var done := Completions(wait.arrivals, inFlight);
      if done == [] {
        var stale := WaitOut(table, w, c, items, total, wait, k);
        halt := if stale then Some(StaleStep) else None;
        return;
      }
      ReadyMeans(wait.arrivals, inFlight);
      shutdown, deadline, k := LookLimited(shutdown, deadline, wait.stopAfter, k);
      halt, inFlight, next, shutdown, k := Drain(
        table, recorder, w, c, items, total, done, inFlight, next, shutdown, k);
      DrainKeepsDeadline(items, LookAndLimit(LookAndLimit(k0, wait.stopBefore), wait.stopAfter), done);
    }

    lemma {:induction false} DrainKeepsDeadline(items: seq<ItemId>, s: State, done: seq<Arrival>)
      ensures Drained(items, s, done, classify).deadline == s.deadline
    {
      if done != [] {
        DrainKeepsDeadline(items, s, done[..|done| - 1]);
      }
    }

    /** A look at the flag that also starts the grace period. */
    method LookLimited(shutdown0: bool, deadline0: bool, signal: bool, ghost k0: State)
      returns (shutdown: bool, deadline: bool, ghost k: State)
      requires k0.shutdown == shutdown0 && k0.deadline == deadline0 && k0.stop == stop
      modifies this
      ensures k == LookAndLimit(k0, signal) && k.shutdown == shutdown && k.deadline == deadline && k.stop == stop
    {
      shutdown, deadline, k := shutdown0, deadline0, LookAndLimit(k0, signal);
      var stopped := IsStopped(signal);
      if stopped {
        shutdown, deadline := true, true;
      }
    }

    /** The first window. */
    method Fill(items: seq<ItemId>) returns (inFlight: set<ItemId>, next: nat, ghost k: State)
      ensures k == Begun(items, itemConcurrency)
      ensures inFlight == Begun(items, itemConcurrency).inFlight && next == Begun(items, itemConcurrency).next
    {
      inFlight, next, k := {}, 0, Fresh(false);
      for n := 0 to itemConcurrency
        invariant k == Filled(items, Fresh(false), n) && inFlight == k.inFlight && next == k.next
        invariant next <= |items|
      {
        if next == |items| {
          NothingToSubmit(items, Fresh(false), n, itemConcurrency);
          break;
        }
        inFlight, next, k := SubmitOne(items, inFlight, next, k);
      }
    }

    lemma {:induction false} NothingToSubmit(items: seq<ItemId>, s: State, n: nat, m: nat)
      requires n <= m && Filled(items, s, n).next == |items|
      ensures Filled(items, s, m) == Filled(items, s, n)
      decreases m - n
    {
      if n < m {
        NothingToSubmit(items, s, n, m - 1);
      }
    }

    method RunParallel(
      table: JobTable, recorder: Recorder, w: WorkerId, c: Context, items: seq<ItemId>, ghost total: nat, env: Env)
      returns (end: RunEnd, ghost k: State)
      requires table.Valid() && table.At(w, c, Persisting(c.run, total, Ids(items))) && Distinct(items)
      requires recorder.Valid() && itemConcurrency >= 1
      modifies this, table, recorder
      ensures old(table.history) <= table.history && Stopped(table, w, c, items, total, end, k) && MarkKept(k)
      ensures !end.StaleStep? ==> SameAttempt(old(table.workers[w]), table.workers[w])
      ensures end.Completed? ==> Refreshed(table.history, |old(table.history)|, w)
      ensures !end.StaleStep? ==> k == Parallel(items, itemConcurrency, env, classify, old(stop))
      ensures end.StaleStep? ==> k.recorded <= Parallel(items, itemConcurrency, env, classify, old(stop)).recorded
    {
      hide CanRun, Exec, Inv, JobTable.Valid, Sound, Fed, Rowed, Lost, Turns, Turned, Filled, MarkKept, Refreshed;
      assert Ids(items) - Ids([]) == Ids(items);
      NothingRowed(table.View(), c);
      var stopped := IsStopped(env.stops(0));
      if stopped {
        k := Parallel(items, itemConcurrency, env, classify, old(stop));
        ParallelSound(items, itemConcurrency, env, classify, old(stop));
        SoundMeans(items, itemConcurrency, k);
        return ShutdownRequested, k;
      }
      var inFlight, next := {}, 0;
      inFlight, next, k := Fill(items);
      BegunSound(items, itemConcurrency, classify);
      end, k := Loop(table, recorder, w, c, items, total, env, inFlight, next, k);
      SoundMeans(items, itemConcurrency, k);
    }

    /** The loop of the parallel mode, and what comes after it. */
    method Loop(
      table: JobTable, recorder: Recorder, w: WorkerId, c: Context, items: seq<ItemId>, ghost total: nat, env: Env,
      inFlight0: set<ItemId>, next0: nat, ghost k0: State)
      returns (end: RunEnd, ghost k: State)
      requires Going(table, recorder, w, c, items, total, k0) && Fed(items, itemConcurrency, k0)
      requires Holds(k0, inFlight0, next0, false) && !k0.deadline
      modifies this, table, recorder
      ensures old(table.history) <= table.history && Stopped(table, w, c, items, total, end, k)
      ensures !end.StaleStep? ==> SameAttempt(old(table.workers[w]), table.workers[w])
      ensures end.Completed? ==> Refreshed(table.history, |old(table.history)|, w)
      ensures !end.StaleStep? ==> k == Concluded(Turns(items, k0, env.waits, classify))
      ensures end.StaleStep? ==> k.recorded <= Turns(items, k0, env.waits, classify).recorded
    {
      hide CanRun, Exec, Inv, JobTable.Valid, Sound, Fed, Rowed, Lost, Refreshed, Turned, Turns, Distinct;
      ghost var start := table.workers[w];
      var inFlight, next, shutdown, deadline, t := inFlight0, next0, false, false, 0;
      k := k0;
      NoTurns(items, k0, env.waits);
      while inFlight != {} && t < |env.waits|
        invariant t <= |env.waits| && k == Turns(items, k0, env.waits[..t], classify)
        invariant Going(table, recorder, w, c, items, total, k) && Fed(items, itemConcurrency, k)
        invariant Holds(k, inFlight, next, shutdown) && k.deadline == deadline
        invariant old(table.history) <= table.history && SameAttempt(start, table.workers[w])
        decreases |env.waits| - t
      {
        TurnsStep(items, itemConcurrency, k0, env.waits, t, classify);
        var halt: Option<RunEnd>;
        halt, inFlight, next, shutdown, deadline, k :=
          Turn(table, recorder, w, c, items, total, env.waits[t], inFlight, next, shutdown, deadline, k);
        if halt.Some? {
          return halt.value, k;
        }
        t := t + 1;
      }
      TurnsExtend(items, itemConcurrency, k0, env.waits, t, classify);
      assert env.waits[..|env.waits|] == env.waits;
      ghost var before := table.history;
      end, k := Conclude(table, recorder, w, c, items, total, inFlight, next, shutdown, k, env.times(t));
      RefreshedFrom(table.history, |before|, |old(table.history)|, w);
    }

    lemma NoTurns(items: seq<ItemId>, s: State, waits: seq<Wait>)
      ensures Turns(items, s, waits[..0], classify) == s
    {
    }

    /** After the loop: cut off, shutting down, or done. */
    method Conclude(
      table: JobTable, ghost recorder: Recorder, w: WorkerId, c: Context, items: seq<ItemId>, ghost total: nat,
      inFlight: set<ItemId>, ghost next: nat, shutdown: bool, ghost k0: State, now: Time)
      returns (end: RunEnd, ghost k: State)
      requires Going(table, recorder, w, c, items, total, k0) && Holds(k0, inFlight, next, shutdown)
      modifies table
      ensures old(table.history) <= table.history && Stopped(table, w, c, items, total, end, k)
      ensures !end.StaleStep? ==> SameAttempt(old(table.workers[w]), table.workers[w])
      ensures end.Completed? ==> Refreshed(table.history, |old(table.history)|, w)
      ensures k == Concluded(k0)
    {
      hide CanRun, Exec, Inv, Sound, Rowed, Lost, Refreshed, Later;
      k := Concluded(k0);
      EndSound(items, itemConcurrency, k0, k.end.value);
      if inFlight != {} {
        end := Cut;
      } else if shutdown {
        end := ShutdownRequested;
      } else {
        ghost var rows, before := table.View(), table.history;
        var stale := Recorder.Beat(table, w, c, total, Ids(items) - Ids(k0.recorded), now);
        table.SinceThen(before, c.job);
        RowedLater(rows, table.View(), c, k0.recorded, classify);
        end := if stale then StaleStep else Completed;
      }
    }
  }
}
