/**
 Item results over whole runs: every item is inserted once, keeps its first outcome, and the progress
 counters of the current attempt always agree with the rows.
 */
module ExactlyOnce {
  import opened JobModel
  import opened Protocol
  import opened Safety
  import opened Preservation
  import opened Runs
  import Totals

  /** The row that event e inserts, if it inserts one. */
  ghost predicate Inserts(s: System, e: Event, j: JobId, run: nat, k: Kind, item: ItemId)
    requires Enabled(s, e)
  {
    && e.Record? && s.workers[e.w].job == j
    && Fenced(s.jobs[j], s.workers[e.w].index, s.workers[e.w].attempt)
    && s.workers[e.w].phase.run == run && KindOf(s.workers[e.w].index) == k
    && e.item == item && item !in Rows(s.jobs[j], run, k)
  }

  /** All insertions of result rows of one run of job j, over a whole trace of all workers, with multiplicity. */
  ghost function Inserted(s: System, es: seq<Event>, j: JobId, run: nat, k: Kind): multiset<ItemId>
    requires CanRun(s, es)
    decreases |es|
  {
    if es == [] then multiset{}
    else
      (if es[0].Record? && Inserts(s, es[0], j, run, k, es[0].item) then multiset{es[0].item} else multiset{})
      + Inserted(Apply(s, es[0]), es[1..], j, run, k)
  }

  ghost function RowsOf(s: System, j: JobId, run: nat, k: Kind): map<ItemId, Outcome> {
    if j in s.jobs then Rows(s.jobs[j], run, k) else map[]
  }

  lemma OtherEventsKeepRows(s: System, e: Event, j: JobId)
    requires Enabled(s, e) && !e.Record?
    ensures j in Apply(s, e).jobs && j in s.jobs ==> Apply(s, e).jobs[j].results == s.jobs[j].results
    ensures j in Apply(s, e).jobs && j !in s.jobs ==> Apply(s, e).jobs[j].results == map[]
    ensures j in s.jobs ==> j in Apply(s, e).jobs
  {
    hide FirstRunning, FirstRetryable, Swept, CacheOf, Verdict;
  }

  /** Only a fenced Record event changes the rows of a run, and then by exactly its own item. */
  lemma RowsChangeByRecord(s: System, e: Event, j: JobId, run: nat, k: Kind)
    requires Enabled(s, e)
    ensures RowsOf(Apply(s, e), j, run, k) ==
            if e.Record? && Inserts(s, e, j, run, k, e.item) then RowsOf(s, j, run, k)[e.item := e.outcome]
            else RowsOf(s, j, run, k)
  {
    if !e.Record? {
      OtherEventsKeepRows(s, e, j);
    }
  }

  lemma InsertOne(rows: map<ItemId, Outcome>, item: ItemId, o: Outcome)
    requires item !in rows
    ensures multiset(rows[item := o].Keys) == multiset(rows.Keys) + multiset{item}
  {
    assert rows[item := o].Keys == rows.Keys + {item};
  }

  /**
   Conservation over any run of any workers, crashes, recoveries and shutdowns included: the rows of a run at
   the end are the rows at the start plus the insertions in between, each counted once.
   */
  lemma {:induction false} RowsAreInsertions(s: System, es: seq<Event>, j: JobId, run: nat, k: Kind)
    requires Inv(s) && CanRun(s, es)
    ensures multiset(RowsOf(Exec(s, es), j, run, k).Keys) ==
            multiset(RowsOf(s, j, run, k).Keys) + Inserted(s, es, j, run, k)
    decreases |es|
  {
    if es != [] {
      var e, t := es[0], Apply(s, es[0]);
      EventKeepsInv(s, e);
      RowsChangeByRecord(s, e, j, run, k);
      RowsAreInsertions(t, es[1..], j, run, k);
      if e.Record? && Inserts(s, e, j, run, k, e.item) {
        InsertOne(RowsOf(s, j, run, k), e.item, e.outcome);
      }
    }
  }

  /** The first outcome stored for an item is the one it keeps. */
  lemma FirstOutcomeStays(s: System, es: seq<Event>, j: JobId, run: nat, k: Kind, item: ItemId)
    requires Inv(s) && CanRun(s, es) && item in RowsOf(s, j, run, k)
    ensures item in RowsOf(Exec(s, es), j, run, k)
    ensures RowsOf(Exec(s, es), j, run, k)[item] == RowsOf(s, j, run, k)[item]
  {
    hide CanRun, Exec;
    RunKeepsInv(s, es);
    assert Evolves(s.jobs[j], Exec(s, es).jobs[j]);
  }

  /**
   Exactly once across crashes: whenever an analysis step stands succeeded, the rows of the newest run are in
   bijection with the collected items, each item was inserted exactly once in the whole history, the collection it
   depends on had succeeded, and the stored counters are complete and exact.
   */
  lemma SucceededMeansEveryItemOnce(s: System, es: seq<Event>, j: JobId, k: Kind)
    requires Init(s) && CanRun(s, es) && j in Exec(s, es).jobs
    requires |Exec(s, es).jobs[j].steps| == STEP_COUNT
    requires Exec(s, es).jobs[j].steps[AnalyzeStep(k)].status.Succeeded?
    ensures var job := Exec(s, es).jobs[j];
            var p := job.steps[AnalyzeStep(k)].progress;
            && Rows(job, job.runs, k).Keys == Sources(job, k)
            && Inserted(s, es, j, job.runs, k) == multiset(Sources(job, k))
            && job.steps[CollectStep(k)].status.Succeeded?
            && p.total == Some(p.completed) && p.completed == |Sources(job, k)|
            && p.completed == p.succeeded + p.failed
            && p.succeeded == CountOk(Rows(job, job.runs, k), true)
  {
    hide CanRun, Exec;
    var job := Exec(s, es).jobs[j];
    RunKeepsInv(s, es);
    assert AnalysisComplete(job, k);
    RowsAreInsertions(s, es, j, job.runs, k);
    CountsSplit(Rows(job, job.runs, k));
    assert |Rows(job, job.runs, k)| == |Rows(job, job.runs, k).Keys|;
  }

  /** What a later attempt loads is exactly what has no row yet. */
  lemma ResumeLoadsTheRest(s: System, es: seq<Event>, w: WorkerId, e: Event)
    requires Init(s) && CanRun(s, es) && e == Load(w)
    requires Enabled(Exec(s, es), e) && Owns(Exec(s, es), w, Exec(s, es).workers[w].job)
    ensures var t := Exec(s, es);
            var p, q := t.workers[w], Apply(t, e).workers[w];
            var job := t.jobs[p.job];
            var k := KindOf(p.index);
            && q.phase.Loaded? && q.phase.run == job.runs
            && (forall x :: x in q.phase.remaining <==> x in Sources(job, k) && x !in Rows(job, job.runs, k))
            && Inserted(s, es, p.job, job.runs, k) + multiset(q.phase.remaining) == multiset(Sources(job, k))
  {
    hide CanRun, Exec;
    var t := Exec(s, es);
    var p := t.workers[w];
    var job, k := t.jobs[p.job], KindOf(p.index);
    RunKeepsInv(s, es);
    assert WorkerOk(job, p);
    RowsAreInsertions(s, es, p.job, job.runs, k);
    RowsWithin(job, job.runs, k);
    var done, rest := Rows(job, job.runs, k).Keys, Sources(job, k) - Rows(job, job.runs, k).Keys;
    assert multiset(done) + multiset(rest) == multiset(Sources(job, k)) by {
      assert done !! rest && done + rest == Sources(job, k);
    }
  }

  /** From its first reconcile on, the counters an attempt shows are the true counts, and never exceed the total. */
  lemma CountersAreTrue(s: System, es: seq<Event>, w: WorkerId)
    requires Init(s) && CanRun(s, es)
    requires var t := Exec(s, es);
             && w in t.workers && t.workers[w].InStep? && Owns(t, w, t.workers[w].job)
             && (|| t.workers[w].phase.Persisting? || t.workers[w].phase.Analyzed?
                 || (t.workers[w].phase.Counted? && t.workers[w].phase.closing))
    ensures var t := Exec(s, es);
            var p := t.workers[w];
            var job, k := t.jobs[p.job], KindOf(p.index);
            var c, rows := job.steps[p.index].progress, Rows(job, job.runs, k);
            && c.total == Some(|Sources(job, k)|)
            && c.completed == |rows| <= |Sources(job, k)|
            && c.succeeded == CountOk(rows, true) && c.failed == CountOk(rows, false)
            && c.completed == c.succeeded + c.failed
  {
    hide CanRun, Exec;
    var t := Exec(s, es);
    var p := t.workers[w];
    var job, k := t.jobs[p.job], KindOf(p.index);
    RunKeepsInv(s, es);
    assert WorkerOk(job, p);
    RowsWithin(job, job.runs, k);
    CountsSplit(Rows(job, job.runs, k));
    Totals.SubsetSize(Rows(job, job.runs, k).Keys, Sources(job, k));
  }

  /** Counting without the lock is safe: whatever happens before the update, only a true count passes the fence. */
  lemma UnlockedCountIsTrue(s: System, es: seq<Event>, e: Event)
    requires Init(s) && CanRun(s, es) && e.Adjust? && Enabled(Exec(s, es), e)
    requires Owns(Exec(s, es), e.w, Exec(s, es).workers[e.w].job)
    ensures var t := Exec(s, es);
            var p := t.workers[e.w];
            var after, k := Apply(t, e).jobs[p.job], KindOf(p.index);
            && ProgressExact(after.steps[p.index].progress, Rows(after, after.runs, k), |Sources(after, k)|)
            && (p.phase.closing ==>
                  && after.steps[p.index].progress == t.jobs[p.job].steps[p.index].progress
                  && after.steps[p.index].progress.total == Some(after.steps[p.index].progress.completed))
  {
    hide CanRun, Exec;
    RunKeepsInv(s, es);
    var t := Exec(s, es);
    var p := t.workers[e.w];
    assert WorkerOk(t.jobs[p.job], p);
    AdjustedCounts(t.jobs[p.job], p, e.now);
  }

  lemma AdjustedCounts(job: Job, p: Worker, now: Time)
    requires JobOk(job) && p.InStep? && WorkerOk(job, p) && Fenced(job, p.index, p.attempt) && p.phase.Counted?
    ensures var after := Reconcile(job, p.index, p.attempt, p.phase.total, p.phase.succeeded, p.phase.failed, now);
            var k := KindOf(p.index);
            && ProgressExact(after.steps[p.index].progress, Rows(after, after.runs, k), |Sources(after, k)|)
            && (p.phase.closing ==>
                  && after.steps[p.index].progress == job.steps[p.index].progress
                  && after.steps[p.index].progress.total == Some(after.steps[p.index].progress.completed))
  {
    hide CountOk;
    var k := KindOf(p.index);
    var rows := Rows(job, job.runs, k);
    CountsSplit(rows);
    RowsWithin(job, job.runs, k);
    if p.phase.closing {
      assert forall x :: x in Sources(job, k) && x !in rows.Keys ==> x in p.phase.remaining;
      assert rows.Keys == Sources(job, k);
    }
  }
}
