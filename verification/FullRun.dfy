/**
 One whole run of the pipeline, from an empty table to a succeeded job: a comment and a caption are collected, each is
 analysed once, and every step succeeds.
 */
module FullRun {
  import opened JobModel
  import opened Protocol
  import opened Safety
  import opened Runs
  import opened Scenarios
  import opened Verdicts
  import Store

  const COMMENT := ItemId(1)
  const CAPTION := ItemId(2)
  const CLEAN := Outcome(true, 0)
  const BROKEN := Outcome(false, 1)

  /** What the job has collected, opened and stored. */
  datatype Data = Data(
    comments: set<ItemId>, segments: set<ItemId>, runs: nat, results: map<RunKey, map<ItemId, Outcome>>)

  function DataOf(job: Job): Data {
    Data(job.comments, job.segments, job.runs, job.results)
  }

  ghost predicate SucceededBefore(job: Job, k: nat) {
    |job.steps| == STEP_COUNT && forall i :: 0 <= i < k && i < STEP_COUNT ==> job.steps[i].status.Succeeded?
  }

  /** The first worker stands before step k, and everything before has succeeded. */
  ghost predicate Stage(s: System, k: nat, d: Data) {
    && Between(s, FIRST, k, Never()) && s.jobs[SOME_JOB].status.JobRunning?
    && SucceededBefore(s.jobs[SOME_JOB], k) && DataOf(s.jobs[SOME_JOB]) == d
  }

  /** The first worker is inside step k, at this phase. */
  ghost predicate Inside(s: System, k: nat, ph: Phase, d: Data) {
    && SOME_JOB in s.jobs && FIRST in s.workers && s.workers[FIRST].InStep? && s.workers[FIRST].job == SOME_JOB
    && s.workers[FIRST].index == k && s.workers[FIRST].phase == ph
    && WaitingCache(s.workers[FIRST].cache, k + 1, Never()) && Waiting(s.jobs[SOME_JOB], k + 1, Never())
    && Fenced(s.jobs[SOME_JOB], k, s.workers[FIRST].attempt) && s.jobs[SOME_JOB].status.JobRunning?
    && SucceededBefore(s.jobs[SOME_JOB], k) && DataOf(s.jobs[SOME_JOB]) == d
  }

  /** A step without analysis succeeds. */
  lemma PlainStep(s: System, k: nat, new_: Artifacts, d: Data)
    requires Stage(s, k, d) && Plain(k)
    ensures CanRun(s, Both(FIRST, k, OK, new_))
    ensures var e := Data(if k == 2 then d.comments + new_.comments else d.comments,
                          if k == 3 then d.segments + new_.segments else d.segments,
                          if k == 4 then d.runs + 1 else d.runs, d.results);
            Stage(Exec(s, Both(FIRST, k, OK, new_)), k + 1, e)
  {
    hide CanRun, Exec, Between;
    GoesOn(s, FIRST, k, OK, new_, Never());
    var t := Exec(s, Both(FIRST, k, OK, new_));
    BetweenIsWaiting(t, k + 1);
    PrefixRows(s.jobs[SOME_JOB], t.jobs[SOME_JOB], k);
  }

  lemma BetweenIsWaiting(s: System, k: nat)
    requires Between(s, FIRST, k, Never())
    ensures SOME_JOB in s.jobs && |s.jobs[SOME_JOB].steps| == STEP_COUNT
  {
  }

  // ----- the nine transactions of an analysis step ------------------------------------------------------------------

  function Items(d: Data, k: nat): set<ItemId> {
    if k == 5 then d.comments else d.segments
  }

  function KeyOf(k: nat): RunKey {
    RunKey(1, if k == 5 then Comments else Script)
  }

  lemma Starts(s: System, k: nat, d: Data)
    requires Stage(s, k, d) && (k == 5 || k == 6)
    ensures Enabled(s, Start(FIRST, CONFIGURED, k, 0))
    ensures Inside(Apply(s, Start(FIRST, CONFIGURED, k, 0)), k, Handling, d)
  {
  }

  lemma Binds(s: System, k: nat, d: Data)
    requires Inside(s, k, Handling, d) && (k == 5 || k == 6) && Items(d, k) != {} && d.runs == 1
    ensures Enabled(s, Bind(FIRST)) && Inside(Apply(s, Bind(FIRST)), k, Bound(1), d)
  {
  }

  lemma Loads(s: System, k: nat, x: ItemId, d: Data)
    requires Inside(s, k, Bound(1), d) && (k == 5 || k == 6) && Items(d, k) == {x} && KeyOf(k) !in d.results
    ensures Enabled(s, Load(FIRST)) && Inside(Apply(s, Load(FIRST)), k, Loaded(1, 1, {x}), d)
  {
    var none: map<ItemId, Outcome> := map[];
    assert {x} - none.Keys == {x};
    assert |{x}| == 1;
  }

  lemma NoneCounted(ok: bool)
    ensures CountOk(map[], ok) == 0
  {
    var rows: map<ItemId, Outcome> := map[];
    assert (set x | x in rows && rows[x].ok == ok) == {};
  }

  lemma CountsNone(s: System, k: nat, x: ItemId, d: Data)
    requires Inside(s, k, Loaded(1, 1, {x}), d) && (k == 5 || k == 6) && KeyOf(k) !in d.results
    ensures Enabled(s, Count(FIRST)) && Inside(Apply(s, Count(FIRST)), k, Counted(1, 1, {x}, false, 0, 0), d)
  {
    NoneCounted(true);
    NoneCounted(false);
  }

  lemma Opens1(s: System, k: nat, x: ItemId, d: Data)
    requires Inside(s, k, Counted(1, 1, {x}, false, 0, 0), d)
    ensures Enabled(s, Adjust(FIRST, 0)) && Inside(Apply(s, Adjust(FIRST, 0)), k, Persisting(1, 1, {x}), d)
  {
  }

  lemma Stores(s: System, k: nat, x: ItemId, o: Outcome, d: Data)
    requires Inside(s, k, Persisting(1, 1, {x}), d) && (k == 5 || k == 6) && KeyOf(k) !in d.results
    ensures Enabled(s, Record(FIRST, x, o, 0))
    ensures var e := d.(results := d.results[KeyOf(k) := map[x := o]]);
            Inside(Apply(s, Record(FIRST, x, o, 0)), k, Persisting(1, 1, {}), e)
  {
    assert {x} - {x} == {};
    var none: map<ItemId, Outcome> := map[];
    assert none[x := o] == map[x := o];
  }

  lemma CountsOne(s: System, k: nat, x: ItemId, o: Outcome, d: Data) returns (succeeded: nat, failed: nat)
    requires Inside(s, k, Persisting(1, 1, {}), d) && (k == 5 || k == 6)
    requires KeyOf(k) in d.results && d.results[KeyOf(k)] == map[x := o]
    ensures Enabled(s, Count(FIRST))
    ensures Inside(Apply(s, Count(FIRST)), k, Counted(1, 1, {}, true, succeeded, failed), d)
  {
    succeeded, failed := CountOk(map[x := o], true), CountOk(map[x := o], false);
  }

  lemma Settles(s: System, k: nat, succeeded: nat, failed: nat, d: Data)
    requires Inside(s, k, Counted(1, 1, {}, true, succeeded, failed), d)
    ensures Enabled(s, Adjust(FIRST, 0)) && Inside(Apply(s, Adjust(FIRST, 0)), k, Analyzed(1), d)
  {
  }

  lemma Ends(s: System, k: nat, d: Data)
    requires Inside(s, k, Analyzed(1), d) && (k == 5 || k == 6)
    ensures Enabled(s, Finish(FIRST, OK, NOTHING, 0)) && Stage(Apply(s, Finish(FIRST, OK, NOTHING, 0)), k + 1, d)
  {
  }

  function Analysing(k: nat, x: ItemId, o: Outcome): seq<Event> {
    [Start(FIRST, CONFIGURED, k, 0)] + [Bind(FIRST)] + [Load(FIRST)] + [Count(FIRST)] + [Adjust(FIRST, 0)]
    + [Record(FIRST, x, o, 0)] + [Count(FIRST)] + [Adjust(FIRST, 0)] + [Finish(FIRST, OK, NOTHING, 0)]
  }

  /** An analysis step over one item: load, count, store its outcome, count again, succeed. */
  lemma AnalysisStep(s: System, k: nat, x: ItemId, o: Outcome, d: Data)
    requires Stage(s, k, d) && (k == 5 || k == 6) && Items(d, k) == {x} && d.runs == 1 && KeyOf(k) !in d.results
    ensures CanRun(s, Analysing(k, x, o))
    ensures Stage(Exec(s, Analysing(k, x, o)), k + 1, d.(results := d.results[KeyOf(k) := map[x := o]]))
  {
    hide CanRun, Exec, Apply, Enabled, Stage, Inside;
    var e := d.(results := d.results[KeyOf(k) := map[x := o]]);
    Starts(s, k, d);
    var es := [Start(FIRST, CONFIGURED, k, 0)];
    OneEvent(s, es[0]);
    Binds(Exec(s, es), k, d);
    Store.RunSnoc(s, es, Bind(FIRST));
    es := es + [Bind(FIRST)];
    Loads(Exec(s, es), k, x, d);
    Store.RunSnoc(s, es, Load(FIRST));
    es := es + [Load(FIRST)];
    CountsNone(Exec(s, es), k, x, d);
    Store.RunSnoc(s, es, Count(FIRST));
    es := es + [Count(FIRST)];
    Opens1(Exec(s, es), k, x, d);
    Store.RunSnoc(s, es, Adjust(FIRST, 0));
    es := es + [Adjust(FIRST, 0)];
    Stores(Exec(s, es), k, x, o, d);
    Store.RunSnoc(s, es, Record(FIRST, x, o, 0));
    es := es + [Record(FIRST, x, o, 0)];
    var succeeded, failed := CountsOne(Exec(s, es), k, x, o, e);
    Store.RunSnoc(s, es, Count(FIRST));
    es := es + [Count(FIRST)];
    Settles(Exec(s, es), k, succeeded, failed, e);
    Store.RunSnoc(s, es, Adjust(FIRST, 0));
    es := es + [Adjust(FIRST, 0)];
    Ends(Exec(s, es), k, e);
    Store.RunSnoc(s, es, Finish(FIRST, OK, NOTHING, 0));
  }

  // ----- the whole pipeline ---------------------------------------------------------------------------------------

  const COLLECTED := Data({COMMENT}, {CAPTION}, 1, map[])

  function Collecting(): seq<Event> {
    FirstStep() + Both(FIRST, 2, OK, Artifacts({COMMENT}, {}))
    + Both(FIRST, 3, OK, Artifacts({}, {CAPTION})) + Both(FIRST, 4, OK, NOTHING)
  }

  function FirstStep(): seq<Event> {
    Opening() + Both(FIRST, 1, OK, NOTHING)
  }

  lemma CollectsMetadata()
    ensures CanRun(Empty(), FirstStep()) && Stage(Exec(Empty(), FirstStep()), 2, Data({}, {}, 0, map[]))
  {
    hide CanRun, Exec, Between;
    Opens();
    var b := Exec(Empty(), Opening());
    RunsOneStep(b, FIRST, b.workers[FIRST].cache, 0, 1, OK, NOTHING, Never());
    RunsConcat(Empty(), Opening(), Both(FIRST, 1, OK, NOTHING));
    var c := Exec(Empty(), FirstStep());
    BetweenIsWaiting(c, 2);
    PrefixRows(b.jobs[SOME_JOB], c.jobs[SOME_JOB], 1);
  }

  /** One more step behind a run so far. */
  lemma Onward(es: seq<Event>, k: nat, new_: Artifacts, d: Data, e: Data)
    requires CanRun(Empty(), es) && Stage(Exec(Empty(), es), k, d) && Plain(k)
    requires e == Data(if k == 2 then d.comments + new_.comments else d.comments,
                       if k == 3 then d.segments + new_.segments else d.segments,
                       if k == 4 then d.runs + 1 else d.runs, d.results)
    ensures CanRun(Empty(), es + Both(FIRST, k, OK, new_))
    ensures Stage(Exec(Empty(), es + Both(FIRST, k, OK, new_)), k + 1, e)
  {
    hide CanRun, Exec, Stage;
    PlainStep(Exec(Empty(), es), k, new_, d);
    RunsConcat(Empty(), es, Both(FIRST, k, OK, new_));
  }

  lemma Collects()
    ensures CanRun(Empty(), Collecting()) && Stage(Exec(Empty(), Collecting()), 5, COLLECTED)
  {
    hide CanRun, Exec, Stage;
    var zero := Data({}, {}, 0, map[]);
    CollectsMetadata();
    var es := FirstStep();
    Onward(es, 2, Artifacts({COMMENT}, {}), zero, Data({COMMENT}, {}, 0, map[]));
    es := es + Both(FIRST, 2, OK, Artifacts({COMMENT}, {}));
    Onward(es, 3, Artifacts({}, {CAPTION}), Data({COMMENT}, {}, 0, map[]), Data({COMMENT}, {CAPTION}, 0, map[]));
    es := es + Both(FIRST, 3, OK, Artifacts({}, {CAPTION}));
    Onward(es, 4, NOTHING, Data({COMMENT}, {CAPTION}, 0, map[]), COLLECTED);
  }

  function Whole(): seq<Event> {
    Collecting() + Analysing(5, COMMENT, CLEAN) + Analysing(6, CAPTION, BROKEN)
    + Both(FIRST, 7, OK, NOTHING) + Both(FIRST, 8, OK, NOTHING) + [Close(FIRST, COLLECTORS, 0)]
  }

  const ANALYSED := COLLECTED.(results :=
    map[RunKey(1, Comments) := map[COMMENT := CLEAN], RunKey(1, Script) := map[CAPTION := BROKEN]])

  lemma Analyses()
    ensures var es := Collecting() + Analysing(5, COMMENT, CLEAN) + Analysing(6, CAPTION, BROKEN);
            CanRun(Empty(), es) && Stage(Exec(Empty(), es), 7, ANALYSED)
  {
    hide CanRun, Exec, Stage;
    Collects();
    var es := Collecting();
    var half := COLLECTED.(results := map[][RunKey(1, Comments) := map[COMMENT := CLEAN]]);
    AnalysisStep(Exec(Empty(), es), 5, COMMENT, CLEAN, COLLECTED);
    RunsConcat(Empty(), es, Analysing(5, COMMENT, CLEAN));
    es := es + Analysing(5, COMMENT, CLEAN);
    AnalysisStep(Exec(Empty(), es), 6, CAPTION, BROKEN, half);
    RunsConcat(Empty(), es, Analysing(6, CAPTION, BROKEN));
    assert half.(results := half.results[RunKey(1, Script) := map[CAPTION := BROKEN]]) == ANALYSED;
  }

  /**
   The pipeline as a whole: a run from an empty table that ends in a succeeded job with both items collected and one row
   for each of them with the outcome it was given, although one of the outcomes is a failed item.
   */
  lemma PipelineSucceeds()
    ensures Init(Empty()) && CanRun(Empty(), Whole()) && EndsWell(Exec(Empty(), Whole()))
    ensures Exec(Empty(), Whole()).jobs[SOME_JOB].status.JobSucceeded?
  {
    hide CanRun, Exec, Apply, Enabled, Stage, AllSucceeded;
    Analyses();
    var es := Collecting() + Analysing(5, COMMENT, CLEAN) + Analysing(6, CAPTION, BROKEN);
    Onward(es, 7, NOTHING, ANALYSED, ANALYSED);
    es := es + Both(FIRST, 7, OK, NOTHING);
    Onward(es, 8, NOTHING, ANALYSED, ANALYSED);
    es := es + Both(FIRST, 8, OK, NOTHING);
    StartsEmpty();
    Closing(es);
    OneEvent(Exec(Empty(), es), Close(FIRST, COLLECTORS, 0));
    RunsConcat(Empty(), es, [Close(FIRST, COLLECTORS, 0)]);
    SucceededVerdict(Empty(), Whole(), SOME_JOB);
  }

  lemma StartsEmpty()
    ensures Init(Empty()) && Inv(Empty())
  {
  }

  /** The job is closed with every step succeeded, and holds what was collected and stored. */
  ghost predicate EndsWell(t: System) {
    && SOME_JOB in t.jobs && FIRST in t.workers && t.workers[FIRST] == Idle
    && AllSucceeded(t.jobs[SOME_JOB]) && Terminal(t.jobs[SOME_JOB].status)
    && DataOf(t.jobs[SOME_JOB]) == ANALYSED
  }

  lemma Closing(es: seq<Event>)
    requires Init(Empty()) && CanRun(Empty(), es) && Stage(Exec(Empty(), es), 9, ANALYSED)
    ensures var u := Exec(Empty(), es);
            Enabled(u, Close(FIRST, COLLECTORS, 0)) && EndsWell(Apply(u, Close(FIRST, COLLECTORS, 0)))
  {
    hide CanRun, Exec, Inv;
    StartsEmpty();
    RunKeepsInv(Empty(), es);
    var u := Exec(Empty(), es);
    Closes(u, FIRST, 9, Never());
    ClosesData(u);
  }

  lemma ClosesData(u: System)
    requires Stage(u, 9, ANALYSED) && Enabled(u, Close(FIRST, COLLECTORS, 0))
    ensures var t := Apply(u, Close(FIRST, COLLECTORS, 0));
            && SOME_JOB in t.jobs && DataOf(t.jobs[SOME_JOB]) == ANALYSED
            && |t.jobs[SOME_JOB].steps| == STEP_COUNT && t.jobs[SOME_JOB].steps[FINALIZE_JOB].status.Succeeded?
  {
  }
}
