/**
 Heartbeats and recovery: an attempt that beats often enough is never taken for dead.
 */
module Heartbeats {
  import opened JobModel
  import opened Protocol
  import opened Safety
  import opened Preservation
  import opened Runs
  import opened Verdicts

  /** Worker w stores a result, a heartbeat or its counts. */
  predicate Beats(e: Event, w: WorkerId) {
    (e.Beat? || e.Record? || e.Adjust?) && e.w == w
  }

  /** Worker w ends its attempt. */
  predicate Ends(e: Event, w: WorkerId) {
    (e.Finish? || e.Release? || e.Crash?) && e.w == w
  }

  /** Nobody ends the attempt on purpose: neither the worker nor an admin. */
  predicate LeftAlone(es: seq<Event>, w: WorkerId, j: JobId) {
    forall n :: 0 <= n < |es| ==> !Ends(es[n], w) && es[n] != AdminRetry(j)
  }

  /** Event e happens at time t; a poll calls older than `limit` what was seen before t - limit. */
  predicate HappensAt(e: Event, t: Time, w: WorkerId, limit: int) {
    (e.Poll? ==> e.staleBefore == t - limit) && (Beats(e, w) ==> e.now == t)
  }

  predicate Timed(es: seq<Event>, times: seq<Time>, w: WorkerId, limit: int) {
    |times| == |es| && forall n :: 0 <= n < |es| ==> HappensAt(es[n], times[n], w, limit)
  }

  /** At no event of the run is the last beat of w older than the limit. */
  predicate Punctual(es: seq<Event>, times: seq<Time>, w: WorkerId, last: Time, limit: int)
    requires |times| == |es|
    decreases |es|
  {
    es != [] ==>
      times[0] - last <= limit && Punctual(es[1..], times[1..], w, if Beats(es[0], w) then times[0] else last, limit)
  }

  /** Beat follows beat within the limit, and so does `until` the last one. */
  predicate GapsWithin(es: seq<Event>, times: seq<Time>, w: WorkerId, last: Time, limit: int, until: Time)
    requires |times| == |es|
    decreases |es|
  {
    if es == [] then until - last <= limit
    else if Beats(es[0], w) then times[0] - last <= limit && GapsWithin(es[1..], times[1..], w, times[0], limit, until)
    else GapsWithin(es[1..], times[1..], w, last, limit, until)
  }

  predicate Nondecreasing(times: seq<Time>, until: Time) {
    && (forall a, b :: 0 <= a <= b < |times| ==> times[a] <= times[b])
    && forall a :: 0 <= a < |times| ==> times[a] <= until
  }

  lemma {:induction false} NextIsSoon(
    es: seq<Event>, times: seq<Time>, w: WorkerId, last: Time, limit: int, until: Time, t: Time)
    requires |times| == |es| && GapsWithin(es, times, w, last, limit, until)
    requires t <= until && forall a :: 0 <= a < |times| ==> t <= times[a]
    ensures t - last <= limit
    decreases |es|
  {
    if es != [] && !Beats(es[0], w) {
      NextIsSoon(es[1..], times[1..], w, last, limit, until, t);
    }
  }

  /** With a clock that never runs backwards, short gaps between beats are enough. */
  lemma {:induction false} ShortGapsArePunctual(
    es: seq<Event>, times: seq<Time>, w: WorkerId, last: Time, limit: int, until: Time)
    requires |times| == |es| && Nondecreasing(times, until) && GapsWithin(es, times, w, last, limit, until)
    ensures Punctual(es, times, w, last, limit)
    decreases |es|
  {
    if es != [] {
      NextIsSoon(es, times, w, last, limit, until, times[0]);
      ShortGapsArePunctual(es[1..], times[1..], w, if Beats(es[0], w) then times[0] else last, limit, until);
    }
  }

  /** Worker w is in its current attempt of step i of job j, last seen at `last`. */
  ghost predicate Alive(s: System, w: WorkerId, j: JobId, i: nat, attempt: nat, last: Time) {
    && w in s.workers && s.workers[w].InStep? && j in s.jobs
    && s.workers[w].job == j && s.workers[w].index == i && s.workers[w].attempt == attempt
    && Fenced(s.jobs[j], i, attempt)
    && s.jobs[j].steps[i].startedAt.Some? && LastSign(s.jobs[j].steps[i]) == last
  }

  ghost predicate StillAlive(s: System, w: WorkerId, j: JobId, i: nat, attempt: nat) {
    exists seen: Time :: Alive(s, w, j, i, attempt, seen)
  }

  /** Its own reads and beats keep an attempt alive, and a beat is a new sign of life. */
  lemma OwnEventKeepsAlive(s: System, e: Event, w: WorkerId, j: JobId, i: nat, attempt: nat, last: Time)
    requires Inv(s) && Alive(s, w, j, i, attempt, last) && Enabled(s, e) && Actor(e) == Some(w) && !Ends(e, w)
    ensures Alive(Apply(s, e), w, j, i, attempt, if Beats(e, w) then e.now else last)
  {
    hide Inv, Retry, Recover, StartStep, Finalize, NewJob, CountOk;
  }

  /** Others cannot touch it, except by a poll that finds it stale. */
  lemma OtherEventKeepsAlive(s: System, e: Event, w: WorkerId, j: JobId, i: nat, attempt: nat, last: Time)
    requires Inv(s) && Alive(s, w, j, i, attempt, last) && Enabled(s, e)
    requires Actor(e) != Some(w) && e != AdminRetry(j) && (e.Poll? ==> e.staleBefore <= last)
    ensures Alive(Apply(s, e), w, j, i, attempt, last) && (e.Poll? ==> e.recovered != Some(j))
  {
    assert JobOk(s.jobs[j]) && WorkerOk(s.jobs[j], s.workers[w]);
    OwnerIsAlone(s, w, j);
    OnlyRunning(s.jobs[j], i);
    OtherRowsStay(s, e, w, j);
  }

  lemma OtherRowsStay(s: System, e: Event, w: WorkerId, j: JobId)
    requires Enabled(s, e) && j in s.jobs && s.jobs[j].status.JobRunning? && w in s.workers
    requires forall v :: v in s.workers && v != w ==> !Owns(s, v, j)
    requires Actor(e) != Some(w) && e != AdminRetry(j) && (e.Poll? ==> !Recoverable(s.jobs[j], e.staleBefore))
    ensures j in Apply(s, e).jobs && Apply(s, e).jobs[j] == s.jobs[j]
    ensures w in Apply(s, e).workers && Apply(s, e).workers[w] == s.workers[w]
  {
    hide Recover, Retry, StartStep, Finalize, WithArtifacts, NewJob, Rewound;
    var a := Actor(e);
    if a.Some? && !s.workers[a.value].Idle? && s.workers[a.value].job == j {
      assert !Owns(s, a.value, j);
    }
  }

  /** No poll of the run recovers job j. */
  predicate NeverRecovered(es: seq<Event>, j: JobId) {
    forall n :: 0 <= n < |es| && es[n].Poll? ==> es[n].recovered != Some(j)
  }

  /**
   An attempt whose last beat is never older than the limit when something happens is never recovered: whatever the
   other workers do, it is still the current one at the end.
   */
  lemma {:induction false} PunctualAttemptIsNotRecovered(
    s: System, es: seq<Event>, times: seq<Time>, w: WorkerId, j: JobId, i: nat, attempt: nat, last: Time, limit: int)
    requires Inv(s) && CanRun(s, es) && Alive(s, w, j, i, attempt, last)
    requires LeftAlone(es, w, j) && Timed(es, times, w, limit) && Punctual(es, times, w, last, limit)
    ensures NeverRecovered(es, j)
    ensures StillAlive(Exec(s, es), w, j, i, attempt)
    decreases |es|
  {
    hide Inv, Apply, Enabled, Alive;
    if es == [] {
      assert Alive(Exec(s, es), w, j, i, attempt, last);
    } else {
      var e := es[0];
      assert HappensAt(e, times[0], w, limit) && !Ends(e, w) && e != AdminRetry(j);
      EventKeepsInv(s, e);
      if Actor(e) == Some(w) {
        OwnEventKeepsAlive(s, e, w, j, i, attempt, last);
        OwnPollIsNone(s, e, w, j, i, attempt, last);
      } else {
        OtherEventKeepsAlive(s, e, w, j, i, attempt, last);
      }
      assert LeftAlone(es[1..], w, j) && Timed(es[1..], times[1..], w, limit);
      var seen := if Beats(e, w) then times[0] else last;
      PunctualAttemptIsNotRecovered(Apply(s, e), es[1..], times[1..], w, j, i, attempt, seen, limit);
      assert Exec(s, es) == Exec(Apply(s, e), es[1..]);
      forall n | 0 <= n < |es| && es[n].Poll? ensures es[n].recovered != Some(j) {
        assert n > 0 ==> es[n] == es[1..][n - 1];
      }
    }
  }

  /** A worker inside a step does not poll. */
  lemma OwnPollIsNone(s: System, e: Event, w: WorkerId, j: JobId, i: nat, attempt: nat, last: Time)
    requires Alive(s, w, j, i, attempt, last) && Enabled(s, e) && Actor(e) == Some(w)
    ensures !e.Poll?
  {
  }

  /**
   With a clock that never runs backwards: in every run, an attempt that beats at gaps within the stale limit, up to the
   end, is recovered by no poll of any worker and is still current at the end.
   */
  lemma BeatingAttemptIsNotRecovered(
    s: System, before: seq<Event>, es: seq<Event>, times: seq<Time>, w: WorkerId, j: JobId, i: nat, attempt: nat,
    last: Time, limit: int, until: Time)
    requires Init(s) && CanRun(s, before) && CanRun(Exec(s, before), es)
    requires Alive(Exec(s, before), w, j, i, attempt, last) && LeftAlone(es, w, j) && Timed(es, times, w, limit)
    requires Nondecreasing(times, until) && GapsWithin(es, times, w, last, limit, until)
    ensures NeverRecovered(es, j)
    ensures StillAlive(Exec(Exec(s, before), es), w, j, i, attempt)
  {
    hide CanRun, Exec, Alive;
    RunKeepsInv(s, before);
    ShortGapsArePunctual(es, times, w, last, limit, until);
    PunctualAttemptIsNotRecovered(Exec(s, before), es, times, w, j, i, attempt, last, limit);
  }
}
