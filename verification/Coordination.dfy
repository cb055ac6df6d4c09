/**
 What one run of the item coordinator does, as a function of its input, the stop flag, the futures' results and the
 order in which they complete.  Only the fence can cut a run short of this.
 */
module Coordination {
  import opened JobModel
  import opened ClassifierPool

  /** What a future yields: an outcome to store, the shutdown signal, or any other exception. */
  datatype Classified = Classified(outcome: Outcome) | StopRaised | ErrorRaised

  /** One completed future, and what the environment does while its result is being handled. */
  datatype Arrival = Arrival(item: ItemId, stopAfter: bool, logNow: bool, now: Time)

  /** One return of wait(): stop flag and deadline before it, the completed futures, the stop flag after it. */
  datatype Wait = Wait(
    stopBefore: bool, expired: bool, arrivals: seq<Arrival>, stopAfter: bool, logNow: bool, now: Time)

  /**
   Everything a run observes: `stops(i)` says whether the flag is raised between looks i - 1 and i, `waits` are the
   wake-ups.  A run that outlives `waits` is cut off (the process dies).
   */
  datatype Env = Env(stops: nat -> bool, logs: nat -> bool, times: nat -> Time, waits: seq<Wait>)

  datatype RunEnd = Completed | ShutdownRequested | StaleStep | Unexpected | Cut

  /** What there was when the coordinator first saw the stop flag. */
  datatype Mark = Mark(submitted: nat, recorded: seq<ItemId>, inFlight: set<ItemId>)

  /**
   The coordinator: items recorded so far, the window, how many items were taken from the input, the stop flag at
   the last look, whether shutdown was requested and a deadline set, the first sight of the flag, the end of the run,
   and all it did to its window.
   */
  datatype State = State(
    recorded: seq<ItemId>, inFlight: set<ItemId>, next: nat, stop: bool, shutdown: bool, deadline: bool,
    mark: Option<Mark>, end: Option<RunEnd>, ops: seq<PoolEvent>)

  function Fresh(stop: bool): State {
    State([], {}, 0, stop, false, false, None, None, [])
  }

  /** A look at the stop flag, which somebody may have raised; nothing ever clears it. */
  function Look(s: State, signal: bool): State {
    if s.stop || signal then
      s.(stop := true, shutdown := true,
         mark := if s.mark.Some? then s.mark else Some(Mark(s.next, s.recorded, s.inFlight)))
    else s
  }

  /** A look that also starts the grace period. */
  function LookAndLimit(s: State, signal: bool): State {
    var l := Look(s, signal);
    if l.stop then l.(deadline := true) else l
  }

  function Submitted(items: seq<ItemId>, s: State): State {
    if s.next < |items| then
      s.(inFlight := s.inFlight + {items[s.next]}, next := s.next + 1, ops := s.ops + [Submit(items[s.next])])
    else s
  }

  function Filled(items: seq<ItemId>, s: State, n: nat): State {
    if n == 0 then s else Submitted(items, Filled(items, s, n - 1))
  }

  /** The result of one completed future. */
  function Settled(s: State, x: ItemId, classify: ItemId -> Classified): State {
    match classify(x)
    case StopRaised => s.(end := Some(ShutdownRequested))
    case ErrorRaised => s.(end := Some(Unexpected))
    case Classified(_) =>
      s.(recorded := s.recorded + [x], inFlight := s.inFlight - {x}, ops := s.ops + [Remove(x)])
  }

  /** After a result was recorded: look, and submit unless shutting down. */
  function Refilled(items: seq<ItemId>, s: State, signal: bool): State {
    var l := Look(s, signal);
    if l.shutdown then l else Submitted(items, l)
  }

  function Handled(items: seq<ItemId>, s: State, a: Arrival, classify: ItemId -> Classified): State {
    if s.end.Some? then s
    else
      var r := Settled(s, a.item, classify);
      if r.end.Some? then r else Refilled(items, r, a.stopAfter)
  }

  /** The completed futures that really were in flight, each once. */
  function Ready(arrivals: seq<Arrival>, inFlight: set<ItemId>): seq<Arrival> {
    if arrivals == [] then []
    else
      var rest, a := Ready(arrivals[..|arrivals| - 1], inFlight), arrivals[|arrivals| - 1];
      if a.item in inFlight && forall b :: b in rest ==> b.item != a.item then rest + [a] else rest
  }

  function Drained(items: seq<ItemId>, s: State, done: seq<Arrival>, classify: ItemId -> Classified): State {
    if done == [] then s
    else Handled(items, Drained(items, s, done[..|done| - 1], classify), done[|done| - 1], classify)
  }

  /** One pass of the loop. */
  function Turned(items: seq<ItemId>, s: State, w: Wait, classify: ItemId -> Classified): State {
    var l := LookAndLimit(s, w.stopBefore);
    var done := Ready(w.arrivals, l.inFlight);
    if l.deadline && w.expired then l.(end := Some(ShutdownRequested))
    else if done == [] then l
    else Drained(items, LookAndLimit(l, w.stopAfter), done, classify)
  }

  predicate Over(s: State) {
    s.end.Some? || s.inFlight == {}
  }

  function Turns(items: seq<ItemId>, s: State, waits: seq<Wait>, classify: ItemId -> Classified): State {
    if waits == [] then s
    else
      var before := Turns(items, s, waits[..|waits| - 1], classify);
      if Over(before) then before else Turned(items, before, waits[|waits| - 1], classify)
  }

  function Concluded(s: State): State {
    if s.end.Some? then s
    else s.(end := Some(if s.inFlight != {} then Cut else if s.shutdown then ShutdownRequested else Completed))
  }

  function Parallel(items: seq<ItemId>, limit: nat, env: Env, classify: ItemId -> Classified, stop: bool): State {
    var s := Look(Fresh(stop), env.stops(0));
    if s.stop then s.(end := Some(ShutdownRequested))
    else Concluded(Turns(items, Filled(items, s, limit), env.waits, classify))
  }

  /** The sequential loop from the first item not recorded yet; the flag may also be raised during the last item. */
  function Sequential(items: seq<ItemId>, env: Env, classify: ItemId -> Classified, s: State): State
    decreases |items| - |s.recorded|
  {
    var i := |s.recorded|;
    var stop := s.stop || env.stops(i);
    if i >= |items| then s.(stop := stop, end := Some(Completed))
    else if stop then s.(stop := stop, end := Some(ShutdownRequested))
    else
      match classify(items[i])
      case StopRaised => s.(end := Some(ShutdownRequested))
      case ErrorRaised => s.(end := Some(Unexpected))
      case Classified(_) => Sequential(items, env, classify, s.(recorded := s.recorded + [items[i]]))
  }

  /** The whole of `run`, in either mode. */
  function Reference(
    parallel: bool, items: seq<ItemId>, limit: nat, env: Env, classify: ItemId -> Classified, stop: bool): State
  {
    if parallel then Parallel(items, limit, env, classify, stop) else Sequential(items, env, classify, Fresh(stop))
  }

  // ----- conservation ---------------------------------------------------------------------------------------

  function Ids(items: seq<ItemId>): set<ItemId> {
    set x | x in items
  }

  predicate Distinct(items: seq<ItemId>) {
    forall a, b :: 0 <= a < b < |items| ==> items[a] != items[b]
  }

  lemma {:induction false} DistinctMultiset(items: seq<ItemId>)
    requires Distinct(items)
    ensures multiset(items) == multiset(Ids(items))
  {
    if items != [] {
      var last, rest := items[|items| - 1], items[..|items| - 1];
      DistinctMultiset(rest);
      assert items == rest + [last];
      assert Ids(items) == Ids(rest) + {last};
      assert last !in Ids(rest);
    }
  }

  /** Everything recorded, in flight and not yet submitted is the input, each item once. */
  ghost predicate Conserved(items: seq<ItemId>, recorded: seq<ItemId>, inFlight: set<ItemId>, next: nat)
    requires next <= |items|
  {
    multiset(items) == multiset(recorded) + multiset(inFlight) + multiset(items[next..])
  }

  lemma SubmitConserves(items: seq<ItemId>, recorded: seq<ItemId>, inFlight: set<ItemId>, next: nat)
    requires next < |items| && Distinct(items) && Conserved(items, recorded, inFlight, next)
    requires forall x :: x in inFlight ==> x in items[..next]
    ensures items[next] !in inFlight
    ensures Conserved(items, recorded, inFlight + {items[next]}, next + 1)
    ensures forall x :: x in inFlight + {items[next]} ==> x in items[..next + 1]
  {
    assert items[next..] == [items[next]] + items[next + 1..];
    assert items[..next + 1] == items[..next] + [items[next]];
  }

  lemma RecordConserves(
    items: seq<ItemId>, recorded: seq<ItemId>, inFlight: set<ItemId>, next: nat, x: ItemId)
    requires next <= |items| && Conserved(items, recorded, inFlight, next) && x in inFlight
    ensures Conserved(items, recorded + [x], inFlight - {x}, next)
  {
    assert multiset(inFlight) == multiset(inFlight - {x}) + multiset{x};
  }

  /** Nothing is recorded twice, what is in flight is not recorded, and the three parts add up. */
  lemma ConservedMeans(items: seq<ItemId>, recorded: seq<ItemId>, inFlight: set<ItemId>, next: nat)
    requires next <= |items| && Distinct(items) && Conserved(items, recorded, inFlight, next)
    ensures Distinct(recorded) && Ids(recorded) <= Ids(items) && inFlight <= Ids(items) - Ids(recorded)
    ensures |recorded| + |inFlight| + (|items| - next) == |items|
  {
    DistinctMultiset(items);
    var all := multiset(items);
    RepeatedOrDistinct(recorded);
    assert forall x {:trigger multiset(recorded)[x]} :: multiset(recorded)[x] <= all[x] <= 1;
    forall x | x in inFlight ensures x in Ids(items) && x !in recorded {
      assert x in multiset(inFlight) && x in all;
      assert multiset(recorded)[x] + multiset(inFlight)[x] <= all[x];
      assert x in recorded ==> x in multiset(recorded);
    }
    forall x | x in recorded ensures x in Ids(items) {
      assert x in multiset(recorded) && x in all;
    }
    assert |multiset(inFlight)| == |inFlight|;
    assert |all| == |multiset(recorded)| + |multiset(inFlight)| + |multiset(items[next..])|;
  }

  lemma TwiceMeansTwo(p: seq<ItemId>, q: seq<ItemId>, x: ItemId)
    requires x in p && x in q
    ensures multiset(p + q)[x] >= 2
  {
    assert x in multiset(p) && x in multiset(q);
  }

  lemma RepeatedOrDistinct(s: seq<ItemId>)
    ensures Distinct(s) || exists x :: multiset(s)[x] >= 2
  {
    if !Distinct(s) {
      var a, b :| 0 <= a < b < |s| && s[a] == s[b];
      assert s[..b][a] == s[a] && s[b..][0] == s[a];
      TwiceMeansTwo(s[..b], s[b..], s[a]);
      assert s == s[..b] + s[b..];
    }
  }

  // ----- what every state of the parallel coordinator satisfies ---------------------------------------------

  /** From the first sight of the flag on: nothing submitted, and only what was in flight then is recorded. */
  ghost predicate MarkKept(s: State) {
    s.mark.Some? ==>
      var m := s.mark.value;
      && s.next == m.submitted && m.recorded <= s.recorded && s.inFlight <= m.inFlight
      && forall x :: x in s.recorded[|m.recorded|..] ==> x in m.inFlight
  }

  ghost predicate Flags(s: State) {
    && (s.stop <==> s.mark.Some?) && (s.shutdown <==> s.stop) && (s.deadline ==> s.stop)
  }

  ghost predicate Sound(items: seq<ItemId>, limit: nat, s: State) {
    && s.next <= |items|
    && Conserved(items, s.recorded, s.inFlight, s.next)
    && (forall x :: x in s.inFlight ==> x in items[..s.next])
    && WindowAfter(s.ops) == s.inFlight && WithinLimit(s.ops, limit)
    && Flags(s) && MarkKept(s)
  }

  /** Until the flag is seen, the window is full or the input used up. */
  ghost predicate Fed(items: seq<ItemId>, limit: nat, s: State) {
    s.stop || |s.inFlight| == limit || s.next == |items|
  }

  /** What only grows. */
  ghost predicate Extends(s: State, t: State) {
    && s.recorded <= t.recorded && (s.stop ==> t.stop) && (s.mark.Some? ==> t.mark == s.mark)
    && (s.end.Some? ==> t == s)
  }

  lemma SnocOps(ops: seq<PoolEvent>, e: PoolEvent)
    ensures (ops + [e])[..|ops + [e]| - 1] == ops
  {
  }

  lemma LookSound(items: seq<ItemId>, limit: nat, s: State, signal: bool)
    requires Sound(items, limit, s) && Fed(items, limit, s)
    ensures Sound(items, limit, Look(s, signal)) && Fed(items, limit, Look(s, signal))
    ensures Sound(items, limit, LookAndLimit(s, signal)) && Fed(items, limit, LookAndLimit(s, signal))
  {
    hide Conserved;
  }

  lemma LargerWindow(ops: seq<PoolEvent>, window: set<ItemId>, limit: nat, x: ItemId)
    requires WithinLimit(ops, limit) && WindowAfter(ops) == window && |window| < limit && x !in window
    ensures WithinLimit(ops + [Submit(x)], limit) && WindowAfter(ops + [Submit(x)]) == window + {x}
  {
    SnocOps(ops, Submit(x));
  }

  lemma SubmittedSound(items: seq<ItemId>, limit: nat, s: State)
    requires Distinct(items) && Sound(items, limit, s) && !s.stop && |s.inFlight| < limit
    ensures var t := Submitted(items, s);
            && Sound(items, limit, t) && |t.inFlight| <= |s.inFlight| + 1
            && (t.next == |items| || |t.inFlight| == |s.inFlight| + 1)
            && !t.stop && t.shutdown == s.shutdown && t.deadline == s.deadline
            && t.end == s.end && t.recorded == s.recorded && t.mark == s.mark
  {
    hide Conserved, Distinct, WithinLimit, WindowAfter;
    if s.next < |items| {
      SubmitConserves(items, s.recorded, s.inFlight, s.next);
      LargerWindow(s.ops, s.inFlight, limit, items[s.next]);
    }
  }

  lemma FreshSound(items: seq<ItemId>, limit: nat)
    ensures Sound(items, limit, Fresh(false))
  {
    assert items[0..] == items;
  }

  lemma {:induction false} FilledSound(items: seq<ItemId>, limit: nat, s: State, n: nat)
    requires Distinct(items) && s == Fresh(false) && n <= limit
    ensures var t := Filled(items, s, n);
            && Sound(items, limit, t) && (t.next == |items| || |t.inFlight| == n) && |t.inFlight| <= n
            && !t.stop && !t.shutdown && !t.deadline && t.end.None? && t.recorded == [] && t.mark.None?
  {
    hide Conserved, Distinct, WithinLimit, WindowAfter, Flags, MarkKept;
    if n == 0 {
      FreshSound(items, limit);
    } else {
      FilledSound(items, limit, s, n - 1);
      SubmittedSound(items, limit, Filled(items, s, n - 1));
    }
  }

  lemma SettledSound(items: seq<ItemId>, limit: nat, s: State, x: ItemId, classify: ItemId -> Classified)
    requires Distinct(items) && Sound(items, limit, s) && Fed(items, limit, s) && x in s.inFlight
    ensures var t := Settled(s, x, classify);
            && Sound(items, limit, t)
            && (t.end.None? ==> t.stop || |t.inFlight| == limit - 1 || t.next == |items|)
            && (t.end.None? ==> |t.inFlight| == |s.inFlight| - 1)
            && t.stop == s.stop && t.mark == s.mark
  {
    hide Conserved, Distinct, WithinLimit, WindowAfter;
    if classify(x).Classified? {
      RecordConserves(items, s.recorded, s.inFlight, s.next, x);
      SmallerWindow(s.ops, s.inFlight, limit, x);
      if s.mark.Some? {
        var m := s.mark.value;
        assert (s.recorded + [x])[|m.recorded|..] == s.recorded[|m.recorded|..] + [x];
      }
    }
  }

  lemma SmallerWindow(ops: seq<PoolEvent>, window: set<ItemId>, limit: nat, x: ItemId)
    requires WithinLimit(ops, limit) && WindowAfter(ops) == window && x in window
    ensures WithinLimit(ops + [Remove(x)], limit) && WindowAfter(ops + [Remove(x)]) == window - {x}
    ensures |window - {x}| == |window| - 1 && |window| <= limit
  {
    SnocOps(ops, Remove(x));
  }

  lemma HandledSound(items: seq<ItemId>, limit: nat, s: State, a: Arrival, classify: ItemId -> Classified)
    requires Distinct(items) && Sound(items, limit, s) && Fed(items, limit, s)
    requires s.end.None? ==> a.item in s.inFlight
    ensures var t := Handled(items, s, a, classify);
            && Sound(items, limit, t) && (t.end.None? ==> Fed(items, limit, t)) && Extends(s, t)
            && (s.end.None? && t.end.None? ==> |t.recorded| == |s.recorded| + 1)
  {
    hide Conserved, Distinct, WithinLimit, WindowAfter, Flags, MarkKept, Sound, Look, Submitted;
    if s.end.None? {
      SettledSound(items, limit, s, a.item, classify);
      var r := Settled(s, a.item, classify);
      if r.end.None? {
        RefilledSound(items, limit, r, a.stopAfter);
      }
    }
  }

  lemma RefilledSound(items: seq<ItemId>, limit: nat, s: State, signal: bool)
    requires Distinct(items) && Sound(items, limit, s)
    requires s.stop || |s.inFlight| + 1 == limit || s.next == |items|
    ensures var t := Refilled(items, s, signal);
            && Sound(items, limit, t) && Fed(items, limit, t) && t.recorded == s.recorded && t.end == s.end
            && (s.stop ==> t.stop) && (s.mark.Some? ==> t.mark == s.mark)
  {
    hide Conserved, Distinct, WithinLimit, WindowAfter;
    var l := Look(s, signal);
    if !l.stop && |s.inFlight| + 1 == limit {
      SubmittedSound(items, limit, s);
    }
  }

  lemma RefilledKeeps(items: seq<ItemId>, s: State, signal: bool)
    ensures Refilled(items, s, signal).recorded == s.recorded && Refilled(items, s, signal).end == s.end
  {
  }

  /** Only these futures leave the window. */
  ghost predicate KeptBut(s: State, t: State, done: seq<Arrival>) {
    forall x :: x in s.inFlight && (forall a :: a in done ==> a.item != x) ==> x in t.inFlight
  }

  predicate DistinctArrivals(done: seq<Arrival>) {
    forall a, b :: 0 <= a < b < |done| ==> done[a].item != done[b].item
  }

  /** Some future of the list is the one of item x. */
  ghost predicate Covers(done: seq<Arrival>, x: ItemId) {
    exists b :: b in done && b.item == x
  }

  lemma CoversMore(done: seq<Arrival>, a: Arrival, x: ItemId)
    ensures Covers(done, x) ==> Covers(done + [a], x)
    ensures Covers(done + [a], a.item)
  {
    assert a in done + [a];
    if Covers(done, x) {
      var b :| b in done && b.item == x;
      assert b in done + [a];
    }
  }

  /** The completions handled are distinct, really in flight, and leave out no reported future of the window. */
  lemma {:induction false} ReadyMeans(arrivals: seq<Arrival>, inFlight: set<ItemId>)
    ensures DistinctArrivals(Ready(arrivals, inFlight))
    ensures forall a :: a in Ready(arrivals, inFlight) ==> a.item in inFlight && a in arrivals
    ensures forall a :: a in arrivals && a.item in inFlight ==> Covers(Ready(arrivals, inFlight), a.item)
  {
    if arrivals != [] {
      var front, last := arrivals[..|arrivals| - 1], arrivals[|arrivals| - 1];
      ReadyMeans(front, inFlight);
      var rest := Ready(front, inFlight);
      assert arrivals == front + [last];
      forall a | a in arrivals && a.item in inFlight ensures Covers(Ready(arrivals, inFlight), a.item) {
        CoversMore(rest, last, a.item);
        if a !in front && last.item in inFlight {
          assert Covers(rest, last.item) || forall b :: b in rest ==> b.item != last.item;
        }
      }
    }
  }

  lemma HandledKeeps(items: seq<ItemId>, s: State, a: Arrival, classify: ItemId -> Classified)
    ensures forall x :: x in s.inFlight && x != a.item ==> x in Handled(items, s, a, classify).inFlight
  {
  }

  lemma {:induction false} DrainedSound(
    items: seq<ItemId>, limit: nat, s: State, done: seq<Arrival>, classify: ItemId -> Classified)
    requires Distinct(items) && Sound(items, limit, s) && Fed(items, limit, s) && s.end.None?
    requires DistinctArrivals(done) && forall a :: a in done ==> a.item in s.inFlight
    ensures var t := Drained(items, s, done, classify);
            && Sound(items, limit, t) && (t.end.None? ==> Fed(items, limit, t)) && Extends(s, t)
            && (t.end.None? ==> |t.recorded| == |s.recorded| + |done|) && KeptBut(s, t, done)
  {
    hide Conserved, Distinct, WithinLimit, WindowAfter, Sound, Fed, Handled;
    if done != [] {
      var rest, a := done[..|done| - 1], done[|done| - 1];
      var r := Drained(items, s, rest, classify);
      assert done == rest + [a];
      DrainedSound(items, limit, s, rest, classify);
      assert a.item in r.inFlight;
      DrainedStep(items, limit, r, a, classify);
    }
  }

  lemma DrainedStep(items: seq<ItemId>, limit: nat, s: State, a: Arrival, classify: ItemId -> Classified)
    requires Distinct(items) && Sound(items, limit, s) && (s.end.None? ==> Fed(items, limit, s) && a.item in s.inFlight)
    ensures var t := Handled(items, s, a, classify);
            && Sound(items, limit, t) && (t.end.None? ==> Fed(items, limit, t)) && Extends(s, t)
            && (t.end.None? ==> s.end.None? && |t.recorded| == |s.recorded| + 1)
            && forall x :: x in s.inFlight && x != a.item ==> x in t.inFlight
  {
    hide Conserved, Distinct, WithinLimit, WindowAfter, Sound, Fed;
    HandledKeeps(items, s, a, classify);
    if s.end.None? {
      HandledSound(items, limit, s, a, classify);
    }
  }

  lemma TurnedSound(items: seq<ItemId>, limit: nat, s: State, w: Wait, classify: ItemId -> Classified)
    requires Distinct(items) && Sound(items, limit, s) && Fed(items, limit, s) && s.end.None?
    ensures var t := Turned(items, s, w, classify);
            && Sound(items, limit, t) && (t.end.None? ==> Fed(items, limit, t)) && Extends(s, t)
            && (t.end.None? ==> |t.recorded| == |s.recorded| + |Ready(w.arrivals, s.inFlight)|)
  {
    hide Conserved, Distinct, WithinLimit, WindowAfter, Sound, Fed, Drained, Ready;
    var l := LookAndLimit(s, w.stopBefore);
    var done := Ready(w.arrivals, l.inFlight);
    LookSound(items, limit, s, w.stopBefore);
    if l.deadline && w.expired {
      EndSound(items, limit, l, ShutdownRequested);
    } else if done != [] {
      LookSound(items, limit, l, w.stopAfter);
      ReadyMeans(w.arrivals, l.inFlight);
      DrainedSound(items, limit, LookAndLimit(l, w.stopAfter), done, classify);
    }
  }

  lemma EndSound(items: seq<ItemId>, limit: nat, s: State, end: RunEnd)
    requires Sound(items, limit, s)
    ensures Sound(items, limit, s.(end := Some(end)))
  {
  }

  /** How many of the wake-ups report a completed future. */
  function Productive(items: seq<ItemId>, s: State, waits: seq<Wait>, classify: ItemId -> Classified): nat {
    if waits == [] then 0
    else
      var front, w := waits[..|waits| - 1], waits[|waits| - 1];
      Productive(items, s, front, classify) +
      (if Ready(w.arrivals, Turns(items, s, front, classify).inFlight) != [] then 1 else 0)
  }

  lemma {:induction false} TurnsSound(
    items: seq<ItemId>, limit: nat, s: State, waits: seq<Wait>, classify: ItemId -> Classified)
    requires Distinct(items) && Sound(items, limit, s) && Fed(items, limit, s) && s.end.None?
    ensures var t := Turns(items, s, waits, classify);
            && Sound(items, limit, t) && (t.end.None? ==> Fed(items, limit, t)) && Extends(s, t)
            && (!Over(t) ==> |t.recorded| >= |s.recorded| + Productive(items, s, waits, classify))
  {
    hide Conserved, Distinct, WithinLimit, WindowAfter, Sound, Fed, Turned, Ready;
    if waits != [] {
      var front := waits[..|waits| - 1];
      TurnsSound(items, limit, s, front, classify);
      var before := Turns(items, s, front, classify);
      if !Over(before) {
        TurnedSound(items, limit, before, waits[|waits| - 1], classify);
      }
    }
  }

  // ----- what only grows, over lists of arrivals and wake-ups ---------------------------------------------------

  lemma ExtendsTransitive(r: State, s: State, t: State)
    requires Extends(r, s) && Extends(s, t)
    ensures Extends(r, t)
  {
  }

  lemma {:induction false} DrainedExtends(
    items: seq<ItemId>, limit: nat, s: State, done: seq<Arrival>, m: nat, classify: ItemId -> Classified)
    requires Distinct(items) && Sound(items, limit, s) && Fed(items, limit, s) && s.end.None?
    requires DistinctArrivals(done) && forall a :: a in done ==> a.item in s.inFlight
    requires m <= |done|
    ensures Extends(Drained(items, s, done[..m], classify), Drained(items, s, done, classify))
    decreases |done|
  {
    hide Conserved, Distinct, WithinLimit, WindowAfter, Sound, Fed, Handled;
    if m == |done| {
      assert done[..m] == done;
    } else {
      var rest, a := done[..|done| - 1], done[|done| - 1];
      assert done == rest + [a] && rest[..m] == done[..m];
      DrainedExtends(items, limit, s, rest, m, classify);
      DrainedSound(items, limit, s, rest, classify);
      var r := Drained(items, s, rest, classify);
      assert a.item in r.inFlight;
      DrainedStep(items, limit, r, a, classify);
      ExtendsTransitive(Drained(items, s, done[..m], classify), r, Handled(items, r, a, classify));
    }
  }

  lemma {:induction false} TurnsExtend(
    items: seq<ItemId>, limit: nat, s: State, waits: seq<Wait>, m: nat, classify: ItemId -> Classified)
    requires Distinct(items) && Sound(items, limit, s) && Fed(items, limit, s) && s.end.None? && m <= |waits|
    ensures Extends(Turns(items, s, waits[..m], classify), Turns(items, s, waits, classify))
    ensures Over(Turns(items, s, waits[..m], classify)) ==>
              Turns(items, s, waits, classify) == Turns(items, s, waits[..m], classify)
    decreases |waits|
  {
    hide Conserved, Distinct, WithinLimit, WindowAfter, Sound, Fed, Turned;
    if m == |waits| {
      assert waits[..m] == waits;
    } else {
      var front := waits[..|waits| - 1];
      assert front[..m] == waits[..m];
      TurnsExtend(items, limit, s, front, m, classify);
      TurnsSound(items, limit, s, front, classify);
      var before := Turns(items, s, front, classify);
      if !Over(before) {
        TurnedSound(items, limit, before, waits[|waits| - 1], classify);
      }
    }
  }

  /** Pass number t of the loop, seen from the whole run. */
  lemma TurnsStep(
    items: seq<ItemId>, limit: nat, s: State, waits: seq<Wait>, t: nat, classify: ItemId -> Classified)
    requires Distinct(items) && Sound(items, limit, s) && Fed(items, limit, s) && s.end.None? && t < |waits|
    requires !Over(Turns(items, s, waits[..t], classify))
    ensures var k := Turned(items, Turns(items, s, waits[..t], classify), waits[t], classify);
            var all := Turns(items, s, waits, classify);
            && k == Turns(items, s, waits[..t + 1], classify)
            && (k.end.None? ==> Fed(items, limit, k)) && k.recorded <= all.recorded && (k.end.Some? ==> all == k)
  {
    hide Sound, Fed, Turned;
    assert waits[..t + 1][..t] == waits[..t];
    TurnsSound(items, limit, s, waits[..t + 1], classify);
    TurnsExtend(items, limit, s, waits, t + 1, classify);
  }

  // ----- why a run ends ---------------------------------------------------------------------------------------

  /** A run stops early only for a reason: the flag, an interrupted item, or an item that raised and is still open. */
  ghost predicate Caused(s: State, classify: ItemId -> Classified) {
    && (forall x :: x in s.recorded ==> classify(x).Classified?)
    && match s.end
       case None => true
       case Some(ShutdownRequested) => s.stop || exists x :: x in s.inFlight && classify(x).StopRaised?
       case Some(Unexpected) => exists x :: x in s.inFlight && classify(x).ErrorRaised?
       case Some(_) => false
  }

  lemma HandledCaused(items: seq<ItemId>, s: State, a: Arrival, classify: ItemId -> Classified)
    requires Caused(s, classify) && (s.end.None? ==> a.item in s.inFlight)
    ensures Caused(Handled(items, s, a, classify), classify)
  {
  }

  lemma {:induction false} DrainedCaused(
    items: seq<ItemId>, limit: nat, s: State, done: seq<Arrival>, classify: ItemId -> Classified)
    requires Distinct(items) && Sound(items, limit, s) && Fed(items, limit, s) && s.end.None? && Caused(s, classify)
    requires DistinctArrivals(done) && forall a :: a in done ==> a.item in s.inFlight
    ensures Caused(Drained(items, s, done, classify), classify)
  {
    hide Conserved, Distinct, WithinLimit, WindowAfter, Sound, Fed, Handled, Caused;
    if done != [] {
      var rest, a := done[..|done| - 1], done[|done| - 1];
      assert done == rest + [a];
      DrainedCaused(items, limit, s, rest, classify);
      DrainedSound(items, limit, s, rest, classify);
      HandledCaused(items, Drained(items, s, rest, classify), a, classify);
    }
  }

  lemma TurnedCaused(items: seq<ItemId>, limit: nat, s: State, w: Wait, classify: ItemId -> Classified)
    requires Distinct(items) && Sound(items, limit, s) && Fed(items, limit, s) && s.end.None? && Caused(s, classify)
    ensures Caused(Turned(items, s, w, classify), classify)
  {
    hide Conserved, Distinct, WithinLimit, WindowAfter, Sound, Fed, Drained, Ready;
    var l := LookAndLimit(s, w.stopBefore);
    LookSound(items, limit, s, w.stopBefore);
    assert Flags(l) by {
      SoundMeans(items, limit, l);
    }
    LookSound(items, limit, l, w.stopAfter);
    ReadyMeans(w.arrivals, l.inFlight);
    assert Caused(LookAndLimit(l, w.stopAfter), classify);
    DrainedCaused(items, limit, LookAndLimit(l, w.stopAfter), Ready(w.arrivals, l.inFlight), classify);
  }

  lemma SoundMeans(items: seq<ItemId>, limit: nat, s: State)
    requires Sound(items, limit, s)
    ensures Flags(s) && MarkKept(s)
  {
  }

  lemma {:induction false} TurnsCaused(
    items: seq<ItemId>, limit: nat, s: State, waits: seq<Wait>, classify: ItemId -> Classified)
    requires Distinct(items) && Sound(items, limit, s) && Fed(items, limit, s) && s.end.None? && Caused(s, classify)
    ensures Caused(Turns(items, s, waits, classify), classify)
  {
    hide Conserved, Distinct, WithinLimit, WindowAfter, Sound, Fed, Turned, Caused;
    if waits != [] {
      var front := waits[..|waits| - 1];
      TurnsCaused(items, limit, s, front, classify);
      TurnsSound(items, limit, s, front, classify);
      var before := Turns(items, s, front, classify);
      if !Over(before) {
        TurnedCaused(items, limit, before, waits[|waits| - 1], classify);
      }
    }
  }

  // ----- what one pass does, said of the wake-up itself ------------------------------------------------------

  /** The wake-up reports a future of the window. */
  ghost predicate Reports(w: Wait, inFlight: set<ItemId>) {
    exists a :: a in w.arrivals && a.item in inFlight
  }

  lemma ReportsMeansReady(w: Wait, inFlight: set<ItemId>)
    ensures Reports(w, inFlight) <==> Ready(w.arrivals, inFlight) != []
  {
    hide Ready;
    ReadyMeans(w.arrivals, inFlight);
    var done := Ready(w.arrivals, inFlight);
    if Reports(w, inFlight) {
      var a :| a in w.arrivals && a.item in inFlight;
      assert Covers(done, a.item);
    }
    if done != [] {
      assert done[0] in done;
    }
  }

  ghost predicate AnyStopAfter(done: seq<Arrival>) {
    exists a :: a in done && a.stopAfter
  }

  ghost predicate AnyInterrupted(done: seq<Arrival>, classify: ItemId -> Classified) {
    exists a :: a in done && classify(a.item).StopRaised?
  }

  lemma HandledFlags(items: seq<ItemId>, s: State, a: Arrival, classify: ItemId -> Classified)
    ensures var t := Handled(items, s, a, classify);
            && t.deadline == s.deadline && (s.stop ==> t.stop) && (t.stop ==> s.stop || a.stopAfter)
            && (t.end == Some(ShutdownRequested) ==> t == s || classify(a.item).StopRaised?)
  {
  }

  lemma {:induction false} DrainedFlags(
    items: seq<ItemId>, s: State, done: seq<Arrival>, classify: ItemId -> Classified)
    requires s.end.None?
    ensures var t := Drained(items, s, done, classify);
            && t.deadline == s.deadline && (s.stop ==> t.stop)
            && (t.stop ==> s.stop || AnyStopAfter(done))
            && (t.end == Some(ShutdownRequested) ==> AnyInterrupted(done, classify))
  {
    if done != [] {
      hide Handled;
      var rest, a := done[..|done| - 1], done[|done| - 1];
      DrainedFlags(items, s, rest, classify);
      HandledFlags(items, Drained(items, s, rest, classify), a, classify);
      assert a in done && forall b :: b in rest ==> b in done;
    }
  }

  /**
   The grace deadline: a pass that starts with the flag up, or finds it up at its first look, and whose deadline has
   expired ends the run with a shutdown at once, without waiting, recording or submitting anything.
   */
  lemma DeadlineEndsTheRun(items: seq<ItemId>, s: State, w: Wait, classify: ItemId -> Classified)
    requires s.end.None? && (s.stop || w.stopBefore) && w.expired
    ensures var t := Turned(items, s, w, classify);
            && t.end == Some(ShutdownRequested) && t.stop
            && t.recorded == s.recorded && t.inFlight == s.inFlight && t.next == s.next && t.ops == s.ops
  {
  }

  /** And without an interrupted future, nothing else ends a pass with a shutdown. */
  lemma PassShutsDownExactlyWhen(items: seq<ItemId>, limit: nat, s: State, w: Wait, classify: ItemId -> Classified)
    requires Sound(items, limit, s) && s.end.None? && forall x :: x in s.inFlight ==> !classify(x).StopRaised?
    ensures Turned(items, s, w, classify).end == Some(ShutdownRequested) <==> (s.stop || w.stopBefore) && w.expired
  {
    hide Drained, Conserved, WithinLimit, WindowAfter;
    SoundMeans(items, limit, s);
    var l := LookAndLimit(s, w.stopBefore);
    ReadyMeans(w.arrivals, l.inFlight);
    DrainedFlags(items, LookAndLimit(l, w.stopAfter), Ready(w.arrivals, l.inFlight), classify);
  }

  /**
   The grace period starts in the first pass that finds the flag up at one of its own looks, before the wait or behind
   a wait that reported something; a flag first seen while results are handled starts it in the next pass.
   */
  lemma GraceStartsExactlyWhen(items: seq<ItemId>, limit: nat, s: State, w: Wait, classify: ItemId -> Classified)
    requires Sound(items, limit, s) && s.end.None?
    ensures var t := Turned(items, s, w, classify);
            && (t.deadline <==> s.stop || w.stopBefore || (Reports(w, s.inFlight) && w.stopAfter))
            && (s.stop || w.stopBefore || (Reports(w, s.inFlight) && w.stopAfter) ==> t.stop)
            && (t.stop ==> || s.stop || w.stopBefore
                           || (Reports(w, s.inFlight) && (w.stopAfter || AnyStopAfter(w.arrivals))))
  {
    hide Drained, Conserved, WithinLimit, WindowAfter;
    SoundMeans(items, limit, s);
    var l := LookAndLimit(s, w.stopBefore);
    ReportsMeansReady(w, s.inFlight);
    ReadyMeans(w.arrivals, l.inFlight);
    DrainedFlags(items, LookAndLimit(l, w.stopAfter), Ready(w.arrivals, l.inFlight), classify);
  }

  /** Unless the deadline ends it first, a pass that is told of a future's completion handles it. */
  lemma ReportedIsHandled(
    items: seq<ItemId>, limit: nat, s: State, w: Wait, a: Arrival, classify: ItemId -> Classified)
    requires Distinct(items) && Sound(items, limit, s) && Fed(items, limit, s) && s.end.None?
    requires a in w.arrivals && a.item in s.inFlight && !((s.stop || w.stopBefore) && w.expired)
    ensures var t := Turned(items, s, w, classify);
            t.end.None? ==> a.item in t.recorded && a.item !in s.recorded
  {
    hide Conserved, WithinLimit, WindowAfter, Sound, Fed, Drained, Ready, Distinct;
    SoundMeans(items, limit, s);
    var l := LookAndLimit(s, w.stopBefore);
    LookSound(items, limit, s, w.stopBefore);
    LookSound(items, limit, l, w.stopAfter);
    ReadyMeans(w.arrivals, l.inFlight);
    assert Covers(Ready(w.arrivals, l.inFlight), a.item);
    var b :| b in Ready(w.arrivals, l.inFlight) && b.item == a.item;
    DrainedRecords(items, LookAndLimit(l, w.stopAfter), Ready(w.arrivals, l.inFlight), b, classify);
    OpenIsUnrecorded(items, limit, s, a.item);
  }

  lemma OpenIsUnrecorded(items: seq<ItemId>, limit: nat, s: State, x: ItemId)
    requires Distinct(items) && Sound(items, limit, s) && x in s.inFlight
    ensures x !in s.recorded
  {
    ConservedMeans(items, s.recorded, s.inFlight, s.next);
  }

  lemma {:induction false} DrainedRecords(
    items: seq<ItemId>, s: State, done: seq<Arrival>, b: Arrival, classify: ItemId -> Classified)
    requires s.end.None? && b in done
    ensures var t := Drained(items, s, done, classify); t.end.None? ==> b.item in t.recorded
  {
    var rest, a := done[..|done| - 1], done[|done| - 1];
    assert done == rest + [a];
    var r := Drained(items, s, rest, classify);
    HandledRecords(items, r, a, classify);
    if b in rest {
      DrainedRecords(items, s, rest, b, classify);
    }
  }

  lemma HandledRecords(items: seq<ItemId>, s: State, a: Arrival, classify: ItemId -> Classified)
    ensures var t := Handled(items, s, a, classify);
            t.end.None? ==> s.end.None? && t.recorded == s.recorded + [a.item]
  {
  }

  // ----- the parallel run as a whole --------------------------------------------------------------------------

  /** The state in which the parallel loop starts. */
  function Begun(items: seq<ItemId>, limit: nat): State {
    Filled(items, Fresh(false), limit)
  }

  lemma BegunSound(items: seq<ItemId>, limit: nat, classify: ItemId -> Classified)
    requires Distinct(items)
    ensures var s := Begun(items, limit);
            && Sound(items, limit, s) && Fed(items, limit, s) && s.end.None? && Caused(s, classify) && s.recorded == []
            && !s.stop && !s.shutdown && !s.deadline
  {
    hide Sound, Filled;
    FilledSound(items, limit, Fresh(false), limit);
  }

  lemma ParallelSound(items: seq<ItemId>, limit: nat, env: Env, classify: ItemId -> Classified, stop: bool)
    requires Distinct(items)
    ensures var t := Parallel(items, limit, env, classify, stop);
            Sound(items, limit, t) && t.end.Some? && t.end != Some(StaleStep)
  {
    hide Sound, Filled, Turns, Fed;
    if stop || env.stops(0) {
      StoppedAtOnce(items, limit, stop, env.stops(0));
    } else {
      var s := Begun(items, limit);
      var t := Turns(items, s, env.waits, classify);
      BegunSound(items, limit, classify);
      TurnsSound(items, limit, s, env.waits, classify);
      TurnsCaused(items, limit, s, env.waits, classify);
      EndSound(items, limit, t, Cut);
      EndSound(items, limit, t, ShutdownRequested);
      EndSound(items, limit, t, Completed);
    }
  }

  lemma StoppedAtOnce(items: seq<ItemId>, limit: nat, stop: bool, signal: bool)
    requires stop || signal
    ensures Sound(items, limit, Look(Fresh(stop), signal).(end := Some(ShutdownRequested)))
  {
    assert items[0..] == items;
  }

  /** The parallel run completes exactly when everything was recorded and the flag had not been seen. */
  lemma ParallelCompletesExactlyWhen(
    items: seq<ItemId>, limit: nat, env: Env, classify: ItemId -> Classified, stop: bool)
    requires Distinct(items) && limit >= 1
    ensures var t := Parallel(items, limit, env, classify, stop);
            t.end == Some(Completed) <==> !t.stop && |t.recorded| == |items|
  {
    hide Conserved, Distinct, WithinLimit, WindowAfter, Filled, Turns;
    if !(stop || env.stops(0)) {
      var s := Begun(items, limit);
      var t := Turns(items, s, env.waits, classify);
      BegunSound(items, limit, classify);
      TurnsSound(items, limit, s, env.waits, classify);
      TurnsCaused(items, limit, s, env.waits, classify);
      ConservedMeans(items, t.recorded, t.inFlight, t.next);
    }
  }

  /** Each pass that reports a completed future records one at least, so only too few of those cut a run off. */
  lemma CutMeansTooFewCompletions(
    items: seq<ItemId>, limit: nat, env: Env, classify: ItemId -> Classified, stop: bool)
    requires Distinct(items) && Parallel(items, limit, env, classify, stop).end == Some(Cut)
    ensures Productive(items, Begun(items, limit), env.waits, classify) < |items|
    ensures Turns(items, Begun(items, limit), env.waits, classify).inFlight != {}
  {
    hide Conserved, Distinct, WithinLimit, WindowAfter, Filled, Turns, Productive;
    var s := Begun(items, limit);
    var t := Turns(items, s, env.waits, classify);
    BegunSound(items, limit, classify);
    TurnsSound(items, limit, s, env.waits, classify);
    TurnsCaused(items, limit, s, env.waits, classify);
    ConservedMeans(items, t.recorded, t.inFlight, t.next);
  }

  lemma ParallelCaused(items: seq<ItemId>, limit: nat, env: Env, classify: ItemId -> Classified, stop: bool)
    requires Distinct(items)
    ensures CauseOf(Parallel(items, limit, env, classify, stop), items, classify)
  {
    hide Conserved, Distinct, WithinLimit, WindowAfter, Filled, Turns;
    if !(stop || env.stops(0)) {
      var s := Begun(items, limit);
      var t := Turns(items, s, env.waits, classify);
      BegunSound(items, limit, classify);
      TurnsSound(items, limit, s, env.waits, classify);
      TurnsCaused(items, limit, s, env.waits, classify);
      ConservedMeans(items, t.recorded, t.inFlight, t.next);
    }
  }

  /** Pass number t is reached, finds the flag up at its first look at the latest, and the deadline has expired. */
  ghost predicate ExpiresAt(
    items: seq<ItemId>, limit: nat, env: Env, classify: ItemId -> Classified, t: nat)
    requires t < |env.waits|
  {
    var s := Turns(items, Begun(items, limit), env.waits[..t], classify);
    s.end.None? && s.inFlight != {} && (s.stop || env.waits[t].stopBefore) && env.waits[t].expired
  }

  /** A run whose deadline expires ends there, with a shutdown; what was in flight stays open. */
  lemma ExpiredRunShutsDown(
    items: seq<ItemId>, limit: nat, env: Env, classify: ItemId -> Classified, stop: bool, t: nat)
    requires Distinct(items) && t < |env.waits| && !stop && !env.stops(0) && ExpiresAt(items, limit, env, classify, t)
    ensures var r, s := Parallel(items, limit, env, classify, stop),
                        Turns(items, Begun(items, limit), env.waits[..t], classify);
            && r.end == Some(ShutdownRequested) && r.recorded == s.recorded && r.next == s.next
            && r.inFlight == s.inFlight != {}
  {
    hide Conserved, WithinLimit, WindowAfter, Sound, Fed, Turned, Filled, Turns;
    var s := Begun(items, limit);
    BegunSound(items, limit, classify);
    DeadlineEndsTheRun(items, Turns(items, s, env.waits[..t], classify), env.waits[t], classify);
    TurnsStep(items, limit, s, env.waits, t, classify);
  }

  /**
   Without interrupted futures, a parallel run ends with a shutdown exactly when the flag was up before anything was
   submitted, or some pass was reached with the deadline expired, or the flag was seen and the window drained.
   */
  lemma ParallelShutsDownExactlyWhen(
    items: seq<ItemId>, limit: nat, env: Env, classify: ItemId -> Classified, stop: bool)
    requires Distinct(items) && forall x :: x in items ==> !classify(x).StopRaised?
    ensures var all := Turns(items, Begun(items, limit), env.waits, classify);
            Parallel(items, limit, env, classify, stop).end == Some(ShutdownRequested) <==>
              || stop || env.stops(0)
              || (exists t :: 0 <= t < |env.waits| && ExpiresAt(items, limit, env, classify, t))
              || (all.end.None? && all.inFlight == {} && all.stop)
  {
    hide Conserved, WithinLimit, WindowAfter, Sound, Fed, Turned, Filled, Turns;
    if !stop && !env.stops(0) {
      var s := Begun(items, limit);
      BegunSound(items, limit, classify);
      TurnsSound(items, limit, s, env.waits, classify);
      TurnsCaused(items, limit, s, env.waits, classify);
      SoundMeans(items, limit, Turns(items, s, env.waits, classify));
      assert env.waits[..|env.waits|] == env.waits;
      ShutdownIsExpiry(items, limit, env, classify, |env.waits|);
      if exists t :: 0 <= t < |env.waits| && ExpiresAt(items, limit, env, classify, t) {
        var t :| 0 <= t < |env.waits| && ExpiresAt(items, limit, env, classify, t);
        ExpiredRunShutsDown(items, limit, env, classify, stop, t);
      }
    }
  }

  lemma {:induction false} ShutdownIsExpiry(
    items: seq<ItemId>, limit: nat, env: Env, classify: ItemId -> Classified, n: nat)
    requires Distinct(items) && n <= |env.waits| && forall x :: x in items ==> !classify(x).StopRaised?
    ensures Turns(items, Begun(items, limit), env.waits[..n], classify).end == Some(ShutdownRequested) ==>
              exists t :: 0 <= t < n && ExpiresAt(items, limit, env, classify, t)
  {
    hide Conserved, WithinLimit, WindowAfter, Sound, Fed, Turned, Filled;
    var s := Begun(items, limit);
    BegunSound(items, limit, classify);
    if n > 0 {
      var front := env.waits[..n - 1];
      assert env.waits[..n][..n - 1] == front;
      var before := Turns(items, s, front, classify);
      TurnsSound(items, limit, s, front, classify);
      if before.end.None? && before.inFlight != {} {
        InsideItems(items, limit, before);
        PassShutsDownExactlyWhen(items, limit, before, env.waits[n - 1], classify);
        assert env.waits[..n][n - 1] == env.waits[n - 1];
        if Turned(items, before, env.waits[n - 1], classify).end == Some(ShutdownRequested) {
          assert ExpiresAt(items, limit, env, classify, n - 1);
        }
      } else {
        ShutdownIsExpiry(items, limit, env, classify, n - 1);
      }
    }
  }

  lemma InsideItems(items: seq<ItemId>, limit: nat, s: State)
    requires Sound(items, limit, s)
    ensures forall x :: x in s.inFlight ==> x in items
  {
  }

  /** A flag that is up before the first submission ends the run before anything happened. */
  lemma StoppedBeforeSubmitting(
    items: seq<ItemId>, limit: nat, env: Env, classify: ItemId -> Classified, stop: bool)
    requires stop || env.stops(0)
    ensures var r := Parallel(items, limit, env, classify, stop);
            && r.end == Some(ShutdownRequested) && r.stop
            && r.recorded == [] && r.inFlight == {} && r.next == 0 && r.ops == []
  {
  }

  // ----- the sequential run as a whole ------------------------------------------------------------------------

  /** The sequential loop looks at the flag before item k, finds it clear, and item k yields an outcome. */
  predicate Passes(items: seq<ItemId>, env: Env, classify: ItemId -> Classified, k: nat)
    requires k < |items|
  {
    !env.stops(k) && classify(items[k]).Classified?
  }

  lemma {:induction false} SequentialMeans(items: seq<ItemId>, env: Env, classify: ItemId -> Classified, s: State)
    requires s.recorded <= items && s.end.None? && s.mark.None?
    requires forall x :: x in s.recorded ==> classify(x).Classified?
    ensures var t := Sequential(items, env, classify, s);
            && s.recorded <= t.recorded <= items && t.end.Some? && t.end != Some(StaleStep) && t.end != Some(Cut)
            && t.mark.None? && t.ops == s.ops
            && (t.end == Some(Completed) <==>
                  && (|s.recorded| < |items| ==> !s.stop)
                  && forall k :: |s.recorded| <= k < |items| ==> Passes(items, env, classify, k))
            && (t.end == Some(Completed) ==> t.recorded == items)
            && (t.end == Some(Completed) ==> (t.stop <==> s.stop || env.stops(|items|)))
            && CauseOf(t, items, classify)
    decreases |items| - |s.recorded|
  {
    var i := |s.recorded|;
    assert i < |items| ==> (Passes(items, env, classify, i) <==> !env.stops(i) && classify(items[i]).Classified?);
    if i < |items| && !(s.stop || env.stops(i)) && classify(items[i]).Classified? {
      var next := s.(recorded := s.recorded + [items[i]]);
      assert next.recorded == items[..i + 1];
      SequentialMeans(items, env, classify, next);
    }
  }

  /** One item of the sequential run. */
  lemma SequentialUnfolds(items: seq<ItemId>, env: Env, classify: ItemId -> Classified, s: State)
    requires |s.recorded| < |items|
    ensures var t, i := Sequential(items, env, classify, s), |s.recorded|;
            var next := s.(recorded := s.recorded + [items[i]]);
            && s.recorded <= t.recorded
            && (s.stop || env.stops(i) ==> t == s.(stop := true, end := Some(ShutdownRequested)))
            && (!(s.stop || env.stops(i)) ==>
                  match classify(items[i])
                  case StopRaised => t == s.(end := Some(ShutdownRequested))
                  case ErrorRaised => t == s.(end := Some(Unexpected))
                  case Classified(_) => t == Sequential(items, env, classify, next) && next.recorded <= t.recorded)
  {
    var i := |s.recorded|;
    SequentialGrows(items, env, classify, s);
    SequentialGrows(items, env, classify, s.(recorded := s.recorded + [items[i]]));
  }

  lemma {:induction false} SequentialGrows(items: seq<ItemId>, env: Env, classify: ItemId -> Classified, s: State)
    ensures s.recorded <= Sequential(items, env, classify, s).recorded
    decreases |items| - |s.recorded|
  {
    var i := |s.recorded|;
    if i < |items| && !(s.stop || env.stops(i)) && classify(items[i]).Classified? {
      SequentialGrows(items, env, classify, s.(recorded := s.recorded + [items[i]]));
    }
  }

  /** The same cause for both modes, over the whole input. */
  ghost predicate CauseOf(s: State, items: seq<ItemId>, classify: ItemId -> Classified) {
    && (forall x :: x in s.recorded ==> classify(x).Classified?)
    && (s.end == Some(ShutdownRequested) ==> s.stop || exists x :: x in items && classify(x).StopRaised?)
    && (s.end == Some(Unexpected) ==> exists x :: x in items && classify(x).ErrorRaised?)
  }

  /** The sequential run completes exactly when each look before an item finds the flag clear and each is classified. */
  lemma SequentialCompletesExactlyWhen(items: seq<ItemId>, env: Env, classify: ItemId -> Classified, stop: bool)
    ensures Sequential(items, env, classify, Fresh(stop)).end == Some(Completed) <==>
            (items == [] || !stop) && forall k :: 0 <= k < |items| ==> Passes(items, env, classify, k)
  {
    SequentialMeans(items, env, classify, Fresh(stop));
  }

  /** So a flag raised during the last item is missed: the run completes with the flag up; a parallel run never does. */
  lemma SequentialMissesLateStop(items: seq<ItemId>, env: Env, classify: ItemId -> Classified)
    requires env.stops(|items|) && forall k :: 0 <= k < |items| ==> Passes(items, env, classify, k)
    ensures var t := Sequential(items, env, classify, Fresh(false));
            t.end == Some(Completed) && t.stop
  {
    SequentialMeans(items, env, classify, Fresh(false));
  }

  // ----- both modes -------------------------------------------------------------------------------------------

  /**
   Every run, in either mode: no item is recorded twice or from outside the input, a completed run recorded exactly the
   input, and every early end has its cause.
   */
  lemma ReferenceMeans(
    parallel: bool, items: seq<ItemId>, limit: nat, env: Env, classify: ItemId -> Classified, stop: bool)
    requires Distinct(items) && limit >= 1
    ensures var t := Reference(parallel, items, limit, env, classify, stop);
            && t.end.Some? && t.end != Some(StaleStep)
            && Distinct(t.recorded) && Ids(t.recorded) <= Ids(items)
            && (t.end == Some(Completed) ==> multiset(t.recorded) == multiset(items))
            && (t.end == Some(Cut) ==> parallel)
            && CauseOf(t, items, classify)
            && MarkKept(t) && WithinLimit(t.ops, limit)
  {
    hide Parallel, Sequential, Conserved, WithinLimit, WindowAfter;
    if parallel {
      var t := Parallel(items, limit, env, classify, stop);
      ParallelSound(items, limit, env, classify, stop);
      ParallelCaused(items, limit, env, classify, stop);
      ParallelCompletesExactlyWhen(items, limit, env, classify, stop);
      ConservedMeans(items, t.recorded, t.inFlight, t.next);
      if t.end == Some(Completed) {
        AllRecorded(items, t.recorded);
      }
    } else {
      SequentialMeans(items, env, classify, Fresh(stop));
      NoOps(limit);
    }
  }

  lemma NoOps(limit: nat)
    ensures WithinLimit([], limit)
  {
  }

  lemma FlagStays(
    parallel: bool, items: seq<ItemId>, limit: nat, env: Env, classify: ItemId -> Classified, stop: bool)
    ensures stop ==> Reference(parallel, items, limit, env, classify, stop).stop
  {
  }

  lemma AllRecorded(items: seq<ItemId>, recorded: seq<ItemId>)
    requires Distinct(items) && Distinct(recorded) && Ids(recorded) <= Ids(items) && |recorded| == |items|
    ensures multiset(recorded) == multiset(items)
  {
    DistinctMultiset(items);
    DistinctMultiset(recorded);
    assert |multiset(Ids(items))| == |Ids(items)| && |multiset(Ids(recorded))| == |Ids(recorded)|;
    assert |Ids(items)| == |items| && |Ids(recorded)| == |recorded|;
    assert Ids(items) == Ids(recorded) + (Ids(items) - Ids(recorded));
  }

  /** The order of completions, the window and the mode do not matter to what two completed runs recorded. */
  lemma CompletedRunsAgree(
    items: seq<ItemId>, limit: nat, env: Env, stop: bool, env': Env, stop': bool, classify: ItemId -> Classified)
    requires Distinct(items) && limit >= 1
    requires Parallel(items, limit, env, classify, stop).end == Some(Completed)
    requires Sequential(items, env', classify, Fresh(stop')).end == Some(Completed)
    ensures multiset(Parallel(items, limit, env, classify, stop).recorded) ==
            multiset(Sequential(items, env', classify, Fresh(stop')).recorded)
  {
    hide Parallel, Sequential;
    ReferenceMeans(true, items, limit, env, classify, stop);
    ReferenceMeans(false, items, limit, env', classify, stop');
  }

  /**
   With as many classifiers as the item concurrency, no item thread of a parallel run ever waits for one, however the
   threads interleave with the coordinator.
   */
  lemma ParallelThreadsNeverWait(
    items: seq<ItemId>, limit: nat, env: Env, classify: ItemId -> Classified, stop: bool,
    slots: seq<Slot>, es: seq<PoolEvent>, x: ItemId)
    requires Distinct(items) && limit >= 1
    requires ClassifierPool.Distinct(slots) && limit <= |slots| && CanWork(slots, es)
    requires Coordinated(es) <= Parallel(items, limit, env, classify, stop).ops && Wants(After(slots, es), x)
    ensures Possible(After(slots, es), Acquire(x))
  {
    hide Parallel;
    ReferenceMeans(true, items, limit, env, classify, stop);
    NoThreadWaits(slots, es, Parallel(items, limit, env, classify, stop).ops, limit, x);
  }
}
