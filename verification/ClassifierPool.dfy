/**
 The queue of classifiers that the item threads borrow from, and the window of futures above it.
 */
module ClassifierPool {
  import opened JobModel

  datatype Slot = Slot(number: nat)

  function All(slots: seq<Slot>): set<Slot> {
    set s | s in slots
  }

  /** What the coordinator does with its window, and what the threads do with the futures in it. */
  datatype PoolEvent =
    | Submit(item: ItemId)
    | Acquire(item: ItemId)
    | GiveBack(item: ItemId)
    | Remove(item: ItemId)

  /** The futures still in the window, who works with which classifier, the completed futures, the free classifiers. */
  datatype Floor = Floor(
    inFlight: set<ItemId>, borrowed: map<ItemId, Slot>, finished: set<ItemId>, available: seq<Slot>)

  /** A submitted item whose thread has not got a classifier yet. */
  predicate Wants(f: Floor, x: ItemId) {
    x in f.inFlight && x !in f.borrowed && x !in f.finished
  }

  /** A thread that wants a classifier goes on only while one is free; it gives it back also if an error was raised. */
  predicate Possible(f: Floor, e: PoolEvent) {
    match e
    case Submit(x) => x !in f.inFlight
    case Acquire(x) => Wants(f, x) && f.available != []
    case GiveBack(x) => x in f.borrowed
    case Remove(x) => x in f.inFlight && x in f.finished
  }

  function Next(f: Floor, e: PoolEvent): Floor
    requires Possible(f, e)
  {
    match e
    case Submit(x) => f.(inFlight := f.inFlight + {x})
    case Acquire(x) => f.(borrowed := f.borrowed[x := f.available[0]], available := f.available[1..])
    case GiveBack(x) =>
      f.(borrowed := f.borrowed - {x}, finished := f.finished + {x}, available := f.available + [f.borrowed[x]])
    case Remove(x) => f.(inFlight := f.inFlight - {x}, finished := f.finished - {x})
  }

  /** The events so far, each possible when it happened. */
  predicate CanWork(slots: seq<Slot>, es: seq<PoolEvent>)
    decreases |es|, 0
  {
    es != [] ==> CanWork(slots, es[..|es| - 1]) && Possible(After(slots, es[..|es| - 1]), es[|es| - 1])
  }

  function After(slots: seq<Slot>, es: seq<PoolEvent>): Floor
    requires CanWork(slots, es)
    decreases |es|, 1
  {
    if es == [] then Floor({}, map[], {}, slots) else Next(After(slots, es[..|es| - 1]), es[|es| - 1])
  }

  // ----- the window alone -----------------------------------------------------------------------------------

  /** The window after some events, whatever the threads did in between. */
  function WindowAfter(es: seq<PoolEvent>): set<ItemId> {
    if es == [] then {}
    else
      var before := WindowAfter(es[..|es| - 1]);
      match es[|es| - 1]
      case Submit(x) => before + {x}
      case Remove(x) => before - {x}
      case _ => before
  }

  /** The window never held more than `limit` futures. */
  predicate WithinLimit(es: seq<PoolEvent>, limit: nat) {
    |WindowAfter(es)| <= limit && (es != [] ==> WithinLimit(es[..|es| - 1], limit))
  }

  /** The coordinator's share of the events, in order. */
  function Coordinated(es: seq<PoolEvent>): seq<PoolEvent> {
    if es == [] then []
    else
      Coordinated(es[..|es| - 1]) + (var e := es[|es| - 1]; if e.Submit? || e.Remove? then [e] else [])
  }

  lemma {:induction false} ThreadsKeepTheWindow(es: seq<PoolEvent>)
    ensures WindowAfter(Coordinated(es)) == WindowAfter(es)
  {
    if es != [] {
      var rest, e := es[..|es| - 1], es[|es| - 1];
      ThreadsKeepTheWindow(rest);
      if e.Submit? || e.Remove? {
        var c := Coordinated(es);
        assert c[..|c| - 1] == Coordinated(rest) && c[|c| - 1] == e;
      } else {
        assert Coordinated(es) == Coordinated(rest);
      }
    }
  }

  lemma {:induction false} PrefixWithinLimit(es: seq<PoolEvent>, k: nat, limit: nat)
    requires WithinLimit(es, limit) && k <= |es|
    ensures WithinLimit(es[..k], limit)
    decreases |es|
  {
    if k == |es| {
      assert es[..k] == es;
    } else {
      PrefixWithinLimit(es[..|es| - 1], k, limit);
      assert es[..|es| - 1][..k] == es[..k];
    }
  }

  // ----- conservation ---------------------------------------------------------------------------------------

  ghost predicate InUse(borrowed: map<ItemId, Slot>, s: Slot) {
    exists x :: x in borrowed && borrowed[x] == s
  }

  lemma InUseAfterTaking(borrowed: map<ItemId, Slot>, item: ItemId, slot: Slot, s: Slot)
    requires item !in borrowed
    ensures InUse(borrowed[item := slot], s) <==> s == slot || InUse(borrowed, s)
  {
    if s == slot {
      assert borrowed[item := slot][item] == s;
    }
    if InUse(borrowed, s) {
      var x :| x in borrowed && borrowed[x] == s;
      assert borrowed[item := slot][x] == s;
    }
  }

  ghost predicate Distinct(slots: seq<Slot>) {
    forall a, b :: 0 <= a < b < |slots| ==> slots[a] != slots[b]
  }

  /** Available plus borrowed is always the original set, and no classifier is in two places. */
  ghost predicate Conserved(classifiers: set<Slot>, available: seq<Slot>, borrowed: map<ItemId, Slot>) {
    && Distinct(available)
    && (forall x, y :: x in borrowed && y in borrowed && x != y ==> borrowed[x] != borrowed[y])
    && (forall x :: x in borrowed ==> borrowed[x] !in available)
    && (forall s :: s in classifiers <==> s in available || InUse(borrowed, s))
    && |classifiers| == |available| + |borrowed|
  }

  lemma NotInUse(available: seq<Slot>, borrowed: map<ItemId, Slot>, s: Slot)
    requires s in available && forall x :: x in borrowed ==> borrowed[x] !in available
    ensures !InUse(borrowed, s)
  {
  }

  lemma TakeConserves(classifiers: set<Slot>, available: seq<Slot>, borrowed: map<ItemId, Slot>, item: ItemId)
    requires Conserved(classifiers, available, borrowed) && available != [] && item !in borrowed
    ensures Conserved(classifiers, available[1..], borrowed[item := available[0]])
    ensures !InUse(borrowed, available[0])
  {
    hide InUse;
    var first, rest := available[0], available[1..];
    assert forall s :: s in available <==> s == first || s in rest;
    assert first !in rest;
    assert !InUse(borrowed, first) by {
      NotInUse(available, borrowed, first);
    }
    forall s ensures InUse(borrowed[item := available[0]], s) <==> s == available[0] || InUse(borrowed, s) {
      InUseAfterTaking(borrowed, item, available[0], s);
    }
  }

  lemma ReturnConserves(classifiers: set<Slot>, available: seq<Slot>, borrowed: map<ItemId, Slot>, item: ItemId)
    requires Conserved(classifiers, available, borrowed) && item in borrowed
    ensures Conserved(classifiers, available + [borrowed[item]], borrowed - {item})
  {
    var rest, slot := borrowed - {item}, borrowed[item];
    assert borrowed == rest[item := slot];
    forall s ensures InUse(borrowed, s) <==> s == slot || InUse(rest, s) {
      InUseAfterTaking(rest, item, slot, s);
    }
  }

  lemma {:induction false} DistinctSize(slots: seq<Slot>)
    requires Distinct(slots)
    ensures |All(slots)| == |slots|
  {
    if slots != [] {
      var rest, last := slots[..|slots| - 1], slots[|slots| - 1];
      DistinctSize(rest);
      assert slots == rest + [last];
      assert All(slots) == All(rest) + {last};
    }
  }

  /** What every reachable state keeps: the slots, and that only futures in the window hold one. */
  lemma {:induction false} WorkConserves(slots: seq<Slot>, es: seq<PoolEvent>)
    requires CanWork(slots, es) && Distinct(slots)
    ensures var f := After(slots, es);
            && Conserved(All(slots), f.available, f.borrowed)
            && f.inFlight == WindowAfter(es)
            && f.borrowed.Keys <= f.inFlight && f.finished <= f.inFlight && f.borrowed.Keys !! f.finished
  {
    hide Conserved;
    if es == [] {
      NothingBorrowed(slots);
    } else {
      var f, e := After(slots, es[..|es| - 1]), es[|es| - 1];
      WorkConserves(slots, es[..|es| - 1]);
      match e {
        case Acquire(x) => TakeConserves(All(slots), f.available, f.borrowed, x);
        case GiveBack(x) => ReturnConserves(All(slots), f.available, f.borrowed, x);
        case _ =>
      }
    }
  }

  lemma NothingBorrowed(slots: seq<Slot>)
    requires Distinct(slots)
    ensures Conserved(All(slots), slots, map[])
  {
    DistinctSize(slots);
  }

  /** In every reachable state no classifier is in the hands of two items. */
  lemma NoClassifierIsShared(slots: seq<Slot>, es: seq<PoolEvent>, x: ItemId, y: ItemId)
    requires CanWork(slots, es) && Distinct(slots)
    requires x in After(slots, es).borrowed && y in After(slots, es).borrowed
    requires After(slots, es).borrowed[x] == After(slots, es).borrowed[y]
    ensures x == y
  {
    WorkConserves(slots, es);
  }

  // ----- waiting --------------------------------------------------------------------------------------------

  /**
   No thread ever waits: in every interleaving of the threads with a coordinator that keeps its window within the
   number of classifiers, an item that wants a classifier finds one.  The coordinator may be ahead of the threads.
   */
  lemma NoThreadWaits(slots: seq<Slot>, es: seq<PoolEvent>, ops: seq<PoolEvent>, limit: nat, x: ItemId)
    requires Distinct(slots) && limit <= |slots| && CanWork(slots, es)
    requires Coordinated(es) <= ops && WithinLimit(ops, limit)
    requires Wants(After(slots, es), x)
    ensures Possible(After(slots, es), Acquire(x))
  {
    hide CanWork, After, Coordinated, WindowAfter;
    var f := After(slots, es);
    WorkConserves(slots, es);
    ThreadsKeepTheWindow(es);
    PrefixWithinLimit(ops, |Coordinated(es)|, limit);
    assert ops[..|Coordinated(es)|] == Coordinated(es);
    DistinctSize(slots);
    OneIsFree(All(slots), f, x);
  }

  lemma OneIsFree(classifiers: set<Slot>, f: Floor, x: ItemId)
    requires Conserved(classifiers, f.available, f.borrowed) && f.borrowed.Keys <= f.inFlight
    requires Wants(f, x) && |f.inFlight| <= |classifiers|
    ensures f.available != []
  {
    var others := f.inFlight - {x};
    assert f.borrowed.Keys <= others && |f.borrowed| == |f.borrowed.Keys|;
    assert others == f.borrowed.Keys + (others - f.borrowed.Keys);
  }

  /** The items 0 .. n-1 submitted, of which the first k have got a classifier. */
  function Crowd(n: nat, k: nat): seq<PoolEvent> {
    if k > 0 then Crowd(n, k - 1) + [Acquire(ItemId(k - 1))]
    else if n > 0 then Crowd(n - 1, 0) + [Submit(ItemId(n - 1))]
    else []
  }

  ghost predicate Crowded(f: Floor, slots: seq<Slot>, n: nat, k: nat) {
    && k <= |slots| && f.finished == {} && f.available == slots[k..]
    && (forall x :: x in f.inFlight <==> 0 <= x.uuid < n)
    && (forall x :: x in f.borrowed <==> 0 <= x.uuid < k)
  }

  lemma CrowdTakes(f: Floor, slots: seq<Slot>, n: nat, k: nat)
    requires Crowded(f, slots, n, k) && k < n && k < |slots|
    ensures Possible(f, Acquire(ItemId(k))) && Crowded(Next(f, Acquire(ItemId(k))), slots, n, k + 1)
  {
    assert slots[k..][1..] == slots[k + 1..];
  }

  lemma {:induction false} CrowdWorks(slots: seq<Slot>, n: nat, k: nat)
    requires k <= n && k <= |slots|
    ensures CanWork(slots, Crowd(n, k)) && Crowded(After(slots, Crowd(n, k)), slots, n, k)
    decreases n + k
  {
    hide Crowded, Next, Possible;
    var es := Crowd(n, k);
    if k > 0 {
      CrowdWorks(slots, n, k - 1);
      assert es[..|es| - 1] == Crowd(n, k - 1);
      CrowdTakes(After(slots, Crowd(n, k - 1)), slots, n, k - 1);
    } else if n > 0 {
      CrowdWorks(slots, n - 1, 0);
      assert es[..|es| - 1] == Crowd(n - 1, 0);
      CrowdGrows(After(slots, Crowd(n - 1, 0)), slots, n - 1);
    } else {
      NobodyYet(slots);
    }
  }

  lemma CrowdGrows(f: Floor, slots: seq<Slot>, n: nat)
    requires Crowded(f, slots, n, 0)
    ensures Possible(f, Submit(ItemId(n))) && Crowded(Next(f, Submit(ItemId(n))), slots, n + 1, 0)
  {
  }

  lemma NobodyYet(slots: seq<Slot>)
    ensures Crowded(Floor({}, map[], {}, slots), slots, 0, 0)
  {
  }

  lemma {:induction false} CrowdSize(n: nat, k: nat)
    ensures |WindowAfter(Crowd(n, k))| <= n && WithinLimit(Crowd(n, k), n)
    decreases n + k
  {
    var es := Crowd(n, k);
    if k > 0 {
      CrowdSize(n, k - 1);
      assert es[..|es| - 1] == Crowd(n, k - 1);
    } else if n > 0 {
      CrowdSize(n - 1, 0);
      assert es[..|es| - 1] == Crowd(n - 1, 0);
      WiderLimit(Crowd(n - 1, 0), n - 1, n);
    }
  }

  lemma {:induction false} WiderLimit(es: seq<PoolEvent>, limit: nat, wider: nat)
    requires WithinLimit(es, limit) && limit <= wider
    ensures WithinLimit(es, wider)
  {
    if es != [] {
      WiderLimit(es[..|es| - 1], limit, wider);
    }
  }

  /** Some thread has to wait at the end of es. */
  ghost predicate SomeoneWaits(slots: seq<Slot>, es: seq<PoolEvent>) {
    CanWork(slots, es) && exists x :: Wants(After(slots, es), x) && !Possible(After(slots, es), Acquire(x))
  }

  /** A window of `limit` futures makes no thread wait in any run exactly when there are that many classifiers. */
  lemma WaitsExactlyWhenTooFew(slots: seq<Slot>, limit: nat)
    requires Distinct(slots)
    ensures (forall es :: WithinLimit(es, limit) ==> !SomeoneWaits(slots, es)) <==> limit <= |slots|
  {
    if limit <= |slots| {
      forall es | WithinLimit(es, limit) ensures !SomeoneWaits(slots, es) {
        if SomeoneWaits(slots, es) {
          WithinItsOwn(es, limit);
          var x :| Wants(After(slots, es), x) && !Possible(After(slots, es), Acquire(x));
          NoThreadWaits(slots, es, Coordinated(es), limit, x);
          assert false;
        }
      }
    } else {
      var n := |slots|;
      CrowdWorks(slots, limit, n);
      CrowdSize(limit, n);
      assert Wants(After(slots, Crowd(limit, n)), ItemId(n));
      assert SomeoneWaits(slots, Crowd(limit, n));
    }
  }

  lemma {:induction false} WithinItsOwn(es: seq<PoolEvent>, limit: nat)
    requires WithinLimit(es, limit)
    ensures WithinLimit(Coordinated(es), limit)
  {
    if es != [] {
      var e, c := es[|es| - 1], Coordinated(es);
      WithinItsOwn(es[..|es| - 1], limit);
      ThreadsKeepTheWindow(es);
      if e.Submit? || e.Remove? {
        assert c[..|c| - 1] == Coordinated(es[..|es| - 1]);
      } else {
        assert c == Coordinated(es[..|es| - 1]);
      }
    }
  }

  // ----- the queue ------------------------------------------------------------------------------------------

  class Pool {
    ghost const classifiers: set<Slot>
    var available: seq<Slot>
    /** Which item each borrowed classifier is working on. */
    var borrowed: map<ItemId, Slot>

    ghost predicate Valid()
      reads this
    {
      Conserved(classifiers, available, borrowed)
    }

    /** The pool seen together with the window above it. */
    ghost function View(inFlight: set<ItemId>, finished: set<ItemId>): Floor
      reads this
    {
      Floor(inFlight, borrowed, finished, available)
    }

    constructor (slots: seq<Slot>)
      requires slots != [] && Distinct(slots)
      ensures Valid() && View({}, {}) == After(slots, []) && classifiers == All(slots)
    {
      available, borrowed := [], map[];
      classifiers := All(slots);
      new;
      for n := 0 to |slots|
        invariant available == slots[..n] && borrowed == map[] && classifiers == All(slots)
      {
        available := available + [slots[n]];
      }
      assert slots[..|slots|] == slots;
      NothingBorrowed(slots);
    }

    /** The blocking get() of the queue: None means that the thread has to wait. */
    method Acquire(item: ItemId, ghost inFlight: set<ItemId>, ghost finished: set<ItemId>) returns (slot: Option<Slot>)
      requires Valid() && Wants(View(inFlight, finished), item)
      modifies this
      ensures Valid()
      ensures slot.None? <==> !old(Possible(View(inFlight, finished), PoolEvent.Acquire(item)))
      ensures slot.None? ==> available == old(available) && borrowed == old(borrowed)
      ensures slot.Some? ==> View(inFlight, finished) == Next(old(View(inFlight, finished)), PoolEvent.Acquire(item))
      ensures slot.Some? ==> borrowed == old(borrowed)[item := slot.value] && !InUse(old(borrowed), slot.value)
    {
      if available == [] {
        return None;
      }
      TakeConserves(classifiers, available, borrowed, item);
      slot := Some(available[0]);
      available := available[1..];
      borrowed := borrowed[item := slot.value];
    }

    /** The finally-clause: the classifier goes back whether classification returned or raised. */
    method GiveBack(item: ItemId, ghost inFlight: set<ItemId>, ghost finished: set<ItemId>)
      requires Valid() && item in borrowed
      modifies this
      ensures Valid()
      ensures View(inFlight, finished + {item}) == Next(old(View(inFlight, finished)), PoolEvent.GiveBack(item))
      ensures available == old(available) + [old(borrowed)[item]] && borrowed == old(borrowed) - {item}
    {
      ReturnConserves(classifiers, available, borrowed, item);
      available := available + [borrowed[item]];
      borrowed := borrowed - {item};
    }
  }
}
