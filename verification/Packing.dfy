/**
 Greedy packing of consecutive items into groups, for any notion of what fits into one group.
 */
module Packing {

  /** fits(a, b) says that items a .. b-1 may form one group. */
  type Fit = (nat, nat) -> bool

  ghost predicate SinglesFit(fits: Fit, n: nat) {
    forall a: nat, b: nat :: a < n && b == a + 1 ==> fits(a, b)
  }

  /** Any stretch of a group that fits is itself a group that fits. */
  ghost predicate Hereditary(fits: Fit, n: nat) {
    forall a: nat, b: nat, c: nat, d: nat :: a <= b < c <= d <= n && fits(a, d) ==> fits(b, c)
  }

  /** How far the greedy rule extends a group that starts at a and already holds a .. b-1. */
  function Extend(fits: Fit, a: nat, b: nat, n: nat): (e: nat)
    requires a < b <= n
    ensures b <= e <= n
    ensures fits(a, b) ==> fits(a, e)
    ensures e < n ==> !fits(a, e + 1)
    decreases n - b
  {
    if b < n && fits(a, b + 1) then Extend(fits, a, b + 1, n) else b
  }

  /** The ends of the groups the greedy rule forms from a on. */
  function Greedy(fits: Fit, a: nat, n: nat): seq<nat>
    requires a <= n
    decreases n - a
  {
    if a == n then []
    else
      var e := Extend(fits, a, a + 1, n);
      [e] + Greedy(fits, e, n)
  }

  /** Cuts that split a .. n-1, in order and without gaps, into non-empty groups that fit. */
  predicate Splits(fits: Fit, a: nat, n: nat, cuts: seq<nat>)
    decreases |cuts|
  {
    if cuts == [] then a == n
    else a < cuts[0] <= n && fits(a, cuts[0]) && Splits(fits, cuts[0], n, cuts[1..])
  }

  lemma {:induction false} GreedySplits(fits: Fit, a: nat, n: nat)
    requires a <= n && SinglesFit(fits, n)
    ensures Splits(fits, a, n, Greedy(fits, a, n))
    decreases n - a
  {
    if a < n {
      GreedySplits(fits, Extend(fits, a, a + 1, n), n);
    }
  }

  lemma {:induction false} ExtendReaches(fits: Fit, a: nat, b: nat, e: nat, n: nat)
    requires a < b <= e <= n && forall c: nat :: b < c <= e ==> fits(a, c)
    ensures e <= Extend(fits, a, b, n)
    decreases e - b
  {
    if b < e {
      ExtendReaches(fits, a, b + 1, e, n);
    }
  }

  /** Greedy stays ahead: from any later start it needs no more groups than any other way of splitting. */
  lemma {:induction false} GreedyStaysAhead(fits: Fit, a: nat, later: nat, n: nat, cuts: seq<nat>)
    requires a <= later <= n && Hereditary(fits, n) && Splits(fits, a, n, cuts)
    ensures |Greedy(fits, later, n)| <= |cuts|
    decreases |cuts|
  {
    if cuts != [] && later < n {
      var e := cuts[0];
      if later < e {
        ExtendReaches(fits, later, later + 1, e, n);
        GreedyStaysAhead(fits, e, Extend(fits, later, later + 1, n), n, cuts[1..]);
      } else {
        GreedyStaysAhead(fits, e, later, n, cuts[1..]);
      }
    }
  }

  /** The greedy rule uses the fewest groups. */
  lemma GreedyIsMinimal(fits: Fit, n: nat, cuts: seq<nat>)
    requires Hereditary(fits, n) && Splits(fits, 0, n, cuts)
    ensures |Greedy(fits, 0, n)| <= |cuts|
  {
    GreedyStaysAhead(fits, 0, 0, n, cuts);
  }

  /** The groups that cuts describe. */
  function Groups<T>(items: seq<T>, a: nat, cuts: seq<nat>): seq<seq<T>>
    decreases |cuts|
  {
    if cuts == [] || !(a < cuts[0] <= |items|) then []
    else [items[a..cuts[0]]] + Groups(items, cuts[0], cuts[1..])
  }

  function Flatten<T>(groups: seq<seq<T>>): seq<T> {
    if groups == [] then [] else groups[0] + Flatten(groups[1..])
  }

  /** Splitting loses, repeats and reorders nothing. */
  lemma {:induction false} GroupsFlatten<T>(fits: Fit, items: seq<T>, a: nat, cuts: seq<nat>)
    requires a <= |items| && Splits(fits, a, |items|, cuts)
    ensures Flatten(Groups(items, a, cuts)) == items[a..]
    ensures |Groups(items, a, cuts)| == |cuts|
    ensures forall g :: g in Groups(items, a, cuts) ==> g != []
    decreases |cuts|
  {
    if cuts != [] {
      GroupsFlatten(fits, items, cuts[0], cuts[1..]);
      assert items[a..cuts[0]] + items[cuts[0]..] == items[a..];
    }
  }

  /** All groups of the greedy packing from item a on. */
  function Packed<T>(fits: Fit, items: seq<T>, a: nat): seq<seq<T>>
    requires a <= |items|
  {
    Groups(items, a, Greedy(fits, a, |items|))
  }

  /** A packing loop before item i: `closed` are the groups already given out, the open one starts at a. */
  ghost predicate Midway<T>(fits: Fit, items: seq<T>, a: nat, i: nat, closed: seq<seq<T>>) {
    && a <= i <= |items|
    && Packed(fits, items, 0) == closed + Packed(fits, items, a)
    && (a < i ==> fits(a, i) && Extend(fits, a, a + 1, |items|) == Extend(fits, a, i, |items|))
  }

  lemma Start<T>(fits: Fit, items: seq<T>)
    ensures Midway(fits, items, 0, 0, [])
  {
  }

  /** Where the greedy rule stops extending a group, that group is complete. */
  lemma GroupEnds<T>(fits: Fit, items: seq<T>, a: nat, i: nat)
    requires a < i <= |items| && Extend(fits, a, a + 1, |items|) == Extend(fits, a, i, |items|)
    requires i < |items| ==> !fits(a, i + 1)
    ensures Packed(fits, items, a) == [items[a..i]] + Packed(fits, items, i)
  {
    var rest := Greedy(fits, i, |items|);
    assert Greedy(fits, a, |items|) == [i] + rest;
    assert ([i] + rest)[1..] == rest;
  }

  lemma CloseGroup<T>(fits: Fit, items: seq<T>, a: nat, i: nat, closed: seq<seq<T>>)
    requires Midway(fits, items, a, i, closed) && a < i && (i < |items| ==> !fits(a, i + 1))
    ensures Midway(fits, items, i, i, closed + [items[a..i]])
  {
    GroupEnds(fits, items, a, i);
    assert closed + ([items[a..i]] + Packed(fits, items, i)) == (closed + [items[a..i]]) + Packed(fits, items, i);
  }

  lemma GrowGroup<T>(fits: Fit, items: seq<T>, a: nat, i: nat, closed: seq<seq<T>>)
    requires Midway(fits, items, a, i, closed) && i < |items| && fits(a, i + 1)
    ensures Midway(fits, items, a, i + 1, closed)
  {
  }

  lemma Done<T>(fits: Fit, items: seq<T>, closed: seq<seq<T>>)
    requires Midway(fits, items, |items|, |items|, closed)
    ensures closed == Packed(fits, items, 0)
  {
    assert Packed(fits, items, |items|) == [];
  }

  // ----- where the groups end -------------------------------------------------------------------------------

  /** The group is items p .. e-1, the next one starts with item e, and with that item it would not fit. */
  ghost predicate FullAt<T>(fits: Fit, items: seq<T>, group: seq<T>, next: seq<T>, p: nat, e: nat) {
    p < e < |items| && group == items[p..e] && next != [] && next[0] == items[e] && fits(p, e) && !fits(p, e + 1)
  }

  lemma PackedFirst<T>(fits: Fit, items: seq<T>, a: nat)
    requires a < |items|
    ensures var e := Extend(fits, a, a + 1, |items|);
            Packed(fits, items, a) == [items[a..e]] + Packed(fits, items, e)
  {
  }

  /** No group but the last one could take one item more. */
  lemma {:induction false} GroupsAreFull<T>(fits: Fit, items: seq<T>, a: nat, g: nat)
    returns (p: nat, e: nat)
    requires a <= |items| && SinglesFit(fits, |items|) && g + 1 < |Packed(fits, items, a)|
    ensures var groups := Packed(fits, items, a);
            FullAt(fits, items, groups[g], groups[g + 1], p, e)
    decreases |items| - a
  {
    assert Packed(fits, items, |items|) == [];
    hide Packed, Extend, FullAt;
    PackedFirst(fits, items, a);
    var end := Extend(fits, a, a + 1, |items|);
    if g > 0 {
      p, e := GroupsAreFull(fits, items, end, g - 1);
    } else {
      PackedFirst(fits, items, end);
      FirstIsFull(fits, items, a);
      p, e := a, end;
    }
  }

  lemma FirstIsFull<T>(fits: Fit, items: seq<T>, a: nat)
    requires a < |items| && SinglesFit(fits, |items|) && Extend(fits, a, a + 1, |items|) < |items|
    ensures var e := Extend(fits, a, a + 1, |items|);
            FullAt(fits, items, items[a..e], items[e..Extend(fits, e, e + 1, |items|)], a, e)
  {
  }

  // ----- joined texts -----------------------------------------------------------------------------------

  function Join(sep: string, parts: seq<string>): string {
    if parts == [] then ""
    else if |parts| == 1 then parts[0]
    else parts[0] + sep + Join(sep, parts[1..])
  }

  lemma {:induction false} JoinConcat(sep: string, a: seq<string>, b: seq<string>)
    requires a != [] && b != []
    ensures Join(sep, a + b) == Join(sep, a) + sep + Join(sep, b)
  {
    assert (a + b)[1..] == a[1..] + b;
    if |a| > 1 {
      JoinConcat(sep, a[1..], b);
    }
  }

  function TotalLength(parts: seq<string>): nat {
    if parts == [] then 0 else |parts[0]| + TotalLength(parts[1..])
  }

  lemma {:induction false} JoinLength(sep: string, parts: seq<string>)
    ensures |Join(sep, parts)| == TotalLength(parts) + (if parts == [] then 0 else (|parts| - 1) * |sep|)
  {
    if |parts| > 1 {
      JoinLength(sep, parts[1..]);
      assert (|parts| - 1) * |sep| == |sep| + (|parts| - 2) * |sep|;
    }
  }

  lemma SliceSplits<T>(s: seq<T>, a: nat, b: nat, c: nat)
    requires a <= b <= c <= |s|
    ensures s[a..c] == s[a..b] + s[b..c]
  {
  }

  /** Joining fewer consecutive parts never gives a longer text. */
  lemma JoinGrows(sep: string, parts: seq<string>, a: nat, b: nat, c: nat, d: nat)
    requires a <= b < c <= d <= |parts|
    ensures |Join(sep, parts[b..c])| <= |Join(sep, parts[a..d])|
  {
    var whole, part := parts[a..d], parts[b..c];
    if a < b {
      SliceSplits(parts, a, b, d);
      JoinConcat(sep, parts[a..b], parts[b..d]);
    }
    if c < d {
      SliceSplits(parts, b, c, d);
      JoinConcat(sep, part, parts[c..d]);
    }
  }

  /** Joining the joined groups is joining everything. */
  lemma {:induction false} JoinGroups(sep: string, groups: seq<seq<string>>)
    requires forall g :: g in groups ==> g != []
    ensures Join(sep, seq(|groups|, i requires 0 <= i < |groups| => Join(sep, groups[i]))) == Join(sep, Flatten(groups))
  {
    if groups != [] {
      var rest := groups[1..];
      var joined := seq(|groups|, i requires 0 <= i < |groups| => Join(sep, groups[i]));
      var joinedRest := seq(|rest|, i requires 0 <= i < |rest| => Join(sep, rest[i]));
      assert joined[1..] == joinedRest;
      assert forall g :: g in rest ==> g in groups;
      JoinGroups(sep, rest);
      if rest != [] {
        assert rest[0] in groups && Flatten(rest) == rest[0] + Flatten(rest[1..]);
        assert groups[0] in groups;
        JoinConcat(sep, groups[0], Flatten(rest));
      } else {
        assert Flatten(groups) == groups[0];
      }
    }
  }
}
