/**
 Sums over sequences and over the classes of a sequence.
 */
module Totals {

  function Total<T>(s: seq<T>, w: T -> nat): nat {
    if s == [] then 0 else Total(s[..|s| - 1], w) + w(s[|s| - 1])
  }

  lemma TotalSnoc<T>(s: seq<T>, x: T, w: T -> nat)
    ensures Total(s + [x], w) == Total(s, w) + w(x)
  {
    assert (s + [x])[..|s|] == s;
  }

  lemma TotalPrefix<T>(s: seq<T>, i: nat, w: T -> nat)
    requires i < |s|
    ensures Total(s[..i + 1], w) == Total(s[..i], w) + w(s[i])
  {
    assert s[..i + 1] == s[..i] + [s[i]];
    TotalSnoc(s[..i], s[i], w);
  }

  lemma {:induction false} TotalConcat<T>(a: seq<T>, b: seq<T>, w: T -> nat)
    ensures Total(a + b, w) == Total(a, w) + Total(b, w)
  {
    if b == [] {
      assert a + b == a;
    } else {
      TotalConcat(a, b[..|b| - 1], w);
      assert (a + b)[..|a + b| - 1] == a + b[..|b| - 1];
    }
  }

  lemma SplitAt<T>(s: seq<T>, i: nat)
    requires i < |s|
    ensures s == s[..i] + [s[i]] + s[i + 1..]
  {
  }

  lemma RemoveFromMultiset<T>(s: seq<T>, i: nat)
    requires i < |s|
    ensures multiset(s) == multiset(s[..i] + s[i + 1..]) + multiset{s[i]}
  {
    SplitAt(s, i);
    var p, x, q := s[..i], s[i], s[i + 1..];
    assert multiset(p + [x] + q) == multiset(p) + multiset{x} + multiset(q);
  }

  lemma RemoveAt<T>(s: seq<T>, i: nat, w: T -> nat)
    requires i < |s|
    ensures Total(s, w) == Total(s[..i] + s[i + 1..], w) + w(s[i])
    ensures multiset(s) == multiset(s[..i] + s[i + 1..]) + multiset{s[i]}
  {
    hide Total;
    var p, x, q := s[..i], s[i], s[i + 1..];
    SplitAt(s, i);
    RemoveFromMultiset(s, i);
    TotalConcat(p + [x], q, w);
    TotalSnoc(p, x, w);
    TotalConcat(p, q, w);
  }

  lemma Cancel<T>(p: multiset<T>, q: multiset<T>, x: T)
    requires p + multiset{x} == q + multiset{x}
    ensures p == q
  {
    assert p == (p + multiset{x}) - multiset{x};
    assert q == (q + multiset{x}) - multiset{x};
  }

  /** Only which elements there are matters, not their order. */
  lemma {:induction false} TotalUnordered<T>(a: seq<T>, b: seq<T>, w: T -> nat)
    requires multiset(a) == multiset(b)
    ensures Total(a, w) == Total(b, w)
    decreases |a|
  {
    assert |a| == |multiset(a)| && |b| == |multiset(b)|;
    if a != [] {
      var n := |a| - 1;
      RemoveAt(a, n, w);
      assert a[n] in multiset(b);
      var i :| 0 <= i < |b| && b[i] == a[n];
      RemoveAt(b, i, w);
      Cancel(multiset(a[..n] + a[n + 1..]), multiset(b[..i] + b[i + 1..]), a[n]);
      TotalUnordered(a[..n] + a[n + 1..], b[..i] + b[i + 1..], w);
    }
  }

  /** Pointwise comparison on the elements that occur. */
  lemma {:induction false} TotalAtMost<T>(s: seq<T>, v: T -> nat, w: T -> nat)
    requires forall x :: x in s ==> v(x) <= w(x)
    ensures Total(s, v) <= Total(s, w)
  {
    if s != [] {
      assert forall x :: x in s[..|s| - 1] ==> x in s;
      TotalAtMost(s[..|s| - 1], v, w);
    }
  }

  lemma TotalSame<T>(s: seq<T>, v: T -> nat, w: T -> nat)
    requires forall x :: x in s ==> v(x) == w(x)
    ensures Total(s, v) == Total(s, w)
  {
    TotalAtMost(s, v, w);
    TotalAtMost(s, w, v);
  }

  lemma {:induction false} TotalZero<T>(s: seq<T>, w: T -> nat)
    ensures Total(s, w) == 0 <==> forall x :: x in s ==> w(x) == 0
  {
    if s != [] {
      TotalZero(s[..|s| - 1], w);
      assert s == s[..|s| - 1] + [s[|s| - 1]];
    }
  }

  lemma {:induction false} TotalOnes<T>(s: seq<T>)
    ensures Total(s, _ => 1) == |s|
  {
    if s != [] {
      TotalOnes(s[..|s| - 1]);
    }
  }

  /** Where the elements with a property stand. */
  function Positions<T>(s: seq<T>, p: T -> bool): set<nat> {
    set i: nat | i < |s| && p(s[i])
  }

  lemma PositionsSnoc<T>(s: seq<T>, x: T, p: T -> bool)
    ensures Positions(s + [x], p) == Positions(s, p) + (if p(x) then {|s|} else {})
    ensures |s| !in Positions(s, p)
  {
    assert forall i: nat :: i < |s| ==> (s + [x])[i] == s[i];
  }

  /** Adding ones for a property is counting positions. */
  lemma {:induction false} TotalCounts<T>(s: seq<T>, w: T -> nat, p: T -> bool)
    requires forall x :: x in s ==> w(x) == if p(x) then 1 else 0
    ensures Total(s, w) == |Positions(s, p)|
  {
    if s == [] {
      assert Positions(s, p) == {};
    } else {
      var rest, x := s[..|s| - 1], s[|s| - 1];
      assert s == rest + [x];
      TotalCounts(rest, w, p);
      PositionsSnoc(rest, x, p);
      TotalSnoc(rest, x, w);
    }
  }

  lemma SubsetSize<T>(a: set<T>, b: set<T>)
    requires a <= b
    ensures |a| <= |b|
  {
    assert b == a + (b - a);
  }

  // ----- sums over a set of keys --------------------------------------------------------------------------

  ghost function SumOver<K(!new)>(keys: set<K>, f: K -> nat): nat {
    if keys == {} then 0
    else
      var k :| k in keys;
      f(k) + SumOver(keys - {k}, f)
  }

  lemma {:induction false} SumExtract<K(!new)>(keys: set<K>, f: K -> nat, k: K)
    requires k in keys
    ensures SumOver(keys, f) == f(k) + SumOver(keys - {k}, f)
    decreases |keys|
  {
    var first :| first in keys && SumOver(keys, f) == f(first) + SumOver(keys - {first}, f);
    if first != k {
      SumExtract(keys - {first}, f, k);
      SumExtract(keys - {k}, f, first);
      assert keys - {first} - {k} == keys - {k} - {first};
    }
  }

  lemma {:induction false} SumSame<K(!new)>(keys: set<K>, f: K -> nat, g: K -> nat)
    requires forall k :: k in keys ==> f(k) == g(k)
    ensures SumOver(keys, f) == SumOver(keys, g)
    decreases |keys|
  {
    if keys != {} {
      var k :| k in keys;
      SumExtract(keys, f, k);
      SumExtract(keys, g, k);
      SumSame(keys - {k}, f, g);
    }
  }

  lemma {:induction false} SumAdds<K(!new)>(keys: set<K>, f: K -> nat, g: K -> nat, h: K -> nat)
    requires forall k :: k in keys ==> h(k) == f(k) + g(k)
    ensures SumOver(keys, h) == SumOver(keys, f) + SumOver(keys, g)
    decreases |keys|
  {
    if keys != {} {
      var k :| k in keys;
      SumExtract(keys, f, k);
      SumExtract(keys, g, k);
      SumExtract(keys, h, k);
      SumAdds(keys - {k}, f, g, h);
    }
  }

  lemma {:induction false} SumZero<K(!new)>(keys: set<K>, f: K -> nat)
    requires forall k :: k in keys ==> f(k) == 0
    ensures SumOver(keys, f) == 0
    decreases |keys|
  {
    if keys != {} {
      var k :| k in keys;
      SumExtract(keys, f, k);
      SumZero(keys - {k}, f);
    }
  }

  /** The weight of the elements of one class. */
  function InClass<T, K(==)>(key: T -> K, k: K, w: T -> nat): T -> nat {
    (x: T) => if key(x) == k then w(x) else 0
  }

  function ClassTotal<T, K(==)>(s: seq<T>, key: T -> K, w: T -> nat): K -> nat {
    (k: K) => Total(s, InClass(key, k, w))
  }

  /** Summing class by class is summing everything. */
  lemma {:induction false} ClassesSum<T, K(!new)>(s: seq<T>, key: T -> K, w: T -> nat, keys: set<K>)
    requires forall x :: x in s && w(x) > 0 ==> key(x) in keys
    ensures SumOver(keys, ClassTotal(s, key, w)) == Total(s, w)
  {
    var f := ClassTotal(s, key, w);
    if s == [] {
      SumZero(keys, f);
    } else {
      var rest, x := s[..|s| - 1], s[|s| - 1];
      var g := ClassTotal(rest, key, w);
      assert forall y :: y in rest ==> y in s;
      ClassesSum(rest, key, w, keys);
      if w(x) == 0 {
        SumSame(keys, f, g);
      } else {
        SumExtract(keys, f, key(x));
        SumExtract(keys, g, key(x));
        SumSame(keys - {key(x)}, f, g);
      }
    }
  }

  function Elements<K>(ks: seq<K>): set<K> {
    set k | k in ks
  }

  /** Adding up over distinct keys in a row is adding up over the set of them. */
  lemma {:induction false} DistinctSum<K(!new)>(ks: seq<K>, f: K -> nat)
    requires forall a, b :: 0 <= a < b < |ks| ==> ks[a] != ks[b]
    ensures Total(ks, f) == SumOver(Elements(ks), f)
  {
    if ks == [] {
      assert Elements(ks) == {};
    } else {
      var last, rest := ks[|ks| - 1], ks[..|ks| - 1];
      assert ks == rest + [last];
      assert Elements(ks) - {last} == Elements(rest);
      DistinctSum(rest, f);
      SumExtract(Elements(ks), f, last);
    }
  }
}
