/**
 Stratified down-sampling of example documents, in exact arithmetic.
 */
module Sampling {
  import opened Totals

  /** A document, its primary category ("unclassified" if it has none) and its sampling rank, a digest. */
  datatype Document = Document(id: string, category: string, rank: nat)

  /** round(p / q), halves to even. */
  function RoundHalfEven(p: int, q: int): int
    requires q > 0
  {
    var f, r := p / q, p % q;
    if 2 * r < q then f
    else if 2 * r > q then f + 1
    else if f % 2 == 0 then f else f + 1
  }

  lemma RoundingError(p: int, q: int)
    requires q > 0
    ensures -q <= 2 * (q * RoundHalfEven(p, q) - p) <= q
  {
    var f, r := p / q, p % q;
    assert p == q * f + r;
    assert q * (f + 1) == q * f + q;
  }

  /** Halfway between two integers, the even one is taken. */
  lemma TiesGoToEven(p: int, q: int)
    requires q > 0 && 2 * (p % q) == q
    ensures RoundHalfEven(p, q) % 2 == 0
    ensures RoundHalfEven(p, q) == p / q || RoundHalfEven(p, q) == p / q + 1
  {
  }

  // ----- groups ----------------------------------------------------------------------------------------------

  function GroupOf(docs: seq<Document>, category: string): seq<Document> {
    if docs == [] then []
    else
      var d := docs[|docs| - 1];
      GroupOf(docs[..|docs| - 1], category) + (if d.category == category then [d] else [])
  }

  /** The categories in the order in which they first occur: the order of the groups dictionary. */
  function CategoriesOf(docs: seq<Document>): seq<string> {
    if docs == [] then []
    else
      var rest, c := CategoriesOf(docs[..|docs| - 1]), docs[|docs| - 1].category;
      if c in rest then rest else rest + [c]
  }

  function InsertRanked(d: Document, sorted: seq<Document>): seq<Document> {
    if sorted == [] || d.rank < sorted[0].rank then [d] + sorted
    else [sorted[0]] + InsertRanked(d, sorted[1..])
  }

  /** sorted(group, key=rank): stable, lowest rank first. */
  function Ranked(group: seq<Document>): seq<Document> {
    if group == [] then [] else InsertRanked(group[|group| - 1], Ranked(group[..|group| - 1]))
  }

  ghost predicate Sorted(s: seq<Document>) {
    forall i, j :: 0 <= i < j < |s| ==> s[i].rank <= s[j].rank
  }

  lemma {:induction false} InsertMembers(d: Document, sorted: seq<Document>)
    ensures multiset(InsertRanked(d, sorted)) == multiset(sorted) + multiset{d}
    ensures forall x :: x in InsertRanked(d, sorted) ==> x == d || x in sorted
  {
    if sorted != [] && d.rank >= sorted[0].rank {
      assert sorted == [sorted[0]] + sorted[1..];
      InsertMembers(d, sorted[1..]);
    }
  }

  lemma {:induction false} InsertKeeps(d: Document, sorted: seq<Document>)
    requires Sorted(sorted)
    ensures Sorted(InsertRanked(d, sorted))
  {
    if sorted != [] && d.rank >= sorted[0].rank {
      var rest := sorted[1..];
      InsertKeeps(d, rest);
      InsertMembers(d, rest);
      var t := InsertRanked(d, rest);
      forall x | x in t ensures sorted[0].rank <= x.rank {
      }
      assert InsertRanked(d, sorted) == [sorted[0]] + t;
    }
  }

  lemma {:induction false} RankedSorts(group: seq<Document>)
    ensures Sorted(Ranked(group)) && multiset(Ranked(group)) == multiset(group)
    ensures |Ranked(group)| == |group|
  {
    if group != [] {
      var rest, last := group[..|group| - 1], group[|group| - 1];
      RankedSorts(rest);
      InsertKeeps(last, Ranked(rest));
      InsertMembers(last, Ranked(rest));
      assert group == rest + [last];
    }
    assert |multiset(Ranked(group))| == |multiset(group)|;
  }

  /** The documents of one rank, in order. */
  function OfRank(s: seq<Document>, rank: nat): seq<Document> {
    if s == [] then [] else (if s[0].rank == rank then [s[0]] else []) + OfRank(s[1..], rank)
  }

  lemma {:induction false} NoneAbove(s: seq<Document>, rank: nat)
    requires forall x :: x in s ==> x.rank > rank
    ensures OfRank(s, rank) == []
  {
    if s != [] {
      assert s[0] in s;
      NoneAbove(s[1..], rank);
    }
  }

  lemma OfRankFirst(s: seq<Document>, rank: nat)
    requires s != []
    ensures OfRank(s, rank) == (if s[0].rank == rank then [s[0]] else []) + OfRank(s[1..], rank)
  {
  }

  lemma {:induction false} OfRankSnoc(s: seq<Document>, d: Document, rank: nat)
    ensures OfRank(s + [d], rank) == OfRank(s, rank) + (if d.rank == rank then [d] else [])
  {
    assert OfRank([], rank) == [];
    hide OfRank;
    OfRankFirst(s + [d], rank);
    if s == [] {
      assert s + [d] == [d] && [d][1..] == [];
    } else {
      OfRankFirst(s, rank);
      assert (s + [d])[1..] == s[1..] + [d];
      OfRankSnoc(s[1..], d, rank);
    }
  }

  lemma {:induction false} InsertIsStable(d: Document, sorted: seq<Document>, rank: nat)
    requires Sorted(sorted)
    ensures OfRank(InsertRanked(d, sorted), rank) ==
            OfRank(sorted, rank) + (if d.rank == rank then [d] else [])
  {
    if sorted == [] {
      assert InsertRanked(d, sorted) == [d] && [d][1..] == [];
      assert OfRank([], rank) == [];
    } else if d.rank < sorted[0].rank {
      assert ([d] + sorted)[1..] == sorted;
      if d.rank == rank {
        NoneAbove(sorted, rank);
      }
    } else {
      var rest := sorted[1..];
      InsertIsStable(d, rest, rank);
      assert ([sorted[0]] + InsertRanked(d, rest))[1..] == InsertRanked(d, rest);
    }
  }

  /** The sort is stable: documents of one rank keep their order. */
  lemma {:induction false} RankedIsStable(group: seq<Document>, rank: nat)
    ensures OfRank(Ranked(group), rank) == OfRank(group, rank)
  {
    if group != [] {
      var rest, last := group[..|group| - 1], group[|group| - 1];
      RankedIsStable(rest, rank);
      RankedSorts(rest);
      InsertIsStable(last, Ranked(rest), rank);
      OfRankSnoc(rest, last, rank);
      assert group == rest + [last];
    }
  }

  /** Python slicing s[:take]: a negative bound counts from the end. */
  function Prefix(s: seq<Document>, take: int): seq<Document> {
    if take >= |s| then s
    else if take >= 0 then s[..take]
    else if |s| + take >= 0 then s[..|s| + take]
    else []
  }

  function Take(group: seq<Document>, total: nat, size: int): int
    requires total > 0
  {
    var r := RoundHalfEven(|group| * size, total);
    if r <= |group| then r else |group|
  }

  function Chosen(docs: seq<Document>, category: string, size: int): seq<Document>
    requires docs != []
  {
    var group := GroupOf(docs, category);
    Prefix(Ranked(group), Take(group, |docs|, size))
  }

  function ChosenFrom(docs: seq<Document>, categories: seq<string>, size: int): seq<Document>
    requires docs != []
  {
    if categories == [] then []
    else
      ChosenFrom(docs, categories[..|categories| - 1], size) + Chosen(docs, categories[|categories| - 1], size)
  }

  /** The groups dictionary, with its keys in insertion order. */
  method Grouped(docs: seq<Document>) returns (groups: map<string, seq<Document>>, order: seq<string>)
    ensures order == CategoriesOf(docs)
    ensures forall c :: c in groups <==> c in order
    ensures forall c :: c in groups ==> groups[c] == GroupOf(docs, c)
  {
    groups, order := map[], [];
    for i := 0 to |docs|
      invariant order == CategoriesOf(docs[..i])
      invariant forall c :: c in groups <==> c in order
      invariant forall c :: (if c in groups then groups[c] else []) == GroupOf(docs[..i], c)
    {
      assert docs[..i + 1][..i] == docs[..i];
      var c := docs[i].category;
      if c !in groups {
        groups := groups[c := []];
        order := order + [c];
      }
      groups := groups[c := groups[c] + [docs[i]]];
    }
    assert docs[..|docs|] == docs;
  }

  /** stratified_sample */
  method StratifiedSample(docs: seq<Document>, size: int) returns (sampled: seq<Document>)
    ensures sampled == if size >= |docs| || docs == [] then docs else ChosenFrom(docs, CategoriesOf(docs), size)
  {
    hide RoundHalfEven, GroupOf, Ranked, Prefix;
    if size >= |docs| {
      return docs;
    }
    var groups, order := Grouped(docs);
    sampled := [];
    for k := 0 to |order|
      invariant docs != [] ==> sampled == ChosenFrom(docs, order[..k], size)
      invariant docs == [] ==> order == [] && sampled == []
    {
      assert order[..k + 1][..k] == order[..k];
      assert order[k] in order;
      var group := groups[order[k]];
      var take := RoundHalfEven(|group| * size, |docs|);
      if take > |group| {
        take := |group|;
      }
      sampled := sampled + Prefix(Ranked(group), take);
    }
    assert order[..|order|] == order;
  }

  // ----- what the sample is -----------------------------------------------------------------------------------

  /** For a sample smaller than the input the clamp to the group size never takes effect. */
  lemma ClampIsIdle(group: nat, total: nat, size: nat)
    requires group <= total && size < total
    ensures 0 <= RoundHalfEven(group * size, total) <= group
  {
    var p := group * size;
    assert 0 <= p;
    if group > 0 {
      assert group * size <= group * (total - 1) by {
        Multiply(size, total - 1, group);
      }
      assert group * (total - 1) == group * total - group;
      assert p < group * total;
      QuotientBelow(p, total, group);
    }
  }

  lemma Multiply(a: int, b: int, f: nat)
    requires a <= b
    ensures f * a <= f * b
  {
  }

  lemma QuotientBelow(p: int, q: int, g: int)
    requires q > 0 && 0 <= p < g * q
    ensures 0 <= p / q < g
  {
    var f := p / q;
    assert p == q * f + p % q;
    if f >= g {
      Multiply(g, f, q);
      assert false;
    }
    if f < 0 {
      Multiply(f, -1, q);
      assert false;
    }
  }

  function Size(docs: seq<Document>): string -> nat {
    (c: string) => |GroupOf(docs, c)|
  }

  function Category(): Document -> string { (d: Document) => d.category }

  function One(): Document -> nat { (d: Document) => 1 }

  lemma {:induction false} GroupSize(docs: seq<Document>, c: string)
    ensures |GroupOf(docs, c)| == ClassTotal(docs, Category(), One())(c)
    ensures |GroupOf(docs, c)| <= |docs|
  {
    if docs != [] {
      GroupSize(docs[..|docs| - 1], c);
    }
  }

  lemma {:induction false} CategoriesDistinct(docs: seq<Document>)
    ensures forall a, b :: 0 <= a < b < |CategoriesOf(docs)| ==> CategoriesOf(docs)[a] != CategoriesOf(docs)[b]
    ensures forall d :: d in docs ==> d.category in CategoriesOf(docs)
  {
    if docs != [] {
      CategoriesDistinct(docs[..|docs| - 1]);
      assert docs == docs[..|docs| - 1] + [docs[|docs| - 1]];
    }
  }

  /** The category at a occurs before the first document of the one at b. */
  ghost predicate SeenBefore(docs: seq<Document>, a: string, b: string) {
    exists i :: 0 <= i < |docs| && docs[i].category == a && forall x :: 0 <= x <= i ==> docs[x].category != b
  }

  lemma SeenStays(docs: seq<Document>, d: Document, a: string, b: string)
    requires SeenBefore(docs, a, b)
    ensures SeenBefore(docs + [d], a, b)
  {
    var i :| 0 <= i < |docs| && docs[i].category == a && forall x :: 0 <= x <= i ==> docs[x].category != b;
    assert (docs + [d])[i].category == a;
  }

  lemma {:induction false} CategoryOccurs(docs: seq<Document>, c: string)
    ensures c in CategoriesOf(docs) <==> exists i :: 0 <= i < |docs| && docs[i].category == c
  {
    if docs != [] {
      CategoryOccurs(docs[..|docs| - 1], c);
    }
  }

  /** The groups come in the order in which their categories first occur. */
  lemma {:induction false} CategoriesInOrder(docs: seq<Document>, a: nat, b: nat)
    requires a < b < |CategoriesOf(docs)|
    ensures SeenBefore(docs, CategoriesOf(docs)[a], CategoriesOf(docs)[b])
  {
    var rest, last := docs[..|docs| - 1], docs[|docs| - 1];
    var before, cs := CategoriesOf(rest), CategoriesOf(docs);
    assert docs == rest + [last];
    if b < |before| {
      CategoriesInOrder(rest, a, b);
      SeenStays(rest, last, cs[a], cs[b]);
    } else {
      CategoryOccurs(rest, cs[a]);
      CategoryOccurs(rest, cs[b]);
      var i :| 0 <= i < |rest| && rest[i].category == cs[a];
      assert docs[i].category == cs[a];
    }
  }

  /** The groups partition the documents. */
  lemma GroupSizesSum(docs: seq<Document>)
    ensures Total(CategoriesOf(docs), Size(docs)) == |docs|
  {
    var cs := CategoriesOf(docs);
    CategoriesDistinct(docs);
    DistinctSum(cs, Size(docs));
    ClassesSum(docs, Category(), One(), Elements(cs));
    forall c ensures Size(docs)(c) == ClassTotal(docs, Category(), One())(c) {
      GroupSize(docs, c);
    }
    SumSame(Elements(cs), Size(docs), ClassTotal(docs, Category(), One()));
    TotalOnes(docs);
    TotalSame(docs, One(), _ => 1);
  }

  /** m elements taken from a category of g documents: n times the error is at most n / 2. */
  predicate WithinOne(n: int, m: int, size: int, g: int) {
    -n <= 2 * (n * m - g * size) <= n
  }

  lemma ChosenSize(docs: seq<Document>, c: string, size: nat)
    requires docs != [] && size < |docs|
    ensures |Chosen(docs, c, size)| == RoundHalfEven(|GroupOf(docs, c)| * size, |docs|)
    ensures WithinOne(|docs|, |Chosen(docs, c, size)|, size, |GroupOf(docs, c)|)
  {
    var group := GroupOf(docs, c);
    GroupSize(docs, c);
    ClampIsIdle(|group|, |docs|, size);
    RankedSorts(group);
    RoundingError(|group| * size, |docs|);
  }

  lemma SizesSnoc(docs: seq<Document>, cs: seq<string>, size: int)
    requires docs != [] && cs != []
    ensures var c, rest := cs[|cs| - 1], cs[..|cs| - 1];
            && |ChosenFrom(docs, cs, size)| == |ChosenFrom(docs, rest, size)| + |Chosen(docs, c, size)|
            && Total(cs, Size(docs)) == Total(rest, Size(docs)) + Size(docs)(c)
  {
    hide Chosen, GroupOf;
  }

  /** m elements taken for k categories with s documents: n times the error is at most k * n / 2. */
  predicate Within(n: int, k: int, m: int, size: int, s: int) {
    -(k * n) <= 2 * (n * m - size * s) <= k * n
  }

  lemma {:induction false} ChosenSizes(docs: seq<Document>, cs: seq<string>, size: nat)
    requires docs != [] && size < |docs|
    ensures Within(|docs|, |cs|, |ChosenFrom(docs, cs, size)|, size, Total(cs, Size(docs)))
  {
    hide Within, WithinOne, Chosen, GroupOf, RoundHalfEven;
    if cs == [] {
      WithinNothing(|docs|, size);
      assert Total(cs, Size(docs)) == 0 && ChosenFrom(docs, cs, size) == [];
    } else {
      hide ChosenFrom, Total;
      SizesSnoc(docs, cs, size);
      var n, c, rest := |docs|, cs[|cs| - 1], cs[..|cs| - 1];
      ChosenSizes(docs, rest, size);
      ChosenSize(docs, c, size);
      AddErrors(
        n, |rest|, |ChosenFrom(docs, rest, size)|, |Chosen(docs, c, size)|, size, Total(rest, Size(docs)),
        Size(docs)(c));
    }
  }

  lemma WithinNothing(n: int, size: int)
    ensures Within(n, 0, 0, size, 0)
  {
  }

  lemma AddErrors(n: int, k: int, a: int, b: int, size: int, s: int, g: int)
    requires Within(n, k, a, size, s) && WithinOne(n, b, size, g)
    ensures Within(n, k + 1, a + b, size, s + g)
  {
    assert n * (a + b) == n * a + n * b;
    assert size * (s + g) == size * s + g * size;
    assert (k + 1) * n == k * n + n;
  }

  /** The size of a proper sample misses the requested size by at most half the number of categories. */
  lemma SampleSize(docs: seq<Document>, size: nat)
    requires size < |docs|
    ensures var sampled := ChosenFrom(docs, CategoriesOf(docs), size);
            -|CategoriesOf(docs)| <= 2 * (|sampled| - size) <= |CategoriesOf(docs)|
  {
    hide ChosenFrom, CategoriesOf, Within;
    ChosenSizes(docs, CategoriesOf(docs), size);
    GroupSizesSum(docs);
    ErrorPerCategory(|docs|, |CategoriesOf(docs)|, |ChosenFrom(docs, CategoriesOf(docs), size)|, size);
  }

  lemma ErrorPerCategory(n: int, k: int, m: int, size: int)
    requires n > 0 && Within(n, k, m, size, n)
    ensures -k <= 2 * (m - size) <= k
  {
    var d := 2 * (m - size);
    assert 2 * (n * m - size * n) == n * d;
    DivideOut(n, k, d);
  }

  lemma DivideOut(n: int, k: int, d: int)
    requires n > 0
    ensures -(k * n) <= n * d <= k * n ==> -k <= d <= k
  {
    if d > k {
      Multiply(k + 1, d, n);
      assert n * (k + 1) == k * n + n;
    }
    if d < -k {
      Multiply(d, -k - 1, n);
      assert n * (-k - 1) == -(k * n) - n;
    }
  }

  lemma RoundsToNothingOrMore(p: int, q: int)
    requires q > 0
    ensures RoundHalfEven(p, q) >= 0 <==> 2 * p >= -q
  {
    var f, r := p / q, p % q;
    assert p == q * f + r;
    if f <= -2 {
      Multiply(f, -2, q);
    } else if f >= 0 {
      Multiply(0, f, q);
    }
  }

  /**
   Every category gives exactly its rounded share for all sizes from zero on; a negative size breaks that for a category
   exactly when its share rounds below zero, because the slice then counts from the end.
   */
  lemma ShareIsTakenExactlyWhen(docs: seq<Document>, c: string, size: int)
    requires docs != [] && size < |docs|
    ensures |Chosen(docs, c, size)| == RoundHalfEven(|GroupOf(docs, c)| * size, |docs|) <==>
            2 * (|GroupOf(docs, c)| * size) >= -|docs|
    ensures size >= 0 ==> |Chosen(docs, c, size)| == RoundHalfEven(|GroupOf(docs, c)| * size, |docs|)
  {
    hide RoundHalfEven, Ranked, GroupOf;
    var group, n := GroupOf(docs, c), |docs|;
    GroupSize(docs, c);
    RankedSorts(group);
    RoundsToNothingOrMore(|group| * size, n);
    if size >= 0 {
      ClampIsIdle(|group|, n, size);
    } else {
      Multiply(size, 0, |group|);
      AtMostZero(|group| * size, n);
    }
  }

  lemma AtMostZero(p: int, q: int)
    requires p <= 0 < q
    ensures RoundHalfEven(p, q) <= 0
  {
    var f := p / q;
    assert p == q * f + p % q;
    Multiply(if f > 0 then 1 else f, f, q);
  }

  lemma RankedOne(a: Document)
    ensures Ranked([a]) == [a]
  {
    assert [a][..0] == [];
    assert Ranked([]) == [];
  }

  lemma InsertBehind(a: Document, b: Document)
    requires a.rank <= b.rank
    ensures InsertRanked(b, [a]) == [a, b]
  {
    assert [a][1..] == [];
    assert InsertRanked(b, []) == [b];
  }

  lemma RankedTwo(a: Document, b: Document)
    requires a.rank <= b.rank
    ensures Ranked([a, b]) == [a, b]
  {
    assert [a, b][..1] == [a];
    RankedOne(a);
    InsertBehind(a, b);
  }

  lemma GroupOfTwo(a: Document, b: Document)
    requires a.category == b.category
    ensures GroupOf([a, b], a.category) == [a, b]
  {
    assert [a, b][..1] == [a] && [a][..0] == [];
    assert GroupOf([a], a.category) == [a];
  }

  lemma CategoriesOfTwo(a: Document, b: Document)
    requires a.category == b.category
    ensures CategoriesOf([a, b]) == [a.category]
  {
    assert [a, b][..1] == [a] && [a][..0] == [];
    assert CategoriesOf([a]) == [a.category];
  }

  lemma ChosenFromOne(docs: seq<Document>, c: string, size: int)
    requires docs != []
    ensures ChosenFrom(docs, [c], size) == Chosen(docs, c, size)
  {
    assert [c][..0] == [];
    assert ChosenFrom(docs, [], size) == [];
  }

  /** Without a sign check, asking for a negative number of documents selects some: the slice counts from the end. */
  lemma NegativeSizeSelects(a: Document, b: Document)
    requires a.category == b.category && a.rank <= b.rank
    ensures ChosenFrom([a, b], CategoriesOf([a, b]), -1) == [a]
  {
    hide Ranked, GroupOf, CategoriesOf, ChosenFrom, RoundHalfEven;
    var docs := [a, b];
    CategoriesOfTwo(a, b);
    ChosenFromOne(docs, a.category, -1);
    GroupOfTwo(a, b);
    RankedTwo(a, b);
    MinusHalf();
    assert Prefix(docs, -1) == [a];
  }

  lemma MinusHalf()
    ensures RoundHalfEven(2 * -1, 2) == -1
  {
  }

  /** Each category contributes its lowest-ranked documents. */
  lemma LowestRanked(docs: seq<Document>, c: string, size: nat)
    requires docs != [] && size < |docs|
    ensures var chosen := Chosen(docs, c, size);
            var rest := multiset(GroupOf(docs, c)) - multiset(chosen);
            && multiset(chosen) <= multiset(GroupOf(docs, c)) && Sorted(chosen)
            && forall x, y :: x in chosen && y in rest ==> x.rank <= y.rank
  {
    hide GroupOf, Ranked, RoundHalfEven;
    var group := GroupOf(docs, c);
    GroupSize(docs, c);
    ClampIsIdle(|group|, |docs|, size);
    RankedSorts(group);
    PrefixIsLowest(Ranked(group), RoundHalfEven(|group| * size, |docs|));
  }

  lemma PrefixIsLowest(ranked: seq<Document>, k: int)
    requires Sorted(ranked) && 0 <= k <= |ranked|
    ensures multiset(ranked[..k]) <= multiset(ranked)
    ensures forall x, y :: x in ranked[..k] && y in multiset(ranked) - multiset(ranked[..k]) ==> x.rank <= y.rank
  {
    assert ranked == ranked[..k] + ranked[k..];
    assert multiset(ranked) - multiset(ranked[..k]) == multiset(ranked[k..]);
    forall x, y | x in ranked[..k] && y in multiset(ranked[k..]) ensures x.rank <= y.rank {
      var i :| 0 <= i < k && ranked[i] == x;
      var j :| 0 <= j < |ranked[k..]| && ranked[k..][j] == y;
      assert ranked[k + j] == y;
    }
  }

  lemma {:induction false} GroupCounts(docs: seq<Document>, c: string, x: Document)
    ensures multiset(GroupOf(docs, c))[x] == if x.category == c then multiset(docs)[x] else 0
  {
    if docs != [] {
      GroupCounts(docs[..|docs| - 1], c, x);
      assert docs == docs[..|docs| - 1] + [docs[|docs| - 1]];
    }
  }

  lemma {:induction false} ChosenCounts(docs: seq<Document>, cs: seq<string>, size: nat, x: Document)
    requires docs != [] && size < |docs|
    requires forall a, b :: 0 <= a < b < |cs| ==> cs[a] != cs[b]
    ensures multiset(ChosenFrom(docs, cs, size))[x] <= if x.category in cs then multiset(docs)[x] else 0
  {
    if cs != [] {
      hide Chosen;
      var c, rest := cs[|cs| - 1], cs[..|cs| - 1];
      assert cs == rest + [c];
      ChosenCounts(docs, rest, size, x);
      LowestRanked(docs, c, size);
      GroupCounts(docs, c, x);
    }
  }

  /** Nothing is selected more often than it occurs. */
  lemma SampleIsSelection(docs: seq<Document>, size: nat)
    requires size < |docs|
    ensures multiset(ChosenFrom(docs, CategoriesOf(docs), size)) <= multiset(docs)
  {
    CategoriesDistinct(docs);
    forall x ensures multiset(ChosenFrom(docs, CategoriesOf(docs), size))[x] <= multiset(docs)[x] {
      ChosenCounts(docs, CategoriesOf(docs), size, x);
    }
  }
}
