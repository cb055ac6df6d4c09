/**
 The overview figures of a network as the HTML report and as the interactive page compute them.
 */
module Metrics {
  import opened Totals
  import opened Network
  import opened JobModel

  datatype Overview = Overview(
    nodeCount: nat, edgeCount: nat, connectedNodes: nat, isolatedNodes: int,
    hateNodes: nat, hateEdges: nat, averageDegree: real, density: real)

  /** One stored node: its key, counts, and the degree among its metrics, if it has one. */
  datatype Node = Node(key: string, comments: nat, hate: nat, degree: Option<nat>)

  function Max(a: int, b: int): int {
    if a >= b then a else b
  }

  function Degree(): Node -> nat { (n: Node) => if n.degree.Some? then n.degree.value else 0 }
  function HateNode(): Node -> nat { (n: Node) => if n.hate > 0 then 1 else 0 }
  function HateEdge(): Edge -> nat { (e: Edge) => if e.hate then 1 else 0 }

  // ----- the report: set comprehensions and sums ------------------------------------------------------------------

  /** {key for edge in edges for key in (source, target)} */
  function Connected(edges: seq<Edge>): set<string> {
    (set e | e in edges :: e.source) + (set e | e in edges :: e.target)
  }

  /** {(source, target) for edge in edges if source != target} */
  function UniquePairs(edges: seq<Edge>): set<(string, string)> {
    set e | e in edges && e.source != e.target :: (e.source, e.target)
  }

  /** float(metrics.get("degree") or 0) for every node */
  function FloatDegrees(nodes: seq<Node>): seq<real> {
    if nodes == [] then []
    else FloatDegrees(nodes[..|nodes| - 1]) + [Degree()(nodes[|nodes| - 1]) as real]
  }

  function Sum(values: seq<real>): real {
    if values == [] then 0.0 else Sum(values[..|values| - 1]) + values[|values| - 1]
  }

  lemma MorePairs(n: nat)
    requires n > 1
    ensures n * (n - 1) > 0
  {
  }

  /** _network_overview of the report renderer. */
  function ReportOverview(nodes: seq<Node>, edges: seq<Edge>): Overview {
    var connected, uniqueEdges, nodeCount := Connected(edges), UniquePairs(edges), |nodes|;
    Overview(
      nodeCount, |edges|, |connected|, Max(0, nodeCount - |connected|),
      Total(nodes, HateNode()), Total(edges, HateEdge()),
      if nodeCount != 0 then Sum(FloatDegrees(nodes)) / nodeCount as real else 0.0,
      if nodeCount > 1 then
        MorePairs(nodeCount);
        |uniqueEdges| as real / (nodeCount * (nodeCount - 1)) as real * 100.0
      else 0.0)
  }

  // ----- the page: filters, maps and reduces ----------------------------------------------------------------------

  function Filter<T>(s: seq<T>, keep: T -> bool): seq<T> {
    if s == [] then [] else (if keep(s[0]) then [s[0]] else []) + Filter(s[1..], keep)
  }

  function Map<T, U>(s: seq<T>, f: T -> U): seq<U> {
    if s == [] then [] else [f(s[0])] + Map(s[1..], f)
  }

  function FlatMap<T, U>(s: seq<T>, f: T -> seq<U>): seq<U> {
    if s == [] then [] else f(s[0]) + FlatMap(s[1..], f)
  }

  function Reduce<T, A>(s: seq<T>, f: (A, T) -> A, init: A): A {
    if s == [] then init else Reduce(s[1..], f, f(init, s[0]))
  }

  /** The page keys its pairs by one string, with a NUL between source and target. */
  function PairKey(source: string, target: string): string {
    source + "\0" + target
  }

  function Ends(): Edge -> seq<string> { (e: Edge) => [e.source, e.target] }
  function NoLoop(): Edge -> bool { (e: Edge) => e.source != e.target }
  function EdgeKey(): Edge -> string { (e: Edge) => PairKey(e.source, e.target) }
  function IsHateNode(): Node -> bool { (n: Node) => n.hate > 0 }
  function IsHateEdge(): Edge -> bool { (e: Edge) => e.hate }

  /** numberMetric(node, "degree"): an absent metric is 0. */
  function NumberMetric(n: Node): real {
    match n.degree
    case Some(d) => d as real
    case None => 0.0
  }

  function AddDegree(): (real, Node) -> real { (sum: real, n: Node) => sum + NumberMetric(n) }

  function ConnectedKeys(edges: seq<Edge>): set<string> {
    Elements(FlatMap(edges, Ends()))
  }

  function UniqueKeys(edges: seq<Edge>): set<string> {
    Elements(Map(Filter(edges, NoLoop()), EdgeKey()))
  }

  /** buildNetworkMetrics of the page. */
  function PageMetrics(nodes: seq<Node>, edges: seq<Edge>): Overview {
    var connected, uniqueEdges, nodeCount := ConnectedKeys(edges), UniqueKeys(edges), |nodes|;
    Overview(
      nodeCount, |edges|, |connected|, Max(0, nodeCount - |connected|),
      |Filter(nodes, IsHateNode())|, |Filter(edges, IsHateEdge())|,
      if nodeCount != 0 then Reduce(nodes, AddDegree(), 0.0) / nodeCount as real else 0.0,
      if nodeCount > 1 then
        MorePairs(nodeCount);
        |uniqueEdges| as real / (nodeCount * (nodeCount - 1)) as real * 100.0
      else 0.0)
  }

  // ----- what filters, maps and reduces come to -------------------------------------------------------------------

  lemma {:induction false} FilterElements<T>(s: seq<T>, keep: T -> bool)
    ensures forall x :: x in Filter(s, keep) <==> x in s && keep(x)
  {
    if s != [] {
      FilterElements(s[1..], keep);
      assert s == [s[0]] + s[1..];
    }
  }

  lemma {:induction false} MapElements<T, U>(s: seq<T>, f: T -> U)
    ensures forall y :: y in Map(s, f) <==> exists x :: x in s && f(x) == y
  {
    if s != [] {
      var rest := s[1..];
      MapElements(rest, f);
      assert s == [s[0]] + rest;
      forall y ensures y in Map(s, f) <==> exists x :: x in s && f(x) == y {
        if y == f(s[0]) {
          assert s[0] in s;
        }
        if y in Map(rest, f) {
          var x :| x in rest && f(x) == y;
          assert x in s;
        }
      }
    }
  }

  lemma {:induction false} FlatMapEnds(edges: seq<Edge>)
    ensures forall k :: k in FlatMap(edges, Ends()) <==> k in Connected(edges)
  {
    if edges != [] {
      var rest := edges[1..];
      FlatMapEnds(rest);
      assert edges == [edges[0]] + rest;
      assert Connected(edges) == Connected(rest) + {edges[0].source, edges[0].target};
    }
  }

  /** Counting a filtered list is adding ones over the list. */
  lemma {:induction false} FilterCounts<T>(s: seq<T>, keep: T -> bool, w: T -> nat)
    requires forall x :: w(x) == if keep(x) then 1 else 0
    ensures |Filter(s, keep)| == Total(s, w)
  {
    if s != [] {
      FilterCounts(s[1..], keep, w);
      TotalConcat([s[0]], s[1..], w);
      assert [s[0]] + s[1..] == s;
      assert Total([s[0]], w) == Total([], w) + w(s[0]) by {
        assert [s[0]][..0] == [];
      }
    }
  }

  /** Summing floats is summing the degrees. */
  lemma {:induction false} FloatSum(nodes: seq<Node>)
    ensures Sum(FloatDegrees(nodes)) == Total(nodes, Degree()) as real
  {
    if nodes != [] {
      var ds, rest := FloatDegrees(nodes), nodes[..|nodes| - 1];
      FloatSum(rest);
      assert ds[..|ds| - 1] == FloatDegrees(rest);
    }
  }

  /** A reduce that adds degrees from the left comes to the same. */
  lemma {:induction false} ReduceSum(nodes: seq<Node>, init: real)
    ensures Reduce(nodes, AddDegree(), init) == init + Total(nodes, Degree()) as real
  {
    if nodes != [] {
      var first, rest := nodes[0], nodes[1..];
      ReduceSum(rest, AddDegree()(init, first));
      TotalConcat([first], rest, Degree());
      assert [first] + rest == nodes;
      assert Total([first], Degree()) == Total([], Degree()) + Degree()(first) by {
        assert [first][..0] == [];
      }
    }
  }

  // ----- the two agree -------------------------------------------------------------------------------------------

  ghost predicate NulFree(s: string) {
    forall i :: 0 <= i < |s| ==> s[i] != '\0'
  }

  /** A key without NUL in its source tells where the source ends. */
  lemma PairKeyInjective(a: string, b: string, c: string, d: string)
    requires NulFree(a) && NulFree(c) && PairKey(a, b) == PairKey(c, d)
    ensures a == c && b == d
  {
    var k, l := PairKey(a, b), PairKey(c, d);
    assert k[|a|] == '\0' && l[|c|] == '\0';
    assert forall i :: 0 <= i < |c| ==> k[i] != '\0';
    assert forall i :: 0 <= i < |a| ==> l[i] != '\0';
    assert |a| == |c|;
    assert a == k[..|a|] && c == l[..|c|];
    assert b == k[|a| + 1..] && d == l[|c| + 1..];
  }

  lemma {:induction false} SameSize(pairs: set<(string, string)>)
    requires forall p :: p in pairs ==> NulFree(p.0)
    ensures |pairs| == |set p | p in pairs :: PairKey(p.0, p.1)|
    decreases |pairs|
  {
    var keys := set p | p in pairs :: PairKey(p.0, p.1);
    if pairs != {} {
      var p :| p in pairs;
      var rest := pairs - {p};
      var restKeys := set q | q in rest :: PairKey(q.0, q.1);
      SameSize(rest);
      if PairKey(p.0, p.1) in restKeys {
        var q :| q in rest && PairKey(q.0, q.1) == PairKey(p.0, p.1);
        PairKeyInjective(q.0, q.1, p.0, p.1);
        assert false;
      }
      assert keys == restKeys + {PairKey(p.0, p.1)};
    }
  }

  lemma UniqueKeysMeans(edges: seq<Edge>)
    ensures UniqueKeys(edges) == set p | p in UniquePairs(edges) :: PairKey(p.0, p.1)
  {
    FilterElements(edges, NoLoop());
    MapElements(Filter(edges, NoLoop()), EdgeKey());
    var keys := set p | p in UniquePairs(edges) :: PairKey(p.0, p.1);
    forall k | k in UniqueKeys(edges) ensures k in keys {
      var e :| e in Filter(edges, NoLoop()) && EdgeKey()(e) == k;
      assert (e.source, e.target) in UniquePairs(edges);
    }
    forall k | k in keys ensures k in UniqueKeys(edges) {
      var p :| p in UniquePairs(edges) && PairKey(p.0, p.1) == k;
      var e :| e in edges && e.source != e.target && (e.source, e.target) == p;
      assert e in Filter(edges, NoLoop()) && EdgeKey()(e) == k;
    }
  }

  /** Seven of the eight figures agree on any nodes and edges. */
  lemma FiguresAgree(nodes: seq<Node>, edges: seq<Edge>)
    ensures var p, r := PageMetrics(nodes, edges), ReportOverview(nodes, edges);
            p == r.(density := p.density)
  {
    hide UniqueKeys, UniquePairs;
    FlatMapEnds(edges);
    assert ConnectedKeys(edges) == Connected(edges);
    FilterCounts(nodes, IsHateNode(), HateNode());
    FilterCounts(edges, IsHateEdge(), HateEdge());
    FloatSum(nodes);
    ReduceSum(nodes, 0.0);
  }

  /** And the density too whenever no source key contains a NUL, which PostgreSQL text never does. */
  lemma PageAgreesWithReport(nodes: seq<Node>, edges: seq<Edge>)
    requires forall e :: e in edges ==> NulFree(e.source)
    ensures PageMetrics(nodes, edges) == ReportOverview(nodes, edges)
  {
    FiguresAgree(nodes, edges);
    SameSize(UniquePairs(edges));
    UniqueKeysMeans(edges);
  }

  /** A node is connected iff it is an end of some edge. */
  lemma ConnectedMeans(edges: seq<Edge>)
    ensures forall k :: k in Connected(edges) <==> exists e :: e in edges && (e.source == k || e.target == k)
  {
    forall k | k in Connected(edges) ensures exists e :: e in edges && (e.source == k || e.target == k) {
      var e :| e in edges && (e.source == k || e.target == k);
    }
  }

  /** A pair is joined iff its two ends differ and some edge leads from the one to the other. */
  lemma UniquePairsMean(edges: seq<Edge>)
    ensures forall a, b :: (a, b) in UniquePairs(edges) <==>
              a != b && exists e :: e in edges && e.source == a && e.target == b
  {
  }

  /** Both hate figures count what is hateful. */
  lemma HateFigures(nodes: seq<Node>, edges: seq<Edge>)
    ensures var o := ReportOverview(nodes, edges);
            && o.hateNodes == |Positions(nodes, (n: Node) => n.hate > 0)|
            && o.hateEdges == |Positions(edges, (e: Edge) => e.hate)|
  {
    hide UniquePairs, Connected, Sum, FloatDegrees, Total;
    TotalCounts(nodes, HateNode(), (n: Node) => n.hate > 0);
    TotalCounts(edges, HateEdge(), (e: Edge) => e.hate);
  }

  /** The density is the share of the possible ordered pairs that are joined, in percent. */
  lemma DensityMeans(nodes: seq<Node>, edges: seq<Edge>)
    ensures var o := ReportOverview(nodes, edges);
            if |nodes| > 1 then o.density * Square(|nodes|) == 100.0 * |UniquePairs(edges)| as real
            else o.density == 0.0
  {
    hide UniquePairs, Connected, Sum, FloatDegrees, Total;
    if |nodes| > 1 {
      MorePairs(|nodes|);
      Undivide(|UniquePairs(edges)| as real, Square(|nodes|));
    }
  }

  /** The number of ordered pairs of n nodes. */
  function Square(n: nat): real {
    (n * (n - 1)) as real
  }

  lemma Undivide(u: real, p: real)
    requires p > 0.0
    ensures u / p * 100.0 * p == 100.0 * u
  {
    var q := u / p;
    assert q * p == u;
    assert q * 100.0 * p == 100.0 * (q * p);
  }

  // ----- bounds ----------------------------------------------------------------------------------------------------

  function Pairs(keys: set<string>): set<(string, string)> {
    set a, b | a in keys && b in keys && a != b :: (a, b)
  }

  lemma PairsWithout(keys: set<string>, k: string)
    requires k in keys
    ensures var rest := keys - {k};
            var p, q, r := Pairs(rest), set b | b in rest :: (k, b), set a | a in rest :: (a, k);
            Pairs(keys) == p + q + r && p !! q && (p + q) !! r
  {
  }

  lemma {:induction false} Spokes(keys: set<string>, k: string)
    ensures |set b | b in keys :: (k, b)| == |keys|
    ensures |set a | a in keys :: (a, k)| == |keys|
    decreases |keys|
  {
    if keys != {} {
      var x :| x in keys;
      var rest := keys - {x};
      Spokes(rest, k);
      assert (set b | b in keys :: (k, b)) == (set b | b in rest :: (k, b)) + {(k, x)};
      assert (set a | a in keys :: (a, k)) == (set a | a in rest :: (a, k)) + {(x, k)};
    }
  }

  lemma Union3<T>(p: set<T>, q: set<T>, r: set<T>)
    requires p !! q && (p + q) !! r
    ensures |p + q + r| == |p| + |q| + |r|
  {
  }

  lemma PairsStep(keys: set<string>, k: string)
    requires k in keys
    ensures |Pairs(keys)| == |Pairs(keys - {k})| + |keys - {k}| + |keys - {k}|
  {
    hide Pairs;
    var rest := keys - {k};
    PairsWithout(keys, k);
    Spokes(rest, k);
    Union3(Pairs(rest), set b | b in rest :: (k, b), set a | a in rest :: (a, k));
  }

  lemma SquareStep(m: nat)
    ensures m * (m - 1) + m + m == (m + 1) * m
  {
  }

  /** n keys have n(n-1) ordered pairs. */
  lemma {:induction false} PairsCount(keys: set<string>)
    ensures |Pairs(keys)| == |keys| * (|keys| - 1)
    decreases |keys|
  {
    if keys == {} {
      assert Pairs(keys) == {};
    } else {
      var k :| k in keys;
      var rest := keys - {k};
      PairsCount(rest);
      PairsStep(keys, k);
      SquareStep(|rest|);
    }
  }

  /** The node rows that the builder stores for its dictionary: one per key, with the degrees added up. */
  ghost predicate StoredNodes(nodes: seq<Node>, rows: seq<Row>) {
    && (forall a, b :: 0 <= a < b < |nodes| ==> nodes[a].key != nodes[b].key)
    && (forall n :: n in nodes ==>
          var s := StatsFor(rows, ById(rows), n.key);
          n == Node(n.key, s.comments, s.hate, Some(s.inDegree + s.outDegree)))
    && KeySet(nodes) == Keys(rows)
  }

  lemma {:induction false} KeysSize(nodes: seq<Node>)
    requires forall a, b :: 0 <= a < b < |nodes| ==> nodes[a].key != nodes[b].key
    ensures |KeySet(nodes)| == |nodes|
  {
    if nodes != [] {
      KeysSize(nodes[..|nodes| - 1]);
      KeySetGrows(nodes);
    }
  }

  function KeySet(nodes: seq<Node>): set<string> {
    set n | n in nodes :: n.key
  }

  lemma KeySetGrows(nodes: seq<Node>)
    requires nodes != [] && forall a, b :: 0 <= a < b < |nodes| ==> nodes[a].key != nodes[b].key
    ensures var last, rest := nodes[|nodes| - 1], nodes[..|nodes| - 1];
            KeySet(nodes) - {last.key} == KeySet(rest) && last.key in KeySet(nodes)
  {
    assert nodes == nodes[..|nodes| - 1] + [nodes[|nodes| - 1]];
  }

  lemma {:induction false} NodesSum(nodes: seq<Node>, f: string -> nat, w: Node -> nat)
    requires forall a, b :: 0 <= a < b < |nodes| ==> nodes[a].key != nodes[b].key
    requires forall n :: n in nodes ==> w(n) == f(n.key)
    ensures Total(nodes, w) == SumOver(KeySet(nodes), f)
  {
    if nodes == [] {
      assert KeySet(nodes) == {};
    } else {
      hide KeySet;
      var last, rest := nodes[|nodes| - 1], nodes[..|nodes| - 1];
      KeySetGrows(nodes);
      assert forall n :: n in rest ==> n in nodes;
      NodesSum(rest, f, w);
      SumExtract(KeySet(nodes), f, last.key);
    }
  }

  /**
   On every network the builder stores: edge ends are nodes, so the isolated count is exact; the average degree is
   2E/n; and distinct edges between different authors number at most n(n-1), so density is a percentage.
   */
  lemma StoredNetworkFigures(nodes: seq<Node>, rows: seq<Row>)
    requires StoredNodes(nodes, rows)
    ensures var edges := EdgesOf(rows, ById(rows));
            var o := ReportOverview(nodes, edges);
            && o.nodeCount == |Keys(rows)|
            && Connected(edges) <= Keys(rows) && o.isolatedNodes + o.connectedNodes == o.nodeCount
            && |UniquePairs(edges)| <= o.nodeCount * (o.nodeCount - 1)
            && 0.0 <= o.density <= 100.0
            && Total(nodes, Degree()) == 2 * o.edgeCount
            && (o.nodeCount > 0 ==> o.averageDegree == (2 * o.edgeCount) as real / o.nodeCount as real)
  {
    hide EdgesOf, ById, Connected, UniquePairs, Pairs, Total, FloatDegrees, Sum;
    var edges := EdgesOf(rows, ById(rows));
    KeysSize(nodes);
    EdgesInside(rows);
    SubsetSize(Connected(edges), Keys(rows));
    PairsCount(Keys(rows));
    SubsetSize(UniquePairs(edges), Pairs(Keys(rows)));
    DegreesSum(nodes, rows);
    FloatSum(nodes);
    PercentBound(|UniquePairs(edges)|, |nodes|);
  }

  lemma EdgesInside(rows: seq<Row>)
    ensures Connected(EdgesOf(rows, ById(rows))) <= Keys(rows)
    ensures UniquePairs(EdgesOf(rows, ById(rows))) <= Pairs(Keys(rows))
  {
    hide EdgesOf, ById, Keys;
    EdgesJoinNodes(rows, rows);
  }

  lemma PercentBound(u: nat, n: nat)
    requires u <= n * (n - 1)
    ensures n > 1 ==> n * (n - 1) > 0 && 0.0 <= u as real / (n * (n - 1)) as real * 100.0 <= 100.0
  {
    if n > 1 {
      MorePairs(n);
      RatioAtMostOne(u, n * (n - 1));
    }
  }

  lemma RatioAtMostOne(u: nat, p: nat)
    requires u <= p && p > 0
    ensures 0.0 <= u as real / p as real <= 1.0
  {
    var q := u as real / p as real;
    assert q * p as real == u as real;
  }

  lemma DegreesSum(nodes: seq<Node>, rows: seq<Row>)
    requires StoredNodes(nodes, rows)
    ensures Total(nodes, Degree()) == 2 * |EdgesOf(rows, ById(rows))|
  {
    DegreeIsInAndOut(nodes, rows);
    NodesSum(nodes, BothAt(rows), Degree());
    SumAdds(Keys(rows), InAt(rows), OutAt(rows), BothAt(rows));
    NodeSums(rows);
  }

  function InAndOut(rows: seq<Row>, k: string): nat {
    InAt(rows)(k) + OutAt(rows)(k)
  }

  function BothAt(rows: seq<Row>): string -> nat {
    (k: string) => InAndOut(rows, k)
  }

  lemma DegreeIsInAndOut(nodes: seq<Node>, rows: seq<Row>)
    requires StoredNodes(nodes, rows)
    ensures forall n :: n in nodes ==> Degree()(n) == BothAt(rows)(n.key)
  {
    forall n | n in nodes ensures Degree()(n) == BothAt(rows)(n.key) {
      var s := StatsFor(rows, ById(rows), n.key);
      assert n == Node(n.key, s.comments, s.hate, Some(s.inDegree + s.outDegree));
    }
  }

  // ----- grouped display edges ---------------------------------------------------------------------------------------

  datatype Grouped = Grouped(source: string, target: string, frequency: nat, hateCount: nat)

  function Known(e: Edge, nodeKeys: set<string>): bool {
    e.source in nodeKeys && e.target in nodeKeys
  }

  /** Each shown edge counts max(1, weight). */
  function Frequency(nodeKeys: set<string>, weight: Edge -> nat): Edge -> nat {
    (e: Edge) => if !Known(e, nodeKeys) then 0 else if weight(e) > 1 then weight(e) else 1
  }

  function ShownHate(nodeKeys: set<string>): Edge -> nat {
    (e: Edge) => if Known(e, nodeKeys) && e.hate then 1 else 0
  }

  function GroupedKeys(edges: seq<Edge>, nodeKeys: set<string>): set<string> {
    set e | e in edges && Known(e, nodeKeys) :: PairKey(e.source, e.target)
  }

  /** The grouping of a prefix of the edges. */
  ghost predicate GroupsOk(
    grouped: map<string, Grouped>, edges: seq<Edge>, nodeKeys: set<string>, weight: Edge -> nat)
  {
    && grouped.Keys == GroupedKeys(edges, nodeKeys)
    && (forall k :: k in grouped ==> IsPairOf(grouped[k], k, edges, nodeKeys))
    && (forall k :: GroupOf(grouped, k).frequency == ClassTotal(edges, EdgeKey(), Frequency(nodeKeys, weight))(k))
    && (forall k :: GroupOf(grouped, k).hateCount == ClassTotal(edges, EdgeKey(), ShownHate(nodeKeys))(k))
  }

  /** The group shows the two ends of one of its edges. */
  ghost predicate IsPairOf(g: Grouped, k: string, edges: seq<Edge>, nodeKeys: set<string>) {
    exists e :: e in edges && Known(e, nodeKeys) && g.source == e.source && g.target == e.target
                && PairKey(e.source, e.target) == k
  }

  function GroupOf(grouped: map<string, Grouped>, k: string): Grouped {
    if k in grouped then grouped[k] else Grouped("", "", 0, 0)
  }

  /** One edge, known at both ends, joins its group. */
  method AddEdge(grouped0: map<string, Grouped>, e: Edge, weight: Edge -> nat) returns (grouped: map<string, Grouped>)
    ensures grouped.Keys == grouped0.Keys + {PairKey(e.source, e.target)}
    ensures forall k :: k in grouped ==>
              if k in grouped0 then grouped[k].source == grouped0[k].source && grouped[k].target == grouped0[k].target
              else grouped[k].source == e.source && grouped[k].target == e.target
    ensures forall k :: GroupOf(grouped, k).frequency ==
              GroupOf(grouped0, k).frequency +
              (if k == PairKey(e.source, e.target) then if weight(e) > 1 then weight(e) else 1 else 0)
    ensures forall k :: GroupOf(grouped, k).hateCount ==
              GroupOf(grouped0, k).hateCount + (if k == PairKey(e.source, e.target) && e.hate then 1 else 0)
  {
    hide PairKey;
    var key := PairKey(e.source, e.target);
    var value := if key in grouped0 then grouped0[key] else Grouped(e.source, e.target, 0, 0);
    value := value.(frequency := value.frequency + (if weight(e) > 1 then weight(e) else 1));
    value := value.(hateCount := value.hateCount + (if e.hate then 1 else 0));
    grouped := grouped0[key := value];
  }

  lemma ClassesGrow(edges: seq<Edge>, i: nat, nodeKeys: set<string>, weight: Edge -> nat, k: string)
    requires i < |edges|
    ensures var e := edges[i];
            && ClassTotal(edges[..i + 1], EdgeKey(), Frequency(nodeKeys, weight))(k) ==
               ClassTotal(edges[..i], EdgeKey(), Frequency(nodeKeys, weight))(k)
               + (if k == PairKey(e.source, e.target) && Known(e, nodeKeys) then
                    if weight(e) > 1 then weight(e) else 1
                  else 0)
            && ClassTotal(edges[..i + 1], EdgeKey(), ShownHate(nodeKeys))(k) ==
               ClassTotal(edges[..i], EdgeKey(), ShownHate(nodeKeys))(k)
               + (if k == PairKey(e.source, e.target) && Known(e, nodeKeys) && e.hate then 1 else 0)
  {
    TotalPrefix(edges, i, InClass(EdgeKey(), k, Frequency(nodeKeys, weight)));
    TotalPrefix(edges, i, InClass(EdgeKey(), k, ShownHate(nodeKeys)));
  }

  lemma KeysGrow(edges: seq<Edge>, i: nat, nodeKeys: set<string>)
    requires i < |edges|
    ensures GroupedKeys(edges[..i + 1], nodeKeys) ==
            GroupedKeys(edges[..i], nodeKeys) +
            (if Known(edges[i], nodeKeys) then {PairKey(edges[i].source, edges[i].target)} else {})
  {
    hide PairKey;
    assert edges[..i + 1] == edges[..i] + [edges[i]];
  }

  /** buildNetworkElements: the display edges grouped by source and target, edges with an unknown end left out. */
  method GroupEdges(edges: seq<Edge>, nodeKeys: set<string>, weight: Edge -> nat)
    returns (grouped: map<string, Grouped>)
    ensures GroupsOk(grouped, edges, nodeKeys, weight)
  {
    hide PairKey, ClassTotal, GroupedKeys, Known, IsPairOf;
    grouped := map[];
    EmptyGroups(nodeKeys, weight);
    assert edges[..0] == [];
    for i := 0 to |edges|
      invariant GroupsOk(grouped, edges[..i], nodeKeys, weight)
    {
      ghost var before := grouped;
      KeysGrow(edges, i, nodeKeys);
      if Known(edges[i], nodeKeys) {
        grouped := AddEdge(grouped, edges[i], weight);
      }
      PairsGrow(before, grouped, edges, i, nodeKeys);
      forall k
        ensures GroupOf(grouped, k).frequency == ClassTotal(edges[..i + 1], EdgeKey(), Frequency(nodeKeys, weight))(k)
        ensures GroupOf(grouped, k).hateCount == ClassTotal(edges[..i + 1], EdgeKey(), ShownHate(nodeKeys))(k)
      {
        ClassesGrow(edges, i, nodeKeys, weight, k);
        assert GroupOf(before, k).frequency == ClassTotal(edges[..i], EdgeKey(), Frequency(nodeKeys, weight))(k);
      }
    }
    assert edges[..|edges|] == edges;
  }

  lemma PairsGrow(
    before: map<string, Grouped>, grouped: map<string, Grouped>, edges: seq<Edge>, i: nat, nodeKeys: set<string>)
    requires i < |edges| && forall k :: k in before ==> IsPairOf(before[k], k, edges[..i], nodeKeys)
    requires grouped.Keys ==
             before.Keys + (if Known(edges[i], nodeKeys) then {PairKey(edges[i].source, edges[i].target)} else {})
    requires forall k :: k in grouped ==>
               if k in before then grouped[k].source == before[k].source && grouped[k].target == before[k].target
               else grouped[k].source == edges[i].source && grouped[k].target == edges[i].target
    ensures forall k :: k in grouped ==> IsPairOf(grouped[k], k, edges[..i + 1], nodeKeys)
  {
    assert edges[..i + 1] == edges[..i] + [edges[i]];
    forall k | k in grouped ensures IsPairOf(grouped[k], k, edges[..i + 1], nodeKeys) {
      if k in before {
        var e :| e in edges[..i] && Known(e, nodeKeys) && before[k].source == e.source && before[k].target == e.target
                 && PairKey(e.source, e.target) == k;
        assert e in edges[..i + 1];
      } else {
        assert edges[i] in edges[..i + 1];
      }
    }
  }

  /** Each group shows exactly the two ends its key was made of. */
  lemma GroupsShowTheirPair(
    grouped: map<string, Grouped>, edges: seq<Edge>, nodeKeys: set<string>, weight: Edge -> nat, a: string, b: string)
    requires GroupsOk(grouped, edges, nodeKeys, weight) && PairKey(a, b) in grouped
    requires NulFree(a) && forall e :: e in edges ==> NulFree(e.source)
    ensures grouped[PairKey(a, b)].source == a && grouped[PairKey(a, b)].target == b
  {
    hide PairKey, NulFree;
    var g := grouped[PairKey(a, b)];
    assert IsPairOf(g, PairKey(a, b), edges, nodeKeys);
    var e :| e in edges && Known(e, nodeKeys) && g.source == e.source && g.target == e.target
             && PairKey(e.source, e.target) == PairKey(a, b);
    PairKeyInjective(e.source, e.target, a, b);
  }

  /** What an edge adds to the group of a pair of nodes. */
  function Share(a: string, b: string, weight: Edge -> nat): Edge -> nat {
    (e: Edge) => if e.source != a || e.target != b then 0 else if weight(e) == 0 then 1 else weight(e)
  }

  /** There is a group for a pair exactly when both are nodes and some edge joins them. */
  lemma PairHasGroup(edges: seq<Edge>, nodeKeys: set<string>, a: string, b: string)
    requires NulFree(a) && forall e :: e in edges ==> NulFree(e.source)
    ensures PairKey(a, b) in GroupedKeys(edges, nodeKeys) <==>
              a in nodeKeys && b in nodeKeys && exists e :: e in edges && e.source == a && e.target == b
  {
    hide PairKey, NulFree;
    if PairKey(a, b) in GroupedKeys(edges, nodeKeys) {
      var e :| e in edges && Known(e, nodeKeys) && PairKey(e.source, e.target) == PairKey(a, b);
      PairKeyInjective(e.source, e.target, a, b);
    }
  }

  /** The group of a pair of nodes holds the weights, one at least, and the hateful ones of exactly their edges. */
  lemma GroupsCount(
    grouped: map<string, Grouped>, edges: seq<Edge>, nodeKeys: set<string>, weight: Edge -> nat, a: string, b: string)
    requires GroupsOk(grouped, edges, nodeKeys, weight) && a in nodeKeys && b in nodeKeys
    requires NulFree(a) && forall e :: e in edges ==> NulFree(e.source)
    ensures PairKey(a, b) in grouped <==> exists e :: e in edges && e.source == a && e.target == b
    ensures GroupOf(grouped, PairKey(a, b)).frequency == Total(edges, Share(a, b, weight))
    ensures GroupOf(grouped, PairKey(a, b)).hateCount ==
            |Positions(edges, (e: Edge) => e.source == a && e.target == b && e.hate)|
  {
    hide PairKey, NulFree, GroupedKeys;
    PairHasGroup(edges, nodeKeys, a, b);
    var k := PairKey(a, b);
    forall e | e in edges ensures EdgeKey()(e) == k <==> e.source == a && e.target == b {
      if EdgeKey()(e) == k {
        PairKeyInjective(e.source, e.target, a, b);
      }
    }
    TotalSame(edges, InClass(EdgeKey(), k, Frequency(nodeKeys, weight)), Share(a, b, weight));
    TotalCounts(edges, InClass(EdgeKey(), k, ShownHate(nodeKeys)),
      (e: Edge) => e.source == a && e.target == b && e.hate);
  }

  lemma EmptyGroups(nodeKeys: set<string>, weight: Edge -> nat)
    ensures GroupsOk(map[], [], nodeKeys, weight)
  {
  }

  /** Grouping conserves the total frequency and the hate count of the shown edges. */
  lemma GroupingConserves(edges: seq<Edge>, nodeKeys: set<string>, weight: Edge -> nat)
    ensures SumOver(GroupedKeys(edges, nodeKeys), ClassTotal(edges, EdgeKey(), Frequency(nodeKeys, weight))) ==
            Total(edges, Frequency(nodeKeys, weight))
    ensures SumOver(GroupedKeys(edges, nodeKeys), ClassTotal(edges, EdgeKey(), ShownHate(nodeKeys))) ==
            Total(edges, ShownHate(nodeKeys))
  {
    ClassesSum(edges, EdgeKey(), Frequency(nodeKeys, weight), GroupedKeys(edges, nodeKeys));
    ClassesSum(edges, EdgeKey(), ShownHate(nodeKeys), GroupedKeys(edges, nodeKeys));
  }

  /** On a stored network with unit weights nothing is left out: the frequencies add up to the edge count. */
  lemma StoredNetworkShowsAllEdges(rows: seq<Row>)
    ensures var edges := EdgesOf(rows, ById(rows));
            && Total(edges, Frequency(Keys(rows), _ => 1)) == |edges|
            && Total(edges, ShownHate(Keys(rows))) == Total(edges, HateEdge())
  {
    var edges := EdgesOf(rows, ById(rows));
    EdgesJoinNodes(rows, rows);
    TotalSame(edges, Frequency(Keys(rows), _ => 1), _ => 1);
    TotalOnes(edges);
    TotalSame(edges, ShownHate(Keys(rows)), HateEdge());
  }
}
