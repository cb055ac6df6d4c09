/**
 The author reply network of one analysis run, and the metrics read off it.
 */
module Network {
  import opened Totals

  /** A comment row joined with its result; an empty author or parent means that the column has no value. */
  datatype Row = Row(youtubeId: string, uuid: string, author: string, parent: string, hate: bool)

  datatype Stats = Stats(comments: nat, hate: nat, inDegree: nat, outDegree: nat)

  datatype Edge = Edge(source: string, target: string, comment: string, parent: string, hate: bool)

  function NodeKey(r: Row): string {
    if r.author != "" then r.author else "anonymous:" + r.uuid
  }

  /** The unique key (job, youtube comment id). */
  ghost predicate UniqueIds(rows: seq<Row>) {
    forall a, b :: 0 <= a < b < |rows| ==> rows[a].youtubeId != rows[b].youtubeId
  }

  /** The comments dictionary. */
  function ById(rows: seq<Row>): map<string, Row> {
    if rows == [] then map[] else ById(rows[..|rows| - 1])[rows[|rows| - 1].youtubeId := rows[|rows| - 1]]
  }

  predicate Replies(comments: map<string, Row>, r: Row) {
    r.parent != "" && r.parent in comments
  }

  function Target(comments: map<string, Row>, r: Row): string {
    if r.parent in comments then NodeKey(comments[r.parent]) else ""
  }

  function One(): Row -> nat { (r: Row) => 1 }

  function Hateful(): Row -> nat { (r: Row) => if r.hate then 1 else 0 }

  function Reply(comments: map<string, Row>): Row -> nat { (r: Row) => if Replies(comments, r) then 1 else 0 }

  function TargetOf(comments: map<string, Row>): Row -> string { (r: Row) => Target(comments, r) }

  function KeyOf(): Row -> string { (r: Row) => NodeKey(r) }

  /** What one node has to show for, counted row by row. */
  function StatsFor(rows: seq<Row>, comments: map<string, Row>, key: string): Stats {
    Stats(ClassTotal(rows, KeyOf(), One())(key),
          ClassTotal(rows, KeyOf(), Hateful())(key),
          ClassTotal(rows, TargetOf(comments), Reply(comments))(key),
          ClassTotal(rows, KeyOf(), Reply(comments))(key))
  }

  function Keys(rows: seq<Row>): set<string> {
    set r | r in rows :: NodeKey(r)
  }

  function EdgeOf(comments: map<string, Row>, r: Row): Edge
    requires Replies(comments, r)
  {
    Edge(NodeKey(r), Target(comments, r), r.uuid, comments[r.parent].uuid, r.hate)
  }

  /** The edges in row order. */
  function EdgesOf(rows: seq<Row>, comments: map<string, Row>): seq<Edge> {
    if rows == [] then []
    else
      var r := rows[|rows| - 1];
      EdgesOf(rows[..|rows| - 1], comments) + (if Replies(comments, r) then [EdgeOf(comments, r)] else [])
  }

  // ----- the builder -----------------------------------------------------------------------------------------

  /** A node dictionary that is right about its keys, and has every key with something to count. */
  ghost predicate Counts(stats: map<string, Stats>, rows: seq<Row>, comments: map<string, Row>) {
    forall key :: StatsFor(rows, comments, key) == Get(stats, key)
  }

  function Get(stats: map<string, Stats>, key: string): Stats {
    if key in stats then stats[key] else Stats(0, 0, 0, 0)
  }

  lemma StatsGrow(rows: seq<Row>, i: nat, comments: map<string, Row>, key: string)
    requires i < |rows|
    ensures var r, s := rows[i], StatsFor(rows[..i], comments, key);
            StatsFor(rows[..i + 1], comments, key) ==
            Stats(s.comments + (if NodeKey(r) == key then 1 else 0),
                  s.hate + (if NodeKey(r) == key && r.hate then 1 else 0),
                  s.inDegree + (if Replies(comments, r) && Target(comments, r) == key then 1 else 0),
                  s.outDegree + (if Replies(comments, r) && NodeKey(r) == key then 1 else 0))
  {
    TotalPrefix(rows, i, InClass(KeyOf(), key, One()));
    TotalPrefix(rows, i, InClass(KeyOf(), key, Hateful()));
    TotalPrefix(rows, i, InClass(TargetOf(comments), key, Reply(comments)));
    TotalPrefix(rows, i, InClass(KeyOf(), key, Reply(comments)));
  }

  /** One row: its author's node counts it, and a reply adds an edge between two nodes. */
  method AddRow(comments: map<string, Row>, r: Row, stats0: map<string, Stats>, edges0: seq<Edge>)
    returns (stats: map<string, Stats>, edges: seq<Edge>)
    ensures forall k :: var s := Get(stats0, k);
              Get(stats, k) ==
              Stats(s.comments + (if NodeKey(r) == k then 1 else 0),
                    s.hate + (if NodeKey(r) == k && r.hate then 1 else 0),
                    s.inDegree + (if Replies(comments, r) && Target(comments, r) == k then 1 else 0),
                    s.outDegree + (if Replies(comments, r) && NodeKey(r) == k then 1 else 0))
    ensures edges == edges0 + (if Replies(comments, r) then [EdgeOf(comments, r)] else [])
    ensures stats.Keys == stats0.Keys + {NodeKey(r)} + (if Replies(comments, r) then {Target(comments, r)} else {})
  {
    hide NodeKey;
    var key := NodeKey(r);
    stats, edges := stats0, edges0;
    var s := Get(stats, key);
    stats := stats[key := s.(comments := s.comments + 1, hate := s.hate + (if r.hate then 1 else 0))];
    if r.parent != "" && r.parent in comments {
      var target := NodeKey(comments[r.parent]);
      stats := stats[key := stats[key].(outDegree := stats[key].outDegree + 1)];
      s := Get(stats, target);
      stats := stats[target := s.(inDegree := s.inDegree + 1)];
      edges := edges + [Edge(key, target, r.uuid, comments[r.parent].uuid, r.hate)];
    }
  }

  lemma CountsGrow(
    rows: seq<Row>, i: nat, comments: map<string, Row>, stats0: map<string, Stats>, stats: map<string, Stats>)
    requires i < |rows| && Counts(stats0, rows[..i], comments)
    requires forall k :: var r, s := rows[i], Get(stats0, k);
               Get(stats, k) ==
               Stats(s.comments + (if NodeKey(r) == k then 1 else 0),
                     s.hate + (if NodeKey(r) == k && r.hate then 1 else 0),
                     s.inDegree + (if Replies(comments, r) && Target(comments, r) == k then 1 else 0),
                     s.outDegree + (if Replies(comments, r) && NodeKey(r) == k then 1 else 0))
    ensures Counts(stats, rows[..i + 1], comments)
  {
    hide StatsFor, NodeKey, Target;
    forall k ensures StatsFor(rows[..i + 1], comments, k) == Get(stats, k) {
      StatsGrow(rows, i, comments, k);
      assert StatsFor(rows[..i], comments, k) == Get(stats0, k);
    }
  }

  /** The loop over the rows. */
  method Accumulate(rows: seq<Row>, comments: map<string, Row>)
    returns (stats: map<string, Stats>, edges: seq<Edge>)
    requires comments == ById(rows)
    ensures stats.Keys == Keys(rows)
    ensures forall key :: key in stats ==> stats[key] == StatsFor(rows, comments, key)
    ensures edges == EdgesOf(rows, comments)
  {
    hide StatsFor, NodeKey, Target, Counts, EdgesOf, EdgeOf, ById;
    assert rows[..|rows|] == rows;
    stats, edges := map[], [];
    NothingCounted(comments);
    assert Keys(rows[..0]) == {} && rows[..0] == [];
    for i := 0 to |rows|
      invariant Counts(stats, rows[..i], comments) && edges == EdgesOf(rows[..i], comments)
      invariant Keys(rows[..i]) <= stats.Keys <= Keys(rows)
    {
      ghost var before := stats;
      stats, edges := AddRow(comments, rows[i], stats, edges);
      CountsGrow(rows, i, comments, before, stats);
      EdgesGrow(rows, i, comments);
      assert rows[..i + 1] == rows[..i] + [rows[i]] && rows[..i + 1][..i] == rows[..i];
      TargetsAreNodes(rows, rows[i]);
    }
    CountsMean(stats, rows, comments);
  }

  /**
   The builder.  Nodes are the authors of the rows, and one for every row without an author; with unique comment ids the
   edges are the replies to comments of the run.
   */
  method Build(rows: seq<Row>) returns (stats: map<string, Stats>, edges: seq<Edge>)
    ensures stats.Keys == Keys(rows)
    ensures forall key :: key in stats ==> stats[key] == StatsFor(rows, ById(rows), key)
    ensures edges == EdgesOf(rows, ById(rows))
    ensures forall key :: key in stats <==>
              || (exists r :: r in rows && r.author != "" && r.author == key)
              || (exists r :: r in rows && r.author == "" && key == "anonymous:" + r.uuid)
    ensures UniqueIds(rows) ==> EdgesAreReplies(edges, rows)
  {
    hide StatsFor, Keys, EdgesOf, ById, EdgesAreReplies;
    NodesAreAuthors(rows);
    if UniqueIds(rows) {
      NetworkEdgesAreReplies(rows);
    }
    var comments := Indexed(rows);
    stats, edges := Accumulate(rows, comments);
  }

  lemma CountsMean(stats: map<string, Stats>, rows: seq<Row>, comments: map<string, Row>)
    requires Counts(stats, rows, comments)
    ensures forall key :: key in stats ==> stats[key] == StatsFor(rows, comments, key)
  {
    hide StatsFor;
  }

  /** comments = {comment.youtube_comment_id: ... for ... in rows} */
  method Indexed(rows: seq<Row>) returns (comments: map<string, Row>)
    ensures comments == ById(rows)
  {
    comments := map[];
    for i := 0 to |rows|
      invariant comments == ById(rows[..i])
    {
      assert rows[..i + 1][..i] == rows[..i];
      comments := comments[rows[i].youtubeId := rows[i]];
    }
    assert rows[..|rows|] == rows;
  }

  lemma EdgesGrow(rows: seq<Row>, i: nat, comments: map<string, Row>)
    requires i < |rows|
    ensures EdgesOf(rows[..i + 1], comments) ==
            EdgesOf(rows[..i], comments) + (if Replies(comments, rows[i]) then [EdgeOf(comments, rows[i])] else [])
  {
    assert rows[..i + 1][..i] == rows[..i];
  }

  lemma NothingCounted(comments: map<string, Row>)
    ensures Counts(map[], [], comments) && EdgesOf([], comments) == []
  {
  }

  lemma {:induction false} ByIdHolds(rows: seq<Row>, id: string)
    ensures id in ById(rows) ==> ById(rows)[id] in rows && ById(rows)[id].youtubeId == id
    ensures id in ById(rows) <==> exists r :: r in rows && r.youtubeId == id
  {
    if rows != [] {
      ByIdHolds(rows[..|rows| - 1], id);
      assert rows == rows[..|rows| - 1] + [rows[|rows| - 1]];
    }
  }

  lemma TargetsAreNodes(rows: seq<Row>, r: Row)
    ensures Replies(ById(rows), r) ==> Target(ById(rows), r) in Keys(rows)
  {
    ByIdHolds(rows, r.parent);
  }

  // ----- order does not matter ---------------------------------------------------------------------------------

  lemma SameElements(a: seq<Row>, b: seq<Row>)
    requires multiset(a) == multiset(b)
    ensures forall r :: r in a <==> r in b
  {
    assert forall r :: r in a <==> r in multiset(a);
    assert forall r :: r in b <==> r in multiset(b);
  }

  /** With unique ids the dictionary does not depend on the order of the rows. */
  lemma ByIdUnordered(a: seq<Row>, b: seq<Row>)
    requires UniqueIds(a) && multiset(a) == multiset(b)
    ensures ById(a) == ById(b)
  {
    SameElements(a, b);
    forall id ensures id in ById(a) <==> id in ById(b) {
      ByIdHolds(a, id);
      ByIdHolds(b, id);
    }
    forall id | id in ById(a) ensures ById(a)[id] == ById(b)[id] {
      ByIdHolds(a, id);
      ByIdHolds(b, id);
      assert ById(b)[id] in a;
    }
  }

  lemma EdgesSnoc(rows: seq<Row>, r: Row, comments: map<string, Row>)
    ensures EdgesOf(rows + [r], comments) ==
            EdgesOf(rows, comments) + (if Replies(comments, r) then [EdgeOf(comments, r)] else [])
  {
    assert (rows + [r])[..|rows|] == rows;
  }

  lemma {:induction false} EdgesConcat(a: seq<Row>, b: seq<Row>, comments: map<string, Row>)
    ensures EdgesOf(a + b, comments) == EdgesOf(a, comments) + EdgesOf(b, comments)
  {
    if b == [] {
      assert a + b == a;
      assert EdgesOf(b, comments) == [];
    } else {
      hide Replies, EdgeOf, EdgesOf;
      var rest, r := b[..|b| - 1], b[|b| - 1];
      EdgesConcat(a, rest, comments);
      EdgesSnoc(a + rest, r, comments);
      EdgesSnoc(rest, r, comments);
      SplitLast(a, b);
      var own := if Replies(comments, r) then [EdgeOf(comments, r)] else [];
      Regroup(EdgesOf(a, comments), EdgesOf(rest, comments), own);
    }
  }

  lemma SplitLast(a: seq<Row>, b: seq<Row>)
    requires b != []
    ensures var rest, r := b[..|b| - 1], b[|b| - 1];
            b == rest + [r] && a + b == (a + rest) + [r]
  {
  }

  lemma Regroup(p: seq<Edge>, q: seq<Edge>, r: seq<Edge>)
    ensures (p + q) + r == p + (q + r)
  {
  }

  lemma {:induction false} EdgesUnordered(a: seq<Row>, b: seq<Row>, comments: map<string, Row>)
    requires multiset(a) == multiset(b)
    ensures multiset(EdgesOf(a, comments)) == multiset(EdgesOf(b, comments))
    decreases |a|
  {
    assert |a| == |multiset(a)| && |b| == |multiset(b)|;
    if a != [] {
      var n := |a| - 1;
      assert a[n] in multiset(b);
      var i :| 0 <= i < |b| && b[i] == a[n];
      var rest := b[..i] + b[i + 1..];
      RemoveAt(a, n, One());
      RemoveAt(b, i, One());
      assert a[..n] + a[n + 1..] == a[..n];
      Cancel(multiset(a[..n]), multiset(rest), a[n]);
      EdgesUnordered(a[..n], rest, comments);
      EdgesAround(b, i, comments);
    }
  }

  lemma EdgesAround(b: seq<Row>, i: nat, comments: map<string, Row>)
    requires i < |b|
    ensures multiset(EdgesOf(b, comments)) ==
            multiset(EdgesOf(b[..i] + b[i + 1..], comments)) +
            multiset(if Replies(comments, b[i]) then [EdgeOf(comments, b[i])] else [])
  {
    assert b == b[..i + 1] + b[i + 1..];
    EdgesConcat(b[..i + 1], b[i + 1..], comments);
    EdgesGrow(b, i, comments);
    EdgesConcat(b[..i], b[i + 1..], comments);
  }

  /** The network does not depend on the order in which the database returns the comments. */
  lemma NetworkUnordered(a: seq<Row>, b: seq<Row>)
    requires UniqueIds(a) && multiset(a) == multiset(b)
    ensures Keys(a) == Keys(b)
    ensures forall key :: StatsFor(a, ById(a), key) == StatsFor(b, ById(b), key)
    ensures multiset(EdgesOf(a, ById(a))) == multiset(EdgesOf(b, ById(b)))
  {
    var comments := ById(a);
    ByIdUnordered(a, b);
    SameElements(a, b);
    EdgesUnordered(a, b, comments);
    forall key ensures StatsFor(a, comments, key) == StatsFor(b, comments, key) {
      TotalUnordered(a, b, InClass(KeyOf(), key, One()));
      TotalUnordered(a, b, InClass(KeyOf(), key, Hateful()));
      TotalUnordered(a, b, InClass(TargetOf(comments), key, Reply(comments)));
      TotalUnordered(a, b, InClass(KeyOf(), key, Reply(comments)));
    }
  }

  // ----- sums and bounds ---------------------------------------------------------------------------------------

  function CommentsAt(rows: seq<Row>): string -> nat { ClassTotal(rows, KeyOf(), One()) }
  function HateAt(rows: seq<Row>): string -> nat { ClassTotal(rows, KeyOf(), Hateful()) }
  function InAt(rows: seq<Row>): string -> nat { ClassTotal(rows, TargetOf(ById(rows)), Reply(ById(rows))) }
  function OutAt(rows: seq<Row>): string -> nat { ClassTotal(rows, KeyOf(), Reply(ById(rows))) }

  lemma {:induction false} EdgeCount(rows: seq<Row>, comments: map<string, Row>)
    ensures |EdgesOf(rows, comments)| == Total(rows, Reply(comments))
  {
    if rows != [] {
      EdgeCount(rows[..|rows| - 1], comments);
    }
  }

  /** Comments, in-degrees and out-degrees add up over the nodes, each to its total. */
  lemma NodeSums(rows: seq<Row>)
    ensures SumOver(Keys(rows), CommentsAt(rows)) == |rows|
    ensures SumOver(Keys(rows), HateAt(rows)) == Total(rows, Hateful())
    ensures SumOver(Keys(rows), InAt(rows)) == |EdgesOf(rows, ById(rows))|
    ensures SumOver(Keys(rows), OutAt(rows)) == |EdgesOf(rows, ById(rows))|
  {
    var comments := ById(rows);
    forall r | r in rows && Reply(comments)(r) > 0 ensures TargetOf(comments)(r) in Keys(rows) {
      TargetsAreNodes(rows, r);
    }
    ClassesSum(rows, KeyOf(), One(), Keys(rows));
    ClassesSum(rows, KeyOf(), Hateful(), Keys(rows));
    ClassesSum(rows, KeyOf(), Reply(comments), Keys(rows));
    ClassesSum(rows, TargetOf(comments), Reply(comments), Keys(rows));
    EdgeCount(rows, comments);
    TotalOnes(rows);
    TotalSame(rows, One(), _ => 1);
  }

  /** Every node has a comment; nobody wrote more replies, or more hateful comments, than comments. */
  lemma NodeBounds(rows: seq<Row>, key: string)
    ensures key in Keys(rows) <==> StatsFor(rows, ById(rows), key).comments >= 1
    ensures StatsFor(rows, ById(rows), key).outDegree <= StatsFor(rows, ById(rows), key).comments
    ensures StatsFor(rows, ById(rows), key).hate <= StatsFor(rows, ById(rows), key).comments
  {
    TotalZero(rows, InClass(KeyOf(), key, One()));
    TotalAtMost(rows, InClass(KeyOf(), key, Reply(ById(rows))), InClass(KeyOf(), key, One()));
    TotalAtMost(rows, InClass(KeyOf(), key, Hateful()), InClass(KeyOf(), key, One()));
    assert key in Keys(rows) <==> exists r :: r in rows && InClass(KeyOf(), key, One())(r) != 0;
  }

  function HatefulReply(comments: map<string, Row>): Row -> nat {
    (r: Row) => if Replies(comments, r) && r.hate then 1 else 0
  }

  function HatefulFrom(key: string): Edge -> nat {
    (e: Edge) => if e.source == key && e.hate then 1 else 0
  }

  lemma {:induction false} HatefulEdgesFrom(rows: seq<Row>, comments: map<string, Row>, key: string)
    ensures Total(EdgesOf(rows, comments), HatefulFrom(key)) ==
            Total(rows, InClass(KeyOf(), key, HatefulReply(comments)))
  {
    if rows != [] {
      var r, rest := rows[|rows| - 1], rows[..|rows| - 1];
      HatefulEdgesFrom(rest, comments, key);
      if Replies(comments, r) {
        TotalSnoc(EdgesOf(rest, comments), EdgeOf(comments, r), HatefulFrom(key));
      } else {
        assert EdgesOf(rows, comments) == EdgesOf(rest, comments);
      }
    }
  }

  /** Hateful edges leaving a node never outnumber its hateful comments. */
  lemma HatefulEdgesBound(rows: seq<Row>, key: string)
    ensures Total(EdgesOf(rows, ById(rows)), HatefulFrom(key)) <= StatsFor(rows, ById(rows), key).hate
  {
    HatefulEdgesFrom(rows, ById(rows), key);
    TotalAtMost(rows, InClass(KeyOf(), key, HatefulReply(ById(rows))), InClass(KeyOf(), key, Hateful()));
  }

  /** Both ends of every stored edge are nodes. */
  lemma {:induction false} EdgesJoinNodes(rows: seq<Row>, all: seq<Row>)
    requires forall r :: r in rows ==> r in all
    ensures forall e :: e in EdgesOf(rows, ById(all)) ==> e.source in Keys(all) && e.target in Keys(all)
  {
    if rows != [] {
      var rest := rows[..|rows| - 1];
      assert forall r :: r in rest ==> r in rows;
      EdgesJoinNodes(rest, all);
      TargetsAreNodes(all, rows[|rows| - 1]);
    }
  }

  // ----- the network, said of the rows' own columns --------------------------------------------------------------

  /** The nodes are the authors, and one for every comment without an author. */
  lemma NodesAreAuthors(rows: seq<Row>)
    ensures forall key :: key in Keys(rows) <==>
              || (exists r :: r in rows && r.author != "" && r.author == key)
              || (exists r :: r in rows && r.author == "" && key == "anonymous:" + r.uuid)
  {
    forall key | key in Keys(rows)
      ensures || (exists r :: r in rows && r.author != "" && r.author == key)
              || (exists r :: r in rows && r.author == "" && key == "anonymous:" + r.uuid)
    {
      var r :| r in rows && NodeKey(r) == key;
    }
    forall r | r in rows && r.author != "" ensures r.author in Keys(rows) {
      assert NodeKey(r) in Keys(rows);
    }
    forall r | r in rows && r.author == "" ensures "anonymous:" + r.uuid in Keys(rows) {
      assert NodeKey(r) in Keys(rows);
    }
  }

  /** No author looks like a comment without one, and comments have keys of their own. */
  ghost predicate Plain(rows: seq<Row>) {
    && (forall r, u: string :: r in rows ==> r.author != "anonymous:" + u)
    && (forall a, b :: 0 <= a < b < |rows| ==> rows[a].uuid != rows[b].uuid)
  }

  /** An author's node counts the comments and hateful comments of that author. */
  lemma AuthorCounts(rows: seq<Row>, author: string)
    requires Plain(rows) && author != "" && exists r :: r in rows && r.author == author
    ensures var s := StatsFor(rows, ById(rows), author);
            && s.comments == |Positions(rows, (r: Row) => r.author == author)|
            && s.hate == |Positions(rows, (r: Row) => r.author == author && r.hate)|
            && s.outDegree ==
               |Positions(rows, (r: Row) => r.author == author && r.parent != "" && r.parent in ById(rows))|
  {
    var comments := ById(rows);
    forall r | r in rows ensures NodeKey(r) == author <==> r.author == author {
      KeyOfAuthor(rows, r, author);
    }
    TotalCounts(rows, InClass(KeyOf(), author, One()), (r: Row) => r.author == author);
    TotalCounts(rows, InClass(KeyOf(), author, Hateful()), (r: Row) => r.author == author && r.hate);
    TotalCounts(rows, InClass(KeyOf(), author, Reply(comments)),
      (r: Row) => r.author == author && r.parent != "" && r.parent in comments);
  }

  lemma KeyOfAuthor(rows: seq<Row>, r: Row, author: string)
    requires Plain(rows) && r in rows && author != "" && exists x :: x in rows && x.author == author
    ensures NodeKey(r) == author <==> r.author == author
  {
    var x :| x in rows && x.author == author;
    assert x.author != "anonymous:" + r.uuid;
  }

  /** A comment without an author is a node of its own. */
  lemma AnonymousCounts(rows: seq<Row>, i: nat)
    requires Plain(rows) && i < |rows| && rows[i].author == ""
    ensures var s := StatsFor(rows, ById(rows), "anonymous:" + rows[i].uuid);
            s.comments == 1 && s.hate == if rows[i].hate then 1 else 0
  {
    var key := "anonymous:" + rows[i].uuid;
    forall x: nat | x < |rows| ensures NodeKey(rows[x]) == key <==> x == i {
      OwnKey(rows, i, x);
    }
    var mine := (r: Row) => NodeKey(r) == key;
    var hateful := (r: Row) => NodeKey(r) == key && r.hate;
    TotalCounts(rows, InClass(KeyOf(), key, One()), mine);
    TotalCounts(rows, InClass(KeyOf(), key, Hateful()), hateful);
    assert Positions(rows, mine) == {i};
    assert Positions(rows, hateful) == if rows[i].hate then {i} else {};
  }

  lemma OwnKey(rows: seq<Row>, i: nat, x: nat)
    requires Plain(rows) && i < |rows| && x < |rows| && rows[i].author == ""
    ensures NodeKey(rows[x]) == "anonymous:" + rows[i].uuid <==> x == i
  {
    var prefix := "anonymous:";
    assert rows[x] in rows && rows[x].author != prefix + rows[i].uuid;
    if rows[x].author == "" && prefix + rows[x].uuid == prefix + rows[i].uuid {
      assert rows[x].uuid == (prefix + rows[x].uuid)[|prefix|..] == (prefix + rows[i].uuid)[|prefix|..] == rows[i].uuid;
    }
  }

  /** The edge from comment a to its parent b, column by column. */
  ghost predicate JoinsRows(e: Edge, a: Row, b: Row) {
    && (if a.author != "" then e.source == a.author else e.source == "anonymous:" + a.uuid)
    && (if b.author != "" then e.target == b.author else e.target == "anonymous:" + b.uuid)
    && e.comment == a.uuid && e.parent == b.uuid && e.hate == a.hate
  }

  /** The comment at x answers the one at y. */
  ghost predicate Answers(rows: seq<Row>, x: int, y: int) {
    0 <= x < |rows| && 0 <= y < |rows| && rows[x].parent != "" && rows[x].parent == rows[y].youtubeId
  }

  ghost predicate IsReplyEdge(e: Edge, rows: seq<Row>) {
    exists x, y :: Answers(rows, x, y) && JoinsRows(e, rows[x], rows[y])
  }

  ghost predicate HasEdge(edges: seq<Edge>, a: Row, b: Row) {
    exists e :: e in edges && JoinsRows(e, a, b)
  }

  /** The edges are the replies: each joins the authors of a comment and of its parent. */
  ghost predicate EdgesAreReplies(edges: seq<Edge>, rows: seq<Row>) {
    && (forall e :: e in edges ==> IsReplyEdge(e, rows))
    && (forall x, y :: Answers(rows, x, y) ==> HasEdge(edges, rows[x], rows[y]))
  }

  lemma {:induction false} ByIdOf(rows: seq<Row>, y: nat)
    requires UniqueIds(rows) && y < |rows|
    ensures rows[y].youtubeId in ById(rows) && ById(rows)[rows[y].youtubeId] == rows[y]
  {
    ByIdHolds(rows, rows[y].youtubeId);
    var r := ById(rows)[rows[y].youtubeId];
    var x :| 0 <= x < |rows| && rows[x] == r;
  }

  lemma {:induction false} EdgesOfReplies(rows: seq<Row>, comments: map<string, Row>)
    ensures forall e :: e in EdgesOf(rows, comments) <==>
              exists r :: r in rows && Replies(comments, r) && e == EdgeOf(comments, r)
  {
    if rows != [] {
      var rest, last := rows[..|rows| - 1], rows[|rows| - 1];
      EdgesOfReplies(rest, comments);
      assert rows == rest + [last];
    }
  }

  lemma EdgeJoins(comments: map<string, Row>, r: Row)
    requires Replies(comments, r)
    ensures JoinsRows(EdgeOf(comments, r), r, comments[r.parent])
  {
  }

  /** With unique comment ids, the edges of the network are exactly the replies to comments of the run. */
  lemma NetworkEdgesAreReplies(rows: seq<Row>)
    requires UniqueIds(rows)
    ensures EdgesAreReplies(EdgesOf(rows, ById(rows)), rows)
    ensures |EdgesOf(rows, ById(rows))| == |Positions(rows, (r: Row) => r.parent != "" && r.parent in ById(rows))|
  {
    hide EdgesOf, ById, EdgeOf, JoinsRows;
    var comments := ById(rows);
    var edges := EdgesOf(rows, comments);
    EdgesOfReplies(rows, comments);
    forall e | e in edges ensures IsReplyEdge(e, rows) {
      var r :| r in rows && Replies(comments, r) && e == EdgeOf(comments, r);
      ByIdHolds(rows, r.parent);
      EdgeJoins(comments, r);
      var x: int :| 0 <= x < |rows| && rows[x] == r;
      var y: int :| 0 <= y < |rows| && rows[y] == comments[r.parent];
      assert Answers(rows, x, y);
    }
    forall x, y | Answers(rows, x, y) ensures HasEdge(edges, rows[x], rows[y]) {
      ByIdOf(rows, y);
      EdgeJoins(comments, rows[x]);
      assert rows[x] in rows && EdgeOf(comments, rows[x]) in edges;
    }
    EdgeCount(rows, comments);
    TotalCounts(rows, Reply(comments), (r: Row) => r.parent != "" && r.parent in comments);
  }

  /** What an author is answered: the in-degree counts the replies to that author's comments. */
  lemma AuthorIsAnswered(rows: seq<Row>, author: string)
    requires Plain(rows) && UniqueIds(rows) && author != "" && exists r :: r in rows && r.author == author
    ensures var comments := ById(rows);
            StatsFor(rows, comments, author).inDegree ==
            |Positions(rows, (r: Row) => r.parent != "" && r.parent in comments && comments[r.parent].author == author)|
  {
    var comments := ById(rows);
    forall r | r in rows && Replies(comments, r)
      ensures Target(comments, r) == author <==> comments[r.parent].author == author
    {
      ByIdHolds(rows, r.parent);
      KeyOfAuthor(rows, comments[r.parent], author);
    }
    TotalCounts(rows, InClass(TargetOf(comments), author, Reply(comments)),
      (r: Row) => r.parent != "" && r.parent in comments && comments[r.parent].author == author);
  }
}
