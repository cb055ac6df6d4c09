/**
 Collecting comments from a paged server, resumably.
 */
module Collection {
  import opened JobModel

  /** A comment as the server lists it; `content` stands for the fields copied as they are. */
  datatype Record = Record(id: string, parent: Option<string>, content: int)

  /** A thread as listed: the top-level comment with its reply count, the embedded replies, and all replies in pages. */
  datatype Thread = Thread(top: Record, replyCount: nat, embedded: seq<Record>, replyPages: seq<seq<Record>>)

  function Flat<T>(pages: seq<seq<T>>): seq<T> {
    if pages == [] then [] else Flat(pages[..|pages| - 1]) + pages[|pages| - 1]
  }

  function IdsOf(records: seq<Record>): set<string> {
    set r | r in records :: r.id
  }

  predicate Distinct(records: seq<Record>) {
    forall a, b :: 0 <= a < b < |records| ==> records[a].id != records[b].id
  }

  /** The records without those whose id was already seen. */
  function Unseen(records: seq<Record>, seen: set<string>): seq<Record> {
    if records == [] then []
    else
      var last := records[|records| - 1];
      Unseen(records[..|records| - 1], seen) + (if last.id in seen then [] else [last])
  }

  function Replies(t: Thread): seq<Record> {
    if t.replyCount > |t.embedded| then t.embedded + Unseen(Flat(t.replyPages), IdsOf(t.embedded)) else t.embedded
  }

  function Visit(t: Thread): seq<Record> {
    [t.top] + Replies(t)
  }

  function Visits(threads: seq<Thread>): seq<Record> {
    if threads == [] then [] else Visits(threads[..|threads| - 1]) + Visit(threads[|threads| - 1])
  }

  lemma FlatGrows<T>(pages: seq<seq<T>>, p: nat)
    requires p < |pages|
    ensures Flat(pages[..p + 1]) == Flat(pages[..p]) + pages[p]
  {
    assert pages[..p + 1][..p] == pages[..p];
  }

  lemma UnseenGrows(front: seq<Record>, records: seq<Record>, i: nat, seen: set<string>)
    requires i < |records|
    ensures Unseen(front + records[..i + 1], seen) ==
            Unseen(front + records[..i], seen) + (if records[i].id in seen then [] else [records[i]])
  {
    var s := front + records[..i + 1];
    assert s[..|s| - 1] == front + records[..i];
  }

  /** _iter_replies: every page, without the embedded replies. */
  method IterReplies(pages: seq<seq<Record>>, seen: set<string>) returns (out: seq<Record>)
    ensures out == Unseen(Flat(pages), seen)
  {
    hide Flat, Unseen;
    out := [];
    assert Unseen(Flat(pages[..0]), seen) == [] by {
      NothingUnseen(pages, seen);
    }
    for p := 0 to |pages|
      invariant out == Unseen(Flat(pages[..p]), seen)
    {
      ghost var front := Flat(pages[..p]);
      assert front + pages[p][..0] == front;
      for i := 0 to |pages[p]|
        invariant out == Unseen(front + pages[p][..i], seen)
      {
        UnseenGrows(front, pages[p], i, seen);
        if pages[p][i].id !in seen {
          out := out + [pages[p][i]];
        }
      }
      assert pages[p][..|pages[p]|] == pages[p];
      FlatGrows(pages, p);
    }
    assert pages[..|pages|] == pages;
  }

  lemma NothingUnseen(pages: seq<seq<Record>>, seen: set<string>)
    ensures Unseen(Flat(pages[..0]), seen) == []
  {
  }

  lemma NoIds()
    ensures IdsOf([]) == {}
  {
  }

  lemma IdsGrow(records: seq<Record>, r: Record)
    ensures IdsOf(records + [r]) == IdsOf(records) + {r.id}
  {
  }

  /** One thread: its comment, its embedded replies, and the other replies if the count asks for them. */
  method IterThread(t: Thread) returns (out: seq<Record>)
    ensures out == Visit(t)
  {
    hide Flat, Unseen, IdsOf;
    out := [t.top];
    var seen: set<string> := {};
    NoIds();
    for r := 0 to |t.embedded|
      invariant out == [t.top] + t.embedded[..r] && seen == IdsOf(t.embedded[..r])
    {
      assert t.embedded[..r + 1] == t.embedded[..r] + [t.embedded[r]];
      IdsGrow(t.embedded[..r], t.embedded[r]);
      seen := seen + {t.embedded[r].id};
      out := out + [t.embedded[r]];
    }
    assert t.embedded[..|t.embedded|] == t.embedded;
    if t.replyCount > |t.embedded| {
      var rest := IterReplies(t.replyPages, seen);
      out := out + rest;
    }
  }

  lemma VisitsGrows(front: seq<Thread>, threads: seq<Thread>, i: nat)
    requires i < |threads|
    ensures Visits(front + threads[..i + 1]) == Visits(front + threads[..i]) + Visit(threads[i])
  {
    var s := front + threads[..i + 1];
    assert s[..|s| - 1] == front + threads[..i];
  }

  /** iter_comments, page by page. */
  method IterComments(pages: seq<seq<Thread>>) returns (out: seq<Record>)
    ensures out == Visits(Flat(pages))
  {
    hide Flat, Visit;
    out := [];
    assert pages[..0] == [] && Visits([]) == [];
    EmptyFlat<Thread>();
    for p := 0 to |pages|
      invariant out == Visits(Flat(pages[..p]))
    {
      ghost var front := Flat(pages[..p]);
      assert front + pages[p][..0] == front;
      for i := 0 to |pages[p]|
        invariant out == Visits(front + pages[p][..i])
      {
        VisitsGrows(front, pages[p], i);
        var visited := IterThread(pages[p][i]);
        out := out + visited;
      }
      assert pages[p][..|pages[p]|] == pages[p];
      FlatGrows(pages, p);
    }
    assert pages[..|pages|] == pages;
  }

  lemma EmptyFlat<T>()
    ensures Flat<T>([]) == []
  {
  }

  // ----- each comment once ------------------------------------------------------------------------------------

  /** A server that lists each reply once and embeds some of them. */
  ghost predicate ListsOnce(t: Thread) {
    var all := Flat(t.replyPages);
    && Distinct([t.top] + all) && Distinct(t.embedded)
    && (forall r :: r in t.embedded ==> r in all)
    && t.top.parent.None? && forall r :: r in all ==> r.parent == Some(t.top.id)
  }

  /** The reply count makes the visitor ask for what was not embedded, unless there is nothing to ask for. */
  ghost predicate CountsEnough(t: Thread) {
    t.replyCount > |t.embedded| || forall r :: r in Flat(t.replyPages) ==> r in t.embedded
  }

  /** The comment and all its replies are visited. */
  ghost predicate VisitsAll(t: Thread) {
    t.top in Visit(t) && forall r :: r in Flat(t.replyPages) ==> r in Visit(t)
  }

  lemma {:induction false} UnseenMeans(records: seq<Record>, seen: set<string>)
    ensures forall r :: r in Unseen(records, seen) <==> r in records && r.id !in seen
    ensures Distinct(records) ==> Distinct(Unseen(records, seen))
  {
    if records != [] {
      var rest, last := records[..|records| - 1], records[|records| - 1];
      UnseenMeans(rest, seen);
      assert records == rest + [last];
      if Distinct(records) {
        forall a, b | 0 <= a < b < |Unseen(records, seen)|
          ensures Unseen(records, seen)[a].id != Unseen(records, seen)[b].id
        {
          assert Unseen(records, seen)[a] in Unseen(rest, seen);
        }
      }
    }
  }

  lemma {:induction false} DistinctIds(records: seq<Record>)
    requires Distinct(records)
    ensures |IdsOf(records)| == |records|
  {
    if records != [] {
      var rest, last := records[..|records| - 1], records[|records| - 1];
      DistinctIds(rest);
      assert records == rest + [last];
      assert IdsOf(records) == IdsOf(rest) + {last.id};
    }
  }

  /** As many distinct records within a distinct list as the list is long: all of them. */
  lemma AllIfAsMany(some: seq<Record>, all: seq<Record>)
    requires Distinct(some) && Distinct(all) && |some| >= |all| && forall r :: r in some ==> r in all
    ensures forall r :: r in all ==> r in some
  {
    DistinctIds(some);
    DistinctIds(all);
    Included(IdsOf(some), IdsOf(all));
    forall r | r in all ensures r in some {
      assert r.id in IdsOf(all);
      var q :| q in some && q.id == r.id;
      SameRecord(all, q, r);
    }
  }

  lemma Included(a: set<string>, b: set<string>)
    requires a <= b && |a| >= |b|
    ensures a == b
  {
    assert b == a + (b - a);
    assert |b| == |a| + |b - a|;
  }

  lemma SameRecord(all: seq<Record>, q: Record, r: Record)
    requires Distinct(all) && q in all && r in all && q.id == r.id
    ensures q == r
  {
  }

  /**
   No comment of such a thread is visited twice, its own comment comes first, and the visit is complete exactly when
   the reply count exceeds the number of embedded replies or all replies are embedded.
   */
  lemma ThreadVisitedOnce(t: Thread)
    requires ListsOnce(t)
    ensures Distinct(Visit(t)) && Visit(t)[0] == t.top && t.top in Visit(t)
    ensures forall r :: r in Visit(t) ==> r == t.top || r in Flat(t.replyPages)
    ensures VisitsAll(t) <==> CountsEnough(t)
  {
    var all := Flat(t.replyPages);
    var rest := Unseen(all, IdsOf(t.embedded));
    TailDistinct(t.top, all);
    UnseenMeans(all, IdsOf(t.embedded));
    if t.replyCount > |t.embedded| {
      RepliesComplete(t.embedded, all, rest);
      ConcatDistinct(t.embedded, rest);
    }
    TopIsNew(t.top, all, Replies(t));
  }

  /** A count that is not too small is always enough. */
  lemma TrueCountIsEnough(t: Thread)
    requires ListsOnce(t) && t.replyCount >= |Flat(t.replyPages)|
    ensures CountsEnough(t)
  {
    var all := Flat(t.replyPages);
    TailDistinct(t.top, all);
    if t.replyCount <= |t.embedded| {
      AllIfAsMany(t.embedded, all);
    }
  }

  lemma TailDistinct(top: Record, all: seq<Record>)
    requires Distinct([top] + all)
    ensures Distinct(all) && forall r :: r in all ==> r.id != top.id
  {
    var s := [top] + all;
    forall a, b | 0 <= a < b < |all| ensures all[a].id != all[b].id {
      assert s[a + 1] == all[a] && s[b + 1] == all[b];
    }
    forall r | r in all ensures r.id != top.id {
      var a :| 0 <= a < |all| && all[a] == r;
      assert s[0] == top && s[a + 1] == r;
    }
  }

  lemma RepliesComplete(embedded: seq<Record>, all: seq<Record>, rest: seq<Record>)
    requires Distinct(all) && forall r :: r in embedded ==> r in all
    requires forall r :: r in rest <==> r in all && r.id !in IdsOf(embedded)
    ensures forall r :: r in embedded + rest <==> r in all
    ensures forall q, r :: q in embedded && r in rest ==> q.id != r.id
  {
    forall r | r in all && r.id in IdsOf(embedded) ensures r in embedded {
      var q :| q in embedded && q.id == r.id;
      SameRecord(all, q, r);
    }
  }

  lemma ConcatDistinct(a: seq<Record>, b: seq<Record>)
    requires Distinct(a) && Distinct(b) && forall q, r :: q in a && r in b ==> q.id != r.id
    ensures Distinct(a + b)
  {
    var s := a + b;
    forall i, j | 0 <= i < j < |s| ensures s[i].id != s[j].id {
      assert i < |a| <= j ==> s[i] in a && s[j] in b;
    }
  }

  lemma TopIsNew(top: Record, all: seq<Record>, replies: seq<Record>)
    requires forall r :: r in all ==> r.id != top.id
    requires Distinct(replies) && forall r :: r in replies ==> r in all
    ensures Distinct([top] + replies)
  {
    ConcatDistinct([top], replies);
  }

  // ----- storing ------------------------------------------------------------------------------------------------

  /** A comment row: its own key, the row of its parent, and the copied fields. */
  datatype CommentRow = CommentRow(
    key: int, parent: Option<string>, parentKey: Option<int>, isReply: bool, depth: nat, content: int)

  /** The rows of a job by comment id, and the next fresh row key. */
  datatype Table = Table(rows: map<string, CommentRow>, nextKey: int)

  function Upsert(t: Table, r: Record): Table {
    var known := r.id in t.rows;
    var key := if known then t.rows[r.id].key else t.nextKey;
    var parentKey := if r.parent.Some? && r.parent.value in t.rows then Some(t.rows[r.parent.value].key) else None;
    var row := CommentRow(key, r.parent, parentKey, r.parent.Some?, if r.parent.Some? then 1 else 0, r.content);
    Table(t.rows[r.id := row], if known then t.nextKey else t.nextKey + 1)
  }

  function UpsertAll(t: Table, records: seq<Record>): Table {
    if records == [] then t else Upsert(UpsertAll(t, records[..|records| - 1]), records[|records| - 1])
  }

  /** collect_all, as far as the server lets it come: rows are found by comment id, parents by their rows. */
  method CollectAll(t0: Table, records: seq<Record>) returns (t: Table)
    ensures t == UpsertAll(t0, records)
  {
    var existing, nextKey := t0.rows, t0.nextKey;
    var parentKeys := map id | id in existing :: existing[id].key;
    for i := 0 to |records|
      invariant Table(existing, nextKey) == UpsertAll(t0, records[..i])
      invariant parentKeys.Keys == existing.Keys && forall id :: id in existing ==> parentKeys[id] == existing[id].key
    {
      assert records[..i + 1][..i] == records[..i];
      var r := records[i];
      var key;
      if r.id in existing {
        key := existing[r.id].key;
      } else {
        key := nextKey;
        nextKey := nextKey + 1;
      }
      var parentKey :=
        if r.parent.Some? && r.parent.value in parentKeys then Some(parentKeys[r.parent.value]) else None;
      var depth := if r.parent.Some? then 1 else 0;
      existing := existing[r.id := CommentRow(key, r.parent, parentKey, r.parent.Some?, depth, r.content)];
      parentKeys := parentKeys[r.id := key];
    }
    assert records[..|records|] == records;
    t := Table(existing, nextKey);
  }

  /** Row keys are distinct and below the next one. */
  ghost predicate KeysOk(t: Table) {
    && (forall id :: id in t.rows ==> t.rows[id].key < t.nextKey)
    && (forall a, b :: a in t.rows && b in t.rows && a != b ==> t.rows[a].key != t.rows[b].key)
  }

  /** Collecting keeps one row per comment id, never drops one, and never changes the identity of a stored row. */
  lemma {:induction false} CollectingKeepsIdentities(t: Table, records: seq<Record>)
    requires KeysOk(t)
    ensures var u := UpsertAll(t, records);
            && KeysOk(u) && t.nextKey <= u.nextKey
            && u.rows.Keys == t.rows.Keys + IdsOf(records)
            && forall id :: id in t.rows ==> u.rows[id].key == t.rows[id].key
  {
    if records != [] {
      hide Upsert, KeysOk, IdsOf;
      var rest, last := records[..|records| - 1], records[|records| - 1];
      CollectingKeepsIdentities(t, rest);
      UpsertKeepsIdentities(UpsertAll(t, rest), last);
      assert records == rest + [last];
      IdsGrow(rest, last);
    } else {
      NoIds();
    }
  }

  lemma UpsertKeepsIdentities(t: Table, r: Record)
    requires KeysOk(t)
    ensures var u := Upsert(t, r);
            && KeysOk(u) && t.nextKey <= u.nextKey
            && u.rows.Keys == t.rows.Keys + {r.id}
            && forall id :: id in t.rows ==> u.rows[id].key == t.rows[id].key
  {
  }

  /** A row points at a row at all only if that is the row of its parent. */
  ghost predicate LinksOk(t: Table) {
    forall id :: id in t.rows && t.rows[id].parentKey.Some? ==>
      var r := t.rows[id];
      r.parent.Some? && r.parent.value in t.rows && r.parentKey.value == t.rows[r.parent.value].key
  }

  /** Collecting never leaves a link to anything but the parent's row, whatever the order of the comments. */
  lemma {:induction false} LinksAreReal(t: Table, records: seq<Record>)
    requires LinksOk(t)
    ensures LinksOk(UpsertAll(t, records))
  {
    if records != [] {
      LinksAreReal(t, records[..|records| - 1]);
    }
  }

  /** Every comment is stored as it was listed. */
  lemma {:induction false} StoredAsListed(t: Table, records: seq<Record>)
    requires Distinct(records)
    ensures var rows := UpsertAll(t, records).rows;
            forall r :: r in records ==> r.id in rows && ShowsRecord(rows[r.id], r)
  {
    if records != [] {
      var rest, last := records[..|records| - 1], records[|records| - 1];
      assert records == rest + [last];
      StoredAsListed(t, rest);
      LastIsNew(rest, last);
    }
  }

  /** The copied fields, the parent's id, and what a reply is. */
  ghost predicate ShowsRecord(row: CommentRow, r: Record) {
    && row.content == r.content && row.parent == r.parent
    && (row.isReply <==> r.parent != None) && row.depth == (if r.parent != None then 1 else 0)
  }

  /** Parents come before their replies. */
  ghost predicate ParentsFirst(records: seq<Record>) {
    forall i :: 0 <= i < |records| && records[i].parent.Some? ==>
      exists j :: 0 <= j < i && records[j].id == records[i].parent.value
  }

  /** The row of a reply points at the row of its parent. */
  ghost predicate Linked(t: Table, r: Record) {
    r.parent.Some? ==>
      && r.id in t.rows && r.parent.value in t.rows
      && t.rows[r.id].isReply && t.rows[r.id].parentKey == Some(t.rows[r.parent.value].key)
  }

  lemma LinkedStays(t: Table, last: Record, r: Record)
    requires Linked(t, r) && r.id != last.id
    ensures Linked(Upsert(t, last), r)
  {
  }

  lemma LastIsLinked(t: Table, last: Record)
    requires last.parent.Some? ==> last.parent.value in t.rows && last.parent.value != last.id
    ensures Linked(Upsert(t, last), last)
  {
  }

  /** Then every stored reply links to the row of its parent. */
  lemma {:induction false} RepliesAreLinked(t: Table, records: seq<Record>)
    requires KeysOk(t) && ParentsFirst(records) && Distinct(records)
    ensures forall r :: r in records ==> Linked(UpsertAll(t, records), r)
  {
    if records != [] {
      hide Upsert, Linked, KeysOk;
      var rest, last := records[..|records| - 1], records[|records| - 1];
      var v := UpsertAll(t, rest);
      assert records == rest + [last];
      PrefixParentsFirst(records);
      RepliesAreLinked(t, rest);
      CollectingKeepsIdentities(t, rest);
      LastIsNew(rest, last);
      ParentIsOther(records, |rest|);
      assert records[..|rest|] == rest;
      LastIsLinked(v, last);
      forall r | r in rest ensures Linked(Upsert(v, last), r) {
        LinkedStays(v, last, r);
      }
    }
  }

  lemma PrefixParentsFirst(records: seq<Record>)
    requires records != [] && ParentsFirst(records) && Distinct(records)
    ensures ParentsFirst(records[..|records| - 1]) && Distinct(records[..|records| - 1])
  {
    var rest := records[..|records| - 1];
    forall i | 0 <= i < |rest| && rest[i].parent.Some?
      ensures exists j :: 0 <= j < i && rest[j].id == rest[i].parent.value
    {
      var j :| 0 <= j < i && records[j].id == records[i].parent.value;
      assert rest[j].id == rest[i].parent.value;
    }
  }

  lemma LastIsNew(rest: seq<Record>, last: Record)
    requires Distinct(rest + [last])
    ensures forall r :: r in rest ==> r.id != last.id
  {
    var s := rest + [last];
    forall r | r in rest ensures r.id != last.id {
      var a :| 0 <= a < |rest| && rest[a] == r;
      assert s[a] == r && s[|rest|] == last;
    }
  }

  /** Storing a record again right after the whole list was stored changes nothing. */
  lemma {:induction false} StoringAgain(t: Table, records: seq<Record>, r: Record)
    requires KeysOk(t) && ParentsFirst(records) && Distinct(records) && r in records
    ensures Upsert(UpsertAll(t, records), r) == UpsertAll(t, records)
  {
    hide Upsert, KeysOk;
    var rest, last := records[..|records| - 1], records[|records| - 1];
    var v := UpsertAll(t, rest);
    assert records == rest + [last];
    PrefixParentsFirst(records);
    LastIsNew(rest, last);
    CollectingKeepsIdentities(t, rest);
    if r == last {
      ParentIsOther(records, |rest|);
      TwiceInARow(v, last);
    } else {
      StoringAgain(t, rest, r);
      var i :| 0 <= i < |rest| && rest[i] == r;
      ParentIsOther(rest, i);
      assert forall x :: x in rest[..i] ==> x in rest;
      assert r.id in IdsOf(rest);
      AgainAfterAnother(v, last, r);
    }
  }

  lemma TwiceInARow(v: Table, last: Record)
    requires last.parent.Some? ==> last.parent.value != last.id
    ensures Upsert(Upsert(v, last), last) == Upsert(v, last)
  {
    var u := Upsert(v, last);
    assert Upsert(u, last).rows == u.rows;
  }

  lemma AgainAfterAnother(v: Table, last: Record, r: Record)
    requires Upsert(v, r) == v && r.id in v.rows && r.id != last.id
    requires r.parent.Some? ==> r.parent.value != last.id
    ensures Upsert(Upsert(v, last), r) == Upsert(v, last)
  {
    var u := Upsert(v, last);
    assert v.rows[r.id] == Upsert(v, r).rows[r.id];
    assert Upsert(u, r).rows == u.rows;
  }

  lemma ParentIsOther(records: seq<Record>, i: nat)
    requires ParentsFirst(records) && Distinct(records) && i < |records|
    ensures records[i].parent.Some? ==>
              && records[i].parent.value != records[i].id
              && exists r :: r in records[..i] && r.id == records[i].parent.value
  {
    if records[i].parent.Some? {
      var j :| 0 <= j < i && records[j].id == records[i].parent.value;
      assert records[j] in records[..i];
    }
  }

  lemma {:induction false} StoringAllAgain(t: Table, records: seq<Record>, again: seq<Record>)
    requires KeysOk(t) && ParentsFirst(records) && Distinct(records) && forall r :: r in again ==> r in records
    ensures UpsertAll(UpsertAll(t, records), again) == UpsertAll(t, records)
  {
    if again != [] {
      StoringAllAgain(t, records, again[..|again| - 1]);
      StoringAgain(t, records, again[|again| - 1]);
    }
  }

  lemma {:induction false} UpsertConcat(t: Table, a: seq<Record>, b: seq<Record>)
    ensures UpsertAll(t, a + b) == UpsertAll(UpsertAll(t, a), b)
  {
    if b == [] {
      assert a + b == a;
    } else {
      UpsertConcat(t, a, b[..|b| - 1]);
      assert (a + b)[..|a + b| - 1] == a + b[..|b| - 1];
    }
  }

  /** A collection cut short after any number of comments and then run again leaves exactly the rows of one full run. */
  lemma ResumedCollectionIsOneCollection(t: Table, records: seq<Record>, k: nat)
    requires KeysOk(t) && ParentsFirst(records) && Distinct(records) && k <= |records|
    ensures UpsertAll(UpsertAll(t, records[..k]), records) == UpsertAll(t, records)
  {
    hide Upsert, KeysOk, ParentsFirst, Distinct;
    var done := records[..k];
    FrontOk(records, k);
    StoringAllAgain(t, done, done);
    UpsertConcat(UpsertAll(t, done), done, records[k..]);
    UpsertConcat(t, done, records[k..]);
    assert records == done + records[k..];
  }

  lemma FrontOk(records: seq<Record>, k: nat)
    requires ParentsFirst(records) && Distinct(records) && k <= |records|
    ensures ParentsFirst(records[..k]) && Distinct(records[..k])
  {
    var front := records[..k];
    forall i | 0 <= i < k && front[i].parent.Some?
      ensures exists j :: 0 <= j < i && front[j].id == front[i].parent.value
    {
      var j :| 0 <= j < i && records[j].id == records[i].parent.value;
      assert front[j].id == front[i].parent.value;
    }
  }

  // ----- the whole listing ----------------------------------------------------------------------------------------

  /** All threads list their replies once, and no id is shared between two threads. */
  ghost predicate ServerOk(threads: seq<Thread>) {
    && (forall t :: t in threads ==> ListsOnce(t))
    && (forall a, b :: 0 <= a < b < |threads| ==> IdsOf(Visit(threads[a])) !! IdsOf(Visit(threads[b])))
  }

  lemma ThreadParentsFirst(front: seq<Record>, t: Thread)
    requires ParentsFirst(front) && ListsOnce(t)
    ensures ParentsFirst(front + Visit(t))
  {
    ThreadVisitedOnce(t);
    var v := Visit(t);
    var s := front + v;
    forall i | 0 <= i < |s| && s[i].parent.Some? ensures exists j :: 0 <= j < i && s[j].id == s[i].parent.value {
      if i < |front| {
        var j :| 0 <= j < i && front[j].id == front[i].parent.value;
        assert s[j].id == s[i].parent.value;
      } else {
        assert s[i] == v[i - |front|] && v[i - |front|] in v;
        assert s[|front|] == t.top;
      }
    }
  }

  lemma {:induction false} VisitedIds(threads: seq<Thread>, r: Record)
    requires r in Visits(threads)
    ensures exists a :: 0 <= a < |threads| && r in Visit(threads[a])
  {
    var rest, last := threads[..|threads| - 1], threads[|threads| - 1];
    if r in Visits(rest) {
      VisitedIds(rest, r);
      var a :| 0 <= a < |rest| && r in Visit(rest[a]);
      assert r in Visit(threads[a]);
    } else {
      assert r in Visit(threads[|threads| - 1]);
    }
  }

  lemma LastThreadIsNew(threads: seq<Thread>)
    requires ServerOk(threads) && threads != []
    ensures forall q, r :: q in Visits(threads[..|threads| - 1]) && r in Visit(threads[|threads| - 1]) ==> q.id != r.id
  {
    var rest, last := threads[..|threads| - 1], threads[|threads| - 1];
    forall q, r | q in Visits(rest) && r in Visit(last) ensures q.id != r.id {
      VisitedIds(rest, q);
      var a :| 0 <= a < |rest| && q in Visit(rest[a]);
      assert threads[a] == rest[a];
      assert q.id in IdsOf(Visit(threads[a])) && r.id in IdsOf(Visit(last));
    }
  }

  /** The listing visits no comment twice, and parents before replies. */
  lemma {:induction false} ListingVisitsOnce(threads: seq<Thread>)
    requires ServerOk(threads)
    ensures Distinct(Visits(threads)) && ParentsFirst(Visits(threads))
  {
    if threads != [] {
      hide ListsOnce, Visit, ServerOk, Distinct, ParentsFirst;
      var rest, last := threads[..|threads| - 1], threads[|threads| - 1];
      assert threads == rest + [last];
      FrontServerOk(threads);
      ListingVisitsOnce(rest);
      ThreadVisitedOnce(last);
      LastThreadIsNew(threads);
      ConcatDistinct(Visits(rest), Visit(last));
      ThreadParentsFirst(Visits(rest), last);
    } else {
      assert Distinct(Visits(threads)) && ParentsFirst(Visits(threads));
    }
  }

  lemma {:induction false} VisitIsVisited(threads: seq<Thread>, a: nat)
    requires a < |threads|
    ensures forall r :: r in Visit(threads[a]) ==> r in Visits(threads)
    decreases |threads|
  {
    hide Visit;
    var rest := threads[..|threads| - 1];
    if a < |rest| {
      VisitIsVisited(rest, a);
      assert rest[a] == threads[a];
    }
  }

  /** A reply is visited with its own thread or not at all. */
  lemma VisitedWithItsThread(threads: seq<Thread>, a: nat, r: Record)
    requires ServerOk(threads) && a < |threads| && r in Flat(threads[a].replyPages) && r in Visits(threads)
    ensures r in Visit(threads[a])
  {
    VisitedIds(threads, r);
    var b :| 0 <= b < |threads| && r in Visit(threads[b]);
    assert threads[a] in threads && threads[b] in threads;
    BelongsTo(threads[a], threads[b], r);
    assert threads[a].top.id in IdsOf(Visit(threads[a])) && threads[b].top.id in IdsOf(Visit(threads[b])) by {
      assert Visit(threads[a])[0] == threads[a].top && Visit(threads[b])[0] == threads[b].top;
    }
    assert a == b;
  }

  lemma BelongsTo(t: Thread, u: Thread, r: Record)
    requires ListsOnce(t) && ListsOnce(u) && r in Flat(t.replyPages) && r in Visit(u)
    ensures t.top.id == u.top.id
  {
    ThreadVisitedOnce(u);
  }

  /** Everything the server lists is visited. */
  ghost predicate VisitsListing(threads: seq<Thread>) {
    forall a :: 0 <= a < |threads| ==> Reached(threads, a)
  }

  ghost predicate Reached(threads: seq<Thread>, a: nat)
    requires a < |threads|
  {
    threads[a].top in Visits(threads) && forall r :: r in Flat(threads[a].replyPages) ==> r in Visits(threads)
  }

  /** The visit of the listing is complete exactly when the reply count of every thread is enough. */
  lemma ListingIsCompleteExactlyWhen(threads: seq<Thread>)
    requires ServerOk(threads)
    ensures VisitsListing(threads) <==> forall t :: t in threads ==> CountsEnough(t)
  {
    hide ListsOnce, Visit, Visits, CountsEnough;
    forall a | 0 <= a < |threads| ensures Reached(threads, a) <==> CountsEnough(threads[a]) {
      assert threads[a] in threads;
      ThreadVisitedOnce(threads[a]);
      VisitIsVisited(threads, a);
      forall r | r in Flat(threads[a].replyPages) && r in Visits(threads) ensures r in Visit(threads[a]) {
        VisitedWithItsThread(threads, a, r);
      }
      assert threads[a].top in Visit(threads[a]);
    }
    if forall t :: t in threads ==> CountsEnough(t) {
      forall a | 0 <= a < |threads| ensures Reached(threads, a) {
        assert threads[a] in threads;
      }
    }
  }

  lemma FrontServerOk(threads: seq<Thread>)
    requires ServerOk(threads) && threads != []
    ensures ServerOk(threads[..|threads| - 1]) && ListsOnce(threads[|threads| - 1])
  {
    hide ListsOnce, Visit, IdsOf;
    var rest := threads[..|threads| - 1];
    assert threads[|threads| - 1] in threads;
    forall t | t in rest ensures ListsOnce(t) {
      assert t in threads;
    }
    forall a, b | 0 <= a < b < |rest| ensures IdsOf(Visit(rest[a])) !! IdsOf(Visit(rest[b])) {
      assert IdsOf(Visit(threads[a])) !! IdsOf(Visit(threads[b]));
    }
  }

  /**
   Collecting from such a server: one row per visited comment, and every reply row points at the row of its parent.
   With true reply counts everything listed is visited, so everything listed has its row.
   */
  lemma CollectionIsComplete(t: Table, threads: seq<Thread>)
    requires KeysOk(t) && ServerOk(threads)
    ensures var records := Visits(threads);
            var u := UpsertAll(t, records);
            && KeysOk(u) && u.rows.Keys == t.rows.Keys + IdsOf(records)
            && (forall r :: r in records ==> Linked(u, r))
    ensures (forall th :: th in threads ==> th.replyCount >= |Flat(th.replyPages)|) ==> VisitsListing(threads)
  {
    forall th | th in threads && th.replyCount >= |Flat(th.replyPages)| ensures CountsEnough(th) {
      TrueCountIsEnough(th);
    }
    ListingIsCompleteExactlyWhen(threads);
    ListingVisitsOnce(threads);
    CollectingKeepsIdentities(t, Visits(threads));
    RepliesAreLinked(t, Visits(threads));
  }
}
