/**
 Sentence-aware segmentation of caption items, and the size-bounded sections of guideline documents.
 */
module Transcript {
  import opened Packing

  /** A caption item; `text` is the stripped text, the only form the segmenter looks at. */
  datatype Item = Item(text: string, start: real, duration: real)

  datatype Segment = Segment(start: real, end: real, text: string)

  datatype Limits = Limits(maxChars: nat, maxSeconds: real)

  function Texts(items: seq<Item>): seq<string> {
    seq(|items|, i requires 0 <= i < |items| => items[i].text)
  }

  function End(item: Item): real {
    item.start + item.duration
  }

  /** What may be one segment: no sentence end strictly inside, and both bounds unless it is a single item. */
  predicate Fits(items: seq<Item>, limits: Limits, ends: string -> bool, a: nat, b: nat) {
    && a < b <= |items|
    && (forall x :: a <= x < b - 1 ==> !ends(items[x].text))
    && (b - a > 1 ==>
          && |Join(" ", Texts(items[a..b]))| <= limits.maxChars
          && End(items[b - 1]) - items[a].start <= limits.maxSeconds)
  }

  function FitOf(items: seq<Item>, limits: Limits, ends: string -> bool): Fit {
    (a: nat, b: nat) => Fits(items, limits, ends, a, b)
  }

  /** The bounds a candidate group has to keep once it is not a single item. */
  predicate Bounded(group: seq<Item>, limits: Limits) {
    group != [] ==>
      |Join(" ", Texts(group))| <= limits.maxChars && End(group[|group| - 1]) - group[0].start <= limits.maxSeconds
  }

  function SegmentOf(group: seq<Item>): Segment
    requires group != []
  {
    Segment(group[0].start, End(group[|group| - 1]), Join(" ", Texts(group)))
  }

  /** The groups the segmenter forms: the greedy packing of the items. */
  function GroupsOf(items: seq<Item>, limits: Limits, ends: string -> bool): seq<seq<Item>> {
    Packed(FitOf(items, limits, ends), items, 0)
  }

  lemma Singles(items: seq<Item>, limits: Limits, ends: string -> bool)
    ensures SinglesFit(FitOf(items, limits, ends), |items|)
  {
  }

  ghost predicate Yielded(out: seq<Segment>, groups: seq<seq<Item>>) {
    |out| == |groups| && forall g :: 0 <= g < |groups| ==> groups[g] != [] && out[g] == SegmentOf(groups[g])
  }

  /** Whether there is room for the next item in the open group, which may be empty. */
  lemma RoomFor(items: seq<Item>, limits: Limits, ends: string -> bool, a: nat, i: nat)
    requires a <= i < |items| && (a < i ==> FitOf(items, limits, ends)(a, i))
    ensures items[a..i + 1] == items[a..i] + [items[i]]
    ensures FitOf(items, limits, ends)(a, i + 1) <==>
            (a < i ==> !ends(items[i - 1].text) && Bounded(items[a..i] + [items[i]], limits))
  {
    assert items[a..i + 1] == items[a..i] + [items[i]];
  }

  /**
   _segments.  The items are cut, in order and without loss, into the groups of the greedy packing, and each group
   becomes one segment.
   */
  method Segments(items: seq<Item>, limits: Limits, ends: string -> bool) returns (out: seq<Segment>)
    ensures Yielded(out, GroupsOf(items, limits, ends))
  {
    hide Midway, FitOf, Packed, Bounded, SegmentOf;
    ghost var fits := FitOf(items, limits, ends);
    out := [];
    var current: seq<Item> := [];
    ghost var a: nat, closed: seq<seq<Item>> := 0, [];
    Start(fits, items);
    for i := 0 to |items|
      invariant a <= i && Midway(fits, items, a, i, closed) && (a < i ==> fits(a, i))
      invariant current == items[a..i] && Yielded(out, closed)
      invariant current != [] ==> !ends(items[i - 1].text)
    {
      var item := items[i];
      RoomFor(items, limits, ends, a, i);
      if current != [] && !Bounded(current + [item], limits) {
        CloseGroup(fits, items, a, i, closed);
        out, closed := out + [SegmentOf(current)], closed + [current];
        current, a := [], i;
        RoomFor(items, limits, ends, i, i);
      }
      GrowGroup(fits, items, a, i, closed);
      current := current + [item];
      if ends(item.text) {
        if i + 1 < |items| {
          RoomFor(items, limits, ends, a, i + 1);
        }
        CloseGroup(fits, items, a, i + 1, closed);
        out, closed := out + [SegmentOf(current)], closed + [current];
        current, a := [], i + 1;
      }
    }
    if current != [] {
      CloseGroup(fits, items, a, |items|, closed);
      out, closed := out + [SegmentOf(current)], closed + [current];
    }
    Done(fits, items, closed);
  }

  // ----- what the segmentation guarantees -----------------------------------------------------------------

  /** No sentence end strictly inside, and both bounds unless the group is a single item. */
  ghost predicate GroupOk(group: seq<Item>, limits: Limits, ends: string -> bool) {
    && group != []
    && (forall x :: 0 <= x < |group| - 1 ==> !ends(group[x].text))
    && (|group| > 1 ==> Bounded(group, limits))
  }

  lemma {:induction false} SplitGroupsOk(items: seq<Item>, limits: Limits, ends: string -> bool, a: nat, cuts: seq<nat>)
    requires a <= |items| && Splits(FitOf(items, limits, ends), a, |items|, cuts)
    ensures forall g :: g in Groups(items, a, cuts) ==> GroupOk(g, limits, ends)
    decreases |cuts|
  {
    if cuts != [] {
      assert GroupOk(items[a..cuts[0]], limits, ends);
      SplitGroupsOk(items, limits, ends, cuts[0], cuts[1..]);
    }
  }

  /** An ordered partition of the captions into groups that respect sentences and bounds. */
  lemma SegmentsPartition(items: seq<Item>, limits: Limits, ends: string -> bool)
    ensures Flatten(GroupsOf(items, limits, ends)) == items
    ensures forall g :: g in GroupsOf(items, limits, ends) ==> GroupOk(g, limits, ends)
  {
    var fits := FitOf(items, limits, ends);
    Singles(items, limits, ends);
    GreedySplits(fits, 0, |items|);
    GroupsFlatten(fits, items, 0, Greedy(fits, 0, |items|));
    SplitGroupsOk(items, limits, ends, 0, Greedy(fits, 0, |items|));
    assert items[0..] == items;
  }

  /** Caption times run forward: starts and ends are nondecreasing. */
  ghost predicate Forward(items: seq<Item>) {
    forall x, y :: 0 <= x <= y < |items| ==> items[x].start <= items[y].start && End(items[x]) <= End(items[y])
  }

  lemma FitsHereditary(items: seq<Item>, limits: Limits, ends: string -> bool)
    requires Forward(items)
    ensures Hereditary(FitOf(items, limits, ends), |items|)
  {
    forall a: nat, b: nat, c: nat, d: nat | a <= b < c <= d <= |items| && Fits(items, limits, ends, a, d)
      ensures Fits(items, limits, ends, b, c)
    {
      if c - b > 1 {
        var texts := Texts(items);
        TextsOfSlice(items, a, d);
        TextsOfSlice(items, b, c);
        JoinGrows(" ", texts, a, b, c, d);
      }
    }
  }

  lemma TextsOfSlice(items: seq<Item>, a: nat, b: nat)
    requires a <= b <= |items|
    ensures Texts(items[a..b]) == Texts(items)[a..b]
  {
    var part, slice := Texts(items[a..b]), Texts(items)[a..b];
    forall x | 0 <= x < b - a ensures part[x] == slice[x] {
      assert slice[x] == Texts(items)[a + x] == items[a + x].text;
    }
  }

  /** With forward times, no partition that respects sentences and bounds has fewer segments. */
  lemma SegmentsAreFewest(items: seq<Item>, limits: Limits, ends: string -> bool, cuts: seq<nat>)
    requires Forward(items) && Splits(FitOf(items, limits, ends), 0, |items|, cuts)
    ensures |GroupsOf(items, limits, ends)| <= |cuts|
  {
    var fits := FitOf(items, limits, ends);
    FitsHereditary(items, limits, ends);
    GreedyIsMinimal(fits, |items|, cuts);
    Singles(items, limits, ends);
    GreedySplits(fits, 0, |items|);
    GroupsFlatten(fits, items, 0, Greedy(fits, 0, |items|));
  }

  /** Without forward times it can: a long caption in the middle hides that the three fit together. */
  lemma OverlapDefeatsGreedy()
    ensures var items := [Item("a", 0.0, 10.0), Item("b", 10.0, 60.0), Item("c", 20.0, 5.0)];
            var limits := Limits(800, 45.0);
            var ends := (s: string) => false;
            && Splits(FitOf(items, limits, ends), 0, |items|, [3])
            && |GroupsOf(items, limits, ends)| == 2
  {
    var items := [Item("a", 0.0, 10.0), Item("b", 10.0, 60.0), Item("c", 20.0, 5.0)];
    var limits := Limits(800, 45.0);
    var ends := (s: string) => false;
    var fits := FitOf(items, limits, ends);
    var texts := Texts(items);
    assert Texts(items[0..3]) == ["a", "b", "c"] && Texts(items[1..3]) == ["b", "c"];
    assert ["a", "b", "c"][1..] == ["b", "c"] && ["b", "c"][1..] == ["c"];
    assert Join(" ", ["b", "c"]) == "b" + " " + "c";
    assert fits(0, 3) && !fits(0, 2) && fits(1, 3) && fits(1, 2) && fits(0, 1);
    assert Splits(fits, 3, 3, []);
    assert [3][1..] == [];
    assert Extend(fits, 0, 1, 3) == 1 && Extend(fits, 1, 2, 3) == 3;
    assert Greedy(fits, 0, 3) == [1] + ([3] + Greedy(fits, 3, 3));
    Singles(items, limits, ends);
    GreedySplits(fits, 0, 3);
    GroupsFlatten(fits, items, 0, Greedy(fits, 0, 3));
  }

  /** A group of several captions, by its captions: texts with single spaces, from first start to last end. */
  lemma SegmentBounds(items: seq<Item>, limits: Limits, ends: string -> bool, group: seq<Item>)
    requires group in GroupsOf(items, limits, ends) && |group| > 1
    ensures TotalLength(Texts(group)) + |group| - 1 <= limits.maxChars
    ensures var last := group[|group| - 1]; last.start + last.duration - group[0].start <= limits.maxSeconds
  {
    SegmentsPartition(items, limits, ends);
    JoinLength(" ", Texts(group));
  }

  /** The next caption ends the group: a sentence has ended, or it would break a bound. */
  ghost predicate Forced(group: seq<Item>, next: Item, limits: Limits, ends: string -> bool)
    requires group != []
  {
    || ends(group[|group| - 1].text)
    || TotalLength(Texts(group)) + |group| + |next.text| > limits.maxChars
    || next.start + next.duration - group[0].start > limits.maxSeconds
  }

  lemma NextIsForced(items: seq<Item>, limits: Limits, ends: string -> bool, a: nat, e: nat)
    requires a < e < |items| && Fits(items, limits, ends, a, e) && !Fits(items, limits, ends, a, e + 1)
    ensures Forced(items[a..e], items[e], limits, ends)
  {
    var texts := Texts(items[a..e + 1]);
    assert items[a..e + 1] == items[a..e] + [items[e]];
    assert texts == Texts(items[a..e]) + [items[e].text];
    JoinLength(" ", texts);
    LengthSnoc(Texts(items[a..e]), items[e].text);
  }

  lemma {:induction false} LengthSnoc(parts: seq<string>, part: string)
    ensures TotalLength(parts + [part]) == TotalLength(parts) + |part|
  {
    if parts != [] {
      LengthSnoc(parts[1..], part);
      assert (parts + [part])[1..] == parts[1..] + [part];
    }
  }

  /** The segmenter cuts only where it must: together with the bounds this leaves one way to segment the captions. */
  lemma CutsAreForced(items: seq<Item>, limits: Limits, ends: string -> bool, g: nat)
    requires g + 1 < |GroupsOf(items, limits, ends)|
    ensures var groups := GroupsOf(items, limits, ends);
            groups[g] != [] && groups[g + 1] != [] && Forced(groups[g], groups[g + 1][0], limits, ends)
  {
    hide Forced, Packed;
    var fits, groups := FitOf(items, limits, ends), GroupsOf(items, limits, ends);
    Singles(items, limits, ends);
    var p, e := GroupsAreFull(fits, items, 0, g);
    NextIsForced(items, limits, ends, p, e);
  }

  /** What the segments returned say: first start, last end, and all the texts in order. */
  lemma SegmentsSay(items: seq<Item>, limits: Limits, ends: string -> bool, out: seq<Segment>)
    requires Yielded(out, GroupsOf(items, limits, ends))
    ensures var groups := GroupsOf(items, limits, ends);
            && |out| == |groups|
            && (forall g :: 0 <= g < |out| ==>
                  var first, last := groups[g][0], groups[g][|groups[g]| - 1];
                  out[g].start == first.start && out[g].end == last.start + last.duration)
    ensures Join(" ", seq(|out|, g requires 0 <= g < |out| => out[g].text)) == Join(" ", Texts(items))
  {
    var groups := GroupsOf(items, limits, ends);
    SegmentTextIsAllText(items, limits, ends);
    assert seq(|out|, g requires 0 <= g < |out| => out[g].text)
        == seq(|groups|, g requires 0 <= g < |groups| => Join(" ", Texts(groups[g])));
  }

  // ----- raw text -------------------------------------------------------------------------------------------

  function NonBlank(texts: seq<string>): seq<string> {
    if texts == [] then [] else (if texts[0] == "" then [] else [texts[0]]) + NonBlank(texts[1..])
  }

  /** The stored transcript text: the non-blank captions, space-joined. */
  function RawText(items: seq<Item>): string {
    Join(" ", NonBlank(Texts(items)))
  }

  /** What one gets back from the segments. */
  function SegmentText(items: seq<Item>, limits: Limits, ends: string -> bool): string {
    var groups := GroupsOf(items, limits, ends);
    Join(" ", seq(|groups|, g requires 0 <= g < |groups| => Join(" ", Texts(groups[g]))))
  }

  lemma {:induction false} NonBlankCounts(texts: seq<string>)
    ensures TotalLength(NonBlank(texts)) == TotalLength(texts) && |NonBlank(texts)| <= |texts|
    ensures |NonBlank(texts)| == |texts| <==> forall t :: t in texts ==> t != ""
    ensures |NonBlank(texts)| == |texts| ==> NonBlank(texts) == texts
  {
    if texts != [] {
      NonBlankCounts(texts[1..]);
      assert texts == [texts[0]] + texts[1..];
      if texts[0] == "" {
        assert NonBlank(texts) == NonBlank(texts[1..]);
        assert texts[0] in texts;
      } else {
        assert NonBlank(texts) == [texts[0]] + NonBlank(texts[1..]);
        assert NonBlank(texts)[1..] == NonBlank(texts[1..]);
        assert forall t :: t in texts <==> t == texts[0] || t in texts[1..];
      }
    }
  }

  lemma {:induction false} TextsFlatten(groups: seq<seq<Item>>)
    ensures Texts(Flatten(groups)) == Flatten(seq(|groups|, g requires 0 <= g < |groups| => Texts(groups[g])))
  {
    var texts := seq(|groups|, g requires 0 <= g < |groups| => Texts(groups[g]));
    if groups != [] {
      TextsFlatten(groups[1..]);
      assert texts[1..] == seq(|groups[1..]|, g requires 0 <= g < |groups[1..]| => Texts(groups[1..][g]));
      assert Texts(Flatten(groups)) == Texts(groups[0]) + Texts(Flatten(groups[1..]));
    }
  }

  /** The segments join to all caption texts, whatever the cuts. */
  lemma SegmentTextIsAllText(items: seq<Item>, limits: Limits, ends: string -> bool)
    ensures SegmentText(items, limits, ends) == Join(" ", Texts(items))
  {
    var groups := GroupsOf(items, limits, ends);
    var texts := seq(|groups|, g requires 0 <= g < |groups| => Texts(groups[g]));
    SegmentsPartition(items, limits, ends);
    TextsFlatten(groups);
    forall t | t in texts ensures t != [] {
      var g :| 0 <= g < |groups| && t == Texts(groups[g]);
      assert groups[g] in groups;
    }
    JoinGroups(" ", texts);
    assert seq(|groups|, g requires 0 <= g < |groups| => Join(" ", Texts(groups[g])))
        == seq(|texts|, g requires 0 <= g < |texts| => Join(" ", texts[g]));
  }

  /** The stored text equals the joined segments exactly when no caption is blank, or a blank one is all there is. */
  lemma RawTextIsSegmentText(items: seq<Item>, limits: Limits, ends: string -> bool)
    ensures RawText(items) == SegmentText(items, limits, ends) <==>
            (forall x :: 0 <= x < |items| ==> items[x].text != "") || |items| == 1
  {
    var texts := Texts(items);
    SegmentTextIsAllText(items, limits, ends);
    NonBlankCounts(texts);
    JoinLength(" ", texts);
    JoinLength(" ", NonBlank(texts));
    assert (forall x :: 0 <= x < |items| ==> items[x].text != "") <==> forall t :: t in texts ==> t != "" by {
      assert forall x :: 0 <= x < |items| ==> texts[x] == items[x].text && texts[x] in texts;
    }
  }

  // ----- sections of guideline documents ---------------------------------------------------------------------

  predicate SectionFits(paragraphs: seq<string>, maxChars: nat, a: nat, b: nat) {
    && a < b <= |paragraphs|
    && (b - a > 1 ==> |Join("\n\n", paragraphs[a..b])| <= maxChars)
  }

  function SectionFit(paragraphs: seq<string>, maxChars: nat): Fit {
    (a: nat, b: nat) => SectionFits(paragraphs, maxChars, a, b)
  }

  function SectionGroups(paragraphs: seq<string>, maxChars: nat): seq<seq<string>> {
    Packed(SectionFit(paragraphs, maxChars), paragraphs, 0)
  }

  lemma SectionsPartition(paragraphs: seq<string>, maxChars: nat)
    ensures Flatten(SectionGroups(paragraphs, maxChars)) == paragraphs
    ensures forall g :: g in SectionGroups(paragraphs, maxChars) ==>
              g != [] && (|g| > 1 ==> |Join("\n\n", g)| <= maxChars)
  {
    var fits := SectionFit(paragraphs, maxChars);
    assert SinglesFit(fits, |paragraphs|);
    GreedySplits(fits, 0, |paragraphs|);
    GroupsFlatten(fits, paragraphs, 0, Greedy(fits, 0, |paragraphs|));
    SectionGroupsFit(paragraphs, maxChars, 0, Greedy(fits, 0, |paragraphs|));
    assert paragraphs[0..] == paragraphs;
  }

  lemma {:induction false} SectionGroupsFit(paragraphs: seq<string>, maxChars: nat, a: nat, cuts: seq<nat>)
    requires a <= |paragraphs| && Splits(SectionFit(paragraphs, maxChars), a, |paragraphs|, cuts)
    ensures forall g :: g in Groups(paragraphs, a, cuts) ==> |g| > 1 ==> |Join("\n\n", g)| <= maxChars
    decreases |cuts|
  {
    if cuts != [] {
      SectionGroupsFit(paragraphs, maxChars, cuts[0], cuts[1..]);
    }
  }

  /** No way of cutting the paragraphs into sections within the limit uses fewer of them. */
  lemma SectionsAreFewest(paragraphs: seq<string>, maxChars: nat, cuts: seq<nat>)
    requires Splits(SectionFit(paragraphs, maxChars), 0, |paragraphs|, cuts)
    ensures |SectionGroups(paragraphs, maxChars)| <= |cuts|
  {
    var fits := SectionFit(paragraphs, maxChars);
    forall a: nat, b: nat, c: nat, d: nat | a <= b < c <= d <= |paragraphs| && SectionFits(paragraphs, maxChars, a, d)
      ensures SectionFits(paragraphs, maxChars, b, c)
    {
      JoinGrows("\n\n", paragraphs, a, b, c, d);
    }
    assert SinglesFit(fits, |paragraphs|);
    GreedyIsMinimal(fits, |paragraphs|, cuts);
    GreedySplits(fits, 0, |paragraphs|);
    GroupsFlatten(fits, paragraphs, 0, Greedy(fits, 0, |paragraphs|));
  }

  /** A section ends only where the next paragraph would break the limit. */
  lemma SectionCutsAreForced(paragraphs: seq<string>, maxChars: nat, g: nat)
    requires g + 1 < |SectionGroups(paragraphs, maxChars)|
    ensures var groups := SectionGroups(paragraphs, maxChars);
            && groups[g] != [] && groups[g + 1] != []
            && TotalLength(groups[g]) + 2 * |groups[g]| + |groups[g + 1][0]| > maxChars
  {
    hide Packed;
    var fits, groups := SectionFit(paragraphs, maxChars), SectionGroups(paragraphs, maxChars);
    assert SinglesFit(fits, |paragraphs|);
    var p, e := GroupsAreFull(fits, paragraphs, 0, g);
    assert paragraphs[p..e + 1] == groups[g] + [paragraphs[e]];
    JoinLength("\n\n", paragraphs[p..e + 1]);
    LengthSnoc(groups[g], paragraphs[e]);
  }

  ghost predicate SectionsYielded(out: seq<string>, groups: seq<seq<string>>) {
    |out| == |groups| && forall g :: 0 <= g < |groups| ==> out[g] == Join("\n\n", groups[g])
  }

  lemma GrownSection(paragraphs: seq<string>, a: nat, i: nat)
    requires a < i < |paragraphs|
    ensures Join("\n\n", paragraphs[a..i + 1]) == Join("\n\n", paragraphs[a..i]) + "\n\n" + paragraphs[i]
  {
    SliceSplits(paragraphs, a, i, i + 1);
    JoinConcat("\n\n", paragraphs[a..i], paragraphs[i..i + 1]);
  }

  /** Whether the next paragraph still goes into the open section, which may be empty. */
  lemma SpaceFor(paragraphs: seq<string>, maxChars: nat, a: nat, i: nat)
    requires a <= i < |paragraphs|
    ensures SectionFit(paragraphs, maxChars)(a, i + 1) <==>
            (a < i ==> |Join("\n\n", paragraphs[a..i])| + |paragraphs[i]| + 2 <= maxChars)
    ensures Join("\n\n", paragraphs[a..i + 1]) ==
            if a < i then Join("\n\n", paragraphs[a..i]) + "\n\n" + paragraphs[i] else paragraphs[i]
  {
    if a < i {
      GrownSection(paragraphs, a, i);
    }
  }

  /** _bounded_sections for one section: the paragraphs are non-blank, so an empty `current` means no open group. */
  method BoundedSections(paragraphs: seq<string>, maxChars: nat) returns (out: seq<string>)
    requires forall p :: p in paragraphs ==> p != ""
    ensures SectionsYielded(out, SectionGroups(paragraphs, maxChars))
  {
    hide Midway, SectionFit, Packed;
    ghost var fits := SectionFit(paragraphs, maxChars);
    out := [];
    var current := "";
    ghost var a: nat, closed: seq<seq<string>> := 0, [];
    Start(fits, paragraphs);
    for i := 0 to |paragraphs|
      invariant a <= i && Midway(fits, paragraphs, a, i, closed) && SectionsYielded(out, closed)
      invariant current == Join("\n\n", paragraphs[a..i]) && (current == "" <==> a == i)
    {
      var paragraph := paragraphs[i];
      assert paragraph in paragraphs;
      SpaceFor(paragraphs, maxChars, a, i);
      if current != "" && |current| + |paragraph| + 2 > maxChars {
        CloseGroup(fits, paragraphs, a, i, closed);
        out, closed := out + [current], closed + [paragraphs[a..i]];
        current, a := "", i;
        SpaceFor(paragraphs, maxChars, i, i);
      }
      GrowGroup(fits, paragraphs, a, i, closed);
      current := if current != "" then current + "\n\n" + paragraph else paragraph;
    }
    if current != "" {
      CloseGroup(fits, paragraphs, a, |paragraphs|, closed);
      out, closed := out + [current], closed + [paragraphs[a..|paragraphs|]];
    }
    Done(fits, paragraphs, closed);
  }
}
