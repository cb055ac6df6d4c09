/**
 The analysis summary of a report, computed from the stored results.
 */
module Report {
  import opened JobModel
  import opened Totals
  import opened Classification

  datatype Summary = Summary(
    total: nat, succeeded: nat, failed: nat, missing: nat, hateSpeechCount: nat, distribution: map<string, nat>)

  function IsOk(): Option<Result> -> nat { (r: Option<Result>) => if r.Some? && r.value.ok then 1 else 0 }
  function IsFailed(): Option<Result> -> nat { (r: Option<Result>) => if r.Some? && !r.value.ok then 1 else 0 }
  function IsMissing(): Option<Result> -> nat { (r: Option<Result>) => if r.None? then 1 else 0 }
  function IsHate(): Option<Result> -> nat { (r: Option<Result>) => if r.Some? && r.value.hate then 1 else 0 }

  function Reported(categories: seq<string>): seq<string> {
    if categories == [] then []
    else Reported(categories[..|categories| - 1]) +
         (var c := categories[|categories| - 1]; if c == "unclassified" then [] else [c])
  }

  /** All category mentions that the counter sees, result by result. */
  function Mentions(results: seq<Option<Result>>): seq<string> {
    if results == [] then []
    else
      var r := results[|results| - 1];
      Mentions(results[..|results| - 1]) + (if r.Some? then Reported(r.value.categories) else [])
  }

  function Itself(): string -> string { (c: string) => c }

  function Once(): string -> nat { (c: string) => 1 }

  function Occurrences(mentions: seq<string>, c: string): nat {
    ClassTotal(mentions, Itself(), Once())(c)
  }

  /** The number a distribution lists for a category. */
  function Listed(distribution: map<string, nat>): string -> nat {
    (c: string) => if c in distribution then distribution[c] else 0
  }

  /** _analysis_summary; missing is len(results) - len(existing). */
  function AnalysisSummary(results: seq<Option<Result>>): Summary {
    var mentions := Mentions(results);
    ExistingAtMostAll(results);
    Summary(
      |results|, Total(results, IsOk()), Total(results, IsFailed()),
      |results| - (Total(results, IsOk()) + Total(results, IsFailed())),
      Total(results, IsHate()),
      map c | c in mentions :: Occurrences(mentions, c))
  }

  lemma {:induction false} ExistingAtMostAll(results: seq<Option<Result>>)
    ensures Total(results, IsOk()) + Total(results, IsFailed()) + Total(results, IsMissing()) == |results|
  {
    if results != [] {
      ExistingAtMostAll(results[..|results| - 1]);
    }
  }

  lemma {:induction false} ReportedOfHate(categories: seq<string>)
    ensures "unclassified" !in categories ==> Reported(categories) == categories
  {
    if categories != [] {
      var rest := categories[..|categories| - 1];
      ReportedOfHate(rest);
      assert categories == rest + [categories[|categories| - 1]];
    }
  }

  /** Each hateful result mentions at least one category, every other result none. */
  lemma MentionsOfOne(r: Result)
    requires Labelled(r)
    ensures if r.hate then |Reported(r.categories)| >= 1 else Reported(r.categories) == []
  {
    ReportedOfHate(r.categories);
    assert ["unclassified"][..0] == [];
  }

  lemma {:induction false} MentionsCoverHate(results: seq<Option<Result>>)
    requires forall r :: r in results && r.Some? ==> Labelled(r.value)
    ensures Total(results, IsHate()) <= |Mentions(results)|
    ensures Mentions(results) == [] <==> Total(results, IsHate()) == 0
  {
    if results != [] {
      var r, rest := results[|results| - 1], results[..|results| - 1];
      assert forall x :: x in rest ==> x in results;
      MentionsCoverHate(rest);
      if r.Some? {
        MentionsOfOne(r.value);
      }
    }
  }

  /**
   For results that all came through the classifier: the counts add up, hateful items never outnumber category
   mentions, and the category distribution is empty exactly when nothing is hateful.
   */
  lemma SummaryAddsUp(results: seq<Option<Result>>)
    requires forall r :: r in results && r.Some? ==> Labelled(r.value)
    ensures var s := AnalysisSummary(results);
            && s.total == s.succeeded + s.failed + s.missing
            && s.missing == Total(results, IsMissing())
            && s.hateSpeechCount <= s.succeeded
            && s.hateSpeechCount <= SumOver(s.distribution.Keys, Listed(s.distribution))
            && (s.distribution == map[] <==> s.hateSpeechCount == 0)
            && (forall c :: c in s.distribution ==> s.distribution[c] >= 1 && c != "unclassified")
  {
    var s := AnalysisSummary(results);
    var mentions := Mentions(results);
    ExistingAtMostAll(results);
    MentionsCoverHate(results);
    TotalAtMost(results, IsHate(), IsOk());
    ClassesSum(mentions, Itself(), Once(), s.distribution.Keys);
    TotalOnes(mentions);
    TotalSame(mentions, Once(), _ => 1);
    SumSame(s.distribution.Keys, ClassTotal(mentions, Itself(), Once()), Listed(s.distribution));
    MentionsAreReal(results);
    forall c | c in s.distribution ensures s.distribution[c] >= 1 {
      TotalZero(mentions, InClass(Itself(), c, Once()));
      assert InClass(Itself(), c, Once())(c) == 1;
    }
    if mentions != [] {
      assert mentions[0] in s.distribution;
    }
  }

  /** How often a result names category c. */
  function Names(c: string): Option<Result> -> nat {
    (r: Option<Result>) => if r.Some? then |Positions(r.value.categories, (x: string) => x == c)| else 0
  }

  lemma {:induction false} ReportedCounts(categories: seq<string>, c: string)
    requires c != "unclassified"
    ensures Occurrences(Reported(categories), c) == |Positions(categories, (x: string) => x == c)|
  {
    if categories == [] {
      assert Positions(categories, (x: string) => x == c) == {};
    } else {
      var rest, last := categories[..|categories| - 1], categories[|categories| - 1];
      ReportedCounts(rest, c);
      assert categories == rest + [last];
      PositionsSnoc(rest, last, (x: string) => x == c);
      TotalSnoc(Reported(rest), last, InClass(Itself(), c, Once()));
      assert last == "unclassified" ==> Reported(categories) == Reported(rest);
    }
  }

  /** The distribution lists every named category but "unclassified", with the number of times the results name it. */
  lemma {:induction false} OccurrencesAreExact(results: seq<Option<Result>>, c: string)
    requires c != "unclassified"
    ensures Occurrences(Mentions(results), c) == Total(results, Names(c))
  {
    if results != [] {
      var rest, r := results[..|results| - 1], results[|results| - 1];
      OccurrencesAreExact(rest, c);
      var more := if r.Some? then Reported(r.value.categories) else [];
      TotalConcat(Mentions(rest), more, InClass(Itself(), c, Once()));
      if r.Some? {
        ReportedCounts(r.value.categories, c);
      }
    }
  }

  /** Every figure of the summary, counted over the results. */
  lemma SummaryCounts(results: seq<Option<Result>>)
    ensures var s := AnalysisSummary(results);
            && s.total == |results|
            && s.succeeded == |Positions(results, (r: Option<Result>) => r.Some? && r.value.ok)|
            && s.failed == |Positions(results, (r: Option<Result>) => r.Some? && !r.value.ok)|
            && s.missing == |Positions(results, (r: Option<Result>) => r.None?)|
            && s.hateSpeechCount == |Positions(results, (r: Option<Result>) => r.Some? && r.value.hate)|
    ensures forall c :: var s := AnalysisSummary(results);
              && (c in s.distribution ==> c != "unclassified" && s.distribution[c] == Total(results, Names(c)))
              && (c !in s.distribution && c != "unclassified" ==> Total(results, Names(c)) == 0)
  {
    ExistingAtMostAll(results);
    TotalCounts(results, IsOk(), (r: Option<Result>) => r.Some? && r.value.ok);
    TotalCounts(results, IsFailed(), (r: Option<Result>) => r.Some? && !r.value.ok);
    TotalCounts(results, IsMissing(), (r: Option<Result>) => r.None?);
    TotalCounts(results, IsHate(), (r: Option<Result>) => r.Some? && r.value.hate);
    var s, mentions := AnalysisSummary(results), Mentions(results);
    forall c
      ensures c in s.distribution ==> c != "unclassified" && s.distribution[c] == Total(results, Names(c))
      ensures c !in s.distribution && c != "unclassified" ==> Total(results, Names(c)) == 0
    {
      MentionsAreReal(results);
      if c != "unclassified" {
        OccurrencesAreExact(results, c);
        TotalZero(mentions, InClass(Itself(), c, Once()));
      }
    }
  }

  lemma {:induction false} ReportedAreReal(categories: seq<string>)
    ensures "unclassified" !in Reported(categories)
  {
    if categories != [] {
      ReportedAreReal(categories[..|categories| - 1]);
    }
  }

  lemma {:induction false} MentionsAreReal(results: seq<Option<Result>>)
    ensures "unclassified" !in Mentions(results)
  {
    if results != [] {
      MentionsAreReal(results[..|results| - 1]);
      var r := results[|results| - 1];
      if r.Some? {
        ReportedAreReal(r.value.categories);
      }
    }
  }
}
