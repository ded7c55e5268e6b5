/**
 * What the text summary promises (internal/library/report.go lines 38-111),
 * proved about `SummaryLines` of module `Summary` and, through
 * `GenerateSummary`'s postcondition, about the summary of an analysis result.
 */
module SummaryProofs {
  import opened GoStrings
  import opened Sorting
  import opened Analyzer
  import opened Report
  import opened ReportProofs
  import opened Summary

  // ---------------------------------------------------------------------------
  // Issue lines
  // ---------------------------------------------------------------------------

  /**
   * An issue line reads "Missing: " exactly when the month has no files, and
   * otherwise "Light: " followed by the month name.
   */
  lemma MissingOrLight(x: PriorityIssue)
    ensures |IssueText(x)| > 9
    ensures x.fileCount == 0 <==> IssueText(x)[..9] == "Missing: "
    ensures x.fileCount != 0 ==> IssueText(x)[..7] == "Light: " && IssueText(x)[7..7 + |x.month|] == x.month
  {
    if x.fileCount == 0 {
      MissingText(x);
    } else {
      LightText(x);
    }
  }

  lemma MissingText(x: PriorityIssue)
    requires x.fileCount == 0
    ensures |IssueText(x)| > 9 && IssueText(x)[..9] == "Missing: "
  {
    assert IssueText(x) == "Missing: " + (x.month + (" " + (FormatInt(x.year) + "\n")));
  }

  lemma LightText(x: PriorityIssue)
    requires x.fileCount != 0
    ensures |IssueText(x)| > 9 && IssueText(x)[0] == 'L' && IssueText(x)[..7] == "Light: "
    ensures IssueText(x)[7..7 + |x.month|] == x.month
  {
    var rest := " " + (FormatInt(x.year) + (" (" + (FormatInt(x.fileCount) + " files)\n")));
    assert IssueText(x) == "Light: " + (x.month + rest);
    assert IssueText(x)[7..] == x.month + rest;
  }

  /** The historical body holds issue lines (indented), decade headers and blank lines only. */
  lemma {:induction false} HistLinesKinds(low: seq<PriorityIssue>)
    ensures forall l :: l in HistLines(low) ==>
      (l.IssueLine? && l.historical && l.issue in low) || l.DecadeHeader? || l.BlankLine?
    ensures forall x :: x in low ==> IssueLine(true, x) in HistLines(low)
    decreases |low|
  {
    if |low| > 0 {
      var prev := low[..|low| - 1];
      HistLinesKinds(prev);
      assert low == prev + [low[|low| - 1]];
    }
  }

  /** The summary is its five parts, one after the other. */
  lemma InSummary(total: int, yearCount: int,
                  high: seq<PriorityIssue>, medium: seq<PriorityIssue>, low: seq<PriorityIssue>, l: Line)
    ensures l in SummaryLines(total, yearCount, high, medium, low) <==>
      || l in Header(total, yearCount)
      || l in TierLines(High, high)
      || l in TierLines(Medium, medium)
      || l in LowLines(low)
      || l in Recommendations(total, high, medium)
  {
  }

  /**
   * The summary's text is the text of its five parts in order: the header,
   * the high and medium sections, the low section and the recommendations.
   */
  lemma SummarySections(total: int, yearCount: int,
                        high: seq<PriorityIssue>, medium: seq<PriorityIssue>, low: seq<PriorityIssue>)
    ensures Text(SummaryLines(total, yearCount, high, medium, low)) ==
      Text(Header(total, yearCount)) + Text(TierLines(High, high)) + Text(TierLines(Medium, medium))
        + Text(LowLines(low)) + Text(Recommendations(total, high, medium))
  {
    var h, a, b, c, r := Header(total, yearCount), TierLines(High, high), TierLines(Medium, medium),
                         LowLines(low), Recommendations(total, high, medium);
    ConcatMapAppend(h + a + b + c, r, Render);
    ConcatMapAppend(h + a + b, c, Render);
    ConcatMapAppend(h + a, b, Render);
    ConcatMapAppend(h, a, Render);
  }

  /** The lines of a high or medium section. */
  lemma InTierLines(t: Tier, issues: seq<PriorityIssue>, l: Line)
    ensures l in TierLines(t, issues) <==>
      || (|issues| > 0 && (l == TierHeading(t) || l == BlankLine))
      || (l.IssueLine? && !l.historical && l.issue in issues)
  {
    if l.IssueLine? && !l.historical && l.issue in issues {
      var i :| 0 <= i < |issues| && issues[i] == l.issue;
      assert IssueLines(false, issues)[i] == l;
    }
  }

  /** The lines of the historical section. */
  lemma InLowLines(low: seq<PriorityIssue>, l: Line)
    ensures l in LowLines(low) <==>
      || (|low| > 0 && (l == TierHeading(Low) || l == BlankLine))
      || (l.IssueLine? && l.historical && l.issue in low)
      || (l.DecadeHeader? && l in HistLines(low))
  {
    HistLinesKinds(low);
  }

  /** The lines of the recommendations. */
  lemma InRecommendations(total: int, high: seq<PriorityIssue>, medium: seq<PriorityIssue>, l: Line)
    ensures l in Recommendations(total, high, medium) <==>
      || l == RecommendationsHeading
      || (l == Recommendation(RecentFirst) && |high| > 0)
      || (l == Recommendation(MediumNext) && |medium| > 0)
      || l == Recommendation(BatchByDecade)
      || (l == Recommendation(CheckDuplicates) && total > 0)
  {
  }

  /**
   * Issue lines of the summary: an unindented one for each issue of the high
   * and medium tiers, an indented one for each of the low tier, and no other.
   */
  lemma IssueLinesShown(total: int, yearCount: int,
                        high: seq<PriorityIssue>, medium: seq<PriorityIssue>, low: seq<PriorityIssue>,
                        x: PriorityIssue)
    ensures IssueLine(false, x) in SummaryLines(total, yearCount, high, medium, low) <==> x in high || x in medium
    ensures IssueLine(true, x) in SummaryLines(total, yearCount, high, medium, low) <==> x in low
  {
    forall h: bool ensures IssueLine(h, x) in SummaryLines(total, yearCount, high, medium, low) <==>
      (!h && (x in high || x in medium)) || (h && x in low)
    {
      var l := IssueLine(h, x);
      InSummary(total, yearCount, high, medium, low, l);
      InTierLines(High, high, l);
      InTierLines(Medium, medium, l);
      InLowLines(low, l);
      InRecommendations(total, high, medium, l);
    }
  }

  // ---------------------------------------------------------------------------
  // Headings and recommendations
  // ---------------------------------------------------------------------------

  /** A tier's section heading appears exactly when the tier has issues. */
  lemma HeadingsShown(total: int, yearCount: int,
                      high: seq<PriorityIssue>, medium: seq<PriorityIssue>, low: seq<PriorityIssue>)
    ensures TierHeading(High) in SummaryLines(total, yearCount, high, medium, low) <==> |high| > 0
    ensures TierHeading(Medium) in SummaryLines(total, yearCount, high, medium, low) <==> |medium| > 0
    ensures TierHeading(Low) in SummaryLines(total, yearCount, high, medium, low) <==> |low| > 0
  {
    forall t: Tier ensures TierHeading(t) in SummaryLines(total, yearCount, high, medium, low) <==>
      (t == High && |high| > 0) || (t == Medium && |medium| > 0) || (t == Low && |low| > 0)
    {
      var l := TierHeading(t);
      InSummary(total, yearCount, high, medium, low, l);
      InTierLines(High, high, l);
      InTierLines(Medium, medium, l);
      InLowLines(low, l);
      InRecommendations(total, high, medium, l);
    }
  }

  /**
   * Recommendation 1 appears exactly when the high tier has issues, 2 exactly
   * when the medium tier has, 3 always, and 4 exactly when files were counted.
   */
  lemma RecommendationsShown(total: int, yearCount: int,
                             high: seq<PriorityIssue>, medium: seq<PriorityIssue>, low: seq<PriorityIssue>)
    ensures Recommendation(RecentFirst) in SummaryLines(total, yearCount, high, medium, low) <==> |high| > 0
    ensures Recommendation(MediumNext) in SummaryLines(total, yearCount, high, medium, low) <==> |medium| > 0
    ensures Recommendation(BatchByDecade) in SummaryLines(total, yearCount, high, medium, low)
    ensures Recommendation(CheckDuplicates) in SummaryLines(total, yearCount, high, medium, low) <==> total > 0
  {
    forall a: Advice ensures Recommendation(a) in SummaryLines(total, yearCount, high, medium, low) <==>
      Recommendation(a) in Recommendations(total, high, medium)
    {
      var l := Recommendation(a);
      InSummary(total, yearCount, high, medium, low, l);
      InTierLines(High, high, l);
      InTierLines(Medium, medium, l);
      InLowLines(low, l);
    }
    InRecommendations(total, high, medium, Recommendation(RecentFirst));
    InRecommendations(total, high, medium, Recommendation(MediumNext));
    InRecommendations(total, high, medium, Recommendation(BatchByDecade));
    InRecommendations(total, high, medium, Recommendation(CheckDuplicates));
  }

  // ---------------------------------------------------------------------------
  // Decade headers
  // ---------------------------------------------------------------------------

  /** Go's truncating division by 10 keeps order. */
  lemma DecadeMonotone(a: int, b: int)
    requires a <= b
    ensures Decade(a) <= Decade(b)
  {
    if a >= 0 {
      assert a / 10 <= b / 10;
    } else if b < 0 {
      assert (-b) / 10 <= (-a) / 10;
    }
  }

  /** The issues' decades never increase along the list. */
  ghost predicate DecadesDescend(low: seq<PriorityIssue>) {
    forall i, j :: 0 <= i < j < |low| ==> Decade(low[j].year) <= Decade(low[i].year)
  }

  /** Some issue of the list lies in decade `d`. */
  ghost predicate HasDecade(low: seq<PriorityIssue>, d: int) {
    exists k :: 0 <= k < |low| && Decade(low[k].year) == d
  }

  /** The number of headers for decade `d` in the historical body. */
  ghost function HeaderCount(low: seq<PriorityIssue>, d: int): nat {
    multiset(HistLines(low))[DecadeHeader(d)]
  }

  /** One more issue adds a header for its decade exactly when that differs from the tracked one. */
  lemma HeaderCountStep(low: seq<PriorityIssue>, d: int)
    requires |low| > 0
    ensures
      var prev := low[..|low| - 1];
      var dx := Decade(low[|low| - 1].year);
      HeaderCount(low, d) == HeaderCount(prev, d) + if dx == d && d != DecadeAfter(prev) then 1 else 0
  {
    var prev := low[..|low| - 1];
    var x := low[|low| - 1];
    var step := DecadeStep(DecadeAfter(prev), x);
    assert multiset(HistLines(low)) == multiset(HistLines(prev)) + multiset(step) + multiset{IssueLine(true, x)};
  }

  lemma HasDecadeStep(low: seq<PriorityIssue>, d: int)
    requires |low| > 0
    ensures HasDecade(low, d) <==> HasDecade(low[..|low| - 1], d) || Decade(low[|low| - 1].year) == d
  {
    var prev := low[..|low| - 1];
    if HasDecade(prev, d) {
      var k :| 0 <= k < |prev| && Decade(prev[k].year) == d;
      assert low[k] == prev[k];
    }
    if HasDecade(low, d) && Decade(low[|low| - 1].year) != d {
      var k :| 0 <= k < |low| && Decade(low[k].year) == d;
      assert prev[k] == low[k];
    }
  }

  /**
   * In a descending list, the decade tracked before the last issue is the
   * least among the earlier ones, at least the last issue's, and at most the
   * first issue's.
   */
  lemma DescendingPrefix(low: seq<PriorityIssue>)
    requires DecadesDescend(low) && |low| >= 2
    ensures
      var prev := low[..|low| - 1];
      && DecadesDescend(prev)
      && HasDecade(prev, DecadeAfter(prev))
      && Decade(low[|low| - 1].year) <= DecadeAfter(prev) <= Decade(prev[0].year)
      && forall k :: 0 <= k < |prev| ==> DecadeAfter(prev) <= Decade(prev[k].year)
  {
    var prev := low[..|low| - 1];
    forall i, j | 0 <= i < j < |prev| ensures Decade(prev[j].year) <= Decade(prev[i].year) {
      assert prev[i] == low[i] && prev[j] == low[j];
    }
    assert Decade(prev[|prev| - 1].year) == DecadeAfter(prev);
  }

  /**
   * When the decades never increase, every decade of the list gets exactly one
   * header, except decade 0 when it is the first decade of the list (the
   * tracked decade starts at 0); a decade not in the list gets none.
   */
  lemma {:induction false} DecadeHeaderCount(low: seq<PriorityIssue>, d: int)
    requires DecadesDescend(low)
    ensures HeaderCount(low, d) ==
      if HasDecade(low, d) && !(d == 0 && Decade(low[0].year) == 0) then 1 else 0
    decreases |low|
  {
    if |low| == 1 {
      HeaderCountStep(low, d);
      HasDecadeStep(low, d);
      assert low[..0] == [];
    } else if |low| > 1 {
      var prev := low[..|low| - 1];
      DescendingPrefix(low);
      DecadeHeaderCount(prev, d);
      HeaderCountStep(low, d);
      HasDecadeStep(low, d);
      assert low[0] == prev[0];
    }
  }

  /** A tier sorted by `IssueLess` has its years, hence its decades, descending. */
  lemma SortedDecadesDescend(low: seq<PriorityIssue>)
    requires SortedBy(low, IssueLess)
    ensures DecadesDescend(low)
  {
    forall i, j | 0 <= i < j < |low| ensures Decade(low[j].year) <= Decade(low[i].year) {
      assert !IssueLess(low[j], low[i]);
      DecadeMonotone(low[j].year, low[i].year);
    }
  }

  // ---------------------------------------------------------------------------
  // The summary of an analysis result
  // ---------------------------------------------------------------------------

  /** The lines of the summary `GenerateSummary` writes for `result`. */
  ghost function ResultLines(result: AnalysisResult, currentYear: int, currentMonth: string): seq<Line> {
    SummaryLines(result.totalFiles, |result.years|,
                 TierList(result.years, currentYear, currentMonth, High),
                 TierList(result.years, currentYear, currentMonth, Medium),
                 TierList(result.years, currentYear, currentMonth, Low))
  }

  /**
   * The summary lists, unindented, exactly the issues of the high and medium
   * tiers and, indented under decade headers, exactly those of the low tier.
   */
  lemma ResultIssueLines(result: AnalysisResult, currentYear: int, currentMonth: string, x: PriorityIssue)
    ensures IssueLine(false, x) in ResultLines(result, currentYear, currentMonth) <==>
      x in Collected(result.years, currentYear, currentMonth, High) ||
      x in Collected(result.years, currentYear, currentMonth, Medium)
    ensures IssueLine(true, x) in ResultLines(result, currentYear, currentMonth) <==>
      x in Collected(result.years, currentYear, currentMonth, Low)
  {
    TierListOrdered(result.years, currentYear, currentMonth, High);
    TierListOrdered(result.years, currentYear, currentMonth, Medium);
    TierListOrdered(result.years, currentYear, currentMonth, Low);
    IssueLinesShown(result.totalFiles, |result.years|,
                    TierList(result.years, currentYear, currentMonth, High),
                    TierList(result.years, currentYear, currentMonth, Medium),
                    TierList(result.years, currentYear, currentMonth, Low), x);
  }

  /**
   * In the summary of a result, each decade of the historical tier has one
   * header, except decade 0 when it is the most recent decade of that tier;
   * other decades have none.
   */
  lemma ResultDecadeHeaders(result: AnalysisResult, currentYear: int, currentMonth: string, d: int)
    ensures
      var low := TierList(result.years, currentYear, currentMonth, Low);
      multiset(ResultLines(result, currentYear, currentMonth))[DecadeHeader(d)] ==
        if HasDecade(low, d) && !(d == 0 && Decade(low[0].year) == 0) then 1 else 0
  {
    var low := TierList(result.years, currentYear, currentMonth, Low);
    IssueLessStrict();
    InsertionSortSorted(Enumerate(Collected(result.years, currentYear, currentMonth, Low)), IssueLess);
    SortedDecadesDescend(low);
    DecadeHeaderCount(low, d);
    SummaryHeaderCount(result.totalFiles, |result.years|,
                       TierList(result.years, currentYear, currentMonth, High),
                       TierList(result.years, currentYear, currentMonth, Medium), low, d);
  }

  lemma LowLinesHeaders(low: seq<PriorityIssue>, d: int)
    ensures multiset(LowLines(low))[DecadeHeader(d)] == HeaderCount(low, d)
  {
    if |low| > 0 {
      assert multiset(LowLines(low)) == multiset{TierHeading(Low)} + multiset(HistLines(low)) + multiset{BlankLine};
    }
  }

  lemma HeadersOutsideHistorical(total: int, yearCount: int, high: seq<PriorityIssue>, medium: seq<PriorityIssue>, d: int)
    ensures DecadeHeader(d) !in Header(total, yearCount)
    ensures DecadeHeader(d) !in TierLines(High, high) && DecadeHeader(d) !in TierLines(Medium, medium)
    ensures DecadeHeader(d) !in Recommendations(total, high, medium)
  {
    InTierLines(High, high, DecadeHeader(d));
    InTierLines(Medium, medium, DecadeHeader(d));
    InRecommendations(total, high, medium, DecadeHeader(d));
  }

  /** Decade headers appear in the historical section only. */
  lemma SummaryHeaderCount(total: int, yearCount: int,
                           high: seq<PriorityIssue>, medium: seq<PriorityIssue>, low: seq<PriorityIssue>, d: int)
    ensures multiset(SummaryLines(total, yearCount, high, medium, low))[DecadeHeader(d)] == HeaderCount(low, d)
  {
    var h := DecadeHeader(d);
    var a, b, c := Header(total, yearCount), TierLines(High, high), TierLines(Medium, medium);
    var e := Recommendations(total, high, medium);
    HeadersOutsideHistorical(total, yearCount, high, medium, d);
    var lows := LowLines(low);
    LowLinesHeaders(low, d);
    var before := a + b + c;
    assert multiset(before)[h] == 0 by {
      assert h !in before;
    }
    assert multiset(before + lows)[h] == HeaderCount(low, d) by {
      assert multiset(before + lows) == multiset(before) + multiset(lows);
    }
    assert multiset(before + lows + e)[h] == HeaderCount(low, d) by {
      assert multiset(before + lows + e) == multiset(before + lows) + multiset(e);
    }
    assert SummaryLines(total, yearCount, high, medium, low) == before + lows + e;
  }
}
