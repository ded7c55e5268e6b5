/**
 * The text summary of a report (`GenerateSummary`, internal/library/report.go
 * lines 38-111).
 *
 * The summary is specified as a sequence of `Line`s, one per `Fprintf` call of
 * the source; `Render` is the text each call writes and `Text` the text of a
 * whole sequence. The method `Summarize` writes the text step by step into a
 * string, as the source writes a `strings.Builder`, and is proved to produce
 * `Text(SummaryLines(...))`.
 */
module Summary {
  import opened GoStrings
  import opened Analyzer
  import opened Report

  // ---------------------------------------------------------------------------
  // The lines of a summary
  // ---------------------------------------------------------------------------

  /** The four recommendations, in the order they are numbered. */
  datatype Advice = RecentFirst | MediumNext | BatchByDecade | CheckDuplicates

  /** One `Fprintf` call of `GenerateSummary`. */
  datatype Line =
    | Title
    | TotalLine(total: int)
    | YearsLine(count: int)
    | TierHeading(tier: Tier)
    | IssueLine(historical: bool, issue: PriorityIssue)
    | BlankLine
    | DecadeHeader(decade: int)
    | RecommendationsHeading
    | Recommendation(advice: Advice)

  /** The indentation of an issue line: deeper under a decade header. */
  function Indent(historical: bool): string {
    if historical then "    " else "  "
  }

  /** The text of an issue line after its bullet: a missing month, or a light one with its count. */
  function IssueText(issue: PriorityIssue): string {
    if issue.fileCount == 0 then
      "Missing: " + (issue.month + (" " + (FormatInt(issue.year) + "\n")))
    else
      "Light: " + (issue.month + (" " + (FormatInt(issue.year) + (" (" + (FormatInt(issue.fileCount) + " files)\n")))))
  }

  /** The text one line writes. */
  function Render(line: Line): string {
    match line
    case Title => "\U{1F4CA} Analysis Summary\n"
    case TotalLine(total) => "Total Files: " + FormatInt(total) + "\n"
    case YearsLine(count) => "Years Covered: " + FormatInt(count) + "\n\n"
    case TierHeading(High) => "\U{1F6A8} High Priority Issues (Last 2 years):\n"
    case TierHeading(Medium) => "\U{26A0}\U{FE0F}  Medium Priority Issues (3-5 years ago):\n"
    case TierHeading(Low) => "\U{1F4DD} Historical Gaps (Older than 5 years):\n"
    case IssueLine(historical, issue) => Indent(historical) + "\U{2022} " + IssueText(issue)
    case BlankLine => "\n"
    case DecadeHeader(decade) => "  " + FormatInt(decade) + "s:\n"
    case RecommendationsHeading => "\U{1F4CB} Recommendations:\n"
    case Recommendation(RecentFirst) => "1. Focus on recent gaps first (last 2 years)\n"
    case Recommendation(MediumNext) => "2. Then address medium-term gaps (3-5 years ago)\n"
    case Recommendation(BatchByDecade) => "3. Consider batch-processing historical gaps by decade\n"
    case Recommendation(CheckDuplicates) => "4. Check 'possible_duplicates' folder for missing content\n"
  }

  /** The text of a sequence of lines. */
  function Text(lines: seq<Line>): string {
    ConcatMap(lines, Render)
  }

  /** The issue lines of one tier, in list order. */
  function IssueLines(historical: bool, issues: seq<PriorityIssue>): seq<Line> {
    seq(|issues|, i requires 0 <= i < |issues| => IssueLine(historical, issues[i]))
  }

  /** The high or medium section: a heading, the issues and a blank line, or nothing. */
  function TierLines(t: Tier, issues: seq<PriorityIssue>): seq<Line> {
    if |issues| == 0 then [] else [TierHeading(t)] + IssueLines(false, issues) + [BlankLine]
  }

  /** Go's `(year / 10) * 10`, with `/` truncating toward zero. */
  function Decade(year: int): int {
    GoDiv(year, 10) * 10
  }

  /**
   * What is written before an issue whose decade is not `currentDecade`: a
   * blank line unless `currentDecade` is 0, then the header.
   */
  function DecadeStep(currentDecade: int, issue: PriorityIssue): seq<Line> {
    var decade := Decade(issue.year);
    if decade == currentDecade then []
    else (if currentDecade != 0 then [BlankLine] else []) + [DecadeHeader(decade)]
  }

  /**
   * The decade tracked after the first `|low|` issues: 0 before any, and the
   * decade of the last one after (it is set whenever it differs).
   */
  function DecadeAfter(low: seq<PriorityIssue>): int {
    if |low| == 0 then 0 else Decade(low[|low| - 1].year)
  }

  /** The body of the historical section: decade headers and indented issue lines. */
  function HistLines(low: seq<PriorityIssue>): seq<Line>
    decreases |low|
  {
    if |low| == 0 then []
    else
      var prev := low[..|low| - 1];
      HistLines(prev) + DecadeStep(DecadeAfter(prev), low[|low| - 1]) + [IssueLine(true, low[|low| - 1])]
  }

  /** The historical section: a heading, the body and a blank line, or nothing. */
  function LowLines(low: seq<PriorityIssue>): seq<Line> {
    if |low| == 0 then [] else [TierHeading(Low)] + HistLines(low) + [BlankLine]
  }

  /** The recommendations: 1 and 2 only for non-empty tiers, 3 always, 4 only when there are files. */
  function Recommendations(total: int, high: seq<PriorityIssue>, medium: seq<PriorityIssue>): seq<Line> {
    [RecommendationsHeading]
      + (if |high| > 0 then [Recommendation(RecentFirst)] else [])
      + (if |medium| > 0 then [Recommendation(MediumNext)] else [])
      + [Recommendation(BatchByDecade)]
      + (if total > 0 then [Recommendation(CheckDuplicates)] else [])
  }

  /** The opening three lines. */
  function Header(total: int, yearCount: int): seq<Line> {
    [Title, TotalLine(total), YearsLine(yearCount)]
  }

  /** The whole summary, given the totals and the three sorted tiers. */
  function SummaryLines(total: int, yearCount: int,
                        high: seq<PriorityIssue>, medium: seq<PriorityIssue>, low: seq<PriorityIssue>): seq<Line> {
    Header(total, yearCount) + TierLines(High, high) + TierLines(Medium, medium) + LowLines(low)
      + Recommendations(total, high, medium)
  }

  // ---------------------------------------------------------------------------
  // GenerateSummary
  // ---------------------------------------------------------------------------

  /** Writing one more line appends its text. */
  lemma TextSnoc(lines: seq<Line>, line: Line)
    ensures Text(lines + [line]) == Text(lines) + Render(line)
  {
    ConcatMapSnoc(lines, line, Render);
  }

  lemma IssueLinesSnoc(issues: seq<PriorityIssue>, i: nat)
    requires i < |issues|
    ensures IssueLines(false, issues[..i + 1]) == IssueLines(false, issues[..i]) + [IssueLine(false, issues[i])]
  {
  }

  /**
   * The loop of lines 52-58 (and 65-71): one line per issue. `written` is the
   * lines the builder `summary` holds the text of.
   */
  method WriteIssues(summary0: string, ghost written0: seq<Line>, issues: seq<PriorityIssue>)
    returns (summary: string, ghost written: seq<Line>)
    requires summary0 == Text(written0)
    ensures written == written0 + IssueLines(false, issues)
    ensures summary == Text(written)
  {
    summary, written := summary0, written0;
    var i := 0;
    while i < |issues|
      invariant 0 <= i <= |issues|
      invariant written == written0 + IssueLines(false, issues[..i])
      invariant summary == Text(written)
    {
      IssueLinesSnoc(issues, i);
      summary, written := Write(summary, written, IssueLine(false, issues[i]));
      i := i + 1;
    }
    assert issues[..i] == issues;
  }

  /**
   * The body of the loop of lines 79-93: a header (after a blank line unless
   * `currentDecade0` is 0) when the issue opens a new decade, then its line.
   */
  method WriteHistoricalIssue(summary0: string, ghost written0: seq<Line>, currentDecade0: int, issue: PriorityIssue)
    returns (summary: string, ghost written: seq<Line>, currentDecade: int)
    requires summary0 == Text(written0)
    ensures written == written0 + DecadeStep(currentDecade0, issue) + [IssueLine(true, issue)]
    ensures currentDecade == Decade(issue.year)
    ensures summary == Text(written)
  {
    summary, written, currentDecade := summary0, written0, currentDecade0;
    var decade := GoDiv(issue.year, 10) * 10;
    if decade != currentDecade {
      if currentDecade != 0 {
        summary, written := Write(summary, written, BlankLine);
      }
      summary, written := Write(summary, written, DecadeHeader(decade));
      currentDecade := decade;
    }
    assert written == written0 + DecadeStep(currentDecade0, issue);
    summary, written := Write(summary, written, IssueLine(true, issue));
  }

  /** The loop of lines 78-93: decade headers, tracked in `currentDecade`, and indented issue lines. */
  method WriteHistorical(summary0: string, ghost written0: seq<Line>, low: seq<PriorityIssue>)
    returns (summary: string, ghost written: seq<Line>)
    requires summary0 == Text(written0)
    ensures written == written0 + HistLines(low)
    ensures summary == Text(written)
  {
    summary, written := summary0, written0;
    var currentDecade := 0;
    var i := 0;
    while i < |low|
      invariant 0 <= i <= |low|
      invariant currentDecade == DecadeAfter(low[..i])
      invariant written == written0 + HistLines(low[..i])
      invariant summary == Text(written)
    {
      ghost var prev := HistLines(low[..i]);
      ghost var step := DecadeStep(currentDecade, low[i]);
      HistLinesSnoc(low, i);
      summary, written, currentDecade := WriteHistoricalIssue(summary, written, currentDecade, low[i]);
      AppendAssoc(written0, prev, step, [IssueLine(true, low[i])]);
      i := i + 1;
    }
    assert low[..i] == low;
  }

  /** One more issue extends the historical body by its decade step and its line. */
  lemma HistLinesSnoc(low: seq<PriorityIssue>, i: nat)
    requires i < |low|
    ensures HistLines(low[..i + 1]) == HistLines(low[..i]) + DecadeStep(DecadeAfter(low[..i]), low[i]) + [IssueLine(true, low[i])]
    ensures DecadeAfter(low[..i + 1]) == Decade(low[i].year)
  {
    assert low[..i + 1][..i] == low[..i];
  }

  lemma AppendAssoc(a: seq<Line>, b: seq<Line>, c: seq<Line>, d: seq<Line>)
    ensures a + (b + c + d) == a + b + c + d
  {
  }

  /** Lines 50-60 (and 63-73): the section of a high or medium tier, if it has issues. */
  method WriteTier(summary0: string, ghost written0: seq<Line>, t: Tier, issues: seq<PriorityIssue>)
    returns (summary: string, ghost written: seq<Line>)
    requires summary0 == Text(written0)
    ensures written == written0 + TierLines(t, issues)
    ensures summary == Text(written)
  {
    summary, written := summary0, written0;
    if |issues| > 0 {
      summary, written := Write(summary, written, TierHeading(t));
      summary, written := WriteIssues(summary, written, issues);
      summary, written := Write(summary, written, BlankLine);
      AppendAssoc(written0, [TierHeading(t)], IssueLines(false, issues), [BlankLine]);
    }
  }

  /** Lines 76-95: the historical section, if the low tier has issues. */
  method WriteLow(summary0: string, ghost written0: seq<Line>, low: seq<PriorityIssue>)
    returns (summary: string, ghost written: seq<Line>)
    requires summary0 == Text(written0)
    ensures written == written0 + LowLines(low)
    ensures summary == Text(written)
  {
    summary, written := summary0, written0;
    if |low| > 0 {
      summary, written := Write(summary, written, TierHeading(Low));
      summary, written := WriteHistorical(summary, written, low);
      summary, written := Write(summary, written, BlankLine);
      AppendAssoc(written0, [TierHeading(Low)], HistLines(low), [BlankLine]);
    }
  }

  /** Lines 98-108: the recommendations. */
  method WriteRecommendations(summary0: string, ghost written0: seq<Line>,
                              total: int, high: seq<PriorityIssue>, medium: seq<PriorityIssue>)
    returns (summary: string, ghost written: seq<Line>)
    requires summary0 == Text(written0)
    ensures written == written0 + Recommendations(total, high, medium)
    ensures summary == Text(written)
  {
    summary, written := Write(summary0, written0, RecommendationsHeading);
    summary, written := WriteIf(summary, written, |high| > 0, Recommendation(RecentFirst));
    summary, written := WriteIf(summary, written, |medium| > 0, Recommendation(MediumNext));
    summary, written := Write(summary, written, Recommendation(BatchByDecade));
    summary, written := WriteIf(summary, written, total > 0, Recommendation(CheckDuplicates));
    RecommendationsAppend(written0, total, high, medium);
  }

  lemma RecommendationsAppend(written0: seq<Line>, total: int, high: seq<PriorityIssue>, medium: seq<PriorityIssue>)
    ensures written0 + Recommendations(total, high, medium) ==
      written0 + [RecommendationsHeading]
        + (if |high| > 0 then [Recommendation(RecentFirst)] else [])
        + (if |medium| > 0 then [Recommendation(MediumNext)] else [])
        + [Recommendation(BatchByDecade)]
        + (if total > 0 then [Recommendation(CheckDuplicates)] else [])
  {
  }

  /** `GenerateSummary` once the tiers are known: the lines of `SummaryLines`, written in order. */
  method Summarize(total: int, yearCount: int,
                   high: seq<PriorityIssue>, medium: seq<PriorityIssue>, low: seq<PriorityIssue>)
    returns (summary: string)
    ensures summary == Text(SummaryLines(total, yearCount, high, medium, low))
  {
    ghost var written: seq<Line>;
    summary, written := Write("", [], Title);
    summary, written := Write(summary, written, TotalLine(total));
    summary, written := Write(summary, written, YearsLine(yearCount));
    assert written == Header(total, yearCount);
    summary, written := WriteTier(summary, written, High, high);
    assert written == Header(total, yearCount) + TierLines(High, high);
    summary, written := WriteTier(summary, written, Medium, medium);
    assert written == Header(total, yearCount) + TierLines(High, high) + TierLines(Medium, medium);
    summary, written := WriteLow(summary, written, low);
    assert written == Header(total, yearCount) + TierLines(High, high) + TierLines(Medium, medium) + LowLines(low);
    summary, written := WriteRecommendations(summary, written, total, high, medium);
  }

  /** One `Fprintf` into the builder. */
  method Write(summary0: string, ghost written0: seq<Line>, line: Line) returns (summary: string, ghost written: seq<Line>)
    requires summary0 == Text(written0)
    ensures written == written0 + [line]
    ensures summary == Text(written)
  {
    TextSnoc(written0, line);
    summary := summary0 + Render(line);
    written := written0 + [line];
  }

  /** An `Fprintf` under an `if`. */
  method WriteIf(summary0: string, ghost written0: seq<Line>, condition: bool, line: Line)
    returns (summary: string, ghost written: seq<Line>)
    requires summary0 == Text(written0)
    ensures written == written0 + (if condition then [line] else [])
    ensures summary == Text(written)
  {
    summary, written := summary0, written0;
    if condition {
      summary, written := Write(summary, written, line);
    }
  }

  /** `GenerateSummary`: the summary of the tiers `getPrioritizedIssues` returns. */
  method GenerateSummary(result: AnalysisResult, currentYear: int, currentMonth: string) returns (summary: string)
    ensures summary == Text(SummaryLines(result.totalFiles, |result.years|,
                                         TierList(result.years, currentYear, currentMonth, High),
                                         TierList(result.years, currentYear, currentMonth, Medium),
                                         TierList(result.years, currentYear, currentMonth, Low)))
  {
    var high, medium, low := GetPrioritizedIssues(result, currentYear, currentMonth);
    summary := Summarize(result.totalFiles, |result.years|, high, medium, low);
  }
}
