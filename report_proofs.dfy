/**
 * What `getPrioritizedIssues` promises (internal/library/report.go lines
 * 119-166), proved about the tier specification of module `Report`.
 */
module ReportProofs {
  import opened GoStrings
  import opened Sorting
  import opened Analyzer
  import opened Report

  /**
   * An issue is in tier `t` exactly when it copies the year, month name and
   * file count of a stored month that is not normal, is not skipped by the
   * current-year name comparison, and whose age falls in `t`.
   */
  lemma CollectedIff(years: map<int, YearData>, currentYear: int, currentMonth: string, t: Tier, x: PriorityIssue)
    ensures x in Collected(years, currentYear, currentMonth, t) <==>
      && x.year in years && x.month in years[x.year].months
      && years[x.year].months[x.month].status != Normal
      && x.fileCount == years[x.year].months[x.month].fileCount
      && !SkipsFuture(x.year, x.month, currentYear, currentMonth)
      && TierOf(currentYear - x.year) == t
  {
    if x.year in years && x.month in years[x.year].months {
      var p := (x.year, x.month);
      assert p in Pairs(years);
      if Raises(years, x.year, x.month, currentYear, currentMonth, t)
         && x.fileCount == years[x.year].months[x.month].fileCount {
        assert IssueAt(years, p.0, p.1) == x;
      }
    }
  }

  /** The tier of an issue follows from its age alone: high up to 2, medium 3..5, low above. */
  lemma TierByAge(years: map<int, YearData>, currentYear: int, currentMonth: string, x: PriorityIssue)
    ensures x in Collected(years, currentYear, currentMonth, High) ==> currentYear - x.year <= 2
    ensures x in Collected(years, currentYear, currentMonth, Medium) ==> 3 <= currentYear - x.year <= 5
    ensures x in Collected(years, currentYear, currentMonth, Low) ==> currentYear - x.year > 5
  {
    CollectedIff(years, currentYear, currentMonth, High, x);
    CollectedIff(years, currentYear, currentMonth, Medium, x);
    CollectedIff(years, currentYear, currentMonth, Low, x);
  }

  /**
   * Every month that is not normal and not skipped gives an issue in exactly
   * one tier, the one of its age; a normal or skipped month gives none.
   */
  lemma ExactlyOneTier(years: map<int, YearData>, currentYear: int, currentMonth: string, y: int, m: string, t: Tier)
    requires y in years && m in years[y].months
    ensures IssueAt(years, y, m) in Collected(years, currentYear, currentMonth, t) <==>
      && years[y].months[m].status != Normal
      && !SkipsFuture(y, m, currentYear, currentMonth)
      && t == TierOf(currentYear - y)
  {
    CollectedIff(years, currentYear, currentMonth, t, IssueAt(years, y, m));
  }

  /** Months of any year but the current one are never skipped. */
  lemma OtherYearsKept(years: map<int, YearData>, currentYear: int, currentMonth: string, y: int, m: string)
    requires y in years && m in years[y].months && y != currentYear
    requires years[y].months[m].status != Normal
    ensures IssueAt(years, y, m) in Collected(years, currentYear, currentMonth, TierOf(currentYear - y))
  {
    ExactlyOneTier(years, currentYear, currentMonth, y, m, TierOf(currentYear - y));
  }

  /** The current month itself is never skipped: a name is not greater than itself. */
  lemma CurrentMonthKept(currentYear: int, currentMonth: string)
    ensures !SkipsFuture(currentYear, currentMonth, currentYear, currentMonth)
  {
    LexLessIrreflexive(currentMonth);
  }

  /**
   * The skip compares names, not calendar positions: in March, May,
   * November, October and September are skipped, while April, June, July,
   * August and December are kept, and so are January and February.
   */
  lemma MarchSkips(currentYear: int)
    ensures SkipsFuture(currentYear, "May", currentYear, "March")
    ensures SkipsFuture(currentYear, "November", currentYear, "March")
    ensures SkipsFuture(currentYear, "October", currentYear, "March")
    ensures SkipsFuture(currentYear, "September", currentYear, "March")
    ensures !SkipsFuture(currentYear, "April", currentYear, "March")
    ensures !SkipsFuture(currentYear, "June", currentYear, "March")
    ensures !SkipsFuture(currentYear, "July", currentYear, "March")
    ensures !SkipsFuture(currentYear, "August", currentYear, "March")
    ensures !SkipsFuture(currentYear, "December", currentYear, "March")
    ensures !SkipsFuture(currentYear, "January", currentYear, "March")
    ensures !SkipsFuture(currentYear, "February", currentYear, "March")
  {
    assert LexLess("rch", "y");
    assert LexLess("arch", "ay");
  }

  /**
   * Each tier, as returned, is its issues each once, recent years first and
   * within a year month names in increasing string order.
   */
  lemma TierListOrdered(years: map<int, YearData>, currentYear: int, currentMonth: string, t: Tier)
    ensures forall x :: x in TierList(years, currentYear, currentMonth, t) <==> x in Collected(years, currentYear, currentMonth, t)
    ensures
      var list := TierList(years, currentYear, currentMonth, t);
      forall i, j :: 0 <= i < j < |list| ==> IssueLess(list[i], list[j])
  {
    var c := Collected(years, currentYear, currentMonth, t);
    var list := TierList(years, currentYear, currentMonth, t);
    IssueLessStrict();
    InsertionSortSorted(Enumerate(c), IssueLess);
    assert multiset(list) == multiset(c);
    forall x ensures x in list <==> x in c {
      assert x in list <==> x in multiset(list);
    }
    forall i, j | 0 <= i < j < |list| ensures IssueLess(list[i], list[j]) {
      if list[i] == list[j] {
        TwiceCounted(list, i, j);
        assert false;
      }
      assert list[i] in c && list[j] in c;
      TierTotal(years, currentYear, currentMonth, t, list[i], list[j]);
    }
  }
}
