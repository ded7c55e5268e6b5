/**
 * The prioritisation half of the report (internal/library/report.go): which
 * months of an analysis result are reported as gaps, in which of three tiers,
 * and in which order; and the descending year list the HTML report is built on.
 *
 * The current year and the current month's English name are parameters (the
 * source reads the clock). Go's map iteration order is a free choice here
 * (`Pick`); the specifications are over sets, and the sorted tiers they describe
 * are unique.
 */
module Report {
  import opened GoStrings
  import opened Sorting
  import opened Analyzer

  // ---------------------------------------------------------------------------
  // Data model
  // ---------------------------------------------------------------------------

  /** One reported gap: a missing or light month. */
  datatype PriorityIssue = PriorityIssue(year: int, month: string, fileCount: int)

  /** The three priority lists: high (last 2 years), medium (3-5 years ago), low (older). */
  datatype Tier = High | Medium | Low

  /** An entry of the year list handed to the HTML template. */
  datatype YearEntry = YearEntry(year: int, data: YearData)

  // ---------------------------------------------------------------------------
  // The rules (lines 124-151)
  // ---------------------------------------------------------------------------

  /**
   * The tier of an issue `age` years old: up to 2 is high (a year after the
   * current one has a negative age and is high too), 3..5 medium, older low.
   */
  function TierOf(age: int): (t: Tier)
    ensures t == High <==> age <= 2
    ensures t == Medium <==> 3 <= age <= 5
    ensures t == Low <==> age > 5
  {
    if age <= 2 then High
    else if age <= 5 then Medium
    else Low
  }

  /**
   * The skip meant for future months: only in the current year, and by comparing
   * month NAMES as strings, so in "March" the months May, November, October and
   * September are skipped while April, June, July, August and December are kept.
   */
  predicate SkipsFuture(year: int, month: string, currentYear: int, currentMonth: string) {
    year == currentYear && LexLess(currentMonth, month)
  }

  /** The month `m` of year `y` is reported, in tier `t`. */
  predicate Raises(years: map<int, YearData>, y: int, m: string, currentYear: int, currentMonth: string, t: Tier)
    requires y in years && m in years[y].months
  {
    && !SkipsFuture(y, m, currentYear, currentMonth)
    && years[y].months[m].status != Normal
    && TierOf(currentYear - y) == t
  }

  /** The issue the month `m` of year `y` gives: its year key, month key and file count. */
  function IssueAt(years: map<int, YearData>, y: int, m: string): PriorityIssue
    requires y in years && m in years[y].months
  {
    PriorityIssue(y, m, years[y].months[m].fileCount)
  }

  /** The (year key, month key) pairs of a result's matrix. */
  ghost function Pairs(years: map<int, YearData>): set<(int, string)> {
    set y, m | y in years && m in years[y].months :: (y, m)
  }

  /** The issues of tier `t` among the pairs `done`. */
  ghost function TierSet(years: map<int, YearData>, currentYear: int, currentMonth: string, t: Tier,
                         done: set<(int, string)>): set<PriorityIssue>
  {
    set p | p in done && p.0 in years && p.1 in years[p.0].months &&
            Raises(years, p.0, p.1, currentYear, currentMonth, t)
      :: IssueAt(years, p.0, p.1)
  }

  /** Every issue of tier `t`, in no order. */
  ghost function Collected(years: map<int, YearData>, currentYear: int, currentMonth: string, t: Tier): set<PriorityIssue> {
    TierSet(years, currentYear, currentMonth, t, Pairs(years))
  }

  /** Recent years first; within a year, month names in string order (lines 157-162). */
  predicate IssueLess(a: PriorityIssue, b: PriorityIssue) {
    a.year > b.year || (a.year == b.year && LexLess(a.month, b.month))
  }

  /** Tier `t` as `getPrioritizedIssues` returns it: its issues, sorted. */
  ghost function TierList(years: map<int, YearData>, currentYear: int, currentMonth: string, t: Tier): seq<PriorityIssue> {
    InsertionSort(Enumerate(Collected(years, currentYear, currentMonth, t)), IssueLess)
  }

  // ---------------------------------------------------------------------------
  // Lemmas the methods rely on
  // ---------------------------------------------------------------------------

  lemma IssueLessStrict()
    ensures StrictOrder(IssueLess)
  {
    forall x: PriorityIssue ensures !IssueLess(x, x) {
      LexLessIrreflexive(x.month);
    }
    forall x: PriorityIssue, y: PriorityIssue, z: PriorityIssue | IssueLess(x, y) && IssueLess(y, z)
      ensures IssueLess(x, z)
    {
      if x.year == y.year == z.year {
        LexLessTransitive(x.month, y.month, z.month);
      }
    }
  }

  /** Visiting one more pair adds its issue to the tier it raises in, and to no other. */
  lemma TierSetAdd(years: map<int, YearData>, currentYear: int, currentMonth: string, t: Tier,
                   done: set<(int, string)>, y: int, m: string)
    requires y in years && m in years[y].months && (y, m) !in done
    ensures multiset(TierSet(years, currentYear, currentMonth, t, done + {(y, m)})) ==
      multiset(TierSet(years, currentYear, currentMonth, t, done)) +
        (if Raises(years, y, m, currentYear, currentMonth, t) then multiset{IssueAt(years, y, m)} else multiset{})
  {
    var before := TierSet(years, currentYear, currentMonth, t, done);
    var after := TierSet(years, currentYear, currentMonth, t, done + {(y, m)});
    var i := IssueAt(years, y, m);
    if Raises(years, y, m, currentYear, currentMonth, t) {
      assert i !in before;
      assert after == before + {i};
    } else {
      assert after == before;
    }
  }

  /** Any two different issues of one tier are ordered one way or the other. */
  lemma TierTotal(years: map<int, YearData>, currentYear: int, currentMonth: string, t: Tier, a: PriorityIssue, b: PriorityIssue)
    requires a in Collected(years, currentYear, currentMonth, t)
    requires b in Collected(years, currentYear, currentMonth, t)
    requires a != b
    ensures IssueLess(a, b) || IssueLess(b, a)
  {
    if a.year == b.year && a.month != b.month {
      LexLessTotal(a.month, b.month);
    }
  }

  /**
   * A tier has one sorted order: any sorted permutation of its issues is
   * `TierList`, whatever order the maps were visited in.
   */
  lemma TierUnique(years: map<int, YearData>, currentYear: int, currentMonth: string, t: Tier, s: seq<PriorityIssue>)
    requires multiset(s) == multiset(Collected(years, currentYear, currentMonth, t))
    requires SortedBy(s, IssueLess)
    ensures s == TierList(years, currentYear, currentMonth, t)
  {
    var c := Collected(years, currentYear, currentMonth, t);
    IssueLessStrict();
    InsertionSortSorted(Enumerate(c), IssueLess);
    forall a, b | a in s && b in s && a != b ensures IssueLess(a, b) || IssueLess(b, a) {
      assert a in multiset(s) && b in multiset(s);
      TierTotal(years, currentYear, currentMonth, t, a, b);
    }
    SortedUnique(s, TierList(years, currentYear, currentMonth, t), IssueLess);
  }

  // ---------------------------------------------------------------------------
  // getPrioritizedIssues
  // ---------------------------------------------------------------------------

  /** The three lists hold, each once, the issues of their tier among the pairs `done`. */
  ghost predicate Partitioned(years: map<int, YearData>, currentYear: int, currentMonth: string,
                              done: set<(int, string)>,
                              high: seq<PriorityIssue>, medium: seq<PriorityIssue>, low: seq<PriorityIssue>)
  {
    && multiset(high) == multiset(TierSet(years, currentYear, currentMonth, High, done))
    && multiset(medium) == multiset(TierSet(years, currentYear, currentMonth, Medium, done))
    && multiset(low) == multiset(TierSet(years, currentYear, currentMonth, Low, done))
  }

  /** Visiting one month appends its issue, if it raises one, to the list of its tier. */
  lemma VisitPair(years: map<int, YearData>, currentYear: int, currentMonth: string,
                  done: set<(int, string)>, y: int, m: string,
                  high: seq<PriorityIssue>, medium: seq<PriorityIssue>, low: seq<PriorityIssue>)
    requires y in years && m in years[y].months && (y, m) !in done
    requires Partitioned(years, currentYear, currentMonth, done, high, medium, low)
    ensures
      var issue := IssueAt(years, y, m);
      var raised := !SkipsFuture(y, m, currentYear, currentMonth) && years[y].months[m].status != Normal;
      var age := currentYear - y;
      Partitioned(years, currentYear, currentMonth, done + {(y, m)},
                  if raised && age <= 2 then high + [issue] else high,
                  if raised && 3 <= age <= 5 then medium + [issue] else medium,
                  if raised && age > 5 then low + [issue] else low)
  {
    TierSetAdd(years, currentYear, currentMonth, High, done, y, m);
    TierSetAdd(years, currentYear, currentMonth, Medium, done, y, m);
    TierSetAdd(years, currentYear, currentMonth, Low, done, y, m);
  }

  /** The pairs of one year. */
  ghost function YearPairs(years: map<int, YearData>, y: int, ms: set<string>): set<(int, string)> {
    set m | m in ms :: (y, m)
  }

  /** Visiting month `m` of year `y` moves it from the months still to visit to the visited pairs. */
  lemma VisitedAdd(years: map<int, YearData>, y: int, done: set<(int, string)>, keys: set<string>, ms: set<string>, m: string)
    requires m in ms && ms <= keys
    ensures done + YearPairs(years, y, keys - ms) + {(y, m)} == done + YearPairs(years, y, keys - (ms - {m}))
  {
    assert keys - (ms - {m}) == (keys - ms) + {m};
    assert YearPairs(years, y, (keys - ms) + {m}) == YearPairs(years, y, keys - ms) + {(y, m)};
  }

  /** The pairs of the years `ys`, every month of each. */
  ghost function PairsOf(years: map<int, YearData>, ys: set<int>): set<(int, string)> {
    set y, m | y in ys && y in years && m in years[y].months :: (y, m)
  }

  lemma PairsOfAdd(years: map<int, YearData>, ys: set<int>, y: int)
    requires y in years && y !in ys
    ensures PairsOf(years, ys + {y}) == PairsOf(years, ys) + YearPairs(years, y, years[y].months.Keys)
    ensures forall m :: (y, m) !in PairsOf(years, ys)
  {
  }

  /** The body of the inner loop (lines 124-151): one month, appended to its tier's list if it is a gap. */
  method VisitMonth(year: int, month: string, monthData: MonthData, currentYear: int, currentMonth: string,
                    high0: seq<PriorityIssue>, medium0: seq<PriorityIssue>, low0: seq<PriorityIssue>)
    returns (high: seq<PriorityIssue>, medium: seq<PriorityIssue>, low: seq<PriorityIssue>)
    ensures
      var issue := PriorityIssue(year, month, monthData.fileCount);
      var raised := !SkipsFuture(year, month, currentYear, currentMonth) && monthData.status != Normal;
      var age := currentYear - year;
      && high == (if raised && age <= 2 then high0 + [issue] else high0)
      && medium == (if raised && 3 <= age <= 5 then medium0 + [issue] else medium0)
      && low == (if raised && age > 5 then low0 + [issue] else low0)
  {
    high, medium, low := high0, medium0, low0;
    if year == currentYear {
      if LexLess(currentMonth, month) {
        return;
      }
    }
    if monthData.status == Normal {
      return;
    }
    var issue := PriorityIssue(year, month, monthData.fileCount);
    var age := currentYear - year;
    if age <= 2 {
      high := high + [issue];
    } else if age <= 5 {
      medium := medium + [issue];
    } else {
      low := low + [issue];
    }
  }

  /** The inner loop of lines 123-152: the months of one year, in map order. */
  method CollectYear(years: map<int, YearData>, currentYear: int, currentMonth: string, year: int,
                     ghost done: set<(int, string)>,
                     high0: seq<PriorityIssue>, medium0: seq<PriorityIssue>, low0: seq<PriorityIssue>)
    returns (high: seq<PriorityIssue>, medium: seq<PriorityIssue>, low: seq<PriorityIssue>)
    requires year in years && forall m :: (year, m) !in done
    requires Partitioned(years, currentYear, currentMonth, done, high0, medium0, low0)
    ensures Partitioned(years, currentYear, currentMonth,
                        done + YearPairs(years, year, years[year].months.Keys), high, medium, low)
  {
    high, medium, low := high0, medium0, low0;
    var yearData := years[year];
    var ms := yearData.months.Keys;
    while ms != {}
      invariant ms <= yearData.months.Keys
      invariant Partitioned(years, currentYear, currentMonth,
                            done + YearPairs(years, year, yearData.months.Keys - ms), high, medium, low)
      decreases ms
    {
      var month := Pick(ms);
      ghost var visited := done + YearPairs(years, year, yearData.months.Keys - ms);
      VisitPair(years, currentYear, currentMonth, visited, year, month, high, medium, low);
      high, medium, low := VisitMonth(year, month, yearData.months[month], currentYear, currentMonth, high, medium, low);
      VisitedAdd(years, year, done, yearData.months.Keys, ms, month);
      ms := ms - {month};
    }
    assert yearData.months.Keys - ms == yearData.months.Keys;
  }

  /** The outer loop of lines 122-153: every year, in map order. */
  method CollectAll(years: map<int, YearData>, currentYear: int, currentMonth: string)
    returns (high: seq<PriorityIssue>, medium: seq<PriorityIssue>, low: seq<PriorityIssue>)
    ensures Partitioned(years, currentYear, currentMonth, Pairs(years), high, medium, low)
  {
    high, medium, low := [], [], [];
    var ys := years.Keys;
    while ys != {}
      invariant ys <= years.Keys
      invariant Partitioned(years, currentYear, currentMonth, PairsOf(years, years.Keys - ys), high, medium, low)
      decreases ys
    {
      var year := Pick(ys);
      PairsOfAdd(years, years.Keys - ys, year);
      high, medium, low := CollectYear(years, currentYear, currentMonth, year,
                                       PairsOf(years, years.Keys - ys), high, medium, low);
      assert years.Keys - (ys - {year}) == (years.Keys - ys) + {year};
      ys := ys - {year};
    }
    assert PairsOf(years, years.Keys - ys) == Pairs(years);
  }

  /**
   * `getPrioritizedIssues`: every non-normal month that the current-year skip
   * lets through, in the tier its age gives, each tier sorted recent year
   * first and then by month name.
   */
  method GetPrioritizedIssues(result: AnalysisResult, currentYear: int, currentMonth: string)
    returns (high: seq<PriorityIssue>, medium: seq<PriorityIssue>, low: seq<PriorityIssue>)
    ensures high == TierList(result.years, currentYear, currentMonth, High)
    ensures medium == TierList(result.years, currentYear, currentMonth, Medium)
    ensures low == TierList(result.years, currentYear, currentMonth, Low)
  {
    high, medium, low := CollectAll(result.years, currentYear, currentMonth);
    high := SortTier(result.years, currentYear, currentMonth, High, high);
    medium := SortTier(result.years, currentYear, currentMonth, Medium, medium);
    low := SortTier(result.years, currentYear, currentMonth, Low, low);
  }

  /** The `sort.Slice` of one tier (lines 156-163). */
  method SortTier(years: map<int, YearData>, ghost currentYear: int, ghost currentMonth: string, ghost t: Tier,
                  list: seq<PriorityIssue>) returns (sorted: seq<PriorityIssue>)
    requires multiset(list) == multiset(Collected(years, currentYear, currentMonth, t))
    ensures sorted == TierList(years, currentYear, currentMonth, t)
  {
    sorted := SortSlice(list, IssueLess);
    IssueLessStrict();
    InsertionSortSorted(list, IssueLess);
    TierUnique(years, currentYear, currentMonth, t, sorted);
  }

  // ---------------------------------------------------------------------------
  // The year list of SaveHTML (lines 170-176)
  // ---------------------------------------------------------------------------

  predicate YearAfter(a: YearEntry, b: YearEntry) {
    a.year > b.year
  }

  /** Each year of the result with its data, as a set. */
  function YearEntries(years: map<int, YearData>): set<YearEntry> {
    set y | y in years :: YearEntry(y, years[y])
  }

  /** The loop of lines 171-173: one entry per year, in map order. */
  method CollectYears(years: map<int, YearData>) returns (list: seq<YearEntry>)
    ensures multiset(list) == multiset(YearEntries(years))
  {
    list := [];
    var ys := years.Keys;
    while ys != {}
      invariant ys <= years.Keys
      invariant multiset(list) == multiset(set y | y in years.Keys - ys :: YearEntry(y, years[y]))
      decreases ys
    {
      var year := Pick(ys);
      ghost var entries := set y | y in years.Keys - ys :: YearEntry(y, years[y]);
      assert YearEntry(year, years[year]) !in entries;
      assert (set y | y in years.Keys - (ys - {year}) :: YearEntry(y, years[y])) == entries + {YearEntry(year, years[year])};
      list := list + [YearEntry(year, years[year])];
      ys := ys - {year};
    }
    assert years.Keys - ys == years.Keys;
  }

  /** A sorted permutation of the year entries is strictly descending and holds every year once. */
  lemma SortedYearsExact(years: map<int, YearData>, sorted: seq<YearEntry>)
    requires multiset(sorted) == multiset(YearEntries(years))
    requires SortedBy(sorted, YearAfter)
    ensures forall i, j :: 0 <= i < j < |sorted| ==> sorted[i].year > sorted[j].year
    ensures forall i :: 0 <= i < |sorted| ==> sorted[i].year in years && sorted[i].data == years[sorted[i].year]
    ensures forall y :: y in years ==> YearEntry(y, years[y]) in sorted
  {
    forall i | 0 <= i < |sorted| ensures sorted[i].year in years && sorted[i].data == years[sorted[i].year] {
      assert sorted[i] in multiset(sorted);
    }
    forall i, j | 0 <= i < j < |sorted| ensures sorted[i].year > sorted[j].year {
      if sorted[i].year == sorted[j].year {
        TwiceCounted(sorted, i, j);
        assert false;
      }
    }
    forall y | y in years ensures YearEntry(y, years[y]) in sorted {
      assert YearEntry(y, years[y]) in multiset(sorted);
    }
  }

  /**
   * The year list of `SaveHTML`: the years of the result, each once with its
   * own data, most recent first.
   */
  method SortedYears(years: map<int, YearData>) returns (sorted: seq<YearEntry>)
    ensures forall i, j :: 0 <= i < j < |sorted| ==> sorted[i].year > sorted[j].year
    ensures forall i :: 0 <= i < |sorted| ==> sorted[i].year in years && sorted[i].data == years[sorted[i].year]
    ensures forall y :: y in years ==> YearEntry(y, years[y]) in sorted
  {
    var list := CollectYears(years);
    sorted := SortSlice(list, YearAfter);
    InsertionSortSorted(list, YearAfter);
    SortedYearsExact(years, sorted);
  }
}
