/**
 * What the analysis guarantees about its result: every stored year has exactly
 * the twelve canonical months, classified by their counts; which root entries
 * become years, and which later entry wins when two name the same year or the
 * same month; and what the running total counts.
 */
module AnalyzerProofs {
  import opened Results
  import opened GoStrings
  import opened Sums
  import opened Sorting
  import opened Analyzer

  // ---------------------------------------------------------------------------
  // Month labels
  // ---------------------------------------------------------------------------

  /** With a second hyphen, the label is the trimmed text between the first two hyphens. */
  lemma ExtractMonthNameBetween(name: string, i: nat, j: nat)
    requires i < j < |name| && name[i] == '-' && name[j] == '-'
    requires '-' !in name[..i] && '-' !in name[i + 1..j]
    ensures ExtractMonthName(name) == TrimSpace(name[i + 1..j])
  {
    SplitSecondPiece(name, '-', i, j);
  }

  /** With a single hyphen, the label is the trimmed text after it. */
  lemma ExtractMonthNameToEnd(name: string, i: nat)
    requires i < |name| && name[i] == '-'
    requires '-' !in name[..i] && '-' !in name[i + 1..]
    ensures ExtractMonthName(name) == TrimSpace(name[i + 1..])
  {
    SplitLastPiece(name, '-', i);
  }

  /** The fourth year pattern never decides anything: whatever it matches, the first matches too. */
  lemma YearRangeSubsumed(name: string)
    requires Matches(YearRange, name)
    ensures Matches(DashSuffix, name)
  {
  }

  // ---------------------------------------------------------------------------
  // Which root entries are read as years
  // ---------------------------------------------------------------------------

  /**
   * The early skip of hyphen-free names whose byte length is not 4 never
   * changes the outcome: such a name cannot start with a year either.
   */
  lemma HyphenFreeSkipSubsumed(name: string)
    requires '-' !in name && Utf8Length(name) != 4
    ensures !StartsWithYear(name)
  {
    if |name| > 4 {
      assert name[4] in name;
    }
    if |name| >= 7 {
      assert name[5] in name && name[4..7][1] == name[5];
    }
  }

  /**
   * A root entry is read as a year exactly when it is a directory, is not
   * "possible_duplicates", and its name starts with a year; the year is the
   * value of the name's first four digits.
   */
  lemma YearOfRootEntryExact(e: RootEntry)
    ensures YearOfRootEntry(e).Some? <==>
      e.isDir && e.name != "possible_duplicates" && StartsWithYear(e.name)
    ensures YearOfRootEntry(e).Some? ==> YearOfRootEntry(e).value == DecimalValue(e.name[..4])
  {
    if e.isDir && e.name != "possible_duplicates" && '-' !in e.name && Utf8Length(e.name) != 4 {
      HyphenFreeSkipSubsumed(e.name);
    }
  }

  /** The root entry is read as a year and its listing could be read. */
  predicate Stored(e: RootEntry) {
    YearOfRootEntry(e).Some? && e.listing.Some?
  }

  /** The entry `e` stores year `y`: it is stored, and read as `y`. */
  predicate StoresYear(e: RootEntry, y: int) {
    Stored(e) && YearOfRootEntry(e).value == y
  }

  /** One root entry adds the year it stores, if any, and removes none. */
  lemma RootStepYears(acc: Scan, e: RootEntry, y: int)
    ensures y in RootStep(acc, e).years <==> y in acc.years || StoresYear(e, y)
  {
  }

  /** A year is in the result exactly when some root entry stores it. */
  lemma {:induction false} StoredYears(es: seq<RootEntry>, y: int)
    ensures y in ScanRoot(es).years <==> exists i :: 0 <= i < |es| && StoresYear(es[i], y)
  {
    if es != [] {
      var n := |es| - 1;
      StoredYears(es[..n], y);
      RootStepYears(ScanRoot(es[..n]), es[n], y);
      assert (exists i :: 0 <= i < n && StoresYear(es[..n][i], y)) <==>
             (exists i :: 0 <= i < n && StoresYear(es[i], y)) by {
        forall i | 0 <= i < n ensures es[..n][i] == es[i] {
        }
      }
    }
  }

  /**
   * Duplicate years: the last root entry that stores a year decides its months
   * (last writer wins, in listing order).
   */
  lemma {:induction false} LastYearWins(es: seq<RootEntry>, i: nat, y: int)
    requires i < |es| && StoresYear(es[i], y)
    requires forall j :: i < j < |es| ==> !StoresYear(es[j], y)
    ensures y in ScanRoot(es).years
    ensures ScanRoot(es).years[y] == BuildYear(y, es[i].listing.value)
  {
    var n := |es| - 1;
    if i < n {
      forall j | i < j < n ensures !StoresYear(es[..n][j], y) {
        assert es[..n][j] == es[j];
      }
      assert es[..n][i] == es[i];
      LastYearWins(es[..n], i, y);
    }
  }

  // ---------------------------------------------------------------------------
  // Every stored year is a valid 12-month year
  // ---------------------------------------------------------------------------

  lemma {:induction false} ScanMonthsValid(months: map<string, MonthData>, es: seq<MonthDirEntry>)
    requires ValidMonths(months)
    ensures ValidMonths(ScanMonths(months, es).months)
    ensures ScanMonths(months, es).added >= 0
  {
    if es != [] {
      ScanMonthsValid(months, es[..|es| - 1]);
    }
  }

  /**
   * After `Analyze`, every year in the result is keyed by its own year, lies in
   * 0..9999, and has exactly the twelve canonical months, each named by its key
   * and classified by its count; the total is not negative.
   */
  lemma {:induction false} ScanRootValid(es: seq<RootEntry>)
    ensures forall y :: y in ScanRoot(es).years ==>
      && ScanRoot(es).years[y].year == y
      && 0 <= y <= 9999
      && ValidMonths(ScanRoot(es).years[y].months)
    ensures ScanRoot(es).total >= 0
  {
    if es != [] {
      var n := |es| - 1;
      ScanRootValid(es[..n]);
      var e := es[n];
      if YearOfRootEntry(e).Some? && e.listing.Some? {
        ScanMonthsValid(InitialMonths(), e.listing.value);
      }
    }
  }

  lemma AnalyzeValid(rootPath: string, root: Result<seq<RootEntry>>, now: int)
    ensures root.Err? <==> AnalyzeSpec(rootPath, root, now).Err?
    ensures AnalyzeSpec(rootPath, root, now).Ok? ==>
      var r := AnalyzeSpec(rootPath, root, now).value;
      && r.totalFiles >= 0
      && r.lastUpdated == now
      && forall y :: y in r.years ==> r.years[y].year == y && 0 <= y <= 9999 && ValidMonths(r.years[y].months)
  {
    if root.Ok? {
      ScanRootValid(root.value);
    }
  }

  // ---------------------------------------------------------------------------
  // Month directories of one year
  // ---------------------------------------------------------------------------

  /** The month entry `e` names the month `k`. */
  predicate NamesMonth(e: MonthDirEntry, k: string) {
    e.isDir && ExtractMonthName(e.name) == k
  }

  /** Scanning a listing never adds or removes a month, and never renames one. */
  lemma {:induction false} ScanMonthsKeys(months: map<string, MonthData>, es: seq<MonthDirEntry>)
    ensures ScanMonths(months, es).months.Keys == months.Keys
    ensures forall k :: k in months ==> ScanMonths(months, es).months[k].name == months[k].name
  {
    if es != [] {
      ScanMonthsKeys(months, es[..|es| - 1]);
    }
  }

  /** A month directory leaves every month it does not name as it was. */
  lemma MonthStepOther(acc: MonthScan, e: MonthDirEntry, k: string)
    requires k in acc.months && !NamesMonth(e, k)
    ensures k in MonthStep(acc, e).months && MonthStep(acc, e).months[k] == acc.months[k]
  {
  }

  /** A month directory that names a month sets its count and status, and keeps its name. */
  lemma MonthStepNamed(acc: MonthScan, e: MonthDirEntry, k: string)
    requires k in acc.months && k != "" && NamesMonth(e, k)
    ensures k in MonthStep(acc, e).months
    ensures MonthStep(acc, e).months[k] == MonthData(acc.months[k].name, e.fileCount, GetStatus(e.fileCount))
  {
  }

  /** A month that no entry names keeps its initial entry. */
  lemma {:induction false} UnnamedMonthUnchanged(months: map<string, MonthData>, es: seq<MonthDirEntry>, k: string)
    requires k in months
    requires forall j :: 0 <= j < |es| ==> !NamesMonth(es[j], k)
    ensures k in ScanMonths(months, es).months && ScanMonths(months, es).months[k] == months[k]
  {
    if es != [] {
      var n := |es| - 1;
      forall j | 0 <= j < n ensures !NamesMonth(es[..n][j], k) {
        assert es[..n][j] == es[j];
      }
      UnnamedMonthUnchanged(months, es[..n], k);
      MonthStepOther(ScanMonths(months, es[..n]), es[n], k);
    }
  }

  /**
   * Duplicate month labels: the last entry naming a month sets its count and
   * status (last writer wins); the entry keeps its name.
   */
  lemma {:induction false} LastMonthWins(months: map<string, MonthData>, es: seq<MonthDirEntry>, i: nat, k: string)
    requires k in months && k != ""
    requires i < |es| && NamesMonth(es[i], k)
    requires forall j :: i < j < |es| ==> !NamesMonth(es[j], k)
    ensures k in ScanMonths(months, es).months
    ensures ScanMonths(months, es).months[k] ==
      MonthData(months[k].name, es[i].fileCount, GetStatus(es[i].fileCount))
  {
    var n := |es| - 1;
    var prev := ScanMonths(months, es[..n]);
    var want := MonthData(months[k].name, es[i].fileCount, GetStatus(es[i].fileCount));
    ScanMonthsKeys(months, es[..n]);
    assert k in prev.months;
    ScanMonthsExtend(months, es, n);
    assert es[..n + 1] == es;
    if i < n {
      forall j | i < j < n ensures !NamesMonth(es[..n][j], k) {
        assert es[..n][j] == es[j];
      }
      assert es[..n][i] == es[i];
      LastMonthWins(months, es[..n], i, k);
      MonthStepOther(prev, es[n], k);
      assert MonthStep(prev, es[n]).months[k] == want;
    } else {
      assert i == n;
      MonthStepNamed(prev, es[i], k);
    }
  }

  /** The entry is a directory whose label is one of the twelve month names. */
  predicate Recorded(e: MonthDirEntry) {
    e.isDir && ExtractMonthName(e.name) in CanonicalMonths()
  }

  /**
   * A month entry that is not a directory, or whose label is "" or not a
   * canonical month name, changes neither the months nor the total.
   */
  lemma IgnoredMonthEntry(es: seq<MonthDirEntry>, e: MonthDirEntry)
    requires !Recorded(e)
    ensures ScanMonths(InitialMonths(), es + [e]) == ScanMonths(InitialMonths(), es)
  {
    assert (es + [e])[..|es|] == es;
    ScanMonthsKeys(InitialMonths(), es);
  }

  // ---------------------------------------------------------------------------
  // The total
  // ---------------------------------------------------------------------------

  /** The files of every recorded month entry of a listing, duplicates included. */
  function RecordedFiles(es: seq<MonthDirEntry>): int {
    if es == [] then 0
    else
      var e := es[|es| - 1];
      RecordedFiles(es[..|es| - 1]) + (if Recorded(e) then e.fileCount else 0)
  }

  /** The files of every recorded month of every stored year entry, duplicates included. */
  function AcceptedFiles(es: seq<RootEntry>): int {
    if es == [] then 0
    else
      var e := es[|es| - 1];
      AcceptedFiles(es[..|es| - 1]) +
        (if Stored(e) then RecordedFiles(e.listing.value) else 0)
  }

  lemma {:induction false} ScanMonthsAdded(es: seq<MonthDirEntry>)
    ensures ScanMonths(InitialMonths(), es).added == RecordedFiles(es)
  {
    if es != [] {
      ScanMonthsAdded(es[..|es| - 1]);
      ScanMonthsKeys(InitialMonths(), es[..|es| - 1]);
    }
  }

  /**
   * `TotalFiles` is the sum of the counts of every recorded (year directory,
   * month directory) pair, including entries a later duplicate overwrote.
   */
  lemma {:induction false} TotalIsAcceptedFiles(es: seq<RootEntry>)
    ensures ScanRoot(es).total == AcceptedFiles(es)
  {
    if es != [] {
      var n := |es| - 1;
      TotalIsAcceptedFiles(es[..n]);
      if es[n].listing.Some? {
        ScanMonthsAdded(es[n].listing.value);
      }
    }
  }

  // ---------------------------------------------------------------------------
  // The total against the years' own totals
  // ---------------------------------------------------------------------------

  /** `YearData.TotalFiles` of every stored year, keyed by year. */
  ghost function YearTotals(years: map<int, YearData>): map<int, int> {
    map y | y in years :: MapSum(Counts(years[y].months))
  }

  /** No two recorded month entries of a listing name the same month. */
  predicate DistinctMonths(es: seq<MonthDirEntry>) {
    forall i, j :: 0 <= i < j < |es| && Recorded(es[i]) && Recorded(es[j]) ==>
      ExtractMonthName(es[i].name) != ExtractMonthName(es[j].name)
  }

  /** No year is stored twice, and no stored year has two entries for one month. */
  predicate NoDuplicates(es: seq<RootEntry>) {
    && (forall i, j :: 0 <= i < j < |es| && Stored(es[i]) && Stored(es[j]) ==>
          YearOfRootEntry(es[i]) != YearOfRootEntry(es[j]))
    && (forall i :: 0 <= i < |es| && Stored(es[i]) ==> DistinctMonths(es[i].listing.value))
  }

  /** A month directory that names a month adds its count to the total and replaces that month's count. */
  lemma MonthStepSum(acc: MonthScan, e: MonthDirEntry)
    requires e.isDir && ExtractMonthName(e.name) != "" && ExtractMonthName(e.name) in acc.months
    ensures MonthStep(acc, e).added == acc.added + e.fileCount
    ensures MapSum(Counts(MonthStep(acc, e).months)) ==
      MapSum(Counts(acc.months)) - acc.months[ExtractMonthName(e.name)].fileCount + e.fileCount
  {
    var k := ExtractMonthName(e.name);
    assert Counts(MonthStep(acc, e).months) == Counts(acc.months)[k := e.fileCount];
    MapSumUpdate(Counts(acc.months), k, e.fileCount);
  }

  lemma DistinctMonthsPrefix(es: seq<MonthDirEntry>, n: nat)
    requires n <= |es| && DistinctMonths(es)
    ensures DistinctMonths(es[..n])
  {
    forall i, j | 0 <= i < j < n
      ensures Recorded(es[..n][i]) && Recorded(es[..n][j]) ==>
        ExtractMonthName(es[..n][i].name) != ExtractMonthName(es[..n][j].name)
    {
      assert es[..n][i] == es[i] && es[..n][j] == es[j];
    }
  }

  /** Every canonical month and no other, none with any files: a new year's months. */
  predicate NoFiles(months: map<string, MonthData>) {
    && months.Keys == CanonicalMonths()
    && forall k :: k in months ==> months[k].fileCount == 0
  }

  lemma InitialNoFiles()
    ensures NoFiles(InitialMonths())
  {
  }

  /** One more month directory, without a duplicate label, keeps the total equal to the year's sum. */
  lemma DistinctMonthsStep(months: map<string, MonthData>, es: seq<MonthDirEntry>)
    requires NoFiles(months)
    requires es != [] && DistinctMonths(es)
    requires var prev := ScanMonths(months, es[..|es| - 1]);
      prev.added == MapSum(Counts(prev.months))
    ensures ScanMonths(months, es).added == MapSum(Counts(ScanMonths(months, es).months))
  {
    var n := |es| - 1;
    var e := es[n];
    var prev := ScanMonths(months, es[..n]);
    assert ScanMonths(months, es) == MonthStep(prev, e);
    ScanMonthsKeys(months, es[..n]);
    var k := ExtractMonthName(e.name);
    assert k in prev.months <==> k in CanonicalMonths();
    if Recorded(e) {
      forall j | 0 <= j < n ensures !NamesMonth(es[..n][j], k) {
        assert es[..n][j] == es[j];
      }
      UnnamedMonthUnchanged(months, es[..n], k);
      assert prev.months[k].fileCount == 0;
      MonthStepSum(prev, e);
      var next := MonthStep(prev, e);
      assert next.added == prev.added + e.fileCount;
      assert MapSum(Counts(next.months)) == MapSum(Counts(prev.months)) + e.fileCount;
      assert next.added == MapSum(Counts(next.months));
    } else {
      assert MonthStep(prev, e) == prev;
      assert prev.added == MapSum(Counts(prev.months));
    }
  }

  /** Without duplicate month labels, what a listing adds is its year's `TotalFiles`. */
  lemma {:induction false} DistinctMonthsSum(months: map<string, MonthData>, es: seq<MonthDirEntry>)
    requires NoFiles(months) && DistinctMonths(es)
    ensures ScanMonths(months, es).added == MapSum(Counts(ScanMonths(months, es).months))
  {
    if es == [] {
      KeySumZero(Counts(months), months.Keys);
    } else {
      DistinctMonthsPrefix(es, |es| - 1);
      DistinctMonthsSum(months, es[..|es| - 1]);
      DistinctMonthsStep(months, es);
    }
  }

  /**
   * Without duplicate years or duplicate month labels, `TotalFiles` is the sum of
   * the stored years' `YearData.TotalFiles`.
   */
  lemma {:induction false} TotalIsSumOfYearTotals(es: seq<RootEntry>)
    requires NoDuplicates(es)
    ensures ScanRoot(es).total == MapSum(YearTotals(ScanRoot(es).years))
  {
    if es == [] {
      assert YearTotals(map[]) == map[];
    } else {
      var n := |es| - 1;
      NoDuplicatesPrefix(es, n);
      TotalIsSumOfYearTotals(es[..n]);
      assert ScanRoot(es) == RootStep(ScanRoot(es[..n]), es[n]);
      if Stored(es[n]) {
        NewStoredYear(es);
        StoredYearSum(ScanRoot(es[..n]), es[n]);
      }
    }
  }

  lemma NoDuplicatesPrefix(es: seq<RootEntry>, n: nat)
    requires n <= |es| && NoDuplicates(es)
    ensures NoDuplicates(es[..n])
  {
    forall i, j | 0 <= i < j < n
      ensures Stored(es[..n][i]) && Stored(es[..n][j]) ==>
        YearOfRootEntry(es[..n][i]) != YearOfRootEntry(es[..n][j])
    {
      assert es[..n][i] == es[i] && es[..n][j] == es[j];
    }
    forall i | 0 <= i < n && Stored(es[..n][i]) ensures DistinctMonths(es[..n][i].listing.value) {
      assert es[..n][i] == es[i];
    }
  }

  /** A stored year that is new adds its own `TotalFiles` to both sides. */
  lemma StoredYearSum(prev: Scan, e: RootEntry)
    requires Stored(e) && YearOfRootEntry(e).value !in prev.years
    requires DistinctMonths(e.listing.value)
    requires prev.total == MapSum(YearTotals(prev.years))
    ensures RootStep(prev, e).total == MapSum(YearTotals(RootStep(prev, e).years))
  {
    var y := YearOfRootEntry(e).value;
    var ms := ScanMonths(InitialMonths(), e.listing.value);
    InitialNoFiles();
    DistinctMonthsSum(InitialMonths(), e.listing.value);
    RootStepStored(prev, e);
    YearTotalsInsert(prev.years, YearData(y, ms.months));
  }

  lemma RootStepStored(acc: Scan, e: RootEntry)
    requires Stored(e)
    ensures var y := YearOfRootEntry(e).value;
      var ms := ScanMonths(InitialMonths(), e.listing.value);
      RootStep(acc, e) == Scan(acc.years[y := YearData(y, ms.months)], acc.total + ms.added)
  {
  }

  /** Without duplicate years, the year the last entry stores is not stored before it. */
  lemma NewStoredYear(es: seq<RootEntry>)
    requires es != [] && NoDuplicates(es) && Stored(es[|es| - 1])
    ensures YearOfRootEntry(es[|es| - 1]).value !in ScanRoot(es[..|es| - 1]).years
  {
    var n := |es| - 1;
    var y := YearOfRootEntry(es[n]).value;
    StoredYears(es[..n], y);
    forall i | 0 <= i < n ensures !StoresYear(es[..n][i], y) {
      assert es[..n][i] == es[i];
    }
  }

  /** Storing a new year adds its `TotalFiles` to the sum of year totals. */
  lemma YearTotalsInsert(years: map<int, YearData>, yd: YearData)
    requires yd.year !in years
    ensures MapSum(YearTotals(years[yd.year := yd])) == MapSum(YearTotals(years)) + MapSum(Counts(yd.months))
  {
    assert YearTotals(years[yd.year := yd]) == YearTotals(years)[yd.year := MapSum(Counts(yd.months))];
    MapSumInsert(YearTotals(years), yd.year, MapSum(Counts(yd.months)));
  }

  /**
   * With duplicates the two differ: two month directories with the same label
   * both add their counts to the total, but the year keeps only the later count.
   */
  lemma DuplicateMonthLabel(e1: MonthDirEntry, e2: MonthDirEntry)
    requires Recorded(e1) && Recorded(e2)
    requires ExtractMonthName(e1.name) == ExtractMonthName(e2.name)
    ensures var s := ScanMonths(InitialMonths(), [e1, e2]);
      && s.added == e1.fileCount + e2.fileCount
      && MapSum(Counts(s.months)) == e2.fileCount
  {
    var init := InitialMonths();
    var k := ExtractMonthName(e1.name);
    InitialNoFiles();
    KeySumZero(Counts(init), init.Keys);
    var s0 := MonthScan(init, 0);
    var s1 := MonthStep(s0, e1);
    assert init[k].fileCount == 0;
    MonthStepSum(s0, e1);
    assert k in s1.months && s1.months[k].fileCount == e1.fileCount;
    MonthStepSum(s1, e2);
    ScanTwo(init, e1, e2);
  }

  lemma ScanTwo(months: map<string, MonthData>, e1: MonthDirEntry, e2: MonthDirEntry)
    ensures ScanMonths(months, [e1, e2]) == MonthStep(MonthStep(MonthScan(months, 0), e1), e2)
  {
    assert [e1, e2][..1] == [e1];
    assert [e1][..0] == [];
    assert ScanMonths(months, []) == MonthScan(months, 0);
    assert ScanMonths(months, [e1]) == MonthStep(MonthScan(months, 0), e1);
  }

  // ---------------------------------------------------------------------------
  // SortedMonths on a year that Analyze produced
  // ---------------------------------------------------------------------------

  /** Calendar positions that strictly increase, each within 1..12. */
  predicate StrictlyIncreasing(os: seq<int>) {
    && (forall p, q :: 0 <= p < q < |os| ==> os[p] < os[q])
    && (forall p :: 0 <= p < |os| ==> 1 <= os[p] <= 12)
  }

  /** Every calendar position 1..12 occurs. */
  predicate CoversCalendar(os: seq<int>) {
    forall v :: 1 <= v <= 12 ==> v in os
  }

  lemma {:induction false} PositionIsOrder(os: seq<int>, i: nat)
    requires StrictlyIncreasing(os) && CoversCalendar(os) && i < |os|
    ensures forall q :: 0 <= q <= i ==> os[q] == q + 1
  {
    if i > 0 {
      PositionIsOrder(os, i - 1);
      assert os[i - 1] < os[i];
    }
    assert i + 1 <= os[i] <= 12;
    assert forall q :: 0 <= q < |os| && q != i ==> os[q] != i + 1;
    assert i + 1 in os;
  }

  /** Twelve strictly increasing positions that cover the calendar are 1, 2, .., 12. */
  lemma CalendarPositions(os: seq<int>)
    requires StrictlyIncreasing(os) && CoversCalendar(os)
    ensures |os| == 12 && forall q :: 0 <= q < 12 ==> os[q] == q + 1
  {
    assert 12 in os;
    var p :| 0 <= p < |os| && os[p] == 12;
    PositionIsOrder(os, |os| - 1);
    assert os[p] == p + 1 && p == 11;
    assert os[|os| - 1] == |os| <= 12;
  }

  /** What `SortedMonths` may return for a valid year holds no month twice, in strictly increasing order. */
  lemma SortedMonthsStrict(months: map<string, MonthData>, sorted: seq<MonthData>)
    requires ValidMonths(months)
    requires multiset(sorted) == multiset(MonthEntries(months))
    requires forall i, j :: 0 <= i < j < |sorted| ==> MonthOrder(sorted[i].name) <= MonthOrder(sorted[j].name)
    ensures forall i :: 0 <= i < |sorted| ==> sorted[i].name in months && sorted[i] == months[sorted[i].name]
    ensures forall i, j :: 0 <= i < j < |sorted| ==> MonthOrder(sorted[i].name) < MonthOrder(sorted[j].name)
  {
    assert Renamed(months) == months;
    forall i | 0 <= i < |sorted| ensures sorted[i].name in months && sorted[i] == months[sorted[i].name] {
      assert sorted[i] in multiset(sorted);
    }
    forall i, j | 0 <= i < j < |sorted|
      ensures MonthOrder(sorted[i].name) < MonthOrder(sorted[j].name)
    {
      if MonthOrder(sorted[i].name) == MonthOrder(sorted[j].name) {
        TwiceCounted(sorted, i, j);
        assert false;
      }
    }
  }

  /** The calendar positions of a sequence of month entries. */
  function Orders(sorted: seq<MonthData>): (os: seq<int>)
    ensures |os| == |sorted|
    ensures forall i :: 0 <= i < |sorted| ==> os[i] == MonthOrder(sorted[i].name)
  {
    seq(|sorted|, i requires 0 <= i < |sorted| => MonthOrder(sorted[i].name))
  }

  /** Each of the twelve months of a valid year is somewhere in what `SortedMonths` returns. */
  lemma SortedMonthsCover(months: map<string, MonthData>, sorted: seq<MonthData>)
    requires ValidMonths(months)
    requires multiset(sorted) == multiset(MonthEntries(months))
    ensures CoversCalendar(Orders(sorted))
  {
    var os := Orders(sorted);
    forall v | 1 <= v <= 12 ensures v in os {
      var k := MonthNames[v - 1];
      assert k in months;
      assert Renamed(months)[k] == months[k];
      assert months[k] in multiset(sorted);
      var p :| 0 <= p < |sorted| && sorted[p] == months[k];
      assert os[p] == v;
    }
  }

  /**
   * On a year that `Analyze` produced, whatever `SortedMonths` returns lists
   * the twelve months January..December, each the year's own entry.
   */
  lemma SortedMonthsCalendar(months: map<string, MonthData>, sorted: seq<MonthData>)
    requires ValidMonths(months)
    requires multiset(sorted) == multiset(MonthEntries(months))
    requires forall i, j :: 0 <= i < j < |sorted| ==> MonthOrder(sorted[i].name) <= MonthOrder(sorted[j].name)
    ensures |sorted| == 12
    ensures forall i :: 0 <= i < 12 ==> sorted[i] == months[MonthNames[i]]
  {
    SortedMonthsStrict(months, sorted);
    SortedMonthsCover(months, sorted);
    CalendarPositions(Orders(sorted));
  }
}
