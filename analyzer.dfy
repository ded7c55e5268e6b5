/**
 * The analysis half of the media-library analyzer (internal/library/analyzer.go):
 * parsing year and month directory names, classifying a month by its file count,
 * and building the year -> 12-month matrix with a running file total.
 *
 * The filesystem is an input value: the root directory's listing (or the error
 * reading it), each entry with its name, whether it is a directory and, for a
 * year directory, its own listing (or `None` when reading it failed). A month
 * directory carries the number of files found under it.
 */
module Analyzer {
  import opened Results
  import opened GoStrings
  import opened Sorting
  import opened Sums

  // ---------------------------------------------------------------------------
  // Data model
  // ---------------------------------------------------------------------------

  /** The three status strings "missing", "light" and "normal". */
  datatype Status = Missing | Light | Normal

  datatype MonthData = MonthData(name: string, fileCount: int, status: Status)

  datatype YearData = YearData(year: int, months: map<string, MonthData>)

  /** `lastUpdated` is the clock reading taken when the analysis starts. */
  datatype AnalysisResult = AnalysisResult(years: map<int, YearData>, totalFiles: int, lastUpdated: int)

  /** An entry of a year directory's listing; `fileCount` is what counting its files gives. */
  datatype MonthDirEntry = MonthDirEntry(name: string, isDir: bool, fileCount: nat)

  /** An entry of the root listing; `listing` is `None` when the directory cannot be read. */
  datatype RootEntry = RootEntry(name: string, isDir: bool, listing: Option<seq<MonthDirEntry>>)

  /** `time.Month(i).String()` for i = 1..12. */
  const MonthNames: seq<string> :=
    ["January", "February", "March", "April", "May", "June",
     "July", "August", "September", "October", "November", "December"]

  /** The threshold between "light" and "normal" months. */
  const NormalThreshold: int := 30

  // ---------------------------------------------------------------------------
  // Classification and month names
  // ---------------------------------------------------------------------------

  /** `getStatus`: 0 files is missing, 1..29 light, 30 or more normal. */
  function GetStatus(count: int): (s: Status)
    ensures count >= 0 ==> (s == Missing <==> count == 0)
    ensures count >= 0 ==> (s == Light <==> 1 <= count <= 29)
    ensures s == Normal <==> count >= NormalThreshold
    ensures count < 0 ==> s == Light
  {
    if count == 0 then Missing
    else if count < NormalThreshold then Light
    else Normal
  }

  /** `monthOrder`: the calendar position 1..12 of a month name, 0 for any other string. */
  function MonthOrder(month: string): (r: int)
    ensures 0 <= r <= 12
    ensures r == 0 <==> month !in MonthNames
    ensures r != 0 ==> MonthNames[r - 1] == month
    ensures forall i :: 0 <= i < |MonthNames| && MonthNames[i] == month ==> r == i + 1
  {
    if month == "January" then 1
    else if month == "February" then 2
    else if month == "March" then 3
    else if month == "April" then 4
    else if month == "May" then 5
    else if month == "June" then 6
    else if month == "July" then 7
    else if month == "August" then 8
    else if month == "September" then 9
    else if month == "October" then 10
    else if month == "November" then 11
    else if month == "December" then 12
    else 0
  }

  /**
   * `extractMonthName`: the second `-`-separated piece of the name, trimmed of
   * white space, or "" when the name has no `-`.
   */
  function ExtractMonthName(name: string): (r: string)
    ensures '-' !in name ==> r == ""
    ensures '-' !in r
    ensures r != [] ==> !IsSpace(r[0]) && !IsSpace(r[|r| - 1])
  {
    var parts := Split(name, '-');
    if |parts| >= 2 then
      TrimSpaceKeepsOut(parts[1], '-');
      TrimSpace(parts[1])
    else ""
  }

  // ---------------------------------------------------------------------------
  // Year extraction: four patterns tried in order
  // ---------------------------------------------------------------------------

  /**
   * The four year patterns, in the order they are tried:
   * `^(\d{4})-.*`, `^(\d{4})$`, `^(\d{4}) - .*` and `^(\d{4})-\d{4}.*`.
   */
  datatype YearPattern = DashSuffix | BareYear | SpacedDash | YearRange

  const YearPatterns: seq<YearPattern> := [DashSuffix, BareYear, SpacedDash, YearRange]

  /** Whether the pattern matches the name; the captured group is always `name[..4]`. */
  predicate Matches(p: YearPattern, name: string) {
    && |name| >= 4
    && AllDigits(name[..4])
    && match p
       case DashSuffix => |name| >= 5 && name[4] == '-'
       case BareYear => |name| == 4
       case SpacedDash => |name| >= 7 && name[4..7] == " - "
       case YearRange => |name| >= 9 && name[4] == '-' && AllDigits(name[5..9])
  }

  /** The first pattern of `patterns` that matches `name`. */
  function FirstMatch(patterns: seq<YearPattern>, name: string): (r: Option<YearPattern>)
    ensures r.Some? <==> exists i :: 0 <= i < |patterns| && Matches(patterns[i], name)
    ensures r.Some? ==> r.value in patterns && Matches(r.value, name)
    ensures r.Some? ==> exists i :: 0 <= i < |patterns| && patterns[i] == r.value
                                    && forall j :: 0 <= j < i ==> !Matches(patterns[j], name)
  {
    if patterns == [] then None
    else if Matches(patterns[0], name) then Some(patterns[0])
    else
      var r := FirstMatch(patterns[1..], name);
      assert forall i :: 1 <= i < |patterns| ==> patterns[i] == patterns[1..][i - 1];
      r
  }

  /** Four ASCII digits followed by the end of the name, by `-`, or by ` - `. */
  predicate StartsWithYear(name: string) {
    && |name| >= 4
    && AllDigits(name[..4])
    && (|name| == 4 || name[4] == '-' || (|name| >= 7 && name[4..7] == " - "))
  }

  /**
   * `extractYear`: succeeds exactly on the names that start with a year, and then
   * gives the value of its four digits; any other name is an error.
   */
  function ExtractYear(name: string): (r: Result<int>)
    ensures r.Ok? <==> StartsWithYear(name)
    ensures r.Ok? ==> |name| >= 4 && AllDigits(name[..4]) && r.value == DecimalValue(name[..4])
    ensures r.Ok? ==> 0 <= r.value <= 9999
    ensures r.Err? ==> r.msg == "no valid year found in directory name: " + name
  {
    match FirstMatch(YearPatterns, name)
    case Some(_) =>
      assert Pow10(4) == 10000;
      Ok(DecimalValue(name[..4]))
    case None =>
      assert !Matches(YearPatterns[0], name) && !Matches(YearPatterns[1], name) && !Matches(YearPatterns[2], name);
      Err("no valid year found in directory name: " + name)
  }

  // ---------------------------------------------------------------------------
  // The month matrix of one year
  // ---------------------------------------------------------------------------

  /** The twelve canonical month names, as a set. */
  function CanonicalMonths(): (r: set<string>)
    ensures "" !in r
  {
    set m | m in MonthNames
  }

  /** A new year's months: all twelve present, with no files and status missing. */
  function InitialMonths(): (months: map<string, MonthData>)
    ensures ValidMonths(months)
  {
    map m | m in MonthNames :: MonthData(m, 0, Missing)
  }

  /**
   * The invariant of a year's months after analysis: exactly the twelve
   * canonical keys, each entry named by its key, with a non-negative count and
   * the status that count gives.
   */
  predicate ValidMonths(months: map<string, MonthData>) {
    && months.Keys == CanonicalMonths()
    && forall k :: k in months ==>
         && months[k].name == k
         && months[k].fileCount >= 0
         && months[k].status == GetStatus(months[k].fileCount)
  }

  /** The per-month file counts of a year, as a map. */
  function Counts(months: map<string, MonthData>): (r: map<string, int>)
    ensures r.Keys == months.Keys
  {
    map k | k in months :: months[k].fileCount
  }

  // ---------------------------------------------------------------------------
  // Analyze, as a specification over the listing
  // ---------------------------------------------------------------------------

  /** The year a root entry is read as, or `None` when the entry is skipped (lines 98-112). */
  function YearOfRootEntry(e: RootEntry): Option<int> {
    if !e.isDir then None
    else if e.name == "possible_duplicates" || ('-' !in e.name && Utf8Length(e.name) != 4) then None
    else
      match ExtractYear(e.name)
      case Ok(y) => Some(y)
      case Err(_) => None
  }

  /** A month directory's effect on the months and on the total (lines 137-156). */
  datatype MonthScan = MonthScan(months: map<string, MonthData>, added: int)

  function MonthStep(acc: MonthScan, e: MonthDirEntry): MonthScan {
    if !e.isDir then acc
    else
      var monthName := ExtractMonthName(e.name);
      if monthName == "" then acc
      else if monthName in acc.months then
        var month := acc.months[monthName];
        MonthScan(acc.months[monthName := MonthData(month.name, e.fileCount, GetStatus(e.fileCount))],
                  acc.added + e.fileCount)
      else acc
  }

  /** The month entries of one year directory, taken in listing order. */
  function ScanMonths(months: map<string, MonthData>, es: seq<MonthDirEntry>): MonthScan {
    if es == [] then MonthScan(months, 0)
    else MonthStep(ScanMonths(months, es[..|es| - 1]), es[|es| - 1])
  }

  /** What one year directory's listing makes of a new year. */
  function BuildYear(year: int, es: seq<MonthDirEntry>): YearData {
    YearData(year, ScanMonths(InitialMonths(), es).months)
  }

  datatype Scan = Scan(years: map<int, YearData>, total: int)

  /** One root entry's effect on the years and on the total (lines 97-160). */
  function RootStep(acc: Scan, e: RootEntry): Scan {
    match YearOfRootEntry(e)
    case None => acc
    case Some(y) =>
      match e.listing
      case None => acc
      case Some(es) =>
        var ms := ScanMonths(InitialMonths(), es);
        Scan(acc.years[y := YearData(y, ms.months)], acc.total + ms.added)
  }

  /** The root entries, taken in listing order. */
  function ScanRoot(es: seq<RootEntry>): Scan {
    if es == [] then Scan(map[], 0)
    else RootStep(ScanRoot(es[..|es| - 1]), es[|es| - 1])
  }

  /** What `Analyze` returns for a root listing (or the error reading it). */
  function AnalyzeSpec(rootPath: string, root: Result<seq<RootEntry>>, now: int): Result<AnalysisResult> {
    match root
    case Err(e) => Err("reading directory " + rootPath + ": " + e)
    case Ok(es) =>
      var s := ScanRoot(es);
      Ok(AnalysisResult(s.years, s.total, now))
  }

  lemma ScanRootExtend(es: seq<RootEntry>, i: nat)
    requires i < |es|
    ensures ScanRoot(es[..i + 1]) == RootStep(ScanRoot(es[..i]), es[i])
  {
    assert es[..i + 1][..i] == es[..i];
  }

  lemma ScanMonthsExtend(months: map<string, MonthData>, es: seq<MonthDirEntry>, j: nat)
    requires j < |es|
    ensures ScanMonths(months, es[..j + 1]) == MonthStep(ScanMonths(months, es[..j]), es[j])
  {
    assert es[..j + 1][..j] == es[..j];
  }

  // ---------------------------------------------------------------------------
  // The imperative operations
  // ---------------------------------------------------------------------------

  /**
   * `Analyzer.Analyze`: walks the root listing, reads each year directory and
   * fills the year -> month matrix, adding every recorded month's count to the
   * total. The root path only appears in the error message; `now` is the clock.
   */
  method Analyze(rootPath: string, root: Result<seq<RootEntry>>, now: int) returns (r: Result<AnalysisResult>)
    ensures r == AnalyzeSpec(rootPath, root, now)
  {
    if root.Err? {
      return Err("reading directory " + rootPath + ": " + root.msg);
    }
    var entries := root.value;
    var years: map<int, YearData> := map[];
    var total: int := 0;
    var i := 0;
    while i < |entries|
      invariant 0 <= i <= |entries|
      invariant Scan(years, total) == ScanRoot(entries[..i])
    {
      var entry := entries[i];
      ScanRootExtend(entries, i);
      i := i + 1;
      if !entry.isDir {
        continue;
      }
      if entry.name == "possible_duplicates" || ('-' !in entry.name && Utf8Length(entry.name) != 4) {
        continue;
      }
      var parsed := ExtractYear(entry.name);
      if parsed.Err? {
        continue;
      }
      var year := parsed.value;

      var months := NewYearMonths();

      if entry.listing.None? {
        continue;
      }
      var monthEntries := entry.listing.value;
      var added;
      months, added := ScanMonthEntries(months, monthEntries);
      total := total + added;
      years := years[year := YearData(year, months)];
    }
    assert entries[..i] == entries;
    r := Ok(AnalysisResult(years, total, now));
  }

  /**
   * The inner loop of `Analyze` (lines 137-156): each month directory that
   * names one of the twelve months sets that month's count and status, and
   * its count is added to the total.
   */
  method ScanMonthEntries(initial: map<string, MonthData>, monthEntries: seq<MonthDirEntry>)
    returns (months: map<string, MonthData>, added: int)
    ensures MonthScan(months, added) == ScanMonths(initial, monthEntries)
  {
    months := initial;
    added := 0;
    var j := 0;
    while j < |monthEntries|
      invariant 0 <= j <= |monthEntries|
      invariant MonthScan(months, added) == ScanMonths(initial, monthEntries[..j])
    {
      var monthEntry := monthEntries[j];
      ScanMonthsExtend(initial, monthEntries, j);
      j := j + 1;
      if !monthEntry.isDir {
        continue;
      }
      var count := monthEntry.fileCount;
      var monthName := ExtractMonthName(monthEntry.name);
      if monthName == "" {
        continue;
      }
      if monthName in months {
        var month := months[monthName];
        months := months[monthName := MonthData(month.name, count, GetStatus(count))];
        added := added + count;
      }
    }
    assert monthEntries[..j] == monthEntries;
  }

  /** The loop of lines 120-127: all twelve months, with no files and status missing. */
  method NewYearMonths() returns (months: map<string, MonthData>)
    ensures months == InitialMonths()
  {
    months := map[];
    for m := 0 to 12
      invariant months.Keys == set k | k in MonthNames[..m]
      invariant forall k :: k in months ==> months[k] == MonthData(k, 0, Missing)
    {
      var monthName := MonthNames[m];
      assert MonthNames[..m + 1] == MonthNames[..m] + [monthName];
      months := months[monthName := MonthData(monthName, 0, Missing)];
    }
    assert MonthNames[..12] == MonthNames;
  }

  /** `YearData.TotalFiles`: the sum of the year's month counts, in map order. */
  method YearTotalFiles(y: YearData) returns (total: int)
    ensures total == MapSum(Counts(y.months))
  {
    var counts := Counts(y.months);
    total := 0;
    var keys := y.months.Keys;
    while keys != {}
      invariant keys <= counts.Keys
      invariant total + KeySum(counts, keys) == MapSum(counts)
      decreases keys
    {
      var name :| name in keys;
      KeySumRemove(counts, keys, name);
      total := total + y.months[name].fileCount;
      keys := keys - {name};
    }
  }

  /** A month entry as `SortedMonths` hands it out: renamed after its key. */
  function Renamed(months: map<string, MonthData>): (r: map<string, MonthData>)
    ensures r.Keys == months.Keys
    ensures forall k :: k in r ==> r[k].name == k
  {
    map k | k in months :: months[k].(name := k)
  }

  /** The set of a year's month entries, each renamed after its key. */
  function MonthEntries(months: map<string, MonthData>): set<MonthData> {
    set k | k in months :: Renamed(months)[k]
  }

  /** The chronological order of month entries used by `SortedMonths`. */
  function MonthBefore(a: MonthData, b: MonthData): bool {
    MonthOrder(a.name) < MonthOrder(b.name)
  }

  /**
   * `YearData.SortedMonths`: every month entry exactly once, named after its key,
   * in non-decreasing calendar order. The renaming is a write to the shared
   * entries, so the year comes back with its entries renamed too.
   */
  method SortedMonths(y: YearData) returns (sorted: seq<MonthData>, y': YearData)
    ensures y' == YearData(y.year, Renamed(y.months))
    ensures multiset(sorted) == multiset(MonthEntries(y.months))
    ensures forall i, j :: 0 <= i < j < |sorted| ==> MonthOrder(sorted[i].name) <= MonthOrder(sorted[j].name)
  {
    var renamed := Renamed(y.months);
    var list: seq<MonthData> := [];
    var keys := y.months.Keys;
    while keys != {}
      invariant keys <= y.months.Keys
      invariant multiset(list) == multiset(set k | k in y.months.Keys - keys :: renamed[k])
      decreases keys
    {
      var name :| name in keys;
      ghost var done := set k | k in y.months.Keys - keys :: renamed[k];
      assert renamed[name] !in done;
      assert (set k | k in y.months.Keys - (keys - {name}) :: renamed[k]) == done + {renamed[name]};
      list := list + [renamed[name]];
      keys := keys - {name};
    }
    assert y.months.Keys - keys == y.months.Keys;
    sorted := SortSlice(list, MonthBefore);
    InsertionSortSorted(list, MonthBefore);
    y' := YearData(y.year, renamed);
  }
}
