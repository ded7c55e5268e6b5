# Media-Library-Analyzer gap analysis, in Dafny

This project models the gap-analysis engine of Media-Library-Analyzer, a tool
that walks a photo library organised as `<year>/<month>/files`. The engine has
two halves:

- **Analysis** (`internal/library/analyzer.go`). It reads year directory names
  such as `1987- Jack`, `2023`, `1994 - Lynsey` or `1989-1990 - Jack`, and
  month directory names such as `01-January`. Each month is classified by its
  file count: 0 files is missing, 1 to 29 is light, 30 or more is normal. The
  result is a year → 12-month matrix plus a running total of files. It also
  has the per-year total and the calendar-ordered month list.
- **Report** (`internal/library/report.go`). It picks the missing and light
  months as gaps and sorts them into three priority tiers by age (the current
  year minus the month's year): high is age at most 2, later years included,
  medium is age 3 to 5, low is older. Months of the current year whose name is
  greater than the current month's name as a string are skipped; in April that
  is every month except April. Each tier is sorted. It then renders the text
  summary, with decade headers for old gaps and conditional recommendations,
  and builds the descending year list that the HTML report uses.

The filesystem is an input value. The root listing is a `Result`: either the
entries or the error reading the directory. A root entry has a name, a
directory flag and its own listing, which is `None` when reading it failed. A
month entry carries the number of files under it. The clock is a parameter:
the analysis timestamp, and the current year and month name for the report.

Modules:

- `Results`: Option and Result.
- `GoStrings`: the Go library behaviour the core relies on: `strings.Split`,
  `strings.TrimSpace`, byte length, string `<`, `%d` and truncating `/`.
- `Sorting`: `sort.Slice` as an insertion sort on sequences, proved sorted, a
  permutation and unique when the order is total. Also `Pick`, a step of a
  map `range`.
- `Sums`: sums over maps.
- `Analyzer` and `AnalyzerProofs`: `analyzer.go`.
- `Report` and `ReportProofs`: `getPrioritizedIssues` and the year sort of `SaveHTML`.
- `Summary` and `SummaryProofs`: `GenerateSummary`.

The imperative operations (`Analyze`, `YearData.TotalFiles`, `SortedMonths`,
`getPrioritizedIssues`, `GenerateSummary`, the year sort) are methods with the
source's loops. `Analyze`, `YearData.TotalFiles`, `getPrioritizedIssues` and
`GenerateSummary` are proved equal to a specification function, and the
properties are proved about those functions. The two sorts whose comparator
does not always separate different elements, `SortedMonths` and the year sort
of `SaveHTML`, are instead specified by what `sort.Slice` promises: the result
is a sorted permutation of the collected list. For the year sort the order is
strict, so the list is fully determined. `GenerateSummary` appends to a
string, as the source appends to a `strings.Builder`. Its specification is a
sequence of `Line`s, one per `Fprintf` call, and `Render` gives each line's
exact text.

In the historical section, `currentDecade` starts at 0, so decade 0 gets no
header only when it is the most recent decade of the low tier. A decade-0
issue after a later decade, such as year 5 after year 1995, does get a
header. That case needs years below 10, which the name parser allows
(`0005-...`), and it is what `SummaryProofs.DecadeHeaderCount` states.

`ioutil.ReadDir` returns a directory's entries sorted by file name. The model
takes a listing as any sequence of entries, which covers that order. So
"last in listing order" below means the entry with the greatest file name.

## Model

| member | source | states |
|---|---|---|
| Analyzer.GetStatus | internal/library/analyzer.go:208-217 | for counts ≥ 0: missing iff 0, light iff 1..29; normal iff ≥ 30 for every count; a negative count is light |
| Analyzer.MonthOrder | internal/library/analyzer.go:176-192 | result in 0..12; 0 iff the name is not one of the twelve English month names; otherwise the name's calendar position |
| Analyzer.ExtractMonthName | internal/library/analyzer.go:165-172 | "" when the name has no hyphen; the result never contains a hyphen and has no white space at either end |
| AnalyzerProofs.ExtractMonthNameBetween | internal/library/analyzer.go:165-172 | with two or more hyphens, the label is the trimmed text between the first and second hyphen |
| AnalyzerProofs.ExtractMonthNameToEnd | internal/library/analyzer.go:165-172 | with exactly one hyphen, the label is the trimmed text after it |
| Analyzer.FirstMatch | internal/library/analyzer.go:74-79 | finds a pattern iff some pattern of the list matches; the one found matches, and no pattern before it in the list does |
| Analyzer.ExtractYear | internal/library/analyzer.go:65-82 | succeeds iff the name is four ASCII digits followed by the end, `-` or ` - `; the year is those digits' value, in 0..9999; otherwise the error names the directory |
| AnalyzerProofs.YearRangeSubsumed | internal/library/analyzer.go:67-72 | every name the fourth pattern (`dddd-dddd…`) matches is matched by the first |
| AnalyzerProofs.HyphenFreeSkipSubsumed | internal/library/analyzer.go:103-112 | a hyphen-free name whose byte length is not 4 never starts with a year, so the early skip never changes the outcome |
| AnalyzerProofs.YearOfRootEntryExact | internal/library/analyzer.go:97-112 | a root entry is read as a year iff it is a directory, not `possible_duplicates`, and its name starts with a year; the year is its first four digits |
| Analyzer.Analyze | internal/library/analyzer.go:84-163 | the loops build exactly the specification `AnalyzeSpec`: error when the root cannot be read, else the years and total of `ScanRoot`, stamped with the clock |
| Analyzer.ScanMonthEntries | internal/library/analyzer.go:136-157 | the inner loop produces exactly the months and added total of `ScanMonths` |
| Analyzer.NewYearMonths | internal/library/analyzer.go:119-127 | the twelve months, each named by its key, with 0 files and status missing |
| AnalyzerProofs.AnalyzeValid | internal/library/analyzer.go:84-163 | an error iff the root listing fails; otherwise the total is ≥ 0, the timestamp is the clock, and every stored year has its own number, lies in 0..9999 and has exactly the twelve month keys, each named by its key, with a count ≥ 0 and the status that count gives |
| AnalyzerProofs.ScanRootValid | internal/library/analyzer.go:96-160 | every year stored by the root scan is keyed by its own number, in 0..9999, with valid months; the total is ≥ 0 |
| AnalyzerProofs.ScanMonthsValid | internal/library/analyzer.go:136-157 | scanning month entries keeps the twelve-month invariant (names, counts ≥ 0, status from count) and adds a total ≥ 0 |
| AnalyzerProofs.StoredYears | internal/library/analyzer.go:97-160 | a year is in the result iff some root entry is a directory read as that year whose listing could be read; non-directories, `possible_duplicates`, bad names and unreadable listings store nothing |
| AnalyzerProofs.LastYearWins | internal/library/analyzer.go:159 | with duplicate year directories, the last one in listing order (the greatest file name) decides the year's months |
| AnalyzerProofs.ScanMonthsKeys | internal/library/analyzer.go:152-156 | scanning month entries never adds or removes a month key and never renames an entry |
| AnalyzerProofs.UnnamedMonthUnchanged | internal/library/analyzer.go:146-156 | a month that no entry names keeps its initial entry |
| AnalyzerProofs.LastMonthWins | internal/library/analyzer.go:152-156 | with duplicate month labels, the last entry naming a month (the greatest file name) sets its count and status; the entry keeps its name |
| AnalyzerProofs.IgnoredMonthEntry | internal/library/analyzer.go:137-156 | a month entry that is not a directory, or whose label is "" or not a month name, changes neither the months nor the total |
| AnalyzerProofs.ScanMonthsAdded | internal/library/analyzer.go:152-156 | a year listing adds to the total the counts of all its recorded month entries, overwritten duplicates included |
| AnalyzerProofs.TotalIsAcceptedFiles | internal/library/analyzer.go:96-160 | `TotalFiles` is the sum of counts over every accepted (year directory, month directory) pair, overwritten entries included |
| AnalyzerProofs.DistinctMonthsSum | internal/library/analyzer.go:136-157 | without duplicate month labels, what a listing adds equals the sum of its year's month counts |
| AnalyzerProofs.TotalIsSumOfYearTotals | internal/library/analyzer.go:152-159 | without duplicate years or month labels, `TotalFiles` is the sum over stored years of `YearData.TotalFiles` |
| AnalyzerProofs.DuplicateMonthLabel | internal/library/analyzer.go:152-156 | two entries with the same month label both add to the total, while the year keeps only the later count |
| Analyzer.YearTotalFiles | internal/library/analyzer.go:42-48 | the accumulator loop returns the sum of the year's month counts |
| Analyzer.SortedMonths | internal/library/analyzer.go:50-63 | each entry is renamed to its key (the source's side effect); the result is a permutation of the entries, in non-decreasing calendar order |
| AnalyzerProofs.SortedMonthsStrict | internal/library/analyzer.go:51-63 | on a valid year the sorted months are the year's own entries, in strictly increasing calendar order |
| AnalyzerProofs.SortedMonthsCalendar | internal/library/analyzer.go:51-63 | on a year `Analyze` produced, the sorted list is exactly the twelve months January..December |
| Report.TierOf | internal/library/report.go:143-151 | high iff age ≤ 2 (negative ages included), medium iff 3 ≤ age ≤ 5, low iff age > 5 |
| Report.VisitMonth | internal/library/report.go:124-151 | a month that is neither skipped nor normal is appended, with its year, name and count, to exactly the list of its age's tier; the other lists are unchanged |
| Report.CollectYear | internal/library/report.go:123-152 | after a year's months in any map order, each list holds exactly the issues of its tier from the visited months |
| Report.CollectAll | internal/library/report.go:122-153 | after every year in any map order, each list is a permutation of its tier's issue set |
| Report.SortTier | internal/library/report.go:155-163 | sorting a permutation of a tier's issues gives the unique sorted tier list |
| Report.GetPrioritizedIssues | internal/library/report.go:119-166 | the three returned lists are exactly the three sorted tier lists, whatever the map order |
| Report.IssueLessStrict | internal/library/report.go:157-162 | the tier order (year descending, then month name ascending) is a strict order |
| Report.TierTotal | internal/library/report.go:157-162 | two different issues of one tier are always ordered, because (year, month) pairs are unique |
| Report.TierUnique | internal/library/report.go:155-163 | any sorted permutation of a tier's issues is the tier list, so the unspecified order of `sort.Slice` among equals never matters |
| ReportProofs.CollectedIff | internal/library/report.go:122-151 | an issue is in tier t iff it copies the year, name and count of a stored month that is not normal, is not skipped, and whose age falls in t |
| ReportProofs.TierByAge | internal/library/report.go:143-151 | issues of the high tier are at most 2 years old, medium 3..5, low more than 5 |
| ReportProofs.ExactlyOneTier | internal/library/report.go:124-151 | a month gives an issue in tier t iff it is not normal, not skipped, and t is its age's tier: one tier exactly, or none |
| ReportProofs.OtherYearsKept | internal/library/report.go:124-130 | months of other years than the current one are never skipped |
| ReportProofs.CurrentMonthKept | internal/library/report.go:124-130 | the current month itself is never skipped |
| ReportProofs.MarchSkips | internal/library/report.go:126-129 | the skip compares names as strings: in March, May, November, October and September are skipped; January, February, April, June, July, August and December are kept |
| ReportProofs.TierListOrdered | internal/library/report.go:155-163 | each tier list holds each of its issues once, recent years first and, within a year, month names in increasing string order |
| Report.CollectYears | internal/library/report.go:170-173 | the collected list is a permutation of the (year, data) entries |
| Report.SortedYearsExact | internal/library/report.go:174-176 | a sorted permutation of the year entries is strictly descending and holds every year once, each with its data |
| Report.SortedYears | internal/library/report.go:168-176 | the year list is strictly descending, every entry is a stored year with its data, and every stored year appears |
| Summary.WriteIssues | internal/library/report.go:52-58 | the loop writes one issue line per issue, in list order |
| Summary.WriteTier | internal/library/report.go:50-60 | a tier section is written only when the tier is not empty: heading, its issue lines, a blank line |
| Summary.WriteHistoricalIssue | internal/library/report.go:79-92 | writes a decade header when the issue's decade differs from the tracked one, preceded by a blank line unless the tracked decade is 0, then the issue line; the tracked decade becomes the issue's |
| Summary.WriteHistorical | internal/library/report.go:78-93 | the loop writes the historical body, with the tracked decade starting at 0 |
| Summary.WriteLow | internal/library/report.go:76-95 | the historical section is written only when the low tier is not empty |
| Summary.WriteRecommendations | internal/library/report.go:98-108 | writes the recommendation lines |
| Summary.Summarize | internal/library/report.go:42-108 | the text written step by step is exactly `Text(SummaryLines(...))` |
| Summary.GenerateSummary | internal/library/report.go:38-111 | the summary of a result is the text of its header, its three sorted tiers and its recommendations |
| SummaryProofs.MissingOrLight | internal/library/report.go:53-57 | an issue line reads "Missing: …" iff its count is 0, and otherwise "Light: <month> …" |
| SummaryProofs.SummarySections | internal/library/report.go:42-108 | the summary text is the header, high, medium and historical sections and recommendations, in that order |
| SummaryProofs.IssueLinesShown | internal/library/report.go:50-95 | an unindented issue line appears iff the issue is in the high or medium list; an indented one iff it is in the low list |
| SummaryProofs.HeadingsShown | internal/library/report.go:50-95 | each tier's heading appears iff that tier is not empty |
| SummaryProofs.RecommendationsShown | internal/library/report.go:98-108 | recommendation 1 iff the high tier is not empty, 2 iff the medium tier is not empty, 3 always, 4 iff the total is positive |
| SummaryProofs.HistLinesKinds | internal/library/report.go:79-92 | the historical body holds only indented lines for low issues, decade headers and blank lines, and every low issue has its line |
| SummaryProofs.SortedDecadesDescend | internal/library/report.go:80 | in a sorted tier, decades never increase |
| SummaryProofs.DecadeHeaderCount | internal/library/report.go:78-87 | with non-increasing decades, every decade present gets exactly one header, except decade 0 when it is the first decade; absent decades get none |
| SummaryProofs.SummaryHeaderCount | internal/library/report.go:76-95 | decade headers occur in the whole summary as often as in the historical body |
| SummaryProofs.ResultIssueLines | internal/library/report.go:47-95 | the summary of a result lists, unindented, exactly the high and medium issues and, indented, exactly the low ones |
| SummaryProofs.ResultDecadeHeaders | internal/library/report.go:75-95 | in the summary of a result, each decade of the low tier has exactly one header, except decade 0 when it is that tier's most recent decade; other decades have none |
| Sorting.SortSlice | internal/library/report.go:157-162 | the loop computes exactly the insertion sort of its input |
| Sorting.InsertionSortSorted | internal/library/report.go:157-162 | under a strict order, the sort's result is sorted and a permutation of its input |
| Sorting.SortedUnique | internal/library/report.go:155-163 | when the order separates any two different elements, two sorted permutations are equal |
| GoStrings.Split | internal/library/analyzer.go:167 | `strings.Split`: at least one part, no part holds the separator, joining the parts gives the input back, no separator gives the input alone |
| GoStrings.SplitJoin | internal/library/analyzer.go:167 | splitting a join of separator-free parts gives the parts back |
| GoStrings.TrimSpace | internal/library/analyzer.go:169 | `strings.TrimSpace`: the result is the slice of the input left after removing only white space from both ends, and it has no white space at either end; a string without white space is unchanged |
| GoStrings.LexLessTotal | internal/library/report.go:127 | Go string `<` is total on different strings (with `LexLessIrreflexive` and `LexLessTransitive`, a strict total order) |
| GoStrings.FormatInt | internal/library/report.go:43 | `%d`: digits whose value is the number, with a leading `-` for negatives, and no leading zeros |
| GoStrings.GoDiv | internal/library/report.go:80 | Go's `/` truncates toward zero: the remainder `a - q * b` lies in `0 .. b - 1` for `a >= 0` and in `-(b - 1) .. 0` for negative `a` |
| GoStrings.Utf8Length | internal/library/analyzer.go:104 | `len` on a string counts UTF-8 bytes: at least one per character, and exactly one per character iff every character is ASCII |

## Left out

- `countFiles` (the `filepath.Walk` over a month directory) is not modelled. A month entry's count is given as a non-negative input.
- `ioutil.ReadDir` is not modelled. The listings are input values, and a failed read is `Err` for the root or `None` for a year directory. The error text is an input string.
- Regular-expression compilation is not modelled. The four year patterns are written out as character predicates.
- `time.Now()` is not modelled. The analysis timestamp is an integer parameter, and the current year and month name are parameters of the report.
- Go's map iteration order is left free (`Pick`). The unsorted intermediate lists are therefore specified only up to order; the sorted tiers and the year list are unique.
- Pointer sharing is modelled on values. `Analyze` updates `MonthData` records through pointers, and the model replaces map entries instead. `SortedMonths` writes `data.Name` into the shared records, and the model returns the renamed year alongside the sorted list.
- In-place sorting is modelled on sequences. `sort.Slice` sorts in place, and the model returns the insertion sort of the sequence.
- Analyzer.SortedMonths: states only sortedness and permutation, because that is what `sort.Slice` promises when two month names have the same order (non-canonical keys). On years `Analyze` produced, the order is exact (`AnalyzerProofs.SortedMonthsCalendar`).
- Go's `int` is 64 bits wide. Counts, years and the total are unbounded integers here, so overflow is not modelled.
- Strings are sequences of Unicode scalar values. Names that are not valid UTF-8 are not modelled; for valid ones, code-point order equals Go's byte order.
- The HTML template, output-directory creation, file creation and `extractStaticFiles` of `SaveHTML` are not modelled (I/O and a template library). Only the year sort is.
- `internal/library/server.go` (HTTP handlers), `cmd/analyzer/main.go` (flags and orchestration), the browser scripts and `scripts/clean-up-live.py` are not part of this model.
