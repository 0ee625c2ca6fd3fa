# Drive-test log processing, modelled in Dafny

The system takes the CSV logs of a cellular drive test and turns them into
pass/fail verdicts per KPI. This project models its core in four places:

- `process_csv` (nrrf4.py). It reads an NR-RF log row by row and splits each
  row's `Call Event` cell on `;`. It tracks three test phases (Iperf DL,
  Iperf UL, Speedtest/Ookla) through their start and complete markers.
  - While a phase is active, it counts PCI, ARFCN and modulation values and keeps a throughput peak.
  - While a phase is open, it collects per-column samples for averages.
  - It scans each closed phase's window for a success or failure event.
  - It renders three records of strings: `.2f` peaks and averages, and
    `key: pct%` distributions in `most_common` order.
- `process_summary_csv` (summary.py). It counts registration requests and
  completes, and folds the ping columns into a maximum, a minimum, a mean and
  three integer sums.
- From main.py:
  - `compare_values` and `evaluate_criterion`;
  - the construction of `kpi_data`, including `Attach_Successrate`;
  - the per-file criteria loop;
  - the file-name helpers `get_numeric_id` and `rename_file`.

## How the model is organised

- `wrappers.dfy` (`Wrappers`): `Option`.
- `text.dfy` (`Text`): the string operations the code relies on.
  - `strip`, `split`, `join` and substring `in`;
  - `str(int)`;
  - `float()` and `int()` on decimal text;
  - `f"{x:.2f}"` as an exact round-half-even to hundredths.
- `csv.dfy` (`Csv`): a row as a map from column name to cell text; `max`,
  `min`, `sum` and `statistics.mean` on reals.
- `counters.dfy` (`Counters`): `collections.Counter`.
  - It is a sequence of key/count pairs in first-insertion order.
  - `most_common()` is a stable sort by descending count, which gives the tie order Python uses.
  - `prepare_dist_string` is modelled here too.
- `nrrf.dfy` (`NrRf`): the state of `process_csv`.
  - The state is a `Tracker` holding the appended `data` rows and one `Phase` per test.
  - A `Phase` holds the phase's start and end indices, its start context, its active flag, its counters, its peaks and its sample lists.
  - `Step` is the loop body for one `;`-part of a row, and `Run` folds it over all parts.
  - `None` is the exception that the source's `try` turns into `return None`.
- `nrrf_stats.dfy` (`NrRfStats`) relates the fold to what it computes.
  - The counters hold the multiset of ticked values.
  - Each peak is the maximum of 0 and the samples offered while the phase was active.
  - Each sample list holds the parsed cells of the rows seen while the phase was open.
- `nrrf_report.dfy` (`NrRfReport`): the result scans and the three records (`kv_pairs`) as association lists.
- `nrrf_process.dfy` (`NrRfProcess`): `process_csv` as the imperative loop it is.
  - Locals are updated marker by marker and counter by counter.
  - The method is proved equal to `Run` followed by the report.
- `summary.dfy` (`Summary`).
  - `process_summary_csv` is a loop method proved against the fold `Scan`.
  - `Scan` is proved equal to a reference built from whole-column definitions (count, max, min, mean, sums).
- `evaluate.dfy` (`Evaluate`): the pieces from main.py listed above.
  - `compare_values` and `evaluate_criterion` are functions whose error cases are datatype values.
  - `kpi_data` is an ordered association list.
  - The criteria loop and the per-file loop are `for` loops proved against `EntryFor` and `EvaluateAllSpec`.
- `names.dfy` (`FileNames`): `get_numeric_id` and `rename_file`.
  - `re.match(r'.*?(\d+-\d+).*', name)` is modelled by what it selects: the leftmost start position on the first line at which a digit run, a `-` and a digit run begin.

Decisions where the text of the code is subtle:

- `present_headers[7:]` slices by position. When some of the first seven
  required headers are missing, other columns (such as `NR_PCell_NR_ARFCN`)
  become averaged columns. The model keeps this, in `MakeLayout`.
- The averages, the result scan and the records hold the source's quirks as written:
  - the AVERAGE phase is chosen by `start is not None and end is None`, an
    `elif` chain separate from the active flags;
  - the start index of a phase is overwritten by a later start, so a window can be inverted and then scans as `"Failure"`;
  - `"Speedtest - Complete"` overwrites `ookla_end` each time.
- Once the header holds `Call Event` (nrrf4.py:29), `csv.DictReader` gives
  every row that key. A row too short to reach it holds `None` there, and
  `.split(";")` on it raises `AttributeError` (nrrf4.py:66). The model has no
  `None` cells, so such a row is a row without the `Call Event` key.
- A start row raises `KeyError` when the file lacks one of the six
  start-context columns (nrrf4.py:75, 80, 85).
- Both exceptions reach nrrf4.py:278-280, so `process_csv` returns `None`.
- In `process_summary_csv` a `ValueError` from `float`/`int` is not caught,
  so the model returns `None` for the whole file.

## Model

| member | source | states |
|---|---|---|
| Text.TrimSpec | summary.py:33 | cutting a chosen whitespace set off both ends leaves the middle part that neither starts nor ends with it, empty exactly when the text is all such whitespace |
| Text.SeparatorIsNotNumberSpace | summary.py:33 | `float()` and `int()` reject a number followed by U+001C, which `str.strip()` removes |
| Text.Strip | nrrf4.py:69 | the stripped text is a middle part of the input with only whitespace cut off before and after it; it is empty exactly when the input is all whitespace, and otherwise neither starts nor ends with whitespace |
| Text.SplitSpec | nrrf4.py:66 | `split(";")` yields one more part than there are separators, no part holds the separator, and joining the parts with it gives back the original text |
| Text.Contains | nrrf4.py:73 | substring `in` holds exactly when the text occurs at some position |
| Text.NatToString | nrrf4.py:70 | `str(n)` is a non-empty digit string whose decimal value is `n`, with no leading zero unless it is `0` itself |
| Text.RoundHalfEven | nrrf4.py:229 | the rounding behind `.2f` lands within one half of the exact value, and a value exactly halfway goes to the even integer |
| Text.ParseFixed2 | main.py:310 | `float()` applied to the `.2f` text of any value gives that value rounded to hundredths, so a peak or a ping mean that is written out and read back keeps its rounded value |
| Counters.IncrementCounts | nrrf4.py:100 | `counter[k] += 1` raises the count of `k` by one, leaves every other count alone, and keeps keys distinct |
| Counters.IncrementTotal | nrrf4.py:203 | each increment raises the sum of the counts by one |
| Counters.MostCommon | nrrf4.py:204 | `most_common()` lists the same key/count pairs (a permutation), in non-increasing order of count, with the same total; ties keep first-seen order (MostCommonStable) |
| Counters.InsertPermutes | nrrf4.py:204 | inserting one pair into the sorted list adds exactly that pair to its multiset and its count to the total |
| Counters.InsertSorted | nrrf4.py:204 | inserting one pair into a list sorted by decreasing count keeps it sorted |
| Counters.DistStringEmpty | nrrf4.py:202-204 | the distribution string is empty exactly when the counter has no key |
| Counters.DistributionItems | nrrf4.py:203-204 | the distribution has one `key: pct%` item per `most_common()` entry, in that order, and those entries name every key the counter holds, each once, with its own count |
| Counters.MostCommonStable | nrrf4.py:204 | `most_common()` is a stable sort: for every count, the entries with that count come out in first-seen order |
| Counters.MostCommonDistinct | nrrf4.py:204 | `most_common()` lists no key twice when the counter holds none twice |
| Counters.PercentSumIsShareOfTotal | nrrf4.py:203-204 | the exact percentages of a list of counts add up to their share of the total, times 100 |
| Counters.PercentagesSumTo100 | nrrf4.py:203-204 | before rounding, the percentages of a non-empty distribution add up to exactly 100 |
| Csv.MeanBounds | nrrf4.py:197 | the mean used for a final average is 0 for no samples and otherwise lies between any lower and upper bound of the samples |
| NrRf.MakeLayout | nrrf4.py:33-42 | the kept headers are exactly the required headers the file has, `Call Event` among them, in the order of the required list and each once; the averaged columns are exactly the kept headers from position 7 on, minus the two modulation columns, in the same order |
| NrRf.LayoutOf | nrrf4.py:33-41 | for any repeat-free column list, the layout keeps the file's columns in list order and averages `present[7:]` minus the modulation columns, in order |
| NrRf.WithoutOrdered | nrrf4.py:39-41 | dropping the modulation columns keeps the remaining columns in order |
| NrRf.KeepOrdered | nrrf4.py:33-34 | filtering a list without repeats keeps the survivors in that list's order |
| NrRf.Mark | nrrf4.py:73-96 | the marker chain changes only phase marks and flags: the appended rows, counters, peaks and sample lists stay as they were |
| NrRf.Tick | nrrf4.py:99-104 | ticking a column keeps a counter's keys distinct |
| NrRf.Aggregate | nrrf4.py:98-137 | the aggregation touches only the accumulators, and only those of the first active phase in the order DL, UL, Ookla |
| NrRf.Averages | nrrf4.py:139-159 | sample collection touches only the sample lists, and only those of the first open phase (started, not yet ended) in the order DL, UL, Ookla |
| NrRf.Step | nrrf4.py:67-71 | each `;`-part appends exactly its own entry row to `data` |
| NrRf.RunInv | nrrf4.py:64-159 | after any prefix of the log: at most one phase is active, every entry row has the full width, every start/end index points into `data`, and every counter has distinct keys |
| NrRf.AtMostOnePhaseActive | nrrf4.py:76-87 | the three start markers leave at most one of the three active flags set |
| NrRf.RunNoneStays | nrrf4.py:278-280 | once an exception is raised, no further rows can undo it: the whole call returns `None` |
| NrRf.EventsAppend | nrrf4.py:64-67 | the parts of two row sequences in turn are the parts of their concatenation |
| NrRf.RunData | nrrf4.py:64-71 | the final `data` holds exactly one entry row per `;`-part, in order |
| NrRf.RowEventsSplit | nrrf4.py:66-70 | a row yields one part per `;`-separated piece of its `Call Event` cell, each records that count, and the pieces rejoin to the cell |
| NrRf.EntryShape | nrrf4.py:68-70 | an entry row copies each kept column, puts the stripped part in the `Call Event` column, and ends with the part count as text |
| NrRfStats.CounterCounts | nrrf4.py:98-130 | each counter of each phase counts exactly the multiset of non-blank values its column showed on the parts processed while that phase was the active one |
| NrRfStats.TalliedPeak | nrrf4.py:105-137 | one tally step raises a peak to the parsed throughput when that parses and is larger, and otherwise keeps it |
| NrRfStats.MaxOfBounds | nrrf4.py:57 | a peak starts at 0, so it is at least 0 and every sample, and it is 0 or one of the samples |
| NrRfStats.PeakIsMax | nrrf4.py:105-137 | each final peak is the maximum of 0 and all throughputs that parsed while its phase was active |
| NrRfStats.StartIsTaken | nrrf4.py:73-87 | a part holding a start marker (DL before UL before Ookla) makes that phase the one that aggregates the row |
| NrRfStats.CompleteIsNotTaken | nrrf4.py:88-96 | a part holding a complete marker and no start marker stops aggregation for the phase it completes |
| NrRfStats.IperfComplete | nrrf4.py:88-93 | `Iperf - Complete` closes the open DL phase if there is one, else the open UL phase, clears both Iperf flags, and leaves Ookla untouched |
| NrRfStats.StartMarks | nrrf4.py:73-87 | a start marker (DL before UL before Ookla) sets its phase's start to the event's index and its start info to the row's context, overwriting earlier ones, keeps that phase's end, makes it the only active phase, leaves the other phases' marks alone, and gives no result exactly when a context column is missing (`KeyError`) |
| NrRfStats.OoklaComplete | nrrf4.py:94-96 | `Speedtest - Complete` sets the speed-test end to the event's index even when the phase never started or already ended, clears its flag, and leaves the Iperf phases alone |
| NrRfStats.NoMarker | nrrf4.py:72-96 | a part holding no marker changes no mark or flag |
| NrRfStats.StepLists | nrrf4.py:139-159 | a part appends parsed samples to the lists of the open phase only |
| NrRfStats.ListsGathered | nrrf4.py:139-159 | each phase's lists are keyed by exactly the averaged columns, and each holds the parsed cells of the rows seen while that phase was the first open one |
| NrRfReport.Put | nrrf4.py:266 | after `d[k] = v`, `k` maps to `v` and every other key keeps its value |
| NrRfReport.FirstHitIsFirst | nrrf4.py:165-171 | the window scan finds nothing exactly when no row in it is a hit; otherwise its verdict is that of the first hit |
| NrRfReport.ResultEmptyIffUnclosed | nrrf4.py:163-194 | a phase's result is empty exactly when the phase never started or never ended |
| NrRfReport.ResultOfClosedPhase | nrrf4.py:164-173 | for a started and ended phase the result is `"Failure"` when no row of the window is a hit, and otherwise the verdict of its first hit |
| NrRfReport.InvertedWindowFails | nrrf4.py:165 | a phase restarted after it ended has an empty window and reports `"Failure"` |
| NrRfReport.NoPassthrough | nrrf4.py:189-192 | the Ookla scan has no failure-word branch, so it yields only `"Success"` or nothing |
| NrRfReport.OoklaResultWords | nrrf4.py:188-194 | the Ookla result is one of `""`, `"Success"` and `"Failure"` |
| NrRfReport.CheckResult | nrrf4.py:164-194 | the scan loop with its `break` and the `"Failure"` default computes the phase result of the specification |
| NrRfReport.WithAveragesKeeps | nrrf4.py:264-274 | adding the `Avg_` entries changes no key that does not start with `Avg_` |
| NrRfReport.WithAveragesFinds | nrrf4.py:264-266 | every averaged non-modulation column ends up under `Avg_<column>` with the `.2f` text of its mean (0 for no samples) |
| NrRfReport.HeadFields | nrrf4.py:221-228 | a record starts with its result and its six start-context fields, each `""` when the phase never started |
| NrRfReport.WithAveragesShowsStart | nrrf4.py:264-274 | adding the `Avg_` entries moves none of the start-context fields |
| NrRfReport.FixedFields | nrrf4.py:229-232 | each fixed item after the start context is found under its own key, before and after the averages are added |
| NrRfReport.DlRecordFields | nrrf4.py:220-233 | the DL record holds its result, its six start-context fields, its PDSCH peak as `.2f`, its PCI, ARFCN and modulation distributions, and every column average |
| NrRfReport.UlRecordFields | nrrf4.py:234-246 | the UL record holds its result, its six start-context fields, its PUSCH peak as `.2f`, its PCI, ARFCN and modulation distributions, and every column average |
| NrRfReport.OoklaRecordFields | nrrf4.py:247-261 | the Ookla record holds its result, its six start-context fields, both peaks as `.2f` text, its PCI, ARFCN, DL and UL modulation distributions, and every column average |
| NrRfProcess.TrackMarkers | nrrf4.py:73-96 | the marker `if/elif` chain on locals computes `Mark` |
| NrRfProcess.TickColumn | nrrf4.py:99-104 | the guarded `counter[...] += 1` computes `Tick` |
| NrRfProcess.AggregateRow | nrrf4.py:98-137 | the active-flag `if/elif` chain computes `Aggregate` |
| NrRfProcess.TallyDlRow | nrrf4.py:98-109 | the DL branch computes `TallyDl` |
| NrRfProcess.TallyUlRow | nrrf4.py:110-121 | the UL branch computes `TallyUl` |
| NrRfProcess.TallyOoklaRow | nrrf4.py:122-137 | the Ookla branch computes `TallyOokla`, raising neither peak when either throughput fails to parse |
| NrRfProcess.AppendField | nrrf4.py:141-145 | a cell that parses is appended; one that does not leaves the list alone |
| NrRfProcess.CollectLists | nrrf4.py:140-145 | the loop over the averaged columns computes `Collect` |
| NrRfProcess.CollectAverages | nrrf4.py:139-159 | the open-phase `if/elif` chain computes `Averages` |
| NrRfProcess.AddAverages | nrrf4.py:264-274 | the `Avg_` loop computes `WithAverages` |
| NrRfProcess.ProcessEvent | nrrf4.py:67-159 | the inner loop body computes `Step` |
| NrRfProcess.ProcessRow | nrrf4.py:64-159 | the inner loop over one row's parts extends `Run` by that row's parts |
| NrRfProcess.Finish | nrrf4.py:163-276 | the scans and record building compute `Report` |
| NrRfProcess.ProcessCsv | nrrf4.py:11-280 | the whole function computes `ProcessCsvSpec`: `None` without a `Call Event` header, or on any exception in the loop; otherwise the three records of the fold |
| NrRfProcess.RowAborts | nrrf4.py:278-280 | a row whose processing raises makes the whole call return `None`, whatever follows |
| NrRfProcess.MissingCallEvent | nrrf4.py:66 | a row without a `Call Event` cell, the `None` of a short row on which `.split` raises, makes the whole call return `None` (nrrf4.py:278-280) |
| Summary.ReadReal | summary.py:32-37 | an absent or empty cell is skipped, and any other cell, even one of spaces, must parse as a float |
| Summary.ReadInt | summary.py:39-44 | an absent or empty cell is skipped, and a non-empty one must parse as an int |
| Summary.TakeMax | summary.py:33 | `max(ping_max, v)` over the read cell, starting from no value |
| Summary.TakeMin | summary.py:35 | `min(ping_min, v)` over the read cell, starting from no value |
| Summary.AddReal | summary.py:37 | a read cell is added to the running sum |
| Summary.AddInt | summary.py:40-44 | a read integer cell is added to the running count |
| Summary.TallyRow | summary.py:24-44 | the loop body computes `Tally`, and is `None` when a cell fails to parse |
| Summary.ProcessSummaryCsv | summary.py:11-64 | the whole function computes `SummarySpec`, the fold followed by the final averages and formatting |
| Summary.Report | summary.py:46-64 | the post-processing computes `Finish` |
| Summary.ScanIsReference | summary.py:22-44 | the fold fails exactly when some row has a malformed cell; otherwise it equals the column-wise reference: NAS counts, highest Max, lowest Min, Avg sum and count, and integer sums |
| Summary.RowFails | summary.py:33-44 | a malformed cell in any row, with the rows before it well-formed, makes the whole call fail |
| Summary.NasExclusive | summary.py:26-29 | requests and completes are counted on different rows, so together they never exceed the row count |
| Summary.HighestIsMax | summary.py:33 | the running maximum is absent only for no values, and otherwise is a value at least as large as every value |
| Summary.LowestIsMin | summary.py:35 | the running minimum is absent only for no values, and otherwise is a value no larger than any value |
| Summary.SummaryFields | summary.py:46-64 | on a well-formed log every field of the result is its column-wise definition: requests halved, completes, `.2f` of the max, min and mean (0 when absent), and the three sums |
| Summary.EmptyLog | summary.py:12-20 | a log with no rows gives zero counts and `"0.00"` for all three ping fields |
| Evaluate.CompareValues | main.py:367-377 | each of the four operators compares as written; any other condition is the `ValueError`; a missing threshold cannot be compared |
| Evaluate.ComplementaryOperators | main.py:368-375 | `>=` is the negation of `<` and `<=` of `>`; both `>=` and `<=` hold only for equal values |
| Evaluate.EvaluateCriterion | main.py:353-365 | `No data` exactly for no value; `Pass` exactly when the pass comparison holds; `Conditional Pass` exactly when it fails and the conditional one holds; `Fail` when both fail; `Error` exactly when an unknown condition is reached; the uncaught `TypeError` of a missing threshold otherwise |
| Evaluate.PassShortCircuits | main.py:357-358 | once the pass comparison holds, the conditional condition is never looked at |
| Evaluate.ConditionalPassBand | main.py:357-360 | with `>=` for both thresholds, every value at or above the conditional threshold and below the pass threshold is a conditional pass |
| Evaluate.AttachSuccessRate | main.py:297 | the rate is completes over requests in percent when requests are positive, and 0 otherwise or with no summary |
| Evaluate.KpiNamesAreKeys | main.py:291-300 | a KPI name is found in `kpi_data` exactly when it is one of the eight keys the code builds |
| Evaluate.ToFloat | main.py:310 | `None` stays `None`, a number is itself, and text fails exactly when `float()` rejects it |
| Evaluate.EntryForFields | main.py:304-339 | every criterion yields an entry with its own name, unit and thresholds; `No data` exactly when the KPI is unknown or `None`; `Error`, holding the raw text, when the value is not a float |
| Evaluate.EntryForScores | main.py:309-319 | a KPI value that converts is scored by `evaluate_criterion`, with the converted number as the result |
| Evaluate.EvaluateCriteria | main.py:304-339 | the criteria loop yields one entry per criterion, in order, each the one `EntryFor` defines |
| Evaluate.CriteriaFor | main.py:274-277 | the query keeps exactly the criteria whose type and value match the site's, each as many times as the table holds it |
| Evaluate.CriteriaForInOrder | main.py:274-277 | the selected rows appear in table order: they sit at increasing positions of the table |
| Evaluate.EvaluateOne | main.py:271-344 | one file's evaluation computes `EvaluateFile` |
| Evaluate.EvaluateFileShape | main.py:272-344 | with no site, the evaluation is the single "No site found" entry; with a site, it has one entry per matching criterion, for that criterion |
| Evaluate.EvaluateAll | main.py:270-344 | the loop over files computes `EvaluateAllSpec` |
| Evaluate.AbortStays | main.py:348-351 | once a file raises, the whole request fails |
| Evaluate.EvaluateAllFiles | main.py:270-344 | the request fails exactly when some file's record is `None`; otherwise each file gets the evaluation for its own site and summary, in order |
| Evaluate.EvaluateFileFails | main.py:271-344 | one file's evaluation fails exactly when its record is `None`: with a site its `.get` raises, without one the item assignment into it raises |
| Evaluate.PeakReadBack | main.py:292 | the `PDSCH_Peak` evaluated is the DL peak rounded to hundredths |
| Evaluate.PingReadBack | main.py:294 | the `Ping _avg` evaluated is the mean of the log's Avg column rounded to hundredths |
| FileNames.MatchAt | main.py:181 | a match of the group at a position ends after it, inside the name |
| FileNames.Search | main.py:181 | a match found by the lazy prefix lies inside the name |
| FileNames.SearchLeftmost | main.py:181 | the search finds the leftmost position, reachable without crossing a line break, where the group matches, and reports none when there is no such position |
| FileNames.NumericIdSpec | main.py:180-184 | the id is a `digits-digits` group not followed by a digit, with no `digits-digits` text starting earlier on the first line; the name itself exactly when no `digits-digits` text starts on the first line |
| FileNames.MatchAtComplete | main.py:181 | any `digits-digits` text at a position is matched there, ending exactly with it when no digit follows |
| FileNames.MatchAtIff | main.py:181 | the group matches at a position exactly when a `digits-digits` text starts there |
| FileNames.NoMatchNoId | main.py:181 | where the group does not match, no `digits-digits` text starts |
| FileNames.NoDashNoId | main.py:171-184 | a name without `-` is its own id and is not renamed |
| FileNames.IdFirst | main.py:180-184 | a name that starts with an id not followed by a digit has that id |
| FileNames.NumericIdIdempotent | main.py:180-184 | the id of an id is itself |
| FileNames.RenameSummaryName | main.py:171-175 | `<id>_Summary.csv` is renamed to itself |
| FileNames.RenameNrRfName | main.py:171-177 | `<id>_NR_RF.csv` is renamed to itself |
| FileNames.RenameIdempotent | main.py:171-178 | renaming a renamed file changes nothing |

## Left out

- CSV reading: rows are maps from column names to cell text.
  - Quoting, encodings and short or long rows are not modelled, and neither is `DictReader`'s `restkey`/`None` keys.
  - The one short row the model stands for is a row without its `Call Event` key, which fails as `.split` on `None` does. A short row's `None` under any other column is not modelled. Under a parsed column, `float(None)` raises a `TypeError` that nrrf4.py:108-158 do not catch.
  - A column the file lacks is a missing key. `fieldnames` being `None` for an empty file is not modelled.
- Text.ParseReal: accepts plain decimal text with an optional sign and
  surrounding whitespace. Python's `float()` also accepts exponents, `inf`,
  `nan`, `_` separators and non-ASCII digits, which are not modelled.
  - The whitespace skipped around the number is Text.IsNumberSpace: every `str.isspace()` character except U+001C to U+001F, which `float()` and `int()` reject although `str.strip()` drops them.
  - Summary.ReadInt leaves out the same extras for `int()`.
- Floating point: values are exact reals.
  - `statistics.mean`, `max`, `sum` and `.2f` act on exact values, and `.2f` rounds half to even on the exact value.
  - The binary rounding of doubles is not modelled.
  - `float('-inf')`/`float('inf')` as initial max/min are modelled as "no value yet".
  - Python's `0` for an empty mean is modelled as the real 0.
- Counters.PercentagesSumTo100: states the sum before the `.2f` rounding of each share; the rendered, rounded shares need not add up to 100.
- Logging, file and directory I/O, the CLIs (`main` in nrrf4.py and summary.py), zip extraction, the database session, FastAPI endpoints and file moves are left out.
  - Sites and criteria are given as a map and a table; the query's row order is the table's order.
  - A threshold that the database stores as NULL is `None`.
- The renaming dictionaries `{get_numeric_id(k): v ...}` (main.py:261-262) are
  not built. The per-file loop takes the already renamed ids as input, so two
  files that collide on one id are not modelled.
- Evaluate.EvaluateAll: returns the evaluations as a new sequence instead of writing `evaluation` into the result dictionaries in place.
- `\d` is matched as ASCII digits only: Python's `re` also accepts other Unicode decimal digits.
- `process_summary_csv` exceptions: file-open errors are not modelled; parse errors make the model return `None` where Python raises.
