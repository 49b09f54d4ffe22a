# Water-kiosk analytics, modelled in Dafny

The analytics service reads CSV exports of water-kiosk transactions. From them it serves
per-file and combined statistics, a daily series and a per-weekday series. This project
models the computing core of `analytics_api.py` and proves what that core promises.
The Flask endpoints around that core are not modelled.

- **Row validation and the per-file fold** (`process_csv_file`), in modules `Rows`, `Tallies` and `Files`.
  - Each row becomes an accepted transaction, a skipped row, or an error that loses the whole file.
  - Accepted transactions are folded into the per-user, per-client and per-bucket counters.
  - The fold is written twice: as a function, and as the loop it is in the source (`Files.ProcessCsvFile`).
- **The merge of several files** (`analyze_data`), in modules `Tallies` and `Analysis`.
  - The counters of every file that gave data are added key by key, in request order.
  - Up to key order, the merged counters do not depend on the order the files were requested in.
- **The rankings** (`sorted(..., reverse=True)[:20]`), in module `Rankings`.
  - Ranking is a stable sort by value, largest first.
  - Items with equal values keep the order in which their keys were first inserted.
- **File name to date** (`daily_trends` and `weekday_trends`), in modules `Dates` and `Calendar`.
  - `transactions_MMDDYY.csv` becomes the key `20YY-MM-DD`.
  - `datetime.strptime(key, '%Y-%m-%d')` is modelled as the matcher it is: ordered regular-expression alternatives, a full-consumption check, and the calendar check of `datetime`.
  - `weekday()` is computed from the proleptic Gregorian ordinal.
- **The two trend series**, in module `Trends`.
  - In the daily series, a later file with the same date key overwrites an earlier one. The dates are listed in ascending order.
  - The weekday series adds the figures up per day name. It lists the days Monday to Sunday and leaves out days without data.

Python's dicts keep their keys in insertion order, and the rankings' tie order depends on that.
So every dict that is later iterated is a `Dicts.Dict`: an insertion-order list plus a map.
A `defaultdict` `d[k] += v` is `AddCount` or `AddVolume`, and `d[k] = v` is `Put`.
Volumes are exact `real`s and counts are `nat`s.
The file system is a `map` from the names present in the CSV directory to their contents.
A `FileContent` is either `Unreadable` (open, decode and CSV errors) or the rows that `csv.DictReader` yields.

Where the code and its design notes disagree, the model follows the code:
- Ties in the rankings keep first-seen order; they are not ordered by user id.
- File names carry no kiosk id, and files are not looked up in sub-directories.

## Model

| member | source | states |
|---|---|---|
| Text.Trim | analytics_api.py:39-42 | `str.strip()`: the result is no longer than the input and neither starts nor ends with white space |
| Text.TrimPadded | analytics_api.py:39-42 | stripping a word padded with white space on both sides gives back exactly the word |
| Text.UpperAscii | analytics_api.py:41 | on ASCII text `upper()` keeps the length and upper-cases character by character |
| Text.RemoveAllKeeps | analytics_api.py:253 | `replace(pat, '')` leaves a prefix that cannot start the pattern untouched |
| Text.StrLeTotal | analytics_api.py:270 | string order (code-point lexicographic) is total |
| Dicts.TouchKeys | analytics_api.py:45-46 | an update keeps the keys already in the insertion order in their places (the old order is a prefix of the new), appends the key exactly when it is new (the order grows by one then and not otherwise), adds no other key, and keeps the keys distinct |
| Dicts.AddCountOthers | analytics_api.py:46 | `d[k] += n` keeps the dict well formed, adds the key, and changes no other key's count |
| Dicts.AddVolumeOthers | analytics_api.py:45 | `d[k] += v` keeps the dict well formed, adds the key, and changes no other key's volume |
| Dicts.PutOthers | analytics_api.py:264-265 | `d[k] = v` keeps the dict well formed, adds the key, and leaves every other entry as it was |
| Dicts.ItemsMembership | analytics_api.py:199 | `d.items()` holds exactly the pairs of the dict |
| Dicts.SumCountsPermutation | analytics_api.py:93 | a sum over the values does not depend on the key order |
| Rows.ParseRow | analytics_api.py:38-82 | a row aborts the file exactly when a cell is missing from a short row before the volume fails to parse; an unparsable volume skips the row; an accepted row has a stripped non-empty user id and a volume of at least 0 |
| Rows.AcceptanceRule | analytics_api.py:44 | a complete row is counted exactly when its stripped user id is non-empty and its volume parses to at least 0 (a missing column reads as 0) |
| Rows.PassRule | analytics_api.py:41 | a padded ASCII response normalises to "PASS" exactly when the word is "pass" in some mix of cases |
| Rows.BucketIsUpperInclusive | analytics_api.py:51-72 | the label of a volume is bucket `b` exactly when the volume lies in (100b, 100(b+1)], with 0 in the first bucket and everything above 1000 in the last |
| Rows.InBucketUnique | analytics_api.py:51-72 | the eleven buckets do not overlap |
| Rows.BucketIsLabel | analytics_api.py:51-72 | every volume gets one of the eleven labels |
| Sorting.SortBy | analytics_api.py:199-204 | sorting keeps the length and is a permutation |
| Sorting.SortBySorted | analytics_api.py:199-204 | the sorted list is in order for any total preorder |
| Sorting.SortByStable | analytics_api.py:199-204 | elements that compare equal keep their input order |
| Tallies.AddTransactionConsistent | analytics_api.py:44-80 | counting an accepted row keeps every conservation law: pass + fail = total; access counts, histogram and volumes sum to the totals; keys are non-empty; each bucket counts its volumes |
| Tallies.TallyOfConsistent | analytics_api.py:37-80 | the fold over accepted rows is consistent |
| Tallies.TallyOfVolumes | analytics_api.py:47-48 | one transaction per accepted row, and `individual_volumes` is the rows' volumes in order |
| Tallies.TallyOfVisits | analytics_api.py:46 | a user's access count is their number of transactions, and they are a key exactly when they made one |
| Tallies.TallyOfUserVolume | analytics_api.py:45 | a user's volume is the sum of the volumes of their transactions |
| Tallies.TallyOfClientVisits | analytics_api.py:79-80 | a client's activity is its number of transactions, and the empty client name is never a key |
| Tallies.TallyOfPasses | analytics_api.py:74-77 | the pass count is the number of "PASS" responses, and every other response is a failure |
| Tallies.AddCountsPerKey | analytics_api.py:172-173 | adding a dict's items adds each key's value to its counter |
| Tallies.AddCountsSum | analytics_api.py:172-173 | adding a dict's items adds the sum of its values to the sum of the counters |
| Tallies.AddVolumesSum | analytics_api.py:169-170 | the same for volumes |
| Tallies.MergeConsistent | analytics_api.py:169-186 | merging two consistent tallies gives a consistent tally |
| Tallies.MergePerKey | analytics_api.py:169-183 | after a merge, every user, client and bucket counter is the sum of the two |
| Tallies.MergeView | analytics_api.py:169-186 | up to key order, merging is key-by-key addition plus multiset union of the volumes |
| Tallies.PlusCommutes | analytics_api.py:164-186 | key-by-key addition is commutative |
| Tallies.PlusAssociates | analytics_api.py:164-186 | key-by-key addition is associative |
| Tallies.MergeAllConsistent | analytics_api.py:164-186 | merging any number of consistent tallies gives a consistent tally |
| Tallies.MergeAllView | analytics_api.py:164-186 | the merge of a list of tallies is, up to key order, their order-free sum |
| Tallies.MergeAllPermutation | analytics_api.py:164-186 | merging the same tallies in another order gives the same counters up to key order |
| Tallies.MergeAllTotal | analytics_api.py:175 | the merged total is the sum of the files' totals |
| Tallies.MergeAllUserSums | analytics_api.py:169-173 | each user's merged volume and access count are the sums over the files |
| Tallies.MergeAllKioskSums | analytics_api.py:179-183 | each client's and bucket's merged count is the sum over the files |
| Tallies.MergeAllEmpty | analytics_api.py:188 | when every file has transactions, the merged total is 0 exactly when no file gave data |
| Files.SuccessRateBounds | analytics_api.py:91 | the success rate lies in [0, 100]; it is 100 exactly when every transaction passed, and 0 exactly when none passed or there were none |
| Files.ScanOutcome | analytics_api.py:37-86 | the file is lost exactly when one of its rows aborts; otherwise there is one transaction per accepted row, each accepted |
| Files.ProcessFile | analytics_api.py:23-110 | a result has well-formed counters and at least one transaction |
| Files.ProcessFileNone | analytics_api.py:84-89 | `None` exactly when the file is unreadable, a row aborts, or no row is accepted |
| Files.ProcessFileConserves | analytics_api.py:88-110 | a result counts each accepted row once, with pass + fail = total, access counts and histogram summing to the total, total volume = sum of the volumes, unique users ≤ total, and a success rate in [0, 100] |
| Files.CountRow | analytics_api.py:44-80 | the loop body updates the eight counters exactly as counting one transaction does |
| Files.CountRows | analytics_api.py:37-82 | the row loop aborts exactly when the scan does, and otherwise gives the fold of the accepted rows |
| Files.ProcessCsvFile | analytics_api.py:23-110 | the imperative `process_csv_file` computes `ProcessFile` |
| Rankings.RankIsStableSort | analytics_api.py:199-204 | a ranking lists every item once and nothing else, largest first, with equal values in first-inserted order |
| Rankings.TopOfRank | analytics_api.py:199-200 | the first `n` of a ranking: `min(n, #keys)` items with their values, in order; no item left out ranks ahead of one kept |
| Rankings.Take | analytics_api.py:199-200 | `s[:n]` is a prefix of length `min(n, |s|)` |
| Rankings.TopUsersByVolumeSpec | analytics_api.py:199 | at most 20 users with their volumes, largest first; no user left out has more volume than one kept; ties in first-seen order |
| Rankings.TopUsersByFrequencySpec | analytics_api.py:200 | the same for access counts |
| Rankings.KioskRankingSpec | analytics_api.py:203-204 | the client ranking is a permutation of all of `kiosk_activity`, busiest first, ties in first-seen order |
| Analysis.PresentNamesMembership | analytics_api.py:164-186 | `files_processed` holds exactly the requested names that gave data |
| Analysis.LoadedNamesMembership | analytics_api.py:164-168 | a requested name is processed exactly when its file exists and gives data |
| Analysis.Combined | analytics_api.py:151-186 | the merged counters are well formed |
| Analysis.LoadedConsistent | analytics_api.py:164-168 | every file that gave data contributes consistent counters |
| Analysis.AnalyzeOutcome | analytics_api.py:141-189 | "no CSV files" exactly when nothing was requested or listed; "no valid data" exactly when no selected file gave data; otherwise `files_processed` is the names that gave data |
| Analysis.AnalyzedSummary | analytics_api.py:188-217 | an answer has a positive total equal to the files' totals, pass + fail = total, a histogram summing to the total, unique users ≤ total, and a success rate in [0, 100] |
| Analysis.AnalyzeReorder | analytics_api.py:164-231 | requesting the same files in another order gives the same outcome, the same summary, the same histogram and the same client counts, and processes the same files |
| Analysis.AddCountsInto | analytics_api.py:172-173 | the merge loop adds the items in their order, as `AddCounts` |
| Analysis.AddVolumesInto | analytics_api.py:169-170 | the same for volumes |
| Analysis.MergeInto | analytics_api.py:169-186 | the loop body merges one file's counters into the combined ones |
| Analysis.MergeFiles | analytics_api.py:164-186 | the file loop computes the combined counters and `files_processed` |
| Analysis.AnalyzeData | analytics_api.py:139-233 | the imperative endpoint computes `Analyze` |
| Calendar.Weekday | analytics_api.py:316 | `weekday()` lies in 0..6 |
| Calendar.FirstDayIsMonday | analytics_api.py:316 | 1 January of year 1 has ordinal 1 and is a Monday |
| Calendar.DaysInYear | analytics_api.py:315 | a year has 365 days, 366 in a leap year, and the year ordinals step by that |
| Calendar.NextDayWeekday | analytics_api.py:316 | the day after a valid date is valid, has the next ordinal and the next weekday, so `weekday()` counts Monday to Sunday without a gap |
| Dates.KeyOf | analytics_api.py:255-258 | six characters `MMDDYY` become a key of the shape `20YY-MM-DD` |
| Dates.KeyRoundTrip | analytics_api.py:253-258 | the key gives back the six characters it was made from |
| Dates.PartRoundTrip | analytics_api.py:253-258 | every key of that shape is made from its six characters |
| Dates.DateKey | analytics_api.py:253-260 | a file name has a key exactly when the name stripped of "transactions_" and ".csv" has six characters, and the key is made from them |
| Dates.DateKeyOfName | analytics_api.py:249-258 | `transactions_MMDDYY.csv` gives `20YY-MM-DD`, with no check on digits or calendar |
| Dates.FileNameRoundTrip | analytics_api.py:249-258 | the file name written for a key gives that key back |
| Dates.MatchYmd | analytics_api.py:315 | a match of `%Y-%m-%d` reads a year of at most four digits, a month in 1..12 and a day in 1..31 |
| Dates.ParseYmd | analytics_api.py:315 | `strptime` succeeds only on a real calendar date |
| Dates.ParseFormat | analytics_api.py:315 | `strptime` reads back any valid date written `YYYY-MM-DD`, and also with a blank in front of a one-digit day |
| Dates.ParseKey | analytics_api.py:315 | a ten-character string that parses is one of those two written forms of its date |
| Dates.ExampleKey | analytics_api.py:252-258 | `transactions_110625.csv` has the key `2025-11-06` |
| Dates.ExampleParse | analytics_api.py:315 | `2025-11-06` parses to 6 November 2025 |
| Dates.ExampleWeekday | analytics_api.py:315-317 | 6 November 2025 is a Thursday |
| Trends.DailyTableValid | analytics_api.py:243-267 | the daily dict is well formed and all its keys have the shape `20YY-MM-DD` |
| Trends.DailyKeys | analytics_api.py:262-265 | a date is a key exactly when some listed file with that key gave data |
| Trends.DailyLast | analytics_api.py:264-265 | a date holds the figures of the last file with that key that gave data |
| Trends.DailySeriesSpec | analytics_api.py:270-275 | the dates are strictly ascending and are exactly the keys; each volume and count belongs to its date; the display date is the corrected one, the key without its leading "20" (the source's `replace('20', '')` is `Trends.DisplayAsWritten`; see Findings) |
| Trends.DailyTrends | analytics_api.py:236-286 | the imperative endpoint computes `DailyTrendsOf`, whose display dates are the corrected ones |
| Trends.FileDaily | analytics_api.py:250-265 | the loop body gives the file's key and figures, or nothing |
| Trends.DisplayAsWrittenLosesDay | analytics_api.py:275 | as written, `2025-11-20` is displayed as `25-11-`; the corrected display gives `25-11-20` |
| Trends.DisplayDateRoundTrip | analytics_api.py:275 | the corrected display date is the key without its century: "20" + display = key |
| Trends.DisplayAgrees | analytics_api.py:275 | the code as written agrees with the correction when no '2' follows the century |
| Trends.WeekdayOfName | analytics_api.py:307-317 | a weekday found for a file name lies in 0..6 |
| Trends.WeekdayOfNameSpec | analytics_api.py:307-317 | a file name has a weekday exactly when its key is a written form of a valid date, and that weekday is the date's `weekday()` |
| Trends.WeekdayTableValid | analytics_api.py:297-324 | both weekday dicts are well formed, share their key order, and their keys are day names |
| Trends.WeekdayTableSums | analytics_api.py:319-322 | each day's volume and count are the sums over the files that fall on it |
| Trends.WeekdayKeys | analytics_api.py:319-322 | a day is a key exactly when some listed file that gave data falls on it |
| Trends.EmitDays | analytics_api.py:337-339 | the day loop lists exactly the candidate days that are keys and leaves the totals alone |
| Trends.EmitValues | analytics_api.py:340-341 | each listed day carries its own figures |
| Trends.EmitAverages | analytics_api.py:342-343 | the `average_*_by_day` maps hold the listed days' figures and nothing else |
| Trends.EmitOrder | analytics_api.py:337 | listed days keep the order of the candidate list |
| Trends.WeekdayTrendsDays | analytics_api.py:299-339 | the days come out Monday to Sunday, exactly those that received data |
| Trends.WeekdayTrendsFigures | analytics_api.py:337-343 | each listed day carries the sum of its files' figures, and the maps hold the same sums |
| Trends.WeekdayTotalsAreSums | analytics_api.py:331-332 | the totals equal the sums of the listed volumes and counts |
| Trends.WeekdayTrends | analytics_api.py:289-345 | the imperative endpoint computes `WeekdayTrendsOf` |
| Trends.AccumulateWeekdays | analytics_api.py:302-324 | the file loop computes the per-day sums |
| Trends.EmitDayNames | analytics_api.py:326-343 | the day-name loop builds the series that `Emit` specifies: the totals, then each day that some file fell on, in calendar order, with its figures |
| Trends.FileWeekday | analytics_api.py:303-322 | the loop body gives the file's day name and figures, or nothing |

## Left out

- Flask, CORS, `jsonify`, HTTP status codes, the health endpoint and `serve.py` are left out: they are transport, not computation. The 404 answers are the `None` or `NoCsvFiles`/`NoValidData` results.
- `get_available_files` (`glob`, `os.stat`, modification times, sorting names in reverse) is I/O. Its output, a list of names, is a parameter. The default choice in `analyze_data` is its first element.
- Files are read through a map from names to contents. Opening, decoding, the CSV dialect and `print` of errors are abstracted into `FileContent.Unreadable` and the rows `csv.DictReader` yields.
- `float()` is abstracted to "unparsable or a number". Its exact grammar, infinities and NaN are left out, because volumes are exact reals.
- `round(x, 2)` is left out everywhere (summary, per-file stats, weekday lists and maps). Floating-point rounding of sums is left out as well, because sums are exact.
- Files.StatsOf: the averages are modelled with their zero-guards only. Their rounding and floating-point value are not modelled.
- The sums and averages of the daily series (`total_volume`, `average_daily_*`) are not modelled. `Trends.DailySeries` holds the four lists only.
- `str.upper()` is modelled for ASCII plus the two non-ASCII characters that can upper-case into "PASS" ('ſ' and 'ß'). Other Unicode case mappings are left out.
- `strptime`'s `\d` and `int()` accept any Unicode decimal digit, and the date key is copied from the file name as it is. The model's parser accepts ASCII digits only, so a file whose date part uses other decimal digits is left out of the model's weekday series although the source would count it.
- Trends.DailySeriesOf: the display dates are the corrected ones (only the leading "20" is dropped), not the source's `date.replace('20', '')`, which also removes a later "20" (see Findings). The two agree whenever no '2' follows the century (`Trends.DisplayAgrees`).
- Trends.DailyTrends: returns `DailySeriesOf`, so its display dates are the corrected ones too.
- Dates.DateKeyOfName: it covers names whose six characters contain no 't' and no '.'. For other characters, `replace` can remove text inside the six characters, and `DateKey` states the general case.
- Calendar.NextDayWeekday: it excludes 31 December 9999, because `datetime` has no later date.

## Findings

| source | as written | input that shows it | evidently intended | confidence | as-written member | corrected member |
|---|---|---|---|---|---|---|
| analytics_api.py:275 | `date.replace('20', '')` removes every "20" in the key | key `2025-11-20` is displayed as `25-11-` (a day of 20, or a month or day written with "20" across the dash, loses digits) | drop the leading century "20" only, giving `25-11-20` | not executed | Trends.DisplayAsWrittenLosesDay | Trends.DisplayDateRoundTrip |
