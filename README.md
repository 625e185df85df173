# Options-chain download and analytics, modelled in Dafny

This project models two parts of a small options-chain tool:

- **The resumable download** (`download_options_chain.py`). For each expiration date in the brokerage's list, the download does one of three things:
  - it skips the date if the output CSV file already holds it;
  - it fetches all of the date's options and appends them, sorted by option type and strike, as one block;
  - it leaves the date out when the fetch failed or returned nothing, so that a later run in continue mode fetches it again.

  The header is written only on a run's first write, and that write replaces the file.
- **The chain analytics** (`analyze_options_chain.py`):
  - put/call volume and open-interest ratios per expiration;
  - the max-pain strike of each expiration: the candidate strike at which holders collect least, with ties going to the lowest strike;
  - the unusual-activity table: traded options flagged by a volume threshold or by volume against open interest, sorted by descending volume, top 50;
  - the overall totals of the summary sheet;
  - the required-column check that guards the analysis.

## Files

- `wrappers.dfy` provides `Option` and `Result`.
- `chain.dfy` defines the 19-column option record and the CSV header.
- `sorting.dfy` provides two helpers for the pandas orderings: an insertion sort, which is ordered and a permutation, and a sorted list of distinct values.
- `download.dfy` models the download.
  - The brokerage is a `Broker` value holding two total functions. `None` in their results means the call raised.
  - The output file is a class `CsvFile` with an existence flag and a sequence of lines; `Line` is `Header` or `Row`.
  - `DownloadFullChain`, `DownloadPending` and `ProcessDate` are loops and methods that update that file.
  - Each of them is proved against the functions `StepFor`, `Blocks`, `SkipCount`, `Pending` and `FinalLines`.
  - The remaining properties are lemmas about those functions.
- `analyze.dfy` models the analytics over a table, given as a sequence of records.
  - `CalculatePutCallRatios`, `CalculateMaxPain`, `TotalValueAt` and `MaxPainTable` are loops.
  - Each of them is proved against a specification function or predicate (`RatioRowFor`, `Pain`, `IsMaxPain`, `ReportedDates`).
  - The filter / sort / take of the unusual-activity table and the column check are functions, as in the source.

Strikes and ratios are `real`, and volume and open interest are `nat`. Dates are strings, compared the way Python compares strings.

## Behaviour of the download worth knowing

- A fetch that returns no options is neither written nor counted as fetched, so that date stays pending.
- Any existing output file, even an empty one, is refused outside continue mode.
- Market data is fetched one option at a time, without batching or backoff.
- Continue mode on an existing file from which no completed date can be read makes the first write replace that file.

## Model

| member | source | states |
|---|---|---|
| Download.AssembleOption | download_options_chain.py:98-130 | When the body of one option's `try` yields a record: exactly when the strike, type and id are present and the market-data call returned at least one entry. The strike and type are the option's. The symbol and date are the call's. Every market field is the first quote's, or 0 for volume and open interest and `''` for any other missing field. |
| Download.AssembleAll | download_options_chain.py:94-133 | At most one record per listed option, each carrying the requested symbol and expiration date. |
| Download.AssembledInOrder | download_options_chain.py:97-127 | The kept records follow the listing order one to one. Every option whose processing completes has its record, and no other option has one. |
| Download.FetchExpiration | download_options_chain.py:83-137 | None exactly when listing the options raised, and `[]` when the listing is empty. Every returned record is tagged with the symbol and date. |
| Download.FetchOptionsForExpiration | download_options_chain.py:83-137 | The loop returns what `FetchExpiration` defines. An empty listing gives `[]`. |
| Download.SortByTypeStrike | download_options_chain.py:215-216 | A block is ordered by option type (calls first), then by strike. It is a permutation of the fetched records. |
| Download.CsvFile.WriteBlock | download_options_chain.py:219-221 | A write with a header replaces the file with the header followed by the rows. Any other write appends the rows. Afterwards the file exists. |
| Download.GetCompletedExpirations | download_options_chain.py:59-69 | The distinct `expiration_date` values of the file's data lines. It is the empty set when the file is absent, empty, or has no header. |
| Download.StepFor | download_options_chain.py:200-233 | For one date: Skip iff the date is completed; Failed iff not completed and the fetch is None; NoData iff not completed and the fetch is empty; otherwise Commit. |
| Download.CommitShape | download_options_chain.py:213-216 | A committed block is non-empty, a sorted permutation of that date's fetch, and holds only that date. |
| Download.Pending | download_options_chain.py:200-210 | The dates a run requests are exactly the listed dates that are not completed. |
| Download.ProcessDate | download_options_chain.py:200-233 | One loop pass takes the step `StepFor` defines. Only a commit changes the file: it writes the sorted block, under a header on the first write. |
| Download.DownloadPending | download_options_chain.py:196-236 | After the loop, the file is `FinalLines`. When the run starts with no completed dates and commits a block, the file becomes the header followed by the blocks. Otherwise it is the prior content followed by the blocks, in list order. `total_options` is the number of appended records. `fetched` is the number of blocks. `skipped` is the number of completed dates in the list. |
| Download.DownloadFullChain | download_options_chain.py:158-262 | With no dates, or with an existing file outside continue mode, it returns a failure with zero counters and leaves the file untouched. Otherwise it reads the completed set only in continue mode on an existing file, runs the loop as `DownloadPending` states. It hands back the file iff the file then exists, starts with the header and holds no further header line: the closing re-read (download_options_chain.py:241-251) raises on an empty or headerless file, and on one whose `strike_price` column holds a second header's text. A run that commits a block hands back the file when it started fresh or the file held at most a leading header. |
| Download.BlocksFollowDateList | download_options_chain.py:200-227 | Each appended block is the commit of one listed date. The blocks keep the list's order, and every committing date has its block. |
| Download.AppendedDatesAreCommitted | download_options_chain.py:210-227 | The dates of the appended rows are exactly the committed dates. None of them was already complete. |
| Download.CountersBounded | download_options_chain.py:196-227 | `fetched + skipped <= len(expiration_dates)`. |
| Download.CheckpointAfterRun | download_options_chain.py:174-227 | Reading the completed set back after a run gives the starting set together with the dates the run committed. |
| Download.FailedExpirationRetried | download_options_chain.py:210-233 | A date whose fetch failed or returned nothing is absent from the file afterwards, so a resume requests it again. |
| Download.HeaderWrittenOnce | download_options_chain.py:219-227 | A run that writes and started with no completed dates leaves exactly one header, at the front, and no other header line. Any other run leaves the number of header lines unchanged. A file with at most a leading header keeps that shape. |
| Download.ResumeNeverDuplicates | download_options_chain.py:177-205 | A continue-mode run on the file a previous run left appends no date that was completed before either run. The completed set afterwards is the union of all three sets of dates. |
| Download.NoDuplicateExpirations | download_options_chain.py:200-227 | With a list free of repeated dates, no two appended blocks share an expiration date. |
| Analyze.Select | analyze_options_chain.py:31-34 | A boolean-mask selection holds a row exactly when the table holds it and the mask accepts it, and it is no longer than the table. |
| Analyze.SelectMultiplicity | analyze_options_chain.py:31-34 | The selection holds each accepted row exactly as often as the table does, and no rejected row. |
| Analyze.SelectInTableOrder | analyze_options_chain.py:31-34 | The selection is the table read at increasing positions, and a position is read exactly when the mask accepts its row: the selection keeps the table's order. |
| Analyze.ExpirationDates | analyze_options_chain.py:30 | `sorted(unique(expiration_date))` is strictly ascending and holds each date of the table. |
| Analyze.Ratio | analyze_options_chain.py:39-44 | `num / den` when `den > 0` (so `r * den == num`), and exactly 0 otherwise. |
| Analyze.CalculatePutCallRatios | analyze_options_chain.py:28-56 | One row per distinct expiration, strictly ascending. Each row holds the call and put volume and open-interest sums of that expiration and their ratios. |
| Analyze.TypesSplitTable | analyze_options_chain.py:170-175 | Calls and puts partition the table. Their counts, volumes and open interests add up to the table's. |
| Analyze.RatioTableTotals | analyze_options_chain.py:37-43 | Each count column of the put/call table sums to that type's total over the whole table. |
| Analyze.OverallStatsConsistent | analyze_options_chain.py:170-186 | The overall statistics split the table between calls and puts and agree with the put/call table's column sums. |
| Analyze.StrikesOf | analyze_options_chain.py:76 | The candidate strikes are the distinct strikes of the expiration, strictly ascending. |
| Analyze.TotalValueAt | analyze_options_chain.py:82-98 | At strike s, the two loops add up `(s - k) * OI * 100` over calls struck at k < s and `(k - s) * OI * 100` over puts struck at k > s. The result is `Pain`. |
| Analyze.CalculateMaxPain | analyze_options_chain.py:70-105 | None iff the expiration has no rows. Otherwise it returns a candidate strike with the least pain, and strictly less pain than every lower candidate. |
| Analyze.MaxPainOfRunningMinimum | analyze_options_chain.py:100-103 | A running minimum over ascending strikes that is replaced only on a strict improvement ends at the max-pain strike. |
| Analyze.MaxPainUnique | analyze_options_chain.py:76-103 | The tie-break makes the max-pain strike unique. |
| Analyze.SampleMaxPain | analyze_options_chain.py:81-105 | Take calls at 100 with open interest 10 and puts at 110 with open interest 5. Holders collect 5000 at 100 and 10000 at 110, so 100 is the max-pain strike and 110 is not. |
| Analyze.SampleTieGoesToLowerStrike | analyze_options_chain.py:101-103 | With equal pain at both strikes, only the lower strike is the max-pain strike. |
| Analyze.VolumeOiRatio | analyze_options_chain.py:130-133 | `volume / open_interest` when the open interest is positive, and 0 otherwise. |
| Analyze.RatioTestInIntegers | analyze_options_chain.py:143 | The ratio is at least 0.5 iff the open interest is positive and twice the volume is at least the open interest. |
| Analyze.ThresholdMonotone | analyze_options_chain.py:141-144 | Lowering the volume threshold flags no fewer rows. A NaN threshold flags no more rows than any real one. |
| Analyze.RankedRows | analyze_options_chain.py:146-147 | The flagged rows, sorted by descending volume. The result is a permutation of their annotated rows. |
| Analyze.DetectUnusualActivity | analyze_options_chain.py:124-158 | It is empty when no row traded, and ordered by descending volume. |
| Analyze.UnusualRowsAreFlagged | analyze_options_chain.py:124-144 | Every output row is the annotation of an input row with volume > 0 that meets the threshold or the 0.5 ratio test. |
| Analyze.UnusualSubMultiset | analyze_options_chain.py:141-158 | The output takes each flagged row at most as often as the input holds it. |
| Analyze.UnusualSize | analyze_options_chain.py:141-158 | The output holds `min(50, number of flagged rows)` rows. |
| Analyze.UnusualKeepsTopVolumes | analyze_options_chain.py:146-158 | A flagged row is either in the output, or the output is full with 50 rows whose volumes are all at least its volume. |
| Analyze.MissingColumns | analyze_options_chain.py:237-238 | The missing list holds exactly the required columns absent from the header, in the required list's order. |
| Analyze.DownloadedHeaderIsComplete | analyze_options_chain.py:237-241 | The header the downloader writes lacks no required column. |
| Analyze.MissingSelectedColumns | analyze_options_chain.py:150-154 | Of the two columns the unusual-activity table selects beyond the checked ones, `last_trade_price` and `implied_volatility`, it lists exactly those absent from the header, in selection order. |
| Analyze.DownloadedHeaderHasSelectedColumns | analyze_options_chain.py:150-154 | The header the downloader writes holds both of those columns, so the selection cannot raise on a downloaded file. |
| Analyze.ReportedStep | analyze_options_chain.py:197-198 | An expiration is reported exactly when its max-pain result is present and not the falsy 0. |
| Analyze.MaxPainTable | analyze_options_chain.py:195-204 | The table's dates are the ascending expirations with a nonzero max-pain strike. Each entry holds that strike. |
| Analyze.MaxPainTableShape | analyze_options_chain.py:195-204 | The max-pain table lists each such expiration exactly once, in strictly ascending order, and lists no other date. |
| Analyze.CreateSummarySheet | analyze_options_chain.py:160-212 | The summary holds the overall statistics, the put/call table, the max-pain table, and the unusual-activity block only when it has rows. Its put/call columns add up to its overall totals. |
| Analyze.AnalyzeOptionsChain | analyze_options_chain.py:228-259 | An unreadable CSV is a failure. Missing required columns are a failure that carries the missing list. When some option traded and `last_trade_price` or `implied_volatility` is absent, building the summary raises (`KeyError` at analyze_options_chain.py:150-154), a failure that carries the absent ones. Otherwise the report holds the summary, the calls sheet and the puts sheet, and the two sheets split the table. |

## Left out

- Logging in and out, `get_expiration_dates` and every `robin_stocks` call. They are inputs: the `Broker` functions and the date list.
- `setup_auth.py` is not part of this model: it covers credentials and two-factor login only.
- The 0.5 s `time.sleep` between expirations. It changes no state.
- The timestamped default file name, `symbol.upper()`, and console output. The file is given as a `CsvFile` value, and the symbol is taken as already upper-cased: it reaches the broker calls and every record's `symbol` unchanged.
- pandas CSV parsing and serialising, and the Excel workbook layout (titles, start rows, sheet names). The file is a sequence of lines, and the workbook is a `Report` value.
- Excel writing failures are not modelled: a report that succeeds is always written.
- The summary print-out at the end of a download. Its re-read of the CSV is modelled only as whether it succeeds.
- Both `main` functions: argument parsing, `sys.exit`, and keyboard interrupts.
- `float()` parsing of strikes. A strike that does not parse counts as a raised lookup (`None`), which drops that option.
- The mean plus two sample standard deviations in `detect_unusual_activity`. The threshold is a parameter; `None` stands for pandas' NaN when a single row traded, which flags nothing by volume.
- `round(..., 2)` of the ratios and the `$…:.2f` format of the max-pain strike. Both are display formatting.
- Floating-point arithmetic. Reals are exact, so no rounding errors are modelled.
- Option types other than `call` and `put`. Such rows would fall into neither sheet.
- Analyze.DetectUnusualActivity, Analyze.RankedRows: pandas' default sort is not stable. The model sorts stably, but the contracts state only the order and the permutation, which any sort meets.
- A date repeated in the expiration list would be appended twice, because the completed set is read only once. `NoDuplicateExpirations` therefore requires a list without repeats.
