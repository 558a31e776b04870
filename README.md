# SimpleProfiler, modelled in Dafny

SimpleProfiler is a header-only C++ profiler that records timings per source
line. A program creates a `SimpleProfiler` for one of its source files. It
calls `tic(__LINE__)` at checkpoints. Each tic counts one more call of its
line and folds the time since the *previous tic of any line* into that line's
running average, kept as integer nanoseconds. `output` then prints a report
of the lines that were tic'd, or writes an annotated copy of the source with
a timing comment in front of every line, or both.

The model has six modules, one file each:

- `Basics` (`basics.dfy`): `Option`, `Result`, and `TruncDiv`. `TruncDiv` is
  C++ signed division, which truncates toward zero.
- `LineCount` (`line_count.dfy`): how `std::getline` splits a text into lines
  (`NextLine`, `Lines`), and `readNumlines` as the method `ReadNumlines`.
- `Decimal` (`decimal.dfy`): `std::to_string` on an `int`, with its inverse.
- `Units` (`units.dfy`): the unit chosen by `output`'s `type` argument.
- `Recording` (`recording.dfy`): the recorder's statistics as values.
  - `TicSpec` is one tic and `Run` a sequence of tics.
  - `FoldMean` is the incremental-mean update.
  - `ReportRows` is the rows of the report and `Annotate` the annotated copy.
  - The lemmas about sequences of tics are here.
- `Profiler` (`profiler.dfy`): the class `SimpleProfiler`.
  - It keeps `callCounter` and `averageTime` as arrays and `previousTime` as a
    field. `Tic` updates them in place.
  - `Report`, `AnnotateSource` and `Output` only read them. Each of these
    methods is specified by the matching function in `Recording`.
  - The static `ObjCounter` becomes an explicit `IdCounter` object. `Create`
    and `CreateFromFile` model the two constructors.

The clock is not read. `tic` and the constructors, which read the
high-resolution clock, take the time stamp as a parameter `now`, in
nanoseconds. The wall-clock time printed in the footer of the annotated copy is
left out with that footer. A source file is passed in as its text,
or as `None` when it cannot be opened.

Three points of the code's behaviour the model keeps as they are:

- The average is not the exact mean of a line's durations. The code divides
  with truncation at every tic, so small losses add up. The model proves how
  far they can go (`FreshRunDrift`): for non-negative durations, the stored
  average never exceeds the exact mean. It falls short by at most
  `(count - 1) / 2`. `TruncationDriftExample` shows durations 1, 4 and 4
  stored as 2 instead of 3.
- A tic on a line outside `1..numlines` is out of bounds in the code. It is
  not a reported error there. `Tic` therefore requires the line to be in
  range.
- A negative line count, or a file that cannot be opened (`readNumlines`
  gives -1), makes `vector::resize` throw `std::length_error`. The throw
  comes after the id has been taken. `Create` and `CreateFromFile` return
  `Failure(LengthError)` in that case, and the counter has already moved on.

## Model

| member | source | states |
|---|---|---|
| `Basics.TruncDiv` | SimpleProfiler.h:112 | C++ signed `/` by a positive divisor: the quotient has the sign of the dividend (truncation toward zero, never past it) |
| `Basics.TruncDivRemainder` | SimpleProfiler.h:112 | The quotient `TruncDiv` gives, as C++ division does, leaves a remainder in `[0, m)` for a non-negative dividend and in `(-m, 0]` for a negative one |
| `Basics.TruncDivBounds` | SimpleProfiler.h:112 | A truncated quotient stays within any integer bounds that bracket the exact quotient |
| `Basics.TruncDivExact` | SimpleProfiler.h:112 | Dividing an exact multiple gives the exact quotient |
| `LineCount.NextLine` | SimpleProfiler.h:219 | One `getline` call: the line holds no newline, the rest is shorter, and line, newline and rest rebuild the text (or the line is the whole text when no newline is left) |
| `LineCount.Lines` | SimpleProfiler.h:219 | The lines successive `getline` calls return: none holds a newline, and there are no more of them than characters |
| `LineCount.LinesCount` | SimpleProfiler.h:214-226 | The number of `getline` lines is the newline count, plus one when characters follow the last newline |
| `LineCount.LinesRoundTrip` | SimpleProfiler.h:177-183 | Writing every `getline` line followed by a newline gives back the text, with only a missing final newline added |
| `LineCount.ReadNumlines` | SimpleProfiler.h:214-226 | -1 when the file cannot be opened; otherwise the number of `getline` lines, which is also the newline count plus a trailing partial line |
| `Decimal.NatToString` | SimpleProfiler.h:164 | The decimal rendering of a natural number is non-empty and all digits, with no leading zero for a positive number |
| `Decimal.IntToString` | SimpleProfiler.h:164 | `std::to_string` of an `int`: non-empty, starting with a minus sign exactly when the number is negative |
| `Decimal.ParseNatToString` | SimpleProfiler.h:164 | Reading the digits back gives the number |
| `Decimal.IntToStringRoundTrip` | SimpleProfiler.h:164 | Parsing `to_string(i)` gives back `i`, negative numbers included |
| `Decimal.IntToStringInjective` | SimpleProfiler.h:164 | Different integers never render the same |
| `Units.SelectUnit` | SimpleProfiler.h:124-148 | The unit for a selector: divisor `1000^k` where k is 0, 1, 3 for selectors 0, 1, 3 and 2 (milliseconds) for any other selector, with decimals 0, 3, 6, 6 and the matching label; the label is at most 10 characters, so the padding `10 - length` of the label in the footer of the annotated copy is never negative |
| `Units.SelectUnitDistinct` | SimpleProfiler.h:124-148 | Different units have different labels and different divisors |
| `Recording.Fresh` | SimpleProfiler.h:60-61 | A new recorder has well-formed statistics with one cell per line |
| `Recording.FoldMean` | SimpleProfiler.h:112 | The new average after one more duration: the first duration of a line becomes its average, and non-negative averages and durations give a non-negative average |
| `Recording.FoldMeanConstant` | SimpleProfiler.h:109-112 | A line's first duration becomes its average, and a duration equal to the average leaves it unchanged |
| `Recording.FoldMeanBounds` | SimpleProfiler.h:109-112 | If the old average (when the count is non-zero) and the duration are in `[lo, hi]`, so is the new average |
| `Recording.FoldMeanDrift` | SimpleProfiler.h:109-112 | One fold keeps the truncation drift invariant: average at most the exact mean, and short of it by at most `(count - 1) / 2` |
| `Recording.DriftStep` | SimpleProfiler.h:112 | The drift invariant carries over one division, stated by its quotient and its remainder |
| `Recording.TicSpec` | SimpleProfiler.h:107-114 | A tic keeps the statistics well formed and keeps the number of lines |
| `Recording.Run` | SimpleProfiler.h:107-114 | After a sequence of tics the statistics are well formed, and the previous time stamp is the last tic's time (or unchanged when there was none) |
| `Recording.RunCounts` | SimpleProfiler.h:109-110 | Each line's count grows by the number of tics on it; a line no tic names keeps its average |
| `Recording.FreshRunCounts` | SimpleProfiler.h:109-110 | From construction, each count equals the number of tics on its line, and a line never tic'd has count 0 and average 0 |
| `Recording.OccurrencesSameLine` | SimpleProfiler.h:109-110 | Tics that all name one line occur on it once each |
| `Recording.RepeatedTicsCount` | SimpleProfiler.h:109-110 | `k` tics on one line of a new recorder leave its count at `k` |
| `Recording.RunAveragesWithin` | SimpleProfiler.h:111-112 | When every observed duration is in `[lo, hi]`, every tic'd line's average stays in `[lo, hi]` |
| `Recording.ConstantDurationAverage` | SimpleProfiler.h:111-112 | When every observed duration is `d`, every tic'd line's average is exactly `d` |
| `Recording.RunDrift` | SimpleProfiler.h:111-112 | The drift invariant holds for a line through any sequence of tics with non-negative durations |
| `Recording.FreshRunDrift` | SimpleProfiler.h:111-112 | From construction, with non-negative durations, each line's average is at most its exact mean and short of it by at most `(count - 1) / 2` |
| `Recording.TruncationDriftExample` | SimpleProfiler.h:107-114 | Three tics of one line of a new recorder, 1, 4 and 4 nanoseconds apart, leave count 3 and average 2, though the durations total 9 (mean 3): the drift bound of `FreshRunDrift` is reached |
| `Recording.RowsUpTo` | SimpleProfiler.h:153-154 | The rows for lines `1..k`: at most one per line, each for a line with a non-zero count |
| `Recording.ReportRows` | SimpleProfiler.h:153-154 | The report's rows: no more than the number of lines, each for a line with a non-zero count |
| `Recording.RowsUpToExact` | SimpleProfiler.h:153-154 | The rows for lines `1..k` are exactly the lines with a non-zero count, with their statistics, in strictly ascending order |
| `Recording.RowsUpToSound` | SimpleProfiler.h:153-154 | Every row for lines `1..k` names one of those lines with a non-zero count and carries its statistics, and the rows ascend |
| `Recording.RowsUpToComplete` | SimpleProfiler.h:153-154 | Every line in `1..k` with a non-zero count has its row among the rows for lines `1..k` |
| `Recording.ReportRowsExact` | SimpleProfiler.h:153-159 | The report has exactly one row per line in `1..numlines` with a non-zero count, carrying its count and average, in ascending order |
| `Recording.CellAt` | SimpleProfiler.h:179 | The statistics shown beside source line `k + 1` are those of the report's row for that line; when none are shown, the report has no row for it |
| `Recording.Annotate` | SimpleProfiler.h:177-191 | The annotated copy has one entry per source line |
| `Recording.AnnotateAsWritten` | SimpleProfiler.h:176-191 | The annotation loop as written is defined only when the file has no more lines than the recorder, and there it agrees with `Annotate` |
| `Recording.AnnotateOverrunsCounters` | SimpleProfiler.h:177-179 | A one-line recorder annotating a two-line file: the file has more lines than the counters the loop indexes |
| `Recording.AnnotateStep` | SimpleProfiler.h:177-179 | One pass of the annotation loop: the line `getline` reads next is the next of the text's lines, and annotating it appends one entry numbered after the earlier ones |
| `Recording.AnnotateMatchesReport` | SimpleProfiler.h:179-190 | Any source line, including one past the recorded lines, carries statistics in the annotated copy exactly when the report has a row for it, with the same statistics |
| `Recording.AnnotateCopiesEveryLine` | SimpleProfiler.h:177-191 | The annotated copy numbers the source lines from 1, and its texts are exactly the `getline` lines of the source, in order; writing them back gives the source text |
| `Profiler.IdCounter.constructor` | SimpleProfiler.h:229 | The counter starts at 0 |
| `Profiler.IdCounter.Next` | SimpleProfiler.h:57 | `++ObjCounter`: the counter grows by one and the new value is the id handed out |
| `Profiler.OutfileName` | SimpleProfiler.h:164 | The annotated copy's name: the source name, then `_prf`, at least one character of id, and `.h` at the end |
| `Profiler.OutfileNameRoundTrip` | SimpleProfiler.h:164 | The profiler id can be read back from the annotated copy's name |
| `Profiler.OutfileNamesDistinct` | SimpleProfiler.h:164 | Profilers with different ids get different annotated-copy names for the same source |
| `Profiler.SimpleProfiler.constructor` | SimpleProfiler.h:56-73 | Both arrays are new, sized to `numlines` and zero; the previous time stamp is the construction time |
| `Profiler.SimpleProfiler.SizeAverageTime` | SimpleProfiler.h:86-88 | The averages array has `numlines` entries |
| `Profiler.SimpleProfiler.SizeCallCounter` | SimpleProfiler.h:90-92 | The counts array has `numlines` entries |
| `Profiler.SimpleProfiler.Tic` | SimpleProfiler.h:107-114 | For a line in `1..numlines`: its count grows by one, its average becomes `(a*n + d) / (n+1)` truncated, with `d = now - previousTime`; every other cell is unchanged and `previousTime` becomes `now` |
| `Profiler.SimpleProfiler.Report` | SimpleProfiler.h:150-160 | The printed rows are `ReportRows` of the current statistics; nothing changes, so two reports with no tic between them are equal |
| `Profiler.SimpleProfiler.CellOf` | SimpleProfiler.h:179-190 | The statistics printed beside a source line are those of `CellAt` on the current state: none past the recorded lines or for a line never tic'd |
| `Profiler.SimpleProfiler.AnnotateSource` | SimpleProfiler.h:168-191 | The `getline` loop over the source produces `Annotate` of the current statistics and the source's lines |
| `Profiler.SimpleProfiler.Output` | SimpleProfiler.h:116-212 | The unit is `SelectUnit(type)`; the report is produced only when printing; when annotating, the output name is `OutfileName` and the body is the annotated copy, or nothing when the source cannot be opened |
| `Profiler.Create` | SimpleProfiler.h:66-73 | Takes the next id; fails exactly when the line count is negative; otherwise gives a new profiler with that id, name and line count and zeroed statistics |
| `Profiler.CreateFromFile` | SimpleProfiler.h:56-64 | Takes the next id; fails exactly when the file cannot be opened; otherwise gives a new profiler whose line count is the file's `getline` line count |
| `Profiler.TwoProfilersOnOneSource` | test_profiler.cpp:25-27 | Two profilers built over the same source in turn: the later has the larger id, and their annotated copies go to different files |

## Findings

| source | as written | input that shows it | evidently intended | confidence | as-written member | corrected member |
|---|---|---|---|---|---|---|
| SimpleProfiler.h:177-179 | The annotation loop reads `call_counter[i-1]` for every line that `getline` returns from the source file. It never compares `i` with `numlines`. | `SimpleProfiler p("f.cpp", 1)` over a file `"a\nb\n"`: the second line reads `call_counter[1]` of a one-element vector. | Lines past the recorded ones are annotated as never tic'd. | not executed; medium | `Recording.AnnotateAsWritten`, `Recording.AnnotateOverrunsCounters` | `Recording.Annotate`, `Recording.CellAt`, `Profiler.SimpleProfiler.CellOf`, `Profiler.SimpleProfiler.AnnotateSource` |

## Left out

- Reading `high_resolution_clock::now()` in `tic` and the constructors: the time stamp is the parameter `now`.
- The `system_clock`/`ctime` time stamp in the footer of the annotated copy: it is left out with that footer.
- All stream I/O is left out. This covers opening and closing files and writing to the console or to the annotated file. It also covers the error message of `readNumlines` and saving and restoring the stream flags. The model returns what would be written instead.
- Number formatting is left out: `setw`, `setprecision`, `fixed`, and the `(double)average_time/divideby` conversion (floating point). Rows carry the integer count and average, and the unit carries the divisor and the number of decimals.
- The padding of the blank comment, and the footer of the annotated copy (separator lines, column header and padding), are cosmetic output. The model only proves that the label padding `10 - length` is not negative (`Units.SelectUnit`).
- `showData` and `showInfo` only print. `getFilename` and `getNumlines` return fields that the model exposes as constants.
- Integer widths are not modelled. Counts, averages, ids and line counts are unbounded integers. The model ignores overflow of `long long` in `average*n + duration` and of `int` in `++ObjCounter`. It also ignores the conversion of the `long` count to `int n`.
- `Profiler.SimpleProfiler.Tic`: it requires the line to be in `1..numlines`, because outside that range the code has undefined behaviour, not an error result.
- `getline` failing on a line longer than `string::max_size()` is not modelled.
- The `PROFILER_ON`/`RCOUT_ON` switches and the `TIC_*` macros are textual preprocessor glue.
- The demo driver's busy-wait `sleep` and its printing are not modelled. Only its setup of two profilers on one source is (`TwoProfilersOnOneSource`).
- Concurrent tics are not modelled. The source warns against using the profiler from several threads.
