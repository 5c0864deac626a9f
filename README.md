# Benchmark calculator bot: parsers, pipeline, result envelope and CapFrame sessions

This project models the core of a chat bot that turns uploaded game-benchmark
files into summary tables, and proves properties of that model. The bot reads
two formats: CapFrameX JSON captures and MSI Afterburner text logs. The model
covers these parts:

- **Format registry and detector** (`parsers/__init__.py`). `Registry.Detect`
  classifies a file as `capframe`, `msi_afterburner` or `custom`, in a fixed
  order of precedence: the JSON key probe, then a case-insensitive "capframe"
  line, then an Afterburner line. `Registry.GetParser` is the lookup over the
  three registered names.
- **CapFrameX decoder** (`CapFrameParser`). It takes the decoded JSON
  document. It joins the timestamps of every run, sorts them, and turns each
  positive gap into a frame rate. The result is exactly one summary row, or
  an error.
- **MSI Afterburner decoder** (`AfterburnerParser`). It parses six-line
  blocks: a header line split on single spaces and five `label: value FPS`
  lines.
- **FRAPS line parser** (`FrapsParser`) and the **base parser's defaults**
  (`BaseParser`).
- **Filter and aggregate pipeline** (`Pipeline`). Both `process_data`
  methods spell this pipeline out. Here it is written once, parameterised by
  their differences. It has four steps:
  - the 80%-of-group-mean duration rule;
  - the z-score cut, computed with the sample standard deviation;
  - rounded group means in key order;
  - the summary statistics, plus the rule that the CSV report is empty
    exactly when the processed view is empty.
- **Result envelope** (`Processor`). This covers `process_file` for one file
  and `process_files` for a batch. A batch's rows are joined and processed
  once, by the first file's parser.
- **CapFrame session store** (`FileProcessing.SessionStore`). This is a class
  whose per-user map of waiting files is changed by `Arrive`, `FlushStart`,
  `FlushEnd` and `FlushAbandon` events. `FlushAbandon` is a flush task that
  dies before deleting its user's list, which then stays with no task to
  process it.

The decoders, the pipeline and the envelope are functions on values. The
loops of the source appear as methods proved equal to those functions:
- `CapFrameParser.GatherRuns` and `CapFrameParser.RatesOf`;
- `CapFrameParser.ParseFile`;
- `AfterburnerParser.ParseFile` and `FrapsParser.ParseFile`;
- `Processor.ProcessFiles`.

The session store is a class with `modifies` clauses.

Library conversions are the fields of a `Benchmark.Env` value, and every
property holds for every such value. These conversions are `int()`,
`float()`, `strptime`, `datetime.fromisoformat` and the clock reading
`datetime.now()`. JSON decoding is an input: the decoded `Json.Json` value,
or `None` when `json.load` raises. Floating point is modelled by `real`.

Where the code and its own prose disagree, the model follows the code:
- The z-score uses pandas' sample standard deviation (n - 1).
- The z-score cut is applied even when that deviation is zero. The code then
  divides 0 by 0, and `NaN < 3` is false, so every row is dropped
  (`Pipeline.ZFilterAllEqual`).
- `detect_parser_type` does not check that `Runs` is a list; only
  `can_parse` does (`CapFrameParser.CanParseVersusDetect`).
- The Afterburner `except` clause names `datetime.Error`, which does not
  exist. Evaluating that clause raises `AttributeError`, so a conversion
  failure inside a block fails the whole parse and does not skip the block
  (`AfterburnerParser.FailAnywhere`).

## Model

| member | source | states |
|---|---|---|
| Registry.GetParser | parsers/__init__.py:12-23 | a parser exists exactly for "capframe", "msi_afterburner" and "custom", and it is the one registered under that name |
| Registry.GetParserName | parsers/__init__.py:12-16 | every registered parser is found again under its own name |
| Registry.JsonProbe | parsers/__init__.py:31-40 | the JSON probe fires exactly when the stripped text starts with "{", ends with "}" and decodes (no value when `json.loads` raised) to an object holding the keys Hash, Info and Runs |
| Registry.CapFrameLine | parsers/__init__.py:43 | a line that holds "capframe" once lower-cased |
| Registry.AfterburnerLine | parsers/__init__.py:45 | a line that holds "completed,", "frames" and ".exe", matched case-sensitively |
| Registry.Detect | parsers/__init__.py:26-52 | `detect_parser_type`: the JSON probe, then a capframe line, then an Afterburner line among the first ten lines, and "custom" from both remaining branches; its contract is stated by `DetectCustomIff` and `DetectPrecedence` |
| Registry.Head | parsers/__init__.py:28 | the line rules look at no more than ten lines |
| Registry.DetectCustomIff | parsers/__init__.py:48-52 | the result is "custom" exactly when neither the JSON probe, nor a capframe line, nor an Afterburner line fires |
| Registry.DetectPrecedence | parsers/__init__.py:31-47 | the JSON probe and a case-insensitive "capframe" line each force "capframe"; the result is "msi_afterburner" exactly when some line holds "completed,", "frames" and ".exe" and neither capframe rule fires |
| Registry.HeadIgnoresLaterLines | parsers/__init__.py:28 | text after the tenth line does not change the lines inspected |
| Registry.DetectIgnoresLaterLines | parsers/__init__.py:28-52 | without a JSON match, markers after the tenth line do not change the detected type |
| Registry.DetectSingleLine | parsers/__init__.py:43-52 | for one line, the detected type follows the capframe, then Afterburner, then custom precedence |
| CapFrameParser.NumericItems | parsers/capframe_parser.py:63-65 | a timestamp list is usable exactly when every entry is a number, and then keeps each entry's value, in order |
| CapFrameParser.CaptureOf | parsers/capframe_parser.py:61-70 | a run that contributes timestamps contributes a non-empty list |
| CapFrameParser.Gather | parsers/capframe_parser.py:57-70 | the run loop as a fold over the runs; its contract is stated by `GatherAppend`, `GatherSingle` and `SkippedRunContributesNothing` |
| CapFrameParser.GatherAppend | parsers/capframe_parser.py:57-70 | runs contribute independently and in order: timestamp lists are concatenated and final timestamps summed |
| CapFrameParser.SkippedRunContributesNothing | parsers/capframe_parser.py:60-70 | a run without timestamps leaves the gathered data as if it were absent |
| CapFrameParser.GatherSingle | parsers/capframe_parser.py:64-67 | a single run yields its own timestamps, and its TimeTaken is its last timestamp |
| CapFrameParser.Rates | parsers/capframe_parser.py:77-82 | at most n - 1 frame rates, every one positive |
| CapFrameParser.RatesEmptyIff | parsers/capframe_parser.py:79-84 | sorted timestamps give no frame rate exactly when they are all equal |
| CapFrameParser.GatherPrefix | parsers/capframe_parser.py:60-70 | the run loop extends its state by one run per iteration |
| CapFrameParser.RatesPrefix | parsers/capframe_parser.py:79-82 | the rate loop appends 1/delta exactly when the next gap is positive |
| CapFrameParser.GatherRuns | parsers/capframe_parser.py:57-70 | the imperative run loop computes exactly the concatenated timestamps and the summed final timestamps |
| CapFrameParser.RatesOf | parsers/capframe_parser.py:78-82 | the imperative rate loop computes exactly the positive-gap rates |
| CapFrameParser.ParseFile | parsers/capframe_parser.py:24-116 | the imperative `parse_file` after `json.load` equals the decoder `Decode` |
| CapFrameParser.MissingRunsFail | parsers/capframe_parser.py:28-31 | a missing or empty Runs fails the parse |
| CapFrameParser.ReadHeader | parsers/capframe_parser.py:18-54 | no decoded JSON, a non-object document, a missing or empty Runs, a non-object Info or a non-string ProcessName fail; otherwise Runs, ProcessName with ".exe" removed and the creation moment (falling back to the clock) |
| CapFrameParser.CreationMoment | parsers/capframe_parser.py:36-51 | the moment of CreationDate, with the clock as fallback; its cases are stated by `CreationMomentFallback`, `CreationMomentZulu` and `CreationMomentPlain` |
| CapFrameParser.CreationMomentFallback | parsers/capframe_parser.py:37-51 | an absent, non-string or empty CreationDate gives the clock reading |
| CapFrameParser.CreationMomentZulu | parsers/capframe_parser.py:40-41 | a CreationDate ending in "Z" is parsed with that "Z" replaced by "+00:00", and gives the clock reading when that does not parse |
| CapFrameParser.CreationMomentPlain | parsers/capframe_parser.py:42-48 | any other non-empty CreationDate is parsed as written, and gives the clock reading when it does not parse |
| CapFrameParser.Summarise | parsers/capframe_parser.py:73-114 | fewer than two timestamps, a non-numeric timestamp or no positive gap fail; otherwise one row of statistics over the sorted-gap frame rates; its contract is stated by `SummariseOkIff`, `SummaryRow`, `SummaryLows` and `SummaryBounds` |
| CapFrameParser.Decode | parsers/capframe_parser.py:14-116 | `parse_file` after `json.load`: the header, then the gathered runs, then their summary; its contract is stated by `DecodeOk` and `MissingRunsFail` |
| CapFrameParser.DecodeOk | parsers/capframe_parser.py:24-116 | a successful parse read a valid header whose Runs is a list, and it is the summary of the gathered runs |
| CapFrameParser.SummariseOkIff | parsers/capframe_parser.py:73-116 | with well-formed runs, parsing succeeds exactly when the timestamps are not all equal (at least two timestamps and a positive gap) |
| CapFrameParser.SummaryRow | parsers/capframe_parser.py:85-111 | exactly one row; Frames is the number of timestamps, not of rates; TimeTaken is the sum of final timestamps; Date, two-digit hour and Application come from the header; AverageFramerate, MinFramerate and MaxFramerate are the mean, minimum and maximum of the frame rates; Low1Percent and Low01Percent are the sorted rates at `len // 100` and `len // 1000` |
| CapFrameParser.SummaryLows | parsers/capframe_parser.py:92-96 | the lows are ranks of the frame rates: at most `len // 100` rates lie below Low1Percent and more than that lie at or below it; likewise `len // 1000` for Low01Percent |
| CapFrameParser.SummaryBounds | parsers/capframe_parser.py:85-96 | 0 < min <= average <= max, and min <= 0.1% low <= 1% low <= max, with both low indices in bounds |
| CapFrameParser.ApplicationName | parsers/capframe_parser.py:27-33 | a missing ProcessName gives "Unknown"; one without ".exe" is kept as written |
| CapFrameParser.ApplicationDropsExe | parsers/capframe_parser.py:33 | a ProcessName written as a name followed by ".exe", the name holding no ".exe" of its own, gives that name as Application |
| CapFrameParser.TwoTimestamps | parsers/capframe_parser.py:75-82 | two timestamps a < b, given in either order, give the one frame rate 1 / (b - a) |
| CapFrameParser.CanParseVersusDetect | parsers/capframe_parser.py:121-139 | `can_parse` is the detector's JSON probe plus "Runs is a list"; a document whose Runs is not a list is detected as capframe yet refused by `can_parse` |
| CapFrameParser.CanParse | parsers/capframe_parser.py:121-139 | `can_parse`: braces after stripping and a decoded object with Hash, Info and a list-valued Runs; compared with the detector by `CanParseVersusDetect` |
| AfterburnerParser.AppNameUnknown | parsers/msi_afterburner_parser.py:37-45 | with no qualifying token, the application is "Unknown" |
| AfterburnerParser.AppName | parsers/msi_afterburner_parser.py:37-45 | the application loop over the header tokens; its contract is stated by `AppNameFirst` and `AppNameUnknown` |
| AfterburnerParser.AppNameFirst | parsers/msi_afterburner_parser.py:38-45 | the application is the first qualifying token (an ".exe" token, or any non-blank token from index 2 on), with ".exe" removed when present, then stripped |
| AfterburnerParser.AppNameSkips | parsers/msi_afterburner_parser.py:38-45 | tokens that are neither an ".exe" token nor a non-blank token after the time are passed over |
| AfterburnerParser.CompletedIndex | parsers/msi_afterburner_parser.py:48-52 | the index found is the first token containing "completed,", and none is found exactly when no token contains it |
| AfterburnerParser.RateOf | parsers/msi_afterburner_parser.py:62-84 | one rate line: `float` of `split(":")[1]`, the text between the first and the second ":" (or to the end of the line), stripped, with "FPS" removed and decimal commas read as points for the min and max lines; a line without ":" fails (IndexError) |
| AfterburnerParser.HeaderDate | parsers/msi_afterburner_parser.py:29-33 | `strptime` of the first header token with its commas and NUL characters removed, then stripped |
| AfterburnerParser.Converts | parsers/msi_afterburner_parser.py:60-84 | the seven conversions of a block (Frames, TimeTaken and the five rate lines) all succeed |
| AfterburnerParser.ParseBlock | parsers/msi_afterburner_parser.py:29-100 | the `try` body for one six-line block: fail, skip or one row; its contract is stated by `BlockRowIff`, `BlockRecordFields`, `BlockRow`, `ShortHeaderSkipped`, `HeaderFails` and `MarkerlessBlockSkipped` |
| AfterburnerParser.BlockRecord | parsers/msi_afterburner_parser.py:60-100 | the conversions and the row of a block whose "completed," token is known; its contract is stated by `BlockRecordFields` |
| AfterburnerParser.Decode | parsers/msi_afterburner_parser.py:14-110 | `parse_file` on the lines `readlines()` gives: the block outcomes collected; its contract is stated by `RowCount`, `FailAnywhere`, `TrailingLinesIgnored` and `BlockLocal` |
| AfterburnerParser.OutcomeAt | parsers/msi_afterburner_parser.py:22 | the outcome of block b is the parse of the six lines starting at line 6b |
| AfterburnerParser.Blocks | parsers/msi_afterburner_parser.py:22 | `range(0, n, 6)` has ceil(n / 6) steps |
| AfterburnerParser.Outcomes | parsers/msi_afterburner_parser.py:22-107 | one outcome per block start |
| AfterburnerParser.ParseFile | parsers/msi_afterburner_parser.py:14-110 | the imperative block loop equals the decoder `Decode` |
| AfterburnerParser.FailAnywhere | parsers/msi_afterburner_parser.py:102-107 | a conversion failure (lines 60-84) in any block fails the whole parse |
| AfterburnerParser.RowCount | parsers/msi_afterburner_parser.py:22-100 | at most one row per six input lines |
| AfterburnerParser.BlockLocal | parsers/msi_afterburner_parser.py:22-26 | a complete block's outcome does not depend on later lines |
| AfterburnerParser.TrailingLinesIgnored | parsers/msi_afterburner_parser.py:25-26 | a trailing block of fewer than six lines is skipped |
| AfterburnerParser.MarkerlessBlockSkipped | parsers/msi_afterburner_parser.py:48-58 | a block with a valid date but no "completed," token is skipped, not failed |
| AfterburnerParser.BlockRecordFields | parsers/msi_afterburner_parser.py:60-100 | a block gives a row exactly when the seven conversions succeed and fails otherwise; the row holds the date, token 1 as Time, the application, `int` of the token after "completed,", `float` of the fifth token after it, and the average, min, max, 1% and 0.1% rates of lines i+1 to i+5 |
| AfterburnerParser.BlockRow | parsers/msi_afterburner_parser.py:29-58 | a block with a valid date, at least two tokens and a "completed," token k with k + 5 in range reaches the conversions of lines 60-100 |
| AfterburnerParser.ShortHeaderSkipped | parsers/msi_afterburner_parser.py:55-58 | a "completed," token with fewer than five tokens after it skips the block |
| AfterburnerParser.HeaderFails | parsers/msi_afterburner_parser.py:29-34 | an unparsable date, or a header of a single token (IndexError at token 1), fails |
| AfterburnerParser.BlockRowIff | parsers/msi_afterburner_parser.py:29-100 | a block gives a row exactly when its date parses, its header has two or more tokens, a "completed," token has five tokens after it and all seven conversions succeed |
| AfterburnerParser.DetectImpliesCanParse | parsers/msi_afterburner_parser.py:115-117 | content detected as Afterburner is accepted by `can_parse` |
| AfterburnerParser.CanParse | parsers/msi_afterburner_parser.py:115-117 | `can_parse`: some line holds "completed," and "frames"; compared with the detector by `DetectImpliesCanParse` and `CanParseWithoutDetect` |
| AfterburnerParser.CanParseWithoutDetect | parsers/msi_afterburner_parser.py:115-117 | a line with "completed," and "frames" but no ".exe" is accepted by `can_parse` yet detected as custom |
| FrapsParser.ParseLine | parsers/fraps_parser.py:16-28 | an accepted line gives an application name that is non-empty and free of whitespace |
| FrapsParser.ReadLine | parsers/fraps_parser.py:16-28 | the imperative handling of one line equals `ParseLine` |
| FrapsParser.Outcomes | parsers/fraps_parser.py:15 | one outcome per line |
| FrapsParser.OutcomesAppend | parsers/fraps_parser.py:15-28 | lines are handled independently and in order |
| FrapsParser.Decode | parsers/fraps_parser.py:10-30 | `parse_file` on the lines `readlines()` gives: the line outcomes collected; its contract is stated by `OneRowPerLine`, `FailAnywhere` and `SkippedLineIgnored` |
| FrapsParser.ParseFile | parsers/fraps_parser.py:10-30 | the imperative line loop equals the decoder `Decode` |
| FrapsParser.FailAnywhere | parsers/fraps_parser.py:24-26 | a non-numeric value on any accepted line fails the whole parse |
| FrapsParser.SkippedLineIgnored | parsers/fraps_parser.py:16-18 | a blank line, a line starting with "#", or one with fewer than two tokens is ignored |
| FrapsParser.OneRowPerLine | parsers/fraps_parser.py:15-30 | exactly one row per accepted line, in file order |
| FrapsParser.LineFields | parsers/fraps_parser.py:17-28 | Application is token 0 and FPS is token 1; MinFPS and MaxFPS are tokens 2 and 3 when present and 0 otherwise |
| FrapsParser.CommentLineAccepted | parsers/fraps_parser.py:35-38 | a line starting with "#", at the start or after any newline, makes `can_parse` accept |
| FrapsParser.CanParse | parsers/fraps_parser.py:35-38 | `can_parse`: "FRAPS" anywhere, or a line starting with "#"; its contract is stated by `CommentLineAccepted` |
| BaseParser.CalculateStats | parsers/base_parser.py:30-40 | `{}` exactly for an empty frame; total_records is the row count; a missing rate column gives 0; min and max are attained and bound their columns |
| BaseParser.AverageWithinColumn | parsers/base_parser.py:37 | the average rate lies between the column's minimum and maximum |
| BaseParser.DefaultProcess | parsers/base_parser.py:25-28 | the frame is both the raw and the processed view, and its stats are `{}` exactly when it is empty |
| Outcome.Map | services/processor.py:20-29 | one result per element, in order |
| Outcome.MapAppend | services/processor.py:20-29 | mapping distributes over concatenation |
| Outcome.Collect | parsers/msi_afterburner_parser.py:20-110 | the rows collected are no more than the outcomes |
| Outcome.CollectPrefix | parsers/msi_afterburner_parser.py:22-107 | the collecting loop extends its state by one outcome per iteration |
| Outcome.CollectFailIff | parsers/fraps_parser.py:14-30 | collection fails exactly when some outcome raised |
| Outcome.CollectAppend | parsers/fraps_parser.py:14-30 | collecting a concatenation concatenates the results, and fails if either part fails |
| Outcome.SkipAnywhere | parsers/msi_afterburner_parser.py:55-58 | a skipped outcome (also the short block of lines 25-26) contributes nothing |
| Outcome.CollectSkips | parsers/msi_afterburner_parser.py:25-26 | trailing skips do not change the result |
| Outcome.CollectRows | parsers/fraps_parser.py:14-30 | when every outcome is a row, all of them are collected, in order |
| Numeric.MinOf | parsers/capframe_parser.py:86 | `min()` is an element no larger than any other |
| Numeric.Mean | parsers/capframe_parser.py:85 | `sum(xs) / len(xs)`, also pandas `mean()`; its contract is stated by `MeanBounds`, `MeanBetween` and `MeanConstant` |
| Numeric.MaxOf | parsers/capframe_parser.py:87 | `max()` is an element no smaller than any other |
| Numeric.MeanBounds | parsers/capframe_parser.py:85-87 | the mean lies between the minimum and the maximum |
| Numeric.MeanBetween | parsers/capframe_parser.py:85 | values that all lie between two bounds have their mean between them |
| Numeric.MeanConstant | parsers/capframe_parser.py:182 | the mean of equal values is that value |
| Numeric.Sort | parsers/capframe_parser.py:75 | `sorted()` is an ordered permutation of its input |
| Numeric.SortPair | parsers/capframe_parser.py:75 | sorting two values puts the smaller first |
| Numeric.SortedFirstIsMin | parsers/capframe_parser.py:86-90 | any ascending rearrangement of the values starts with their minimum |
| Numeric.SortedLastIsMax | parsers/capframe_parser.py:87-90 | any ascending rearrangement of the values ends with their maximum |
| Numeric.SortEnds | parsers/capframe_parser.py:86-90 | the first and last sorted values are the minimum and the maximum |
| Numeric.SortAllEqual | parsers/capframe_parser.py:75 | sorting neither creates nor removes a difference between values |
| Numeric.CountSort | parsers/capframe_parser.py:91 | sorting keeps how many values lie below, or at or below, any value |
| Numeric.SortedRank | parsers/capframe_parser.py:92-96 | in an ascending sequence, at most `k` values lie below the `k`-th and more than `k` lie at or below it |
| Numeric.RankOfSorted | parsers/capframe_parser.py:91-96 | `sorted(xs)[k]` has rank `k` among the values of `xs`: at most `k` lie below it and more than `k` at or below it |
| Numeric.RoundHalfEven | parsers/capframe_parser.py:183 | numpy's `round()`: within one half of the input, and a tie goes to the even neighbour |
| Numeric.RoundBetween | parsers/capframe_parser.py:183 | rounding a value between two integers stays between them |
| Numeric.Trunc | parsers/capframe_parser.py:220 | `int()` on a float truncates toward zero |
| Numeric.SumBounds | parsers/capframe_parser.py:85 | a sum of n values between lo and hi lies between n*lo and n*hi |
| Text.Strip | parsers/__init__.py:31 | `strip()` is empty exactly for whitespace-only text, and otherwise starts and ends with a non-space |
| Text.Split | parsers/msi_afterburner_parser.py:29 | `split(sep)` gives at least one piece, none holding the separator |
| Text.JoinSplit | parsers/__init__.py:28 | splitting and re-joining gives back the text |
| Text.SplitJoin | parsers/msi_afterburner_parser.py:29 | pieces free of the separator survive joining and splitting again |
| Text.SplitAppend | parsers/__init__.py:28 | a separator splits the text into the pieces of its two sides |
| Text.Words | parsers/fraps_parser.py:17 | `split()` gives non-empty, whitespace-free pieces, and nothing for blank text; which pieces is stated by `WordsSplit` |
| Text.WordsSplit | parsers/fraps_parser.py:17 | `split()` is the text cut at every whitespace character with the empty pieces dropped, so runs of whitespace act as one separator |
| Text.ReadLines | parsers/msi_afterburner_parser.py:17-18 | `readlines()` cuts after each newline, and every line but the last ends in one |
| Text.ConcatReadLines | parsers/msi_afterburner_parser.py:17-18 | the lines of `readlines()` concatenate back to the text |
| Text.RemoveAll | parsers/capframe_parser.py:33 | `replace(p, "")` never lengthens the text, and changes nothing when `p` does not occur; the removal itself is stated by `RemoveAllAround` and `RemoveExeSuffix` |
| Text.RemoveAllAround | parsers/capframe_parser.py:33 | for a `p` that cannot overlap itself, removing `p` from `a + p + b` gives the removal from `a` followed by the removal from `b` |
| Text.RemoveExeSuffix | parsers/capframe_parser.py:33 | `(n + ".exe").replace(".exe", "")` is `n` when `n` holds no ".exe" |
| Text.ExeUnbordered | parsers/capframe_parser.py:33 | ".exe" cannot overlap itself |
| Text.RemoveChar | parsers/msi_afterburner_parser.py:31 | removing a character leaves none of it |
| Text.ReplaceChar | parsers/msi_afterburner_parser.py:70 | `replace(",", ".")` changes exactly the commas |
| Text.Take | parsers/msi_afterburner_parser.py:133 | `s[:2]` is the prefix of length at most two |
| Text.TwoDigits | parsers/capframe_parser.py:101 | `f"{hour:02d}"` is two decimal digits denoting the hour |
| Text.ContainsIff | parsers/__init__.py:43-50 | `p in s` holds exactly when `p` occurs at some position |
| Text.StrLessTransitive | parsers/capframe_parser.py:202-204 | string order is transitive |
| Text.StrLessTotal | parsers/capframe_parser.py:202-204 | distinct strings are ordered one way or the other |
| Benchmark.KeyLessIrreflexive | parsers/capframe_parser.py:202-204 | no key sorts before itself |
| Benchmark.KeyLessTransitive | parsers/capframe_parser.py:202-204 | the (Date, Time, Application) order is transitive |
| Benchmark.KeyLessTotal | parsers/msi_afterburner_parser.py:179-181 | distinct keys are ordered one way or the other |
| Pipeline.Filter | parsers/capframe_parser.py:164-166 | a mask keeps exactly the rows that satisfy it |
| Pipeline.FilterAppend | parsers/msi_afterburner_parser.py:132 | masking distributes over concatenation |
| Pipeline.FilterCounts | parsers/capframe_parser.py:164-166 | a mask keeps every copy of a passing row and no copy of any other, so the result is a sub-multiset of the input |
| Pipeline.FilterEmpty | parsers/capframe_parser.py:164-166 | an empty result means no row passed |
| Pipeline.FilterNone | parsers/capframe_parser.py:164-166 | when no row passes, the result is empty |
| Pipeline.FilterAll | parsers/capframe_parser.py:169-184 | what every selected row has, every row of the result has |
| Pipeline.Members | parsers/capframe_parser.py:151-153 | a group holds exactly the rows with its key |
| Pipeline.RatioKeep | parsers/msi_afterburner_parser.py:127-132 | the 80% rule for one row: its TimeTaken is at least 0.8 times the mean TimeTaken of its group; used by `RatioFilter` and `RatioLocal` |
| Pipeline.RatioFilter | parsers/msi_afterburner_parser.py:127-132 | keeps exactly the rows whose TimeTaken is at least 0.8 times their group's mean |
| Pipeline.RatioLocal | parsers/msi_afterburner_parser.py:127-129 | the 80% rule for a row depends only on the rows of its own group |
| Pipeline.RatioKeepsEveryGroup | parsers/msi_afterburner_parser.py:127-132 | with non-negative durations, no group is emptied by the 80% rule |
| Pipeline.HourLabel | parsers/capframe_parser.py:156 | the Time label always ends in " h" (CapFrame appends it; Afterburner keeps two characters first, line 133 of the Afterburner parser) |
| Pipeline.Retime | parsers/msi_afterburner_parser.py:133 | relabelling changes only Time, through `HourLabel` |
| Pipeline.Sq | parsers/capframe_parser.py:160-165 | a squared deviation is never negative, and is positive away from zero |
| Pipeline.SqIsSquare | parsers/capframe_parser.py:160-163 | `Sq(d)` is `d * d`, the `** 2` of the z-score; `Sq` is written through the identity `Id` only so that the solver sees a product of two terms |
| Pipeline.SquaredDeviations | parsers/msi_afterburner_parser.py:137-140 | one squared distance from the mean per duration |
| Pipeline.Variance | parsers/capframe_parser.py:160-163 | the sample variance (pandas `std()` squared, n - 1) is never negative |
| Pipeline.ZTest | parsers/capframe_parser.py:160-165 | the z-score test, squared: a row passes when its squared deviation is below 9 times the variance; its contract is stated by `ZFilterAllEqual` and `ZFilterKeepsSome` |
| Pipeline.ZFilter | parsers/capframe_parser.py:159-166 | the z-score cut never adds rows and leaves one row or none untouched |
| Pipeline.ZeroVariance | parsers/capframe_parser.py:160-165 | equal durations have zero variance and every one equals the mean |
| Pipeline.ZFilterAllEqual | parsers/capframe_parser.py:159-166 | with equal durations (zero deviation) the cut drops every row |
| Pipeline.ZFilterKeepsSome | parsers/msi_afterburner_parser.py:136-143 | with differing durations, the cut keeps at least one row |
| Pipeline.PositiveSpread | parsers/msi_afterburner_parser.py:137-140 | durations that are not all equal have a positive sum of squared deviations |
| Pipeline.SomeBelowNine | parsers/msi_afterburner_parser.py:136-143 | squared z-scores sum to n - 1, so not all of them reach 9 |
| Pipeline.Deviant | parsers/msi_afterburner_parser.py:137-140 | values that are not all equal include one away from their mean |
| Pipeline.Retimed | parsers/msi_afterburner_parser.py:133 | relabelling keeps the rows and their order |
| Pipeline.Survivors | parsers/capframe_parser.py:146-166 | the filters never add rows |
| Pipeline.InsertKey | parsers/capframe_parser.py:202-204 | inserting a key into an ascending list keeps it ascending and adds just that key |
| Pipeline.Keys | parsers/msi_afterburner_parser.py:179-181 | the groups are the distinct keys, in strictly ascending order |
| Pipeline.MembersNonEmpty | parsers/capframe_parser.py:170-171 | every key that occurs has a non-empty group |
| Pipeline.AggregateOf | parsers/capframe_parser.py:170-201 | the aggregated row of a group carries that group's key, and each of its seven numeric columns is that column's group mean rounded half to even, so within one half of the mean |
| Pipeline.RoundedMean | parsers/capframe_parser.py:182-183 | `.mean().round()` of one column of a group lies within one half of the column's mean |
| Pipeline.Aggregates | parsers/capframe_parser.py:170-184 | one aggregated row per key, with that key |
| Pipeline.Group | parsers/msi_afterburner_parser.py:146-181 | one aggregated row per distinct key, in key order, never more rows than the input |
| Pipeline.GroupOrder | parsers/msi_afterburner_parser.py:179-181 | the grouped view is in strictly ascending key order and holds exactly the keys that occur |
| Pipeline.AggregatesAt | parsers/capframe_parser.py:170-184 | the i-th aggregated row is the aggregate of the i-th key |
| Pipeline.GroupColumnWithin | parsers/msi_afterburner_parser.py:147-175 | every numeric column of an aggregated row (Frames, TimeTaken and the five rates) is a rounded mean, never a sum: it stays within any integer bounds of that column in its group |
| Pipeline.GroupColumnMean | parsers/msi_afterburner_parser.py:147-163 | each numeric column of the `i`-th aggregated row is within one half of the mean of that column over the rows with the `i`-th key |
| Pipeline.RoundedMeanWithin | parsers/capframe_parser.py:182-183 | the rounded mean of values between two integers lies between them |
| Pipeline.Truncated | parsers/capframe_parser.py:205-223 | a single survivor keeps its key and its frame count, with numeric columns truncated |
| Pipeline.StatsOf | parsers/capframe_parser.py:233-252 | `{}` exactly for an empty frame; the reported min and max are attained and bound their columns; avg_framerate lies between the smallest and the largest AverageFramerate |
| Pipeline.ColumnExtremes | parsers/capframe_parser.py:241-246 | the minimum and maximum of a column are cells of it and bound every cell |
| Pipeline.StatsAverageConstant | parsers/capframe_parser.py:238-240 | avg_framerate is the mean of the AverageFramerate column: when every row has average `v`, `v` is reported |
| Pipeline.StatsTotals | parsers/msi_afterburner_parser.py:206-209 | total_frames and total_time are the integer parts of the column sums |
| Pipeline.Process | parsers/capframe_parser.py:141-231 | the raw view is the input; an empty input gives an empty view and `{}`; the view is never longer than the input; CapFrame stats are `{}` only for empty input and fall back to the raw rows when the view is empty; Afterburner stats are `{}` exactly when the view is empty |
| Pipeline.ProcessOrdered | parsers/msi_afterburner_parser.py:146-181 | apart from CapFrame's single-survivor case, the view is the grouped survivors, in strictly ascending key order |
| Pipeline.CapFrameSingleRow | parsers/capframe_parser.py:205-223 | a lone CapFrame row skips both filters (line 150) and is relabelled and truncated |
| Pipeline.MsiSingleRow | parsers/msi_afterburner_parser.py:127-146 | a lone Afterburner row survives exactly when its duration is not negative |
| Pipeline.CsvLines | parsers/capframe_parser.py:311-318 | the CSV is empty exactly when the processed view is empty; otherwise it has a header and one line per row |
| Processor.TypeOf | services/processor.py:80-83 | the given type, or the detected one when none is given |
| Processor.Parse | services/processor.py:86-89 | `parser.parse_file` for the registered parser: the CapFrame and Afterburner decoders with their errors, the given table for the generic parser; its contract is stated by `ProcessFileSuccessIff` and `Loads` |
| Processor.Load | services/processor.py:86-89 | an unregistered name fails with that name before the file is read |
| Processor.Run | services/processor.py:95-106 | raw_count is the row count; processed_count is no larger; the generic parser passes its rows through; an empty frame gives 0 and `{}` |
| Processor.ProcessFile | services/processor.py:72-116 | reports the given or detected type; an unknown type fails; success has raw_count > 0, processed_count <= raw_count and the `benchmark_{type}_results` file names |
| Processor.EmptyParseFails | services/processor.py:91-92 | a file that parses to no rows fails |
| Processor.ProcessFileSuccessIff | services/processor.py:86-109 | success exactly when the parser is registered and reads at least one row; the counts and stats are those of `process_data` |
| Processor.Names | services/processor.py:20-29 | one type per file, in input order, given or detected |
| Processor.Loads | services/processor.py:31-35 | one parse result per file, each the result of the parser registered under that file's type; a file that parses has a registered type |
| Processor.Accumulate | services/processor.py:20-36 | when the loop completes, it has one parser per file, in input order, each registered under that file's type |
| Processor.AccumulatePrefix | services/processor.py:20-36 | the loop extends its state by one file per iteration, and stops at the first failing file |
| Processor.AccumulateFails | services/processor.py:32-35 | a failing file anywhere fails the loop |
| Processor.AccumulateFailSticks | services/processor.py:32-35 | a failure among the first files is the failure of the whole loop |
| Processor.AccumulateJoins | services/processor.py:36-42 | when every file loads, the loop succeeds and the rows are joined in input order |
| Processor.AccumulateSingle | services/processor.py:20-36 | the loop over one file gives that file's parser and rows |
| Processor.LoadOne | services/processor.py:21-35 | one iteration: the file's type, its registered parser and that parser's result for the file |
| Processor.LoadFiles | services/processor.py:16-36 | the imperative file loop computes exactly the fold `Accumulate` over the per-file results |
| Processor.FailureName | services/processor.py:69 | `parser_type or "unknown"` is never empty and keeps a given type |
| Processor.Batch | services/processor.py:9-70 | a failure reports the argument type or "unknown"; success needs files and reports the first file's type, the combined file names and processed_count <= raw_count |
| Processor.ProcessFiles | services/processor.py:9-70 | the imperative `process_files` (file loop, empty check, first file's parser over the joined rows) equals `Batch` |
| Processor.EmptyBatchFails | services/processor.py:38-39 | an empty list fails, reporting the argument type or "unknown" as line 69 does |
| Processor.FailingFileFailsBatch | services/processor.py:32-35 | one failing file fails the whole batch, reporting the argument type or "unknown" |
| Processor.BatchSuccess | services/processor.py:42-63 | a batch whose files all load succeeds, even with no rows; the joined rows are processed once by the first file's parser |
| Processor.SingleFileBatch | services/processor.py:42-63 | for one file that reads rows, the batch reports what `process_file` reports |
| FileProcessing.SessionStore.constructor | handlers/file_processing.py:22 | the store starts empty |
| FileProcessing.SessionStore.Arrive | handlers/file_processing.py:52-68 | appends the file to the user's list, creating it if absent; a flush task starts exactly when the list is new, so never for a user whose list was stranded; other users' lists are unchanged |
| FileProcessing.SessionStore.Upload | handlers/file_processing.py:46-71 | a file not detected as capframe goes to `process_file` and leaves the store unchanged; a capframe file is appended, its flush task is recorded as pending exactly when the list was new, and the flushing set and the processed files are unchanged |
| FileProcessing.SessionStore.FlushStart | handlers/file_processing.py:123-130 | a waking flush task always finds its user's non-empty live list, so the early return is never taken |
| FileProcessing.SessionStore.Flush | handlers/file_processing.py:119-134 | the whole live list is processed as one "capframe" batch |
| FileProcessing.SessionStore.FlushEnd | handlers/file_processing.py:136-199 | on each path that reaches a `del` (lines 146, 188 and 199) the user's entry is deleted; the list was the processed files followed by the files that arrived later, which are dropped unprocessed |
| FileProcessing.SessionStore.FlushAbandon | handlers/file_processing.py:190-199 | the exception handler's own message raising ends the task before its `del`: the list stays, and the user has no flush task asleep or sending |
| FileProcessing.LateArrival | handlers/file_processing.py:127-188 | the flush processes exactly the first file; a file arriving while results are sent starts no timer and is deleted unprocessed; the next file starts a fresh list and a new timer |
| FileProcessing.StrandedSession | handlers/file_processing.py:55-64 | after an abandoned flush, a later file is appended to the stranded list and starts no timer, so no task will process or clear it |
| FileProcessing.OtherTypesBypass | handlers/file_processing.py:52-71 | a non-capframe file is processed at once and never stored |

## Left out

- XLSX generation (sheets, date formats, column widths, the fallback empty
  workbook) and the byte layout of `to_csv`. Only the rule that the CSV is
  empty exactly when the processed view is empty is kept
  (`Pipeline.CsvLines`, where `render` stands for the layout of one row).
  The rest of the reports dictionary is not modelled.
- File reading and downloading. The 50 MB size checks, the chat messages,
  temporary-file cleanup, `cmd_parsers` and the transport layer are left
  out too. A file is given by its text, its decoded JSON and its generic
  table.
- `asyncio` scheduling and the ten-second sleep. These become the explicit
  events `FlushStart` (the end of the sleep), `FlushEnd` (the end of the
  result messages) and `FlushAbandon` (a task that ends before its `del`). `process_files` does not yield, so arrivals can only
  fall between the two events. The message handler's own exception handler
  is not modelled.
- JSON decoding is done twice in the source: the detector and `can_parse`
  decode `content.strip()` with `json.loads`, while `parse_file` decodes the
  raw file with `json.load`. The model has one decoded value per file
  (`FileInput.decoded`), so it does not distinguish text whose leading or
  trailing characters Python's `strip()` removes but JSON does not accept
  as whitespace (a form feed, for example).
- JSON decoding, `int()`, `float()`, `strptime`, `datetime.fromisoformat`
  and `datetime.now()`. These are inputs (`Benchmark.Env`) that the
  properties quantify over. `now` is read once per file, so the two clock
  readings of the source are taken to agree.
- IEEE-754 arithmetic. Rates, means and durations are `real`. The z-score
  compares squares instead of taking a root. The low indices
  `int(len * 0.01)` and `int(len * 0.001)` are written `len / 100` and
  `len / 1000`: the doubles nearest 0.01 and 0.001 lie just above them, so
  the product never falls below the next integer.
- The generic parser of `parsers/custom_parser.py`. Its `pandas` readers
  are replaced by a given table of benchmark rows. Its `process_data` is the
  pass-through. Only `total_records` of its stats is modelled, because the
  per-column statistics depend on pandas' type inference. Tables whose
  columns are not the benchmark columns are not modelled.
- Processor.ProcessFile: the "unknown" fallback name is not modelled,
  because reading the file cannot fail in the model. Every failure therefore
  reports the given or detected type.
- Registry.Detect: `lower()` is applied to ASCII letters only.
- FrapsParser.ParseLine: the Time column of a FRAPS row is
  `datetime.now().time()`, with minutes, seconds and microseconds. The row
  keeps only the date and the hour of one clock reading (`Moment`), so the
  finer time of day and the two separate clock readings are not modelled.
- FileProcessing.SessionStore.FlushEnd: the three paths that reach a `del`
  (the failure message, the results, the exception handler) are one event,
  since each deletes the entry the same way. Every way a task can end before
  its `del`, such as the handler's own message or a temporary-file cleanup
  raising, is the one event `FlushAbandon`.
- `get_supported_formats` is given for each parser
  (`CapFrameParser.SupportedFormats`, `AfterburnerParser.SupportedFormats`,
  `FrapsParser.SupportedFormats`) without a contract. It is a constant.
- `get_available_parsers` and the parser docstrings it lists.
