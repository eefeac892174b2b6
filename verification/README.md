# Jetson power-telemetry sampling, modelled in Dafny

Five Python scripts measure the power draw of NVIDIA Jetson boards:
`xavier-pwr-msr.py`, `agx-orin-pwr-msr.py`, `agx-pwr-msr.py`, `nano-pwr-msr.py` and
`orin-nano-pwr.py`. Each one starts `tegrastats` and reads its output line by
line until a deadline. It pulls the current milliwatt reading of a fixed set of
power rails out of each line with a regular expression, keeps running totals,
and reports averages. This project models that sampling core, one module per
script, and proves what each script computes.

- `Text` (`text.dfy`) has the character-level pieces: ASCII digits and their
  decimal value, Python's `str.strip()` with `str.isspace()`'s full set of
  white-space characters, `startswith`, and the substring test `in`.
- `Fields` (`fields.dfy`) has one rail field of the two tegrastats formats.
  The slash format is `NAME now/average`; the milliwatt format is
  `NAME nowmW/averagemW`. For each there is a matcher that captures `now`, and
  a lemma reading the field back from its printed text.
- `Scan` (`scan.dfy`) holds the regular expressions the scripts use, as a
  datatype of their four shapes (`Pattern`). `MatchAt` matches a pattern at one
  position. `Search` returns the readings captured by the match at the leftmost
  position where the whole pattern matches: that is `re.search` and
  `re.findall(...)[0]`. The greedy `.*` of
  `agx-orin-pwr-msr.py` never crosses a newline. It backs off one character at a
  time, so it settles on the last position from which the rest of the pattern
  still matches (`ChainFrom`). `Samples` keeps the readings of the matching
  lines. `StrippedSession` and `RawSession` give the lines a read loop handles
  before it stops at the first empty read, with and without `strip()`.
- `Totals` (`totals.dfy`) keeps the running totals and builds the
  mean-of-means report.
- `XavierPower`, `AgxOrinPower`, `AgxPower`, `NanoPower` and `OrinNanoPower`
  each model one script.

A script's input is `stream`: the strings successive `readline()` calls return
before the deadline passes. `""` is what `readline()` returns once tegrastats
has closed its output. The wall-clock deadline therefore becomes "some prefix
of what tegrastats prints".

The loops are methods proved against functions of that stream. A script's
per-rail variables `total_x` are kept as one sequence `totals`, in the order of
the pattern's capture groups. Python's integers are unbounded, and so are
Dafny's `nat`. Python's `/` is modelled as exact `real` division.

## Model

| member | source | states |
|---|---|---|
| Text.Strip | xavier-pwr-msr.py:106 | the stripped line is no longer than the line, and its first and last characters are not white space |
| Text.StripIsSlice | xavier-pwr-msr.py:106 | the stripped line is a slice `s[i..j]` of the line, with only white space before `i` and after `j` |
| Text.IsSpace | xavier-pwr-msr.py:106 | the white-space test of `strip()` counts the blank, tab, newline and carriage return as white space, and never a digit |
| Text.TrimStart | xavier-pwr-msr.py:106 | the first half of `strip()` keeps a suffix of the line that is empty or starts with a non-space character |
| Text.TrimStartDropsSpace | xavier-pwr-msr.py:106 | the leading part it removes is white space only |
| Text.TrimEnd | xavier-pwr-msr.py:106 | the second half keeps a prefix that is empty or ends with a non-space character |
| Text.TrimEndDropsSpace | xavier-pwr-msr.py:106 | the trailing part it removes is white space only |
| Text.StripEmptyIff | xavier-pwr-msr.py:106-109 | a line strips to the empty string exactly when it consists of white space only, so a blank line is falsy after `strip()` |
| Text.DigitRun | xavier-pwr-msr.py:111 | a greedy `\d+` takes the whole run of digits at the start: everything it takes is a digit, and the character after it, if any, is not |
| Text.Decimal | xavier-pwr-msr.py:115 | a reading is printed as a non-empty run of digits, and `int()` of that run (`DecimalValue`) is the reading again |
| Text.Contains | agx-pwr-msr.py:23 | `sub in s` holds whenever `s` starts with `sub`, and never when `sub` is longer than `s` |
| Fields.NumberThen | agx-orin-pwr-msr.py:36 | `(\d+)` followed by a literal consumes part of the text: what is left is shorter |
| Fields.NumberThenOf | agx-orin-pwr-msr.py:36 | on a printed number followed by a separator that does not start with a digit, `(\d+)` and the separator capture exactly that number and leave what follows the separator |
| Fields.SlashField | xavier-pwr-msr.py:111 | `NAME (\d+)/\d+` consumes part of the text: what is left is shorter |
| Fields.SlashFieldOf | xavier-pwr-msr.py:111 | `NAME (\d+)/\d+` on `NAME now/average` captures `now` whatever follows, and leaves exactly what follows when that does not start with a digit |
| Fields.SlashFields | xavier-pwr-msr.py:111 | a run of slash fields yields one reading per rail name, in name order |
| Fields.MilliwattField | agx-orin-pwr-msr.py:36 | `NAME (\d+)mW/` consumes part of the text: what is left is shorter |
| Fields.MilliwattFieldOf | agx-orin-pwr-msr.py:36 | `NAME (\d+)mW/` on `NAME nowmW/...` captures `now` and leaves exactly the text after `mW/` |
| Fields.SlashFieldsOf | xavier-pwr-msr.py:111 | a run of slash fields `N1 a1/b1 N2 a2/b2 ...`, whatever follows it, is matched at its start and yields the current values `a1, a2, ...`, never the averages |
| Scan.MatchAt | xavier-pwr-msr.py:111 | a successful match yields exactly one reading per capture group of the pattern |
| Scan.ReadingOf | agx-pwr-msr.py:24-27 | `NAME (\d+)` at the start of `NAME n` followed by a non-digit captures `n` |
| Scan.MilliwattPairOf | orin-nano-pwr.py:23 | `VDD_IN (\d+)mW/\d+mW` at the start of a field `VDD_IN amW/bmW` captures the current value `a`, whatever follows |
| Scan.Search | xavier-pwr-msr.py:111-115 | a match carries one reading per capture group of the pattern; which position it comes from is stated by `Scan.SearchFindsFirstMatch`, `Scan.SearchFailsOnlyWithoutMatch` and `Scan.SearchResultIsAMatch` |
| Scan.SearchFrom | orin-nano-pwr.py:23 | the engine started at a position returns a match with one reading per capture group |
| Scan.SearchFromFirst | orin-nano-pwr.py:23 | started at `k`, the engine returns the match at the first position from `k` on where the pattern matches |
| Scan.SearchFindsFirstMatch | xavier-pwr-msr.py:111-115 | when `j` is the first position where the pattern matches, the search returns exactly the readings of the match at `j` (leftmost match, as `findall(...)[0]` and `re.search` take it) |
| Scan.SearchFailsOnlyWithoutMatch | orin-nano-pwr.py:23-24 | the search finds nothing if and only if the pattern matches at no position of the line |
| Scan.SearchResultIsAMatch | orin-nano-pwr.py:23-25 | whatever the search returns is the match at some position of the line |
| Scan.LineLength | agx-orin-pwr-msr.py:36 | the stretch a `.*` may cover ends at the first newline or at the end of the text, and contains no newline |
| Scan.Chain | agx-orin-pwr-msr.py:36 | a match of `N1 (\d+)mW/.* N2 (\d+)mW/ ...` yields one reading per rail |
| Scan.ChainRest | agx-orin-pwr-msr.py:36 | the `.*` and the rails after it, matched, yield one reading per remaining rail |
| Scan.ChainAt | agx-orin-pwr-msr.py:36 | one attempt of the `.*` (covering a given stretch), when it succeeds, yields one reading per remaining rail |
| Scan.ChainFrom | agx-orin-pwr-msr.py:36 | the attempts from the longest stretch down, when one succeeds, yield one reading per remaining rail; which attempt wins is stated by `Scan.ChainFromLongest` |
| Scan.ChainFromLongest | agx-orin-pwr-msr.py:36 | the greedy `.*` picks the last position `k` from which the remaining rails match: if the attempt at `k` succeeds and every later one fails, the result is the attempt at `k` |
| Scan.ChainFromNone | agx-orin-pwr-msr.py:36 | the `.*` step fails only when every position within reach fails |
| Scan.ChainFromFinds | agx-orin-pwr-msr.py:36 | the `.*` step succeeds as soon as one position within reach succeeds |
| Scan.ChainMatchesMilliwattLine | agx-orin-pwr-msr.py:36-40 | rails printed in the milliwatt format, in the pattern's order and followed by anything, are matched, and the first reading is the first rail's current value |
| Scan.ChainReadsMilliwattLine | agx-orin-pwr-msr.py:36-40 | rails with distinct names printed in the milliwatt format, in the pattern's order and followed by text without spaces, are matched, and every reading is its own rail's current value: each greedy `.*` backs off to the space before the next rail |
| Scan.SamplesSnoc | xavier-pwr-msr.py:114-122 | one more line adds its readings at the end when the pattern matches it, and leaves the samples unchanged otherwise |
| Scan.SamplesFrom | xavier-pwr-msr.py:111-115 | every sample is the search result of one of the lines, with one reading per rail |
| Scan.SamplesConcat | nano-pwr-msr.py:29-39 | the samples of two runs of lines read one after the other are the samples of each run, in order |
| Scan.Samples | xavier-pwr-msr.py:109-122 | at most one sample per line; `Scan.SamplesSnoc` and `Scan.SamplesFrom` say which lines add one and what it holds |
| Scan.TakeUntilEmpty | xavier-pwr-msr.py:105-126 | the loop handles no more lines than it reads |
| Scan.TakeUntilEmptyIsFirstRun | xavier-pwr-msr.py:105-126 | the lines handled are exactly the reads before the first empty one: a prefix of the reads, all non-empty, ended by an empty read or by the end of the reads |
| Scan.StrippedSession | xavier-pwr-msr.py:105-126 | with `strip()`, the loop handles no more lines than it reads |
| Scan.RawSession | nano-pwr-msr.py:29-43 | without `strip()`, the loop handles no more lines than it reads |
| Scan.TakeUntilEmptyStops | xavier-pwr-msr.py:125-126 | the loop handles no line at or after the first empty read |
| Scan.BlankReadEndsStrippedSession | xavier-pwr-msr.py:106-126 | with `strip()`, a read consisting only of white space ends the loop just as the end of the output does: nothing from it on is processed |
| Scan.NonEmptyReadContinuesRawSession | nano-pwr-msr.py:30-43 | without `strip()`, a non-empty read such as `"\n"` does not end the loop; the lines after it are handled until the next empty read |
| Scan.UnmatchedReadContinuesRawSession | nano-pwr-msr.py:30-43 | a non-empty line that does not match neither ends the loop nor adds a sample |
| Totals.SumConcat | agx-pwr-msr.py:59-65 | summing two lists one after the other gives the sum of their sums |
| Totals.Add | xavier-pwr-msr.py:116-121 | one more sample adds each reading to its own rail's total; no total is added or dropped |
| Totals.RailTotals | xavier-pwr-msr.py:95-122 | one running total per rail; `Totals.RailTotalsSnoc` and `Totals.RailTotalIsColumnSum` give their values |
| Totals.RailTotalsSnoc | xavier-pwr-msr.py:114-122 | one more sample adds each of its readings to its own rail's running total |
| Totals.RailTotalIsColumnSum | xavier-pwr-msr.py:116-121 | each running total is the sum of its own rail's readings over all samples |
| Totals.SumOfRailTotals | xavier-pwr-msr.py:138 | adding up the rail totals equals adding up every sample's readings line by line |
| Totals.Averages | xavier-pwr-msr.py:132-137 | each rail's average times the shared count is that rail's total |
| Totals.SumOfAverages | xavier-pwr-msr.py:132-138 | the sum of the per-rail averages times the shared count is the grand total |
| Totals.MeanOfMeans | xavier-pwr-msr.py:130-150 | no data (and no division) exactly when the count is 0, with the message `No power data collected.`; otherwise one average per rail with `average * count == total`, and a total average with `total * count == sum of the totals` |
| Totals.MeanOfMeansIsMeanLinePower | xavier-pwr-msr.py:130-138 | the total average power is the mean, over the matching lines, of each line's readings added together |
| XavierPower.RunTegrastats | xavier-pwr-msr.py:88-150 | after the loop, `totals` are the six rail sums over the matching lines of the stripped session, `count` is the number of matching lines (at most the lines read), and the report is the mean-of-means report of those figures |
| XavierPower.SearchReadsCurrentValues | xavier-pwr-msr.py:111-115 | a line that has the fields `GPU a/x CPU b/y SOC c/z CV d/u VDDRQ e/v SYS5V f/w` after some text `pre` yields `a, b, c, d, e, f`, whatever follows. This needs the pattern to match at no position inside `pre`; an empty `pre`, where the line starts with the fields, always qualifies |
| XavierPower.SamplesAreSixWide | xavier-pwr-msr.py:111-115 | every sample carries exactly six readings |
| AgxOrinPower.RunTegrastats | agx-orin-pwr-msr.py:16-69 | after the loop, `totals` are the four rail sums over the matching lines of the stripped session, `count` the number of matching lines, and the report is the mean-of-means report |
| AgxOrinPower.StandardLineIsCounted | agx-orin-pwr-msr.py:36-45 | a line that has the four rails in the milliwatt format, in the pattern's order, after some text `pre` is counted whatever follows, and its first reading is the current `VDD_GPU_SOC` value; when no space follows the last rail, the four readings are the four current values. This needs the pattern to match at no position inside `pre`; an empty `pre`, where the line starts with the rails, always qualifies |
| AgxOrinPower.FourRailLineReadsBack | agx-orin-pwr-msr.py:36-45 | the line `VDD_GPU_SOC 500mW/500mW VDD_CPU_CV 300mW/300mW VIN_SYS_5V0 200mW/200mW VDDQ_VDD2_1V8AO 100mW/100mW` yields 500, 300, 200 and 100 |
| AgxOrinPower.SamplesAreFourWide | agx-orin-pwr-msr.py:36-40 | every sample carries exactly four readings |
| AgxPower.Collect | agx-pwr-msr.py:46-51 | the collected list holds the stripped text of every non-empty read, in read order; an empty read is skipped and does not end the loop |
| AgxPower.Collected | agx-pwr-msr.py:48-51 | at most one collected entry per read; `AgxPower.Collect` is proved equal to it |
| AgxPower.CollectKeepsBlankLines | agx-pwr-msr.py:48-51 | a blank line `"\n"` is collected as `""`, and an empty read adds nothing |
| AgxPower.RailValues | agx-pwr-msr.py:16-38 | a rail's list is never longer than the list of collected lines |
| AgxPower.RailValuesStep | agx-pwr-msr.py:22-36 | one more line extends a rail's list by that rail's reading exactly when the line names all four rails and the rail's search succeeds; otherwise the list is unchanged |
| AgxPower.Considered | agx-pwr-msr.py:22-23 | every line kept names all four rails (`AgxPower.NamesAllRails`, the four `in` tests), and every line that names them is kept |
| AgxPower.RailValuesAtMostConsidered | agx-pwr-msr.py:22-36 | each list gets at most one value per line that names all four rails |
| AgxPower.LineMissingARailAddsNothing | agx-pwr-msr.py:23 | a line that does not name all four rails adds to no list |
| AgxPower.ReadingTakesCurrentValue | agx-pwr-msr.py:24-36 | on a field `NAME amW/bmW`, `NAME (\d+)` reads the current value `a` |
| AgxPower.ParseOutput | agx-pwr-msr.py:16-38 | the four returned lists are each rail's readings, taken independently from the lines that name all four rails |
| AgxPower.Aggregate | agx-pwr-msr.py:59-66 | the rail totals are the sums of the lists, `total_power` is the sum of all four lists' readings, and `average_power * 10 == total_power` (the divisor is the duration, not a count) |
| AgxPower.MeasurePower | agx-pwr-msr.py:41-66 | the whole script's figures are the aggregate of the four lists parsed from the collected reads |
| NanoPower.RunTegrastats | nano-pwr-msr.py:17-58 | after the loop, `totals` are the three rail sums over the matching lines of the unstripped session, `count` the number of matching lines, and the report is the corrected report of those figures; the report as written fails on the undefined name exactly when some line matched |
| NanoPower.SearchReadsCurrentValues | nano-pwr-msr.py:33-35 | a line that has the fields `POM_5V_IN a/x POM_5V_GPU b/y POM_5V_CPU c/z` after some text `pre` yields `a, b, c`, whatever follows. This needs the pattern to match at no position inside `pre`; an empty `pre`, where the line starts with the fields, always qualifies |
| NanoPower.BlankLineDoesNotEndSession | nano-pwr-msr.py:30-43 | a blank line `"\n"` does not end the loop and adds no sample; the lines after it are still processed |
| NanoPower.ReportAsWritten | nano-pwr-msr.py:47-58 | with no data, the message `No power data collected.`; with data, `average_power * count == total_input_power`, the three totals are printed, and the report then fails on the undefined name `total_power` |
| NanoPower.AsWrittenFailsOnData | nano-pwr-msr.py:55 | a session holding one tegrastats line with the three rails ends in the undefined-name failure |
| NanoPower.ReportIntended | nano-pwr-msr.py:47-58 | with no data, the message `No power data collected.`; with data, the totals, the total input power equal to the `POM_5V_IN` total, and an average with `average * count == total_input_power` (only the input rail is averaged) |
| NanoPower.IntendedCompletesAsWritten | nano-pwr-msr.py:47-56 | the corrected report has no data exactly when the report as written has none, and otherwise prints the same totals, and its average is the one the code as written computes at line 51 but fails before printing |
| OrinNanoPower.RunTegrastatsVddIn | orin-nano-pwr.py:5-42 | after the loop, `total` is the sum of the VDD_IN readings of the matching lines of the unstripped session, `count` the number of those lines (at most the lines read), and the report is built from them |
| OrinNanoPower.VddInReadings | orin-nano-pwr.py:23-27 | one VDD_IN reading per matching line |
| OrinNanoPower.Summarize | orin-nano-pwr.py:36-42 | no data (and no division) exactly when the count is 0, with the message `No VDD_IN data collected.`; otherwise the total and an average with `average * count == total` |
| OrinNanoPower.SearchReadsCurrentValue | orin-nano-pwr.py:22-25 | a line that has `VDD_IN amW/bmW` after some text `pre` yields the current value `a`, whatever follows. This needs the pattern to match at no position inside `pre`; an empty `pre`, where the line starts with the field, always qualifies |
| OrinNanoPower.LongerRailNameAlsoMatches | orin-nano-pwr.py:23 | there is no word boundary: `XVDD_IN amW/bmW` (any one character in front, `V` included) also yields `a` |
| OrinNanoPower.BlankLineDoesNotEndSession | orin-nano-pwr.py:19-32 | a blank line `"\n"` does not end the loop and adds no reading |

## Left out

- Starting, killing and terminating `tegrastats` (`subprocess.Popen`, `kill`, `terminate`), and its standard error, are process I/O. The output is the given `stream`.
- The `time.time()` deadline is external. The model sees only the reads made before it: an arbitrary prefix of the output.
- The `print` calls are left out: the per-line `Current ...` lines, the debugging prints at xavier-pwr-msr.py:107 and 112, and the final reports. So is the `:.2f` rounding. Averages are exact `real`s.
- Python's `\d` also matches non-ASCII decimal digits. The model reads ASCII digits only.
- The earlier version of the xavier script inside the string literal at xavier-pwr-msr.py:15-83 is dead code and is not modelled.
- `mydetection1.py`, `mydetection2.py`, `detection-result.py` and `classification-result.py` are not part of this model. They only call into the Jetson inference libraries, `psutil` and `nvidia-smi`.
- AgxPower.RailValuesAtMostConsidered: states that the four lists can only fall short of the considered lines. No lemma exhibits a concrete line after which two lists differ in length.
- The agx script's collection loop has no `break`. After tegrastats closes its output, `readline()` keeps returning `""` until the deadline. The model skips those reads.

## Findings

| source | as written | input that shows it | evidently intended | confidence | as-written member | corrected member |
|---|---|---|---|---|---|---|
| nano-pwr-msr.py:55 | prints `total_power`, a name that is assigned only inside the string literal at lines 48-50, so the report raises `NameError` after printing the three totals | a stream holding one line `POM_5V_IN 1/1 POM_5V_GPU 1/1 POM_5V_CPU 1/1` | print `total_input_power`, the figure the label `Total Input Power Consumption` names, then the average | high; not executed | NanoPower.AsWrittenFailsOnData | NanoPower.ReportIntended |
