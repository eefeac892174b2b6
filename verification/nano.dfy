/**
 * `nano-pwr-msr.py`, `run_tegrastats` (Jetson Nano): three rails in the slash
 * format, unstripped lines, one shared sample count, and a report that
 * averages the input rail only.
 *
 * `stream` is the sequence of strings successive `readline()` calls return
 * before the monitoring deadline passes; "" is what `readline()` returns once
 * tegrastats has closed its output. A read keeps its line terminator, so a
 * blank line reads as "\n", which is not empty.
 */
module NanoPower {
  import opened Wrappers
  import opened Text
  import opened Scan
  import opened Fields
  import opened Totals

  /** The rails of the pattern, in the order of its capture groups. */
  const Rails: seq<string> := ["POM_5V_IN", "POM_5V_GPU", "POM_5V_CPU"]

  /**
   * The pattern of `run_tegrastats`, `POM_5V_IN (\d+)/\d+ POM_5V_GPU (\d+)/\d+ POM_5V_CPU (\d+)/\d+`;
   * `re.findall(...)[0]` converted with `int` is the leftmost match's readings.
   */
  const PowerPattern: Pattern := SlashRun(Rails)

  /** How the report ends, as the code stands: nothing collected, or a failure on the undefined name after the totals are printed. */
  datatype Outcome =
    | NothingCollected(message: string)
    | UndefinedName(name: string, printedTotals: seq<nat>, averagePower: real)

  /**
   * The report as the code stands. With data, `average_power` is computed and
   * the three totals are printed, and then the line that prints `total_power`
   * fails: that name is only assigned inside a string literal, never in code.
   */
  function ReportAsWritten(totals: seq<nat>, count: nat): (r: Outcome)
    requires |totals| == |Rails|
    ensures r.NothingCollected? <==> count == 0
    ensures r.NothingCollected? ==> r.message == NoPowerData
    ensures r.UndefinedName? ==> r.name == "total_power" && r.printedTotals == totals
    ensures r.UndefinedName? ==> r.averagePower * (count as real) == totals[0] as real
  {
    if count == 0 then NothingCollected(NoPowerData)
    else UndefinedName("total_power", totals, totals[0] as real / count as real)
  }

  /** The report as evidently intended: the totals, the input rail's total as the total input power, and its average. */
  datatype InputReport =
    | NoPower(message: string)
    | InputPower(totals: seq<nat>, totalInputPower: nat, averagePower: real)

  /**
   * The report with `total_power` read as `total_input_power`, the figure its
   * label names. Only the input rail is averaged: POM_5V_IN already includes
   * the GPU and CPU rails, whose totals are reported as raw sums.
   */
  function ReportIntended(totals: seq<nat>, count: nat): (r: InputReport)
    requires |totals| == |Rails|
    ensures r.NoPower? <==> count == 0
    ensures r.NoPower? ==> r.message == NoPowerData
    ensures r.InputPower? ==> r.totals == totals && r.totalInputPower == totals[0]
    ensures r.InputPower? ==> r.averagePower * (count as real) == totals[0] as real
  {
    if count == 0 then NoPower(NoPowerData)
    else InputPower(totals, totals[0], totals[0] as real / count as real)
  }

  /**
   * The loop of `run_tegrastats`, with the report as intended. `totals` holds
   * the three running totals (`total_input_power`, `total_gpu_power`,
   * `total_cpu_power`): each rail's readings summed over the matching lines of
   * the session; `count` is the number of matching lines.
   */
  method RunTegrastats(stream: seq<string>) returns (totals: seq<nat>, count: nat, report: InputReport)
    ensures totals == RailTotals(Samples(PowerPattern, RawSession(stream)), |Rails|)
    ensures count == |Samples(PowerPattern, RawSession(stream))| <= |RawSession(stream)| <= |stream|
    ensures report == ReportIntended(totals, count)
    ensures ReportAsWritten(totals, count).UndefinedName? <==> Samples(PowerPattern, RawSession(stream)) != []
  {
    totals := Zeros(|Rails|);
    count := 0;
    ghost var seen: seq<string> := [];
    var i := 0;
    while i < |stream|
      invariant i <= |stream|
      invariant seen == stream[..i] && TakeUntilEmpty(seen) == seen
      invariant totals == RailTotals(Samples(PowerPattern, seen), |Rails|)
      invariant count == |Samples(PowerPattern, seen)|
    {
      var output := stream[i];
      if |output| == 0 {
        TakeUntilEmptyStops(stream, i);
        break;
      }
      assert stream[..i + 1] == seen + [output];
      TakeUntilEmptySnoc(seen, output);
      SamplesSnoc(PowerPattern, seen, output);
      match Search(PowerPattern, output) {
        case Some(power) =>
          RailTotalsSnoc(Samples(PowerPattern, seen), power, |Rails|);
          totals := Add(totals, power);
          count := count + 1;
        case None =>
      }
      seen := seen + [output];
      i := i + 1;
    }
    if i == |stream| {
      assert stream[..i] == stream;
    }
    report := ReportIntended(totals, count);
  }

  /**
   * A line holding the three rails in tegrastats' `NAME now/average` form gives
   * back the three current readings, whatever follows and after any text `pre`
   * in which the pattern matches nowhere.
   */
  lemma SearchReadsCurrentValues(pre: string, nows: seq<nat>, averages: seq<nat>, tail: string)
    requires |nows| == |Rails| == |averages|
    requires forall i :: 0 <= i < |pre| ==> MatchAt(PowerPattern, (pre + (SlashLine(Rails, nows, averages) + tail))[i..]).None?
    ensures Search(PowerPattern, pre + (SlashLine(Rails, nows, averages) + tail)) == Some(nows)
  {
    var line := pre + (SlashLine(Rails, nows, averages) + tail);
    SlashFieldsOf(Rails, nows, averages, tail);
    assert line[|pre|..] == SlashLine(Rails, nows, averages) + tail;
    SearchFindsFirstMatch(PowerPattern, line, |pre|);
  }

  /**
   * A blank line reads as "\n", which is not empty: the loop goes on past it,
   * and since the pattern does not match it, it adds no sample.
   */
  lemma BlankLineDoesNotEndSession(before: seq<string>, after: seq<string>)
    requires RawSession(before) == before
    ensures RawSession(before + ["\n"] + after) == before + ["\n"] + RawSession(after)
    ensures Samples(PowerPattern, RawSession(before + ["\n"] + after))
      == Samples(PowerPattern, before) + Samples(PowerPattern, RawSession(after))
  {
    assert !StartsWith("\n", Rails[0] + " ") && !StartsWith("", Rails[0] + " ");
    assert "\n"[0..] == "\n" && "\n"[1..] == "";
    SearchFailsOnlyWithoutMatch(PowerPattern, "\n");
    UnmatchedReadContinuesRawSession(PowerPattern, before, "\n", after);
  }

  /**
   * As written, every session in which some line matches ends in the failure
   * (`RunTegrastats`); a single tegrastats line carrying the three rails is
   * such a session.
   */
  lemma AsWrittenFailsOnData(nows: seq<nat>, averages: seq<nat>, tail: string)
    requires |nows| == |Rails| == |averages|
    ensures var stream := [SlashLine(Rails, nows, averages) + tail];
      var samples := Samples(PowerPattern, RawSession(stream));
      ReportAsWritten(RailTotals(samples, |Rails|), |samples|).UndefinedName?
  {
    var line := SlashLine(Rails, nows, averages) + tail;
    SearchReadsCurrentValues([], nows, averages, tail);
    assert [] + line == line;
    SlashFieldsOf(Rails, nows, averages, tail);
    assert |line| > 0;
    assert RawSession([line]) == [line];
    SamplesSnoc(PowerPattern, [], line);
    assert [] + [line] == [line];
  }

  /**
   * Where the code fails, the intended report prints the same totals, prints
   * the average that nano-pwr-msr.py computes at line 51 but fails before
   * printing, and goes on to the total input power.
   */
  lemma IntendedCompletesAsWritten(totals: seq<nat>, count: nat)
    requires |totals| == |Rails|
    ensures ReportAsWritten(totals, count).NothingCollected? <==> ReportIntended(totals, count).NoPower?
    ensures ReportAsWritten(totals, count).UndefinedName? ==>
      ReportIntended(totals, count).totals == ReportAsWritten(totals, count).printedTotals
      && ReportIntended(totals, count).averagePower == ReportAsWritten(totals, count).averagePower
  {
  }
}
