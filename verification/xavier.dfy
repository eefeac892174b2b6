/**
 * `xavier-pwr-msr.py`, the live `run_tegrastats` (AGX Xavier): six rails in the
 * slash format, stripped lines, one shared sample count, and a mean-of-means
 * report.
 *
 * `stream` is the sequence of strings successive `readline()` calls return
 * before the monitoring deadline passes; "" is what `readline()` returns once
 * tegrastats has closed its output.
 */
module XavierPower {
  import opened Wrappers
  import opened Text
  import opened Scan
  import opened Fields
  import opened Totals

  /** The rails of the pattern, in the order of its capture groups. */
  const Rails: seq<string> := ["GPU", "CPU", "SOC", "CV", "VDDRQ", "SYS5V"]

  /**
   * The pattern of `run_tegrastats`, `GPU (\d+)/\d+ CPU (\d+)/\d+ ... SYS5V (\d+)/\d+`;
   * `re.findall(...)[0]` converted with `int` is the leftmost match's readings.
   */
  const PowerPattern: Pattern := SlashRun(Rails)

  /**
   * The loop of `run_tegrastats` and the report after it. `totals` holds the
   * six running totals (`total_gpu_power` ... `total_sys5v_power`, in the
   * pattern's order): each rail's readings summed over the matching lines of
   * the session; `count` is the number of matching lines; the report is built
   * from them.
   */
  method RunTegrastats(stream: seq<string>) returns (totals: seq<nat>, count: nat, report: Summary)
    ensures totals == RailTotals(Samples(PowerPattern, StrippedSession(stream)), |Rails|)
    ensures count == |Samples(PowerPattern, StrippedSession(stream))| <= |StrippedSession(stream)| <= |stream|
    ensures report == MeanOfMeans(totals, count)
  {
    totals := Zeros(|Rails|);
    count := 0;
    ghost var seen: seq<string> := [];
    var i := 0;
    while i < |stream|
      invariant i <= |stream|
      invariant seen == StripAll(stream[..i]) && TakeUntilEmpty(seen) == seen
      invariant totals == RailTotals(Samples(PowerPattern, seen), |Rails|)
      invariant count == |Samples(PowerPattern, seen)|
    {
      var output := Strip(stream[i]);
      if |output| == 0 {
        StripAllAt(stream, i);
        TakeUntilEmptyStops(StripAll(stream), i);
        StripAllPrefix(stream, i);
        break;
      }
      StripAllStep(stream, i);
      TakeUntilEmptySnoc(seen, output);
      SamplesSnoc(PowerPattern, seen, output);
      match Search(PowerPattern, output) {
        case Some(power) =>
          RailTotalsSnoc(Samples(PowerPattern, seen), power, |Rails|);
          totals := Add(totals, power);
          count := count + 1;
        case None =>
      }
      seen := seen + [output];
      i := i + 1;
    }
    if i == |stream| {
      assert stream[..i] == stream;
    }
    report := MeanOfMeans(totals, count);
  }

  /**
   * A line holding the six rails in tegrastats' `NAME now/average` form gives
   * back the six current readings, whatever the running averages after the
   * slashes are and whatever text follows. The rail fields may come after any
   * text `pre` (tegrastats prints `RAM …` first) in which the pattern matches
   * nowhere.
   */
  lemma SearchReadsCurrentValues(pre: string, nows: seq<nat>, averages: seq<nat>, tail: string)
    requires |nows| == |Rails| == |averages|
    requires forall i :: 0 <= i < |pre| ==> MatchAt(PowerPattern, (pre + (SlashLine(Rails, nows, averages) + tail))[i..]).None?
    ensures Search(PowerPattern, pre + (SlashLine(Rails, nows, averages) + tail)) == Some(nows)
  {
    var line := pre + (SlashLine(Rails, nows, averages) + tail);
    SlashFieldsOf(Rails, nows, averages, tail);
    assert line[|pre|..] == SlashLine(Rails, nows, averages) + tail;
    SearchFindsFirstMatch(PowerPattern, line, |pre|);
  }

  /** Every sample carries exactly one reading per rail. */
  lemma SamplesAreSixWide(lines: seq<string>)
    ensures AllOfWidth(Samples(PowerPattern, lines), |Rails|)
  {
    forall i | 0 <= i < |Samples(PowerPattern, lines)| ensures |Samples(PowerPattern, lines)[i]| == |Rails| {
      SamplesFrom(PowerPattern, lines, i);
    }
  }
}
