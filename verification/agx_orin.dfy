/**
 * `agx-orin-pwr-msr.py`, `run_tegrastats` (AGX Orin): four rails in the
 * milliwatt format, stripped lines, one shared sample count, and a
 * mean-of-means report.
 *
 * `stream` is the sequence of strings successive `readline()` calls return
 * before the monitoring deadline passes; "" is what `readline()` returns once
 * tegrastats has closed its output.
 */
module AgxOrinPower {
  import opened Wrappers
  import opened Text
  import opened Scan
  import opened Fields
  import opened Totals

  /** The rails of the pattern, in the order of its capture groups. */
  const Rails: seq<string> := ["VDD_GPU_SOC", "VDD_CPU_CV", "VIN_SYS_5V0", "VDDQ_VDD2_1V8AO"]

  /**
   * The pattern of `run_tegrastats`,
   * `VDD_GPU_SOC (\d+)mW/.* VDD_CPU_CV (\d+)mW/.* VIN_SYS_5V0 (\d+)mW/.* VDDQ_VDD2_1V8AO (\d+)mW/.*`;
   * `re.findall(...)[0]` converted with `int` is the leftmost match's readings,
   * each greedy `.*` taking as much of the line as still lets the rest match.
   */
  const PowerPattern: Pattern := MilliwattChain(Rails)

  /**
   * The loop of `run_tegrastats` and the report after it. `totals` holds the
   * four running totals (`total_vdd_gpu_soc` ... `total_vddq_vdd2_1v8ao`, in
   * the pattern's order): each rail's readings summed over the matching lines
   * of the session; `count` is the number of matching lines; the report is
   * built from them.
   */
  method RunTegrastats(stream: seq<string>) returns (totals: seq<nat>, count: nat, report: Summary)
    ensures totals == RailTotals(Samples(PowerPattern, StrippedSession(stream)), |Rails|)
    ensures count == |Samples(PowerPattern, StrippedSession(stream))| <= |StrippedSession(stream)| <= |stream|
    ensures report == MeanOfMeans(totals, count)
  {
    totals := Zeros(|Rails|);
    count := 0;
    ghost var seen: seq<string> := [];
    var i := 0;
    while i < |stream|
      invariant i <= |stream|
      invariant seen == StripAll(stream[..i]) && TakeUntilEmpty(seen) == seen
      invariant totals == RailTotals(Samples(PowerPattern, seen), |Rails|)
      invariant count == |Samples(PowerPattern, seen)|
    {
      var output := Strip(stream[i]);
      if |output| == 0 {
        StripAllAt(stream, i);
        TakeUntilEmptyStops(StripAll(stream), i);
        StripAllPrefix(stream, i);
        break;
      }
      StripAllStep(stream, i);
      TakeUntilEmptySnoc(seen, output);
      SamplesSnoc(PowerPattern, seen, output);
      match Search(PowerPattern, output) {
        case Some(power) =>
          RailTotalsSnoc(Samples(PowerPattern, seen), power, |Rails|);
          totals := Add(totals, power);
          count := count + 1;
        case None =>
      }
      seen := seen + [output];
      i := i + 1;
    }
    if i == |stream| {
      assert stream[..i] == stream;
    }
    report := MeanOfMeans(totals, count);
  }

  /** The four rail names are distinct: none is a prefix of another, none holds a space or opens with a digit. */
  lemma RailsAreDistinct()
    ensures DistinctRailNames(Rails)
  {
    RailNamesDiffer();
    RailNamesArePlain();
  }

  lemma RailNamesArePlain()
    ensures forall j :: 0 <= j < |Rails| ==> NoSpace(Rails[j]) && Rails[j] != [] && !IsDigit(Rails[j][0])
  {
  }

  lemma RailNamesDiffer()
    ensures forall i, j :: 0 <= i < j < |Rails| ==> DifferWithin(Rails[j], Rails[i])
  {
    assert DifferWithin(Rails[1], Rails[0]) by { assert Rails[1][4] != Rails[0][4]; }
    assert DifferWithin(Rails[2], Rails[0]) by { assert Rails[2][1] != Rails[0][1]; }
    assert DifferWithin(Rails[3], Rails[0]) by { assert Rails[3][3] != Rails[0][3]; }
    assert DifferWithin(Rails[2], Rails[1]) by { assert Rails[2][1] != Rails[1][1]; }
    assert DifferWithin(Rails[3], Rails[1]) by { assert Rails[3][3] != Rails[1][3]; }
    assert DifferWithin(Rails[3], Rails[2]) by { assert Rails[3][1] != Rails[2][1]; }
  }

  /**
   * A line holding the four rails in tegrastats' `NAME nowmW/averagemW` form,
   * in the pattern's order, after some text `pre` (tegrastats prints `RAM …`
   * first) in which the pattern matches nowhere, is counted whatever follows,
   * and its first reading is the current VDD_GPU_SOC value. When what follows
   * holds no space (a stripped line ending with the last rail, say), the four
   * readings are the four current values.
   */
  lemma StandardLineIsCounted(pre: string, nows: seq<nat>, averages: seq<nat>, tail: string)
    requires |nows| == |Rails| == |averages|
    requires forall i :: 0 <= i < |pre| ==> MatchAt(PowerPattern, (pre + (MilliwattLine(Rails, nows, averages) + tail))[i..]).None?
    ensures Search(PowerPattern, pre + (MilliwattLine(Rails, nows, averages) + tail)).Some?
    ensures Search(PowerPattern, pre + (MilliwattLine(Rails, nows, averages) + tail)).value[0] == nows[0]
    ensures NoSpace(tail) ==> Search(PowerPattern, pre + (MilliwattLine(Rails, nows, averages) + tail)) == Some(nows)
  {
    var fields := MilliwattLine(Rails, nows, averages) + tail;
    var line := pre + fields;
    ChainMatchesMilliwattLine(Rails, nows, averages, tail);
    assert line[|pre|..] == fields;
    assert MatchAt(PowerPattern, fields) == Chain(fields, Rails);
    SearchFindsFirstMatch(PowerPattern, line, |pre|);
    if NoSpace(tail) {
      RailsAreDistinct();
      ChainReadsMilliwattLine(Rails, nows, averages, tail);
    }
  }

  /** The line `VDD_GPU_SOC 500mW/500mW VDD_CPU_CV 300mW/300mW VIN_SYS_5V0 200mW/200mW VDDQ_VDD2_1V8AO 100mW/100mW`. */
  lemma FourRailLineReadsBack()
    ensures Search(PowerPattern, MilliwattLine(Rails, [500, 300, 200, 100], [500, 300, 200, 100])) == Some([500, 300, 200, 100])
  {
    var line := MilliwattLine(Rails, [500, 300, 200, 100], [500, 300, 200, 100]);
    assert NoSpace("");
    StandardLineIsCounted([], [500, 300, 200, 100], [500, 300, 200, 100], "");
    assert [] + (line + "") == line;
  }

  /** Every sample carries exactly one reading per rail. */
  lemma SamplesAreFourWide(lines: seq<string>)
    ensures AllOfWidth(Samples(PowerPattern, lines), |Rails|)
  {
    forall i | 0 <= i < |Samples(PowerPattern, lines)| ensures |Samples(PowerPattern, lines)[i]| == |Rails| {
      SamplesFrom(PowerPattern, lines, i);
    }
  }
}
