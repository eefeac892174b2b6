/**
 * `orin-nano-pwr.py`, `run_tegrastats_vdd_in` (Orin Nano): the input rail
 * VDD_IN only, in the milliwatt format, unstripped lines, and its average.
 *
 * `stream` is the sequence of strings successive `readline()` calls return
 * before the monitoring deadline passes; "" is what `readline()` returns once
 * tegrastats has closed its output.
 */
module OrinNanoPower {
  import opened Wrappers
  import opened Text
  import opened Scan
  import opened Fields
  import opened Totals

  /** `VDD_IN (\d+)mW/\d+mW`, searched for anywhere in the line; group 1 is the current reading. */
  const PowerPattern: Pattern := MilliwattPair("VDD_IN")

  const NoVddInData := "No VDD_IN data collected."

  /** The VDD_IN readings of the matching lines, in read order. */
  function VddInReadings(lines: seq<string>): (r: seq<nat>)
    ensures |r| == |Samples(PowerPattern, lines)|
  {
    Column(Samples(PowerPattern, lines), 0)
  }

  /** The report: nothing collected, or the total and its average over the matching lines. */
  datatype VddInSummary =
    | NothingCollected(message: string)
    | VddIn(total: nat, average: real)

  function Summarize(total: nat, count: nat): (r: VddInSummary)
    ensures r.NothingCollected? <==> count == 0
    ensures r.NothingCollected? ==> r.message == NoVddInData
    ensures r.VddIn? ==> r.total == total && r.average * (count as real) == total as real
  {
    if count == 0 then NothingCollected(NoVddInData) else VddIn(total, total as real / count as real)
  }

  /**
   * The loop of `run_tegrastats_vdd_in` and the report after it: `total` is
   * the sum of the VDD_IN readings of the matching lines of the session and
   * `count` the number of those lines.
   */
  method RunTegrastatsVddIn(stream: seq<string>) returns (total: nat, count: nat, report: VddInSummary)
    ensures total == Sum(VddInReadings(RawSession(stream)))
    ensures count == |VddInReadings(RawSession(stream))| <= |RawSession(stream)| <= |stream|
    ensures report == Summarize(total, count)
  {
    total := 0;
    count := 0;
    ghost var seen: seq<string> := [];
    var i := 0;
    while i < |stream|
      invariant i <= |stream|
      invariant seen == stream[..i] && TakeUntilEmpty(seen) == seen
      invariant total == RailTotals(Samples(PowerPattern, seen), 1)[0]
      invariant count == |Samples(PowerPattern, seen)|
    {
      var output := stream[i];
      if |output| == 0 {
        TakeUntilEmptyStops(stream, i);
        break;
      }
      assert stream[..i + 1] == seen + [output];
      TakeUntilEmptySnoc(seen, output);
      SamplesSnoc(PowerPattern, seen, output);
      var vddInData := Search(PowerPattern, output);
      if vddInData.Some? {
        var vddIn := vddInData.value[0];
        RailTotalsSnoc(Samples(PowerPattern, seen), vddInData.value, 1);
        total := total + vddIn;
        count := count + 1;
      }
      seen := seen + [output];
      i := i + 1;
    }
    if i == |stream| {
      assert stream[..i] == stream;
    }
    RailTotalIsColumnSum(Samples(PowerPattern, seen), 1, 0);
    report := Summarize(total, count);
  }

  /**
   * A VDD_IN field in tegrastats' `VDD_IN nowmW/averagemW` form gives back the
   * current reading, whatever follows and after any text `pre` (tegrastats
   * prints `RAM …` and the temperatures first) in which the pattern matches
   * nowhere.
   */
  lemma SearchReadsCurrentValue(pre: string, now: nat, average: nat, tail: string)
    requires forall i :: 0 <= i < |pre| ==> MatchAt(PowerPattern, (pre + (MilliwattText("VDD_IN", now, average) + tail))[i..]).None?
    ensures Search(PowerPattern, pre + (MilliwattText("VDD_IN", now, average) + tail)) == Some([now])
  {
    var line := pre + (MilliwattText("VDD_IN", now, average) + tail);
    MilliwattPairOf("VDD_IN", now, average, tail);
    assert line[|pre|..] == MilliwattText("VDD_IN", now, average) + tail;
    SearchFindsFirstMatch(PowerPattern, line, |pre|);
  }

  /**
   * The pattern has no word boundary: a rail whose name merely ends in
   * `VDD_IN` (here any one character in front, as in `XVDD_IN` or `VVDD_IN`)
   * is read as VDD_IN, from the second character on.
   */
  lemma LongerRailNameAlsoMatches(c: char, now: nat, average: nat, tail: string)
    ensures Search(PowerPattern, [c] + (MilliwattText("VDD_IN", now, average) + tail)) == Some([now])
  {
    var field := MilliwattText("VDD_IN", now, average) + tail;
    var line := [c] + field;
    assert MatchAt(PowerPattern, line[1..]) == Some([now]) by {
      MilliwattPairOf("VDD_IN", now, average, tail);
      assert line[1..] == field;
    }
    NoMatchAtTheExtraCharacter(c, now, average, tail);
    SearchFindsFirstMatch(PowerPattern, line, 1);
  }

  /** The character in front of `VDD_IN` is not where the match starts. */
  lemma NoMatchAtTheExtraCharacter(c: char, now: nat, average: nat, tail: string)
    ensures MatchAt(PowerPattern, ([c] + (MilliwattText("VDD_IN", now, average) + tail))[0..]).None?
  {
    var field := MilliwattText("VDD_IN", now, average) + tail;
    var line := [c] + field;
    assert line[0..] == line;
    assert 1 < |line| && line[1] == 'V' by {
      TextOpensWithName("VDD_IN", now, average, 0);
      assert line[1] == field[0];
    }
    NotDoubledV(line);
  }

  /** Text whose second character is `V` does not start with `VDD_IN `. */
  lemma NotDoubledV(line: string)
    requires 1 < |line| && line[1] == 'V'
    ensures !StartsWith(line, "VDD_IN ")
  {
    var prefix := "VDD_IN ";
    assert prefix[1] == 'D';
    CharDiffersAt(line, prefix, 1);
  }

  /** A blank line reads as "\n": the loop goes on past it, and it adds no reading. */
  lemma BlankLineDoesNotEndSession(before: seq<string>, after: seq<string>)
    requires RawSession(before) == before
    ensures RawSession(before + ["\n"] + after) == before + ["\n"] + RawSession(after)
    ensures Samples(PowerPattern, RawSession(before + ["\n"] + after))
      == Samples(PowerPattern, before) + Samples(PowerPattern, RawSession(after))
  {
    assert !StartsWith("\n", "VDD_IN ") && !StartsWith("", "VDD_IN ");
    assert "\n"[0..] == "\n" && "\n"[1..] == "";
    SearchFailsOnlyWithoutMatch(PowerPattern, "\n");
    UnmatchedReadContinuesRawSession(PowerPattern, before, "\n", after);
  }
}
