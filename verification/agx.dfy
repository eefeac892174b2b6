/**
 * `agx-pwr-msr.py` (AGX series): every non-empty read is collected, stripped;
 * `parse_tegrastats_output` then keeps, for each of four rails, its own list of
 * readings; the lists are summed, the sums added up, and the grand total is
 * divided by the monitoring duration.
 *
 * `stream` is the sequence of strings successive `readline()` calls return
 * before the monitoring deadline passes.
 */
module AgxPower {
  import opened Wrappers
  import opened Text
  import opened Scan
  import opened Fields
  import opened Totals

  /** The rails, in the order of the four returned lists. */
  const Rails: seq<string> := ["VDD_GPU_SOC", "VDD_CPU_CV", "VIN_SYS_5V0", "VDDQ_VDD2_1V8AO"]

  /** The monitoring duration in seconds, which is also the divisor of the average. */
  const Duration: nat := 10

  /** What the collection loop appends for each read: the stripped text of every non-empty read, in read order. */
  function Collected(stream: seq<string>): (r: seq<string>)
    ensures |r| <= |stream|
    decreases |stream|
  {
    if stream == [] then []
    else
      var init := Collected(stream[..|stream| - 1]);
      var line := stream[|stream| - 1];
      if |line| > 0 then init + [Strip(line)] else init
  }

  /**
   * The collection loop: it reads until the deadline and appends every
   * non-empty read, stripped; an empty read is skipped, not a reason to stop.
   */
  method Collect(stream: seq<string>) returns (output: seq<string>)
    ensures output == Collected(stream)
  {
    output := [];
    var i := 0;
    while i < |stream|
      invariant i <= |stream|
      invariant output == Collected(stream[..i])
    {
      var line := stream[i];
      assert stream[..i + 1][..i] == stream[..i];
      if |line| > 0 {
        output := output + [Strip(line)];
      }
      i := i + 1;
    }
    assert stream[..i] == stream;
  }

  /** A blank line is collected as an empty string, and the end of the stream adds nothing. */
  lemma CollectKeepsBlankLines(stream: seq<string>)
    ensures Collected(stream + ["\n"]) == Collected(stream) + [""]
    ensures Collected(stream + [""]) == Collected(stream)
  {
    assert (stream + ["\n"])[..|stream|] == stream;
    assert (stream + [""])[..|stream|] == stream;
    assert AllSpace("\n");
    StripEmptyIff("\n");
  }

  /** `NAME in line` for all four rail names: the test that lets a line be considered at all. */
  predicate NamesAllRails(line: string) {
    Contains(line, Rails[0]) && Contains(line, Rails[1]) && Contains(line, Rails[2]) && Contains(line, Rails[3])
  }

  /**
   * The list `parse_tegrastats_output` builds for the rail `name`: for each line
   * naming all four rails, in order, the number after the first `name ` followed
   * by digits, when there is one.
   */
  function RailValues(lines: seq<string>, name: string): (r: seq<nat>)
    ensures |r| <= |lines|
    decreases |lines|
  {
    if lines == [] then []
    else
      var init := RailValues(lines[..|lines| - 1], name);
      var line := lines[|lines| - 1];
      if NamesAllRails(line) && Search(Reading(name), line).Some? then init + [Search(Reading(name), line).value[0]]
      else init
  }

  /** One more line extends a rail's list by its reading exactly when it names all rails and has a reading for that rail. */
  lemma RailValuesStep(lines: seq<string>, i: nat, name: string)
    requires i < |lines|
    ensures NamesAllRails(lines[i]) && Search(Reading(name), lines[i]).Some? ==>
      RailValues(lines[..i + 1], name) == RailValues(lines[..i], name) + [Search(Reading(name), lines[i]).value[0]]
    ensures !(NamesAllRails(lines[i]) && Search(Reading(name), lines[i]).Some?) ==>
      RailValues(lines[..i + 1], name) == RailValues(lines[..i], name)
  {
    assert lines[..i + 1][..i] == lines[..i];
  }

  /** The lines `parse_tegrastats_output` looks into: those naming all four rails, in order. */
  function Considered(lines: seq<string>): (r: seq<string>)
    ensures |r| <= |lines|
    ensures forall k :: 0 <= k < |r| ==> NamesAllRails(r[k])
    ensures forall k :: 0 <= k < |lines| && NamesAllRails(lines[k]) ==> lines[k] in r
    decreases |lines|
  {
    if lines == [] then []
    else
      var init := Considered(lines[..|lines| - 1]);
      if NamesAllRails(lines[|lines| - 1]) then init + [lines[|lines| - 1]] else init
  }

  /**
   * Each rail's list gets at most one value per considered line, and possibly
   * fewer: the lists grow independently of each other.
   */
  lemma {:induction false} RailValuesAtMostConsidered(lines: seq<string>, name: string)
    ensures |RailValues(lines, name)| <= |Considered(lines)|
    decreases |lines|
  {
    if lines != [] {
      RailValuesAtMostConsidered(lines[..|lines| - 1], name);
    }
  }

  /** A line that does not name all four rails adds to no list, even when it carries a reading for the rail. */
  lemma LineMissingARailAddsNothing(lines: seq<string>, line: string, name: string)
    requires !NamesAllRails(line)
    ensures RailValues(lines + [line], name) == RailValues(lines, name)
  {
    assert (lines + [line])[..|lines|] == lines;
  }

  /**
   * On a field in tegrastats' milliwatt form, `NAME (\d+)` reads the current
   * value: the digits stop at `mW`.
   */
  lemma ReadingTakesCurrentValue(name: string, now: nat, average: nat, tail: string)
    ensures Search(Reading(name), MilliwattText(name, now, average) + tail) == Some([now])
  {
    var x := "mW/" + Decimal(average) + "mW" + tail;
    var line := MilliwattText(name, now, average) + tail;
    assert line == name + " " + Decimal(now) + x;
    ReadingOf(name, now, x);
    assert line[0..] == line;
  }

  /**
   * `parse_tegrastats_output`: one pass over the collected lines, appending to
   * the four lists independently.
   */
  method ParseOutput(output: seq<string>) returns (gpuSoc: seq<nat>, cpuCv: seq<nat>, sys5v0: seq<nat>, vddq: seq<nat>)
    ensures gpuSoc == RailValues(output, Rails[0]) && cpuCv == RailValues(output, Rails[1])
    ensures sys5v0 == RailValues(output, Rails[2]) && vddq == RailValues(output, Rails[3])
  {
    gpuSoc, cpuCv, sys5v0, vddq := [], [], [], [];
    for i := 0 to |output|
      invariant gpuSoc == RailValues(output[..i], Rails[0]) && cpuCv == RailValues(output[..i], Rails[1])
      invariant sys5v0 == RailValues(output[..i], Rails[2]) && vddq == RailValues(output[..i], Rails[3])
    {
      var line := output[i];
      RailValuesStep(output, i, Rails[0]);
      RailValuesStep(output, i, Rails[1]);
      RailValuesStep(output, i, Rails[2]);
      RailValuesStep(output, i, Rails[3]);
      if Contains(line, Rails[0]) && Contains(line, Rails[1]) && Contains(line, Rails[2]) && Contains(line, Rails[3]) {
        var gpuSocValue := Search(Reading(Rails[0]), line);
        var cpuCvValue := Search(Reading(Rails[1]), line);
        var sys5v0Value := Search(Reading(Rails[2]), line);
        var vddqValue := Search(Reading(Rails[3]), line);
        if gpuSocValue.Some? {
          gpuSoc := gpuSoc + [gpuSocValue.value[0]];
        }
        if cpuCvValue.Some? {
          cpuCv := cpuCv + [cpuCvValue.value[0]];
        }
        if sys5v0Value.Some? {
          sys5v0 := sys5v0 + [sys5v0Value.value[0]];
        }
        if vddqValue.Some? {
          vddq := vddq + [vddqValue.value[0]];
        }
      }
    }
    assert output[..|output|] == output;
  }

  /** The figures the script prints: the four rail totals, their sum, and that sum per second of monitoring. */
  datatype Consumption = Consumption(railTotals: seq<nat>, totalPower: nat, averagePower: real)

  /** `sum` of each list, `total_power` as their sum, and `average_power = total_power / duration`. */
  function Aggregate(gpuSoc: seq<nat>, cpuCv: seq<nat>, sys5v0: seq<nat>, vddq: seq<nat>): (r: Consumption)
    ensures r.railTotals == [Sum(gpuSoc), Sum(cpuCv), Sum(sys5v0), Sum(vddq)]
    ensures r.totalPower == Sum(gpuSoc + cpuCv + sys5v0 + vddq)
    ensures r.averagePower * (Duration as real) == r.totalPower as real
  {
    var totalPower := Sum(gpuSoc) + Sum(cpuCv) + Sum(sys5v0) + Sum(vddq);
    SumConcat(gpuSoc, cpuCv);
    SumConcat(gpuSoc + cpuCv, sys5v0);
    SumConcat(gpuSoc + cpuCv + sys5v0, vddq);
    Consumption([Sum(gpuSoc), Sum(cpuCv), Sum(sys5v0), Sum(vddq)], totalPower, totalPower as real / Duration as real)
  }

  /** The whole script: collect, parse, aggregate. */
  method MeasurePower(stream: seq<string>) returns (r: Consumption)
    ensures var lines := Collected(stream);
      r == Aggregate(RailValues(lines, Rails[0]), RailValues(lines, Rails[1]), RailValues(lines, Rails[2]), RailValues(lines, Rails[3]))
  {
    var output := Collect(stream);
    var gpuSoc, cpuCv, sys5v0, vddq := ParseOutput(output);
    r := Aggregate(gpuSoc, cpuCv, sys5v0, vddq);
  }
}
