/**
 * Running per-rail totals and the averages computed from them. A sample is one
 * matched line's readings, rail by rail in the order of the script's pattern.
 */
module Totals {

  function Sum(xs: seq<nat>): nat
    decreases |xs|
  {
    if xs == [] then 0 else Sum(xs[..|xs| - 1]) + xs[|xs| - 1]
  }

  /** The sum of two runs of readings one after the other is the sum of their sums. */
  lemma {:induction false} SumConcat(a: seq<nat>, b: seq<nat>)
    ensures Sum(a + b) == Sum(a) + Sum(b)
    decreases |b|
  {
    if b != [] {
      var n := |b| - 1;
      SumConcat(a, b[..n]);
      assert (a + b)[..|a + b| - 1] == a + b[..n];
    } else {
      assert a + b == a;
    }
  }

  function SumReal(xs: seq<real>): real
    decreases |xs|
  {
    if xs == [] then 0.0 else SumReal(xs[..|xs| - 1]) + xs[|xs| - 1]
  }

  function Zeros(n: nat): (r: seq<nat>)
    ensures |r| == n && forall k :: 0 <= k < n ==> r[k] == 0
  {
    seq(n, k => 0)
  }

  /** The running totals after one more sample: `total_x += x` for every rail. */
  function Add(totals: seq<nat>, sample: seq<nat>): (r: seq<nat>)
    ensures |r| == |totals|
    ensures forall k :: 0 <= k < |totals| ==> r[k] == totals[k] + (if k < |sample| then sample[k] else 0)
  {
    seq(|totals|, k requires 0 <= k < |totals| => totals[k] + (if k < |sample| then sample[k] else 0))
  }

  /** The `n` running totals once every sample has been added, starting from zero. */
  function RailTotals(samples: seq<seq<nat>>, n: nat): (r: seq<nat>)
    ensures |r| == n
    decreases |samples|
  {
    if samples == [] then Zeros(n)
    else Add(RailTotals(samples[..|samples| - 1], n), samples[|samples| - 1])
  }

  /** One more sample adds its readings to the running totals. */
  lemma RailTotalsSnoc(samples: seq<seq<nat>>, sample: seq<nat>, n: nat)
    ensures RailTotals(samples + [sample], n) == Add(RailTotals(samples, n), sample)
  {
    assert (samples + [sample])[..|samples|] == samples;
  }

  /** One rail's readings, sample by sample. */
  function Column(samples: seq<seq<nat>>, k: nat): (r: seq<nat>)
    ensures |r| == |samples|
  {
    seq(|samples|, j requires 0 <= j < |samples| => if k < |samples[j]| then samples[j][k] else 0)
  }

  /** Each sample's readings added across rails: the power of that one line. */
  function LineSums(samples: seq<seq<nat>>): (r: seq<nat>)
    ensures |r| == |samples|
  {
    seq(|samples|, j requires 0 <= j < |samples| => Sum(samples[j]))
  }

  predicate AllOfWidth(samples: seq<seq<nat>>, n: nat) {
    forall j :: 0 <= j < |samples| ==> |samples[j]| == n
  }

  /** Each running total is the sum of its own rail's readings over the samples. */
  lemma {:induction false} RailTotalIsColumnSum(samples: seq<seq<nat>>, n: nat, k: nat)
    requires k < n
    ensures RailTotals(samples, n)[k] == Sum(Column(samples, k))
    decreases |samples|
  {
    if samples != [] {
      var init := samples[..|samples| - 1];
      RailTotalIsColumnSum(init, n, k);
      assert Column(samples, k)[..|samples| - 1] == Column(init, k);
    }
  }

  lemma {:induction false} SumAdd(a: seq<nat>, b: seq<nat>)
    requires |a| == |b|
    ensures Sum(Add(a, b)) == Sum(a) + Sum(b)
    decreases |a|
  {
    if a != [] {
      var n := |a| - 1;
      SumAdd(a[..n], b[..n]);
      assert Add(a, b)[..n] == Add(a[..n], b[..n]);
    }
  }

  /**
   * Adding the rail totals together gives the same figure as adding each line's
   * readings and then adding the lines: column sums and row sums agree.
   */
  lemma {:induction false} SumOfRailTotals(samples: seq<seq<nat>>, n: nat)
    requires AllOfWidth(samples, n)
    ensures Sum(RailTotals(samples, n)) == Sum(LineSums(samples))
    decreases |samples|
  {
    if samples == [] {
      ZerosSum(n);
    } else {
      var init := samples[..|samples| - 1];
      SumOfRailTotals(init, n);
      SumAdd(RailTotals(init, n), samples[|samples| - 1]);
      assert LineSums(samples)[..|samples| - 1] == LineSums(init);
    }
  }

  lemma {:induction false} ZerosSum(n: nat)
    ensures Sum(Zeros(n)) == 0
    decreases n
  {
    if n > 0 {
      assert Zeros(n)[..n - 1] == Zeros(n - 1);
      ZerosSum(n - 1);
    }
  }

  /** `total / count` for every rail, as Python's true division computes it (exactly, here). */
  function Averages(totals: seq<nat>, count: nat): (r: seq<real>)
    requires count > 0
    ensures |r| == |totals|
    ensures forall k :: 0 <= k < |totals| ==> r[k] * (count as real) == totals[k] as real
  {
    seq(|totals|, k requires 0 <= k < |totals| => totals[k] as real / count as real)
  }

  /** The sum of the per-rail averages is the grand total over the shared count. */
  lemma {:induction false} SumOfAverages(totals: seq<nat>, count: nat)
    requires count > 0
    ensures SumReal(Averages(totals, count)) * (count as real) == Sum(totals) as real
    decreases |totals|
  {
    if totals != [] {
      var n := |totals| - 1;
      assert Averages(totals, count)[..n] == Averages(totals[..n], count);
      SumOfAverages(totals[..n], count);
    }
  }

  const NoPowerData := "No power data collected."

  /** What a mean-of-means report holds: nothing collected, or per-rail averages and their sum. */
  datatype Summary = NoData(message: string) | Report(averages: seq<real>, total: real)

  /**
   * The report of a script that keeps one shared sample count: no division at all
   * when nothing matched, otherwise `total / count` per rail and the sum of those
   * averages as the total average power.
   */
  function MeanOfMeans(totals: seq<nat>, count: nat): (r: Summary)
    ensures r.NoData? <==> count == 0
    ensures r.NoData? ==> r.message == NoPowerData
    ensures r.Report? ==> |r.averages| == |totals|
    ensures r.Report? ==> forall k :: 0 <= k < |totals| ==> r.averages[k] * (count as real) == totals[k] as real
    ensures r.Report? ==> r.total * (count as real) == Sum(totals) as real
  {
    if count == 0 then NoData(NoPowerData)
    else
      SumOfAverages(totals, count);
      Report(Averages(totals, count), SumReal(Averages(totals, count)))
  }

  /**
   * With one count shared by all rails, the total average power (the sum of
   * the per-rail averages) is the mean, over the samples, of each sample's
   * readings added together.
   */
  lemma MeanOfMeansIsMeanLinePower(samples: seq<seq<nat>>, n: nat)
    requires |samples| > 0 && AllOfWidth(samples, n)
    ensures MeanOfMeans(RailTotals(samples, n), |samples|).total * (|samples| as real)
      == Sum(LineSums(samples)) as real
  {
    SumOfRailTotals(samples, n);
  }
}
