/**
 * The running statistics of lib/capricious/sample_sink.rb: count, minimum,
 * maximum and Welford's one-pass mean and variance. Floats are modelled as
 * reals, so the one-pass estimates are exactly the batch statistics of the
 * samples seen so far.
 */
module Sink {
  import opened Wrappers

  /** The sum of the samples. */
  function Sum(s: seq<real>): real
  {
    if |s| == 0 then 0.0 else Sum(s[..|s| - 1]) + s[|s| - 1]
  }

  function Sq(x: real): real
  {
    x * x
  }

  /** The sum of the squares of the samples. */
  function SumSq(s: seq<real>): real
  {
    if |s| == 0 then 0.0 else SumSq(s[..|s| - 1]) + Sq(s[|s| - 1])
  }

  /** The sum of squared deviations from a centre c. */
  function SumSqDev(s: seq<real>, c: real): (r: real)
    ensures r >= 0.0
  {
    if |s| == 0 then 0.0
    else
      var d := s[|s| - 1] - c;
      SquareNonnegative(d);
      SumSqDev(s[..|s| - 1], c) + Sq(d)
  }

  lemma SquareNonnegative(d: real)
    ensures Sq(d) >= 0.0
  {
    if d < 0.0 {
      assert d * d == (-d) * (-d);
    }
  }

  /** The arithmetic mean, 0 for no samples (the initial `@mean`). */
  function Mean(s: seq<real>): real
  {
    if |s| == 0 then 0.0 else Sum(s) / |s| as real
  }

  /** The smallest sample. */
  function SeqMin(s: seq<real>): (r: real)
    requires |s| > 0
    ensures r in s && forall i :: 0 <= i < |s| ==> r <= s[i]
  {
    if |s| == 1 then s[0]
    else
      var m := SeqMin(s[..|s| - 1]);
      if s[|s| - 1] < m then s[|s| - 1] else m
  }

  /** The largest sample. */
  function SeqMax(s: seq<real>): (r: real)
    requires |s| > 0
    ensures r in s && forall i :: 0 <= i < |s| ==> s[i] <= r
  {
    if |s| == 1 then s[0]
    else
      var m := SeqMax(s[..|s| - 1]);
      if s[|s| - 1] > m then s[|s| - 1] else m
  }

  /** One more term of the expansion, as plain algebra. */
  lemma ExpandStep(q: real, t: real, k: real, x: real, c: real)
    ensures q - 2.0 * c * t + k * Sq(c) + Sq(x - c)
         == (q + Sq(x)) - 2.0 * c * (t + x) + (k + 1.0) * Sq(c)
  {
    assert (x - c) * (x - c) == x * x - 2.0 * c * x + c * c;
    assert 2.0 * c * (t + x) == 2.0 * c * t + 2.0 * c * x;
    assert (k + 1.0) * c * c == k * c * c + c * c;
  }

  /** The deviation sum expanded: `Σ(x - c)² = Σx² - 2cΣx + n c²`. */
  lemma {:induction false} SumSqDevExpand(s: seq<real>, c: real)
    ensures SumSqDev(s, c) == SumSq(s) - 2.0 * c * Sum(s) + |s| as real * Sq(c)
  {
    if |s| > 0 {
      var p, x := s[..|s| - 1], s[|s| - 1];
      var k := |p| as real;
      SumSqDevExpand(p, c);
      assert SumSqDev(s, c) == SumSqDev(p, c) + Sq(x - c);
      assert SumSq(s) == SumSq(p) + Sq(x);
      assert Sum(s) == Sum(p) + x;
      ExpandStep(SumSq(p), Sum(p), k, x, c);
      assert |s| as real == k + 1.0;
    }
  }

  /** The expansion at centre c, with the deviation sum and the sums handed back as plain values. */
  lemma ExpandAt(s: seq<real>, c: real) returns (dev: real, q: real, S: real, n: real)
    ensures dev == SumSqDev(s, c) && q == SumSq(s) && S == Sum(s) && n == |s| as real
    ensures dev == q - 2.0 * c * S + n * Sq(c)
  {
    dev, q, S, n := SumSqDev(s, c), SumSq(s), Sum(s), |s| as real;
    SumSqDevExpand(s, c);
  }

  /**
   * Welford's identity on the running sums, as plain algebra: S = Σx over n
   * samples of mean m, and m' the mean after x is added.
   */
  lemma WelfordAlgebra(d1: real, d2: real, q: real, S: real, n: real, q2: real, S2: real, n2: real,
                        sum: real, len: real, m: real, m': real, x: real)
    requires sum == len * m && (len + 1.0) * m' == sum + x
    requires S == sum && n == len && q2 == q && S2 == S && n2 == n
    requires d1 == q - 2.0 * m' * S + n * Sq(m')
    requires d2 == q2 - 2.0 * m * S2 + n2 * Sq(m)
    ensures d1 + Sq(x - m') == d2 + (x - m) * (x - m')
  {
    assert d2 == q - 2.0 * m * S + n * Sq(m);
    assert S == n * m && (n + 1.0) * m' == S + x;
    var e := m - m';
    assert Sq(x - m') - (x - m) * (x - m') == (x - m') * e;
    assert -2.0 * m' * S + 2.0 * m * S == 2.0 * n * m * e;
    assert n * Sq(m') - n * Sq(m) == -(n * (m + m') * e);
    assert (x - m') + 2.0 * n * m - n * (m + m') == S + x - (n + 1.0) * m';
    assert (x - m') * e + 2.0 * n * m * e - n * (m + m') * e
        == ((x - m') + 2.0 * n * m - n * (m + m')) * e;
  }

  /** `m' = m + (x - m)/(n + 1)` is the same as `(n + 1) m' = S + x` when S = n m. */
  lemma MeanUpdate(S: real, n: real, m: real, m': real, x: real)
    requires n >= 0.0 && S == n * m
    ensures (n + 1.0) * m' == S + x <==> m' == m + (x - m) / (n + 1.0)
  {
    var d := (x - m) / (n + 1.0);
    assert (n + 1.0) * d == x - m;
    assert (n + 1.0) * (m + d) == (n + 1.0) * m + (n + 1.0) * d;
    if (n + 1.0) * m' == S + x {
      assert (n + 1.0) * (m' - (m + d)) == 0.0;
    }
  }

  /** The mean times the count is the sum. */
  lemma {:induction false} MeanTimesCount(s: seq<real>)
    ensures Sum(s) == |s| as real * Mean(s)
  {
  }

  /** The mean after x joins s, times the new count, is the old sum plus x. */
  lemma {:induction false} MeanAfterAppend(s: seq<real>, x: real)
    ensures (|s| as real + 1.0) * Mean(s + [x]) == Sum(s) + x
  {
    MeanTimesCount(s + [x]);
    AppendSums(s, x, 0.0);
    assert |s + [x]| as real == |s| as real + 1.0;
  }

  /** Appending a sample adds one term to every sum. */
  lemma {:induction false} AppendSums(s: seq<real>, x: real, c: real)
    ensures Sum(s + [x]) == Sum(s) + x
    ensures SumSqDev(s + [x], c) == SumSqDev(s, c) + Sq(x - c)
  {
    assert (s + [x])[..|s|] == s;
  }

  /**
   * The deviation sum grows by (x - m)(x - m') when x joins n samples of mean
   * m and the mean becomes m'.
   */
  lemma {:induction false} WelfordDeviation(s: seq<real>, x: real, m: real, m': real)
    requires Sum(s) == |s| as real * m
    requires (|s| as real + 1.0) * m' == Sum(s) + x
    ensures SumSqDev(s + [x], m') == SumSqDev(s, m) + (x - m) * (x - m')
  {
    var d1, q, S, n := ExpandAt(s, m');
    var d2, q2, S2, n2 := ExpandAt(s, m);
    WelfordAlgebra(d1, d2, q, S, n, q2, S2, n2, Sum(s), |s| as real, m, m', x);
    AppendSums(s, x, m');
  }

  /** Welford's mean step: the mean of n + 1 samples is m + (x - m)/(n + 1), m the mean of the first n. */
  lemma {:induction false} WelfordMeanStep(s: seq<real>, x: real)
    ensures Mean(s + [x]) == Mean(s) + (x - Mean(s)) / (|s| as real + 1.0)
  {
    MeanTimesCount(s);
    MeanAfterAppend(s, x);
    MeanUpdate(Sum(s), |s| as real, Mean(s), Mean(s + [x]), x);
  }

  /** Welford's deviation step: the deviation sum about the mean grows by (x - m)(x - m'). */
  lemma {:induction false} WelfordDeviationStep(s: seq<real>, x: real)
    ensures SumSqDev(s + [x], Mean(s + [x])) == SumSqDev(s, Mean(s)) + (x - Mean(s)) * (x - Mean(s + [x]))
  {
    MeanTimesCount(s);
    MeanAfterAppend(s, x);
    WelfordDeviation(s, x, Mean(s), Mean(s + [x]));
  }

  /** One round of `update_estimates` keeps the mean equal to the batch mean. */
  lemma MeanInvariant(s: seq<real>, x: real, m0: real, n: real, m1: real)
    requires m0 == Mean(s) && n == |s| as real + 1.0 && m1 == m0 + (x - m0) / n
    ensures m1 == Mean(s + [x])
  {
    WelfordMeanStep(s, x);
  }

  /**
   * One step of Welford's update as `update_estimates` computes it, from
   * (m0, d0) to (m1, d1) with dev = x - m0, keeps the batch mean and
   * deviation sum.
   */
  lemma WelfordUpdate(s: seq<real>, x: real, m0: real, d0: real, n: real, dev: real, m1: real, d1: real)
    requires m0 == Mean(s) && d0 == SumSqDev(s, m0) && n == |s| as real + 1.0
    requires dev == x - m0 && m1 == m0 + dev / n && d1 == d0 + dev * (x - m1)
    ensures m1 == Mean(s + [x]) && d1 == SumSqDev(s + [x], m1)
  {
    MeanInvariant(s, x, m0, n, m1);
    DeviationInvariant(s, x, m0, d0, m1, d1);
  }

  /** One round of `update_estimates` keeps `@sum_x2` equal to the deviation sum about the mean. */
  lemma DeviationInvariant(s: seq<real>, x: real, m0: real, d0: real, m1: real, d1: real)
    requires m0 == Mean(s) && d0 == SumSqDev(s, m0) && m1 == Mean(s + [x])
    requires d1 == d0 + (x - m0) * (x - m1)
    ensures d1 == SumSqDev(s + [x], m1)
  {
    WelfordDeviationStep(s, x);
  }

  class SampleSink {
    /** `@min`, `@max`: nil until the first sample */
    var min: Option<real>
    var max: Option<real>
    var count: nat
    var mean: real
    /** `@sum_x2`, the running sum of squared deviations from the mean */
    var sumX2: real
    var variance: real
    /** Every sample put so far, in order. */
    ghost var samples: seq<real>

    ghost predicate Valid()
      reads this
    {
      && count == |samples|
      && (count == 0 ==> min == None && max == None && variance == 0.0)
      && (count > 0 ==> && min == Some(SeqMin(samples))
                        && max == Some(SeqMax(samples))
                        && variance == sumX2 / count as real)
      && mean == Mean(samples)
      && sumX2 == SumSqDev(samples, mean)
    }

    /** `initialize`: nothing seen, all estimates zero. */
    constructor ()
      ensures Valid() && samples == []
      ensures min == None && max == None && count == 0
      ensures mean == 0.0 && sumX2 == 0.0 && variance == 0.0
    {
      min, max, count := None, None, 0;
      variance, mean, sumX2 := 0.0, 0.0, 0.0;
      samples := [];
    }

    /** `put(sample)` (also `<<`): statistics first, then estimates. */
    method Put(sample: real)
      requires Valid()
      modifies this
      ensures Valid()
      ensures samples == old(samples) + [sample]
    {
      UpdateStats(sample);
      UpdateEstimates(sample);
    }

    /** `update_stats`: fold the sample into min, max and count. */
    method UpdateStats(sample: real)
      requires Valid()
      modifies this
      ensures count == old(count) + 1 && samples == old(samples) + [sample]
      ensures min == Some(SeqMin(samples)) && max == Some(SeqMax(samples))
      ensures mean == old(mean) && sumX2 == old(sumX2) && variance == old(variance)
    {
      if min == None || sample < min.value {
        min := Some(sample);
      }
      if max == None || sample > max.value {
        max := Some(sample);
      }
      count := count + 1;
      samples := samples + [sample];
      assert samples[..|samples| - 1] == old(samples);
    }

    /**
     * `update_estimates`: Welford's update of the mean, the deviation sum and
     * the variance, once the sample has been counted. The running estimates
     * stay the batch mean and deviation sum of the samples.
     */
    method UpdateEstimates(sample: real)
      requires count >= 1 && count == |samples| && samples[count - 1] == sample
      requires mean == Mean(samples[..count - 1]) && sumX2 == SumSqDev(samples[..count - 1], mean)
      modifies this
      ensures count == old(count) && samples == old(samples)
      ensures min == old(min) && max == old(max)
      ensures mean == Mean(samples) && sumX2 == SumSqDev(samples, mean)
      ensures variance == sumX2 / count as real
    {
      ghost var s := samples[..count - 1];
      assert samples == s + [sample];
      ghost var m0, d0 := mean, sumX2;
      var dev := sample - mean;
      mean := mean + dev / count as real;
      sumX2 := sumX2 + dev * (sample - mean);
      WelfordUpdate(s, sample, m0, d0, count as real, dev, mean, sumX2);
      variance := sumX2 / count as real;
    }
  }

  /** The variance a valid sink reports is never negative. */
  lemma VarianceNonnegative(k: SampleSink)
    requires k.Valid()
    ensures k.variance >= 0.0
  {
    if k.count > 0 {
      assert k.sumX2 >= 0.0;
    }
  }
}
