/** Latency summaries of sorted samples. */
module Percentiles {
  import opened Wire
  import opened Sums
  import opened Ordering

  datatype LatencyStats = LatencyStats(minMs: real, maxMs: real, avgMs: real, p50Ms: real, p90Ms: real,
                                       p95Ms: real, p99Ms: real, sampleCount: nat)

  function NoSamples(): LatencyStats { LatencyStats(0.0, 0.0, 0.0, 0.0, 0.0, 0.0, 0.0, 0) }

  /** The position of the `p`-th percentile among `n` samples: `p / 100` of the way from the
      first to the last, rounded down. */
  function Index(n: nat, p: real): nat
    requires n > 0
  {
    Max(0, Min((p / 100.0 * (n - 1) as real).Floor, n - 1))
  }

  function Percentile(sorted: seq<real>, p: real): real {
    if sorted == [] then 0.0 else sorted[Index(|sorted|, p)]
  }

  function FromSortedMs(samples: seq<real>): LatencyStats {
    if samples == [] then NoSamples()
    else
      var n := |samples|;
      LatencyStats(samples[0], samples[n - 1], Sum(samples) / n as real, Percentile(samples, 50.0),
                   Percentile(samples, 90.0), Percentile(samples, 95.0), Percentile(samples, 99.0), n)
  }

  lemma IndexPosition(n: nat, p: real)
    requires n > 0 && 0.0 <= p <= 100.0
    ensures Index(n, p) < n && Index(n, p) as real <= p / 100.0 * (n - 1) as real < Index(n, p) as real + 1.0
  {
    var share, last := p / 100.0, (n - 1) as real;
    assert 0.0 <= share <= 1.0;
    assert 0.0 <= share * last <= last;
  }

  /** What a percentile means: more than `p` percent of the way along, samples are at most the
      value, and the samples below it are at most that share. */
  lemma PercentileRank(sorted: seq<real>, p: real)
    requires Sorted(sorted) && sorted != [] && 0.0 <= p <= 100.0
    ensures var v, way := Percentile(sorted, p), p / 100.0 * (|sorted| - 1) as real;
            && v in sorted
            && CountAtMost(sorted, v) as real > way
            && (forall x :: x < v ==> CountAtMost(sorted, x) as real <= way)
  {
    hide Index, CountAtMost;
    var k := Index(|sorted|, p);
    var way := p / 100.0 * (|sorted| - 1) as real;
    IndexPosition(|sorted|, p);
    RankByCount(sorted, k, sorted[k]);
    assert CountAtMost(sorted, sorted[k]) as real >= k as real + 1.0 > way;
    forall x | x < sorted[k]
      ensures CountAtMost(sorted, x) as real <= way
    {
      RankByCount(sorted, k, x);
      assert CountAtMost(sorted, x) as real <= k as real;
    }
  }

  /** Without samples it is 0, and past either end the sample there. */
  lemma PercentileEdges(sorted: seq<real>, p: real)
    ensures sorted == [] ==> Percentile(sorted, p) == 0.0
    ensures sorted != [] && p <= 0.0 ==> Percentile(sorted, p) == sorted[0]
    ensures sorted != [] && p >= 100.0 ==> Percentile(sorted, p) == sorted[|sorted| - 1]
  {
    if sorted != [] {
      var last := (|sorted| - 1) as real;
      assert p <= 0.0 ==> p / 100.0 * last <= 0.0;
      assert p >= 100.0 ==> p / 100.0 >= 1.0 && p / 100.0 * last >= last;
    }
  }

  /** `v` is the `p`-th percentile of samples in any order: a sample, with more than the share of the
      way from the first to the last at or below it, and no more below anything smaller. */
  ghost predicate IsPercentile(samples: seq<real>, v: real, p: real) {
    var way := p / 100.0 * (|samples| - 1) as real;
    && v in samples && CountAtMost(samples, v) as real > way
    && forall x :: x < v ==> CountAtMost(samples, x) as real <= way
  }

  /** `s` summarizes samples in any order. */
  ghost predicate Summarizes(s: LatencyStats, samples: seq<real>) {
    && s.sampleCount == |samples|
    && (samples == [] ==> s == LatencyStats(0.0, 0.0, 0.0, 0.0, 0.0, 0.0, 0.0, 0))
    && (samples != [] ==>
          && s.minMs in samples && s.maxMs in samples && (forall x :: x in samples ==> s.minMs <= x <= s.maxMs)
          && s.avgMs * |samples| as real == Sum(samples)
          && IsPercentile(samples, s.p50Ms, 50.0) && IsPercentile(samples, s.p90Ms, 90.0)
          && IsPercentile(samples, s.p95Ms, 95.0) && IsPercentile(samples, s.p99Ms, 99.0))
  }

  lemma PercentileOfSorted(samples: seq<real>, sorted: seq<real>, p: real)
    requires Sorted(sorted) && multiset(sorted) == multiset(samples) && samples != [] && 0.0 <= p <= 100.0
    ensures IsPercentile(samples, Percentile(sorted, p), p)
  {
    hide Percentile, CountAtMost;
    Members(samples, sorted);
    PercentileRank(sorted, p);
    forall x
      ensures CountAtMost(samples, x) == CountAtMost(sorted, x)
    {
      SameCount(samples, sorted, x);
    }
  }

  lemma SameCount(samples: seq<real>, sorted: seq<real>, x: real)
    requires multiset(sorted) == multiset(samples)
    ensures CountAtMost(samples, x) == CountAtMost(sorted, x)
  {
    SumPermutation(AtMost(x), samples, sorted);
  }

  lemma TimesBack(x: real, n: real)
    requires n > 0.0
    ensures x / n * n == x
  {
  }

  /** The summary computed from the sorted samples says of them what its fields are called. */
  lemma SummaryMeans(samples: seq<real>, sorted: seq<real>)
    requires Sorted(sorted) && multiset(sorted) == multiset(samples)
    ensures Summarizes(FromSortedMs(sorted), samples)
  {
    hide Percentile, IsPercentile, Sum;
    Members(samples, sorted);
    if samples != [] {
      PercentileOfSorted(samples, sorted, 50.0);
      PercentileOfSorted(samples, sorted, 90.0);
      PercentileOfSorted(samples, sorted, 95.0);
      PercentileOfSorted(samples, sorted, 99.0);
      SumAnyOrder(samples, sorted);
      TimesBack(Sum(sorted), |sorted| as real);
    }
  }

  /** Every figure of the first summary is at most the same figure of the second. */
  ghost predicate NoSlower(a: LatencyStats, b: LatencyStats) {
    && a.minMs <= b.minMs && a.maxMs <= b.maxMs && a.avgMs <= b.avgMs
    && a.p50Ms <= b.p50Ms && a.p90Ms <= b.p90Ms && a.p95Ms <= b.p95Ms && a.p99Ms <= b.p99Ms
    && a.sampleCount == b.sampleCount
  }

  lemma DivideBoth(x: real, y: real, n: real)
    requires x <= y && n > 0.0
    ensures x / n <= y / n
  {
  }

  /** Samples that are smaller rank by rank give a smaller summary. */
  lemma SummaryDominance(a: seq<real>, b: seq<real>)
    requires |a| == |b| && forall k :: 0 <= k < |a| ==> a[k] <= b[k]
    ensures NoSlower(FromSortedMs(a), FromSortedMs(b))
  {
    if a != [] {
      SumDominance(a, b);
      DivideBoth(Sum(a), Sum(b), |a| as real);
    }
  }

  lemma AverageWithin(sum: real, n: real, low: real, high: real)
    requires n > 0.0 && n * low <= sum <= n * high
    ensures low <= sum / n <= high
  {
    var q := sum / n;
    assert q * n == sum;
    if q < low { Scale(q, low, n); }
    if q > high { Scale(high, q, n); }
  }

  lemma Scale(x: real, y: real, n: real)
    requires n > 0.0 && x < y
    ensures n * x < n * y
  {
  }

  /** A summary lies between its extremes, and its percentiles are ordered. */
  lemma SummaryIsOrdered(samples: seq<real>)
    requires Sorted(samples) && samples != []
    ensures var s := FromSortedMs(samples);
            s.minMs <= s.p50Ms <= s.p90Ms <= s.p95Ms <= s.p99Ms <= s.maxMs && s.minMs <= s.avgMs <= s.maxMs
  {
    hide Index, Sum;
    var n := |samples|;
    IndexMonotone(n, 50.0, 90.0);
    IndexMonotone(n, 90.0, 95.0);
    IndexMonotone(n, 95.0, 99.0);
    SumWithin(samples, samples[0], samples[n - 1]);
    AverageWithin(Sum(samples), n as real, samples[0], samples[n - 1]);
  }

  lemma IndexMonotone(n: nat, p: real, q: real)
    requires n > 0 && 0.0 <= p <= q <= 100.0
    ensures Index(n, p) <= Index(n, q) < n
  {
    IndexPosition(n, q);
    assert p / 100.0 * (n - 1) as real <= q / 100.0 * (n - 1) as real;
  }

  /** `x` added up `n` times. */
  function Scaled(n: nat, x: real): real { if n == 0 then 0.0 else Scaled(n - 1, x) + x }

  lemma {:induction false} ScaledIs(n: nat, x: real)
    ensures Scaled(n, x) == n as real * x
  {
    if n > 0 {
      ScaledIs(n - 1, x);
      OneMore(n - 1, x);
    }
  }

  lemma {:induction false} SumScaled(s: seq<real>, low: real, high: real)
    requires forall x :: x in s ==> low <= x <= high
    ensures Scaled(|s|, low) <= Sum(s) <= Scaled(|s|, high)
  {
    if s != [] {
      var before := s[..|s| - 1];
      assert s == before + [s[|s| - 1]] && forall x :: x in before ==> x in s;
      assert s[|s| - 1] in s;
      SumScaled(before, low, high);
    }
  }

  lemma SumWithin(s: seq<real>, low: real, high: real)
    requires forall x :: x in s ==> low <= x <= high
    ensures |s| as real * low <= Sum(s) <= |s| as real * high
  {
    hide Scaled, Sum;
    SumScaled(s, low, high);
    ScaledIs(|s|, low);
    ScaledIs(|s|, high);
  }

  lemma OneMore(n: nat, x: real)
    ensures (n + 1) as real * x == n as real * x + x
  {
  }
}
