/**
 Statistics over the probe samples of a time window.
 */
module QualityWindow {
  import opened Options
  import opened Lists
  import opened Sorting

  /** A sample; `None` stands for a value that is not a finite number. */
  datatype Sample = Sample(at: Option<real>, ok: bool, delay: Option<real>)

  /** Percentages are in tenths, as they are shown with one decimal. */
  datatype Stats = Stats(samples: nat, successes: nat, failures: nat,
                         loss: Option<int>, availability: Option<int>, median: Option<int>, p95: Option<int>)

  /** Rounds toward zero. */
  function Trunc(r: real): int { if r >= 0.0 then r.Floor else -(-r).Floor }

  /** Half an integer sum, rounded toward zero. */
  function HalfTrunc(n: int): int { if n >= 0 then n / 2 else -(-n / 2) }

  function NumberOrder(): (int, int) -> bool { (a, b) => a <= b }

  /** `part` of `whole` in tenths of a percent, half rounded up. */
  function Tenths(part: nat, whole: nat): nat
    requires whole > 0
  {
    (2000 * part + whole) / (2 * whole)
  }

  /** An entry that is not an object counts for nothing. */
  predicate InWindow(e: Option<Sample>, since: real) { e.Some? && e.value.at.Some? && e.value.at.value >= since }

  predicate Succeeded(s: Sample) { s.ok && s.delay.Some? }

  function Windowed(raw: seq<Option<Sample>>, since: real): seq<Sample> {
    if raw == [] then []
    else (if InWindow(raw[0], since) then [raw[0].value] else []) + Windowed(raw[1..], since)
  }

  function Delays(samples: seq<Sample>): seq<int> {
    if samples == [] then []
    else Delays(samples[..|samples| - 1])
         + if Succeeded(samples[|samples| - 1]) then [Trunc(samples[|samples| - 1].delay.value)] else []
  }

  function Failures(samples: seq<Sample>): nat {
    if samples == [] then 0
    else Failures(samples[..|samples| - 1]) + if Succeeded(samples[|samples| - 1]) then 0 else 1
  }

  function Median(sorted: seq<int>): Option<int> {
    var middle := |sorted| / 2;
    if sorted == [] then None
    else if |sorted| % 2 == 1 then Some(sorted[middle])
    else Some(HalfTrunc(sorted[middle - 1] + sorted[middle]))
  }

  /** The ceiling of 95% of the last index. */
  function P95Index(n: nat): nat
    requires n > 0
  {
    (19 * (n - 1) + 19) / 20
  }

  function P95(sorted: seq<int>): Option<int> {
    if sorted == [] then None
    else
      assert P95Index(|sorted|) < |sorted|;
      Some(sorted[P95Index(|sorted|)])
  }

  function StatsOf(samples: seq<Sample>): Stats {
    var delays, failures, n := Delays(samples), Failures(samples), |samples|;
    var sorted := Sort(delays, NumberOrder());
    Stats(n, |delays|, failures,
          if n > 0 then Some(Tenths(failures, n)) else None,
          if n > 0 then Some(Tenths(|delays|, n)) else None,
          Median(sorted), P95(sorted))
  }

  /** The whole summary; a raw value that is not an array counts as empty. */
  function Summary(raw: Option<seq<Option<Sample>>>, since: real): Stats { StatsOf(Windowed(OrElse(raw, []), since)) }

  /** Collects delays and counts failures in one pass, then sorts, as the source does. */
  method SummarizeSamples(raw: Option<seq<Option<Sample>>>, since: real) returns (stats: Stats)
    ensures stats == Summary(raw, since)
  {
    var samples := Windowed(OrElse(raw, []), since);
    var delays: seq<int>, failures := [], 0;
    for i := 0 to |samples|
      invariant delays == Delays(samples[..i]) && failures == Failures(samples[..i])
    {
      var sample := samples[i];
      assert samples[..i + 1][..i] == samples[..i];
      if sample.ok && sample.delay.Some? {
        delays := delays + [Trunc(sample.delay.value)];
      } else {
        failures := failures + 1;
      }
    }
    assert samples[..|samples|] == samples;
    var sorted := Sort(delays, NumberOrder());
    stats := Stats(|samples|, |delays|, failures,
                   if |samples| > 0 then Some(Tenths(failures, |samples|)) else None,
                   if |samples| > 0 then Some(Tenths(|delays|, |samples|)) else None,
                   Median(sorted), P95(sorted));
  }

  // ----- Conservation

  lemma {:induction false} SamplesConserved(samples: seq<Sample>)
    ensures |samples| == |Delays(samples)| + Failures(samples)
  {
    if samples != [] { SamplesConserved(samples[..|samples| - 1]); }
  }

  // ----- Order of the quantiles

  lemma NumberOrderIsTotal()
    ensures TotalPreorder(NumberOrder()) && Antisymmetric(NumberOrder())
  {
  }

  ghost predicate Ascending(s: seq<int>) { forall i, j :: 0 <= i <= j < |s| ==> s[i] <= s[j] }

  lemma SortAscends(delays: seq<int>)
    ensures var sorted := Sort(delays, NumberOrder()); multiset(sorted) == multiset(delays) && Ascending(sorted)
  {
    var sorted := Sort(delays, NumberOrder());
    NumberOrderIsTotal();
    SortPermutes(delays, NumberOrder());
    SortSorted(delays, NumberOrder());
    forall i, j | 0 <= i <= j < |sorted| ensures sorted[i] <= sorted[j] {
      if i < j { assert NumberOrder()(sorted[i], sorted[j]); }
    }
  }

  /** The least delay, the median, the 95th percentile and the greatest delay come in this order. */
  lemma QuantilesOrdered(samples: seq<Sample>)
    requires Delays(samples) != []
    ensures var sorted, stats := Sort(Delays(samples), NumberOrder()), StatsOf(samples);
            && sorted != [] && multiset(sorted) == multiset(Delays(samples)) && Ascending(sorted)
            && stats.median.Some? && stats.p95.Some?
            && sorted[0] <= stats.median.value <= stats.p95.value <= sorted[|sorted| - 1]
  {
    var sorted := Sort(Delays(samples), NumberOrder());
    SortAscends(Delays(samples));
    assert Delays(samples)[0] in multiset(sorted);
    MiddleBelow95(sorted);
  }

  lemma MiddleBelow95(sorted: seq<int>)
    requires sorted != [] && Ascending(sorted)
    ensures sorted[0] <= Median(sorted).value <= P95(sorted).value <= sorted[|sorted| - 1]
  {
  }

  // ----- Rounded percentages

  lemma MulMonotone(n: nat, a: int, b: int)
    requires a <= b
    ensures n * a <= n * b
  {
  }

  lemma DivUnique(a: int, d: nat, q: int, r: int)
    requires d > 0 && a == d * q + r && 0 <= r < d
    ensures a / d == q
  {
    var k := a / d;
    assert d * k <= a < d * k + d;
    if q < k { MulMonotone(d, q + 1, k); }
    if k < q { MulMonotone(d, k + 1, q); }
  }

  /** Rounding adds one to the quotient when the remainder is at least half. */
  lemma TenthsOf(part: nat, n: nat, q: nat, r: nat)
    requires n > 0 && 1000 * part == n * q + r && r < n
    ensures Tenths(part, n) == q + if 2 * r >= n then 1 else 0
  {
    var up := if 2 * r >= n then 1 else 0;
    assert 2000 * part + n == 2 * (n * q) + 2 * r + n;
    assert 2 * (n * q) == (2 * n) * q;
    assert (2 * n) * (q + up) == (2 * n) * q + (2 * n) * up;
    DivUnique(2000 * part + n, 2 * n, q + up, 2 * r + n - 2 * n * up);
  }

  /** Loss and availability add up to 100.0%, or to 100.1% exactly when both are rounded up from half
      a tenth. */
  lemma PercentagesAddUp(failures: nat, successes: nat)
    requires failures + successes > 0
    ensures var n := failures + successes;
            Tenths(failures, n) + Tenths(successes, n) == if 2 * (1000 * failures % n) == n then 1001 else 1000
  {
    var n := failures + successes;
    var q, r := 1000 * failures / n, 1000 * failures % n;
    assert 1000 * failures == n * q + r;
    TenthsOf(failures, n, q, r);
    if r == 0 {
      assert 1000 * successes == n * (1000 - q) by { assert n * (1000 - q) == 1000 * n - n * q; }
      QuotientBound(n, q, r, failures);
      TenthsOf(successes, n, 1000 - q, 0);
    } else {
      assert 1000 * successes == n * (999 - q) + (n - r) by { assert n * (999 - q) == 999 * n - n * q; }
      QuotientBound(n, q, r, failures);
      TenthsOf(successes, n, 999 - q, n - r);
    }
  }

  lemma QuotientBound(n: nat, q: nat, r: nat, part: nat)
    requires n > 0 && part <= n && 1000 * part == n * q + r && r < n
    ensures q <= 1000 && (r > 0 ==> q <= 999)
  {
  }

  // ----- The order of the samples does not matter

  lemma {:induction false} WindowedCount(raw: seq<Option<Sample>>, since: real, s: Sample)
    ensures multiset(Windowed(raw, since))[s] == if InWindow(Some(s), since) then multiset(raw)[Some(s)] else 0
  {
    if raw != [] {
      assert raw == [raw[0]] + raw[1..];
      WindowedCount(raw[1..], since, s);
    }
  }

  lemma {:induction false} CountsConcat(a: seq<Sample>, b: seq<Sample>)
    ensures Delays(a + b) == Delays(a) + Delays(b)
  {
    if b == [] {
      assert a + b == a;
    } else {
      var n := |b| - 1;
      assert (a + b)[..|a + b| - 1] == a + b[..n];
      CountsConcat(a, b[..n]);
    }
  }

  lemma PermutedCounts(a: seq<Sample>, b: seq<Sample>)
    requires multiset(a) == multiset(b)
    ensures multiset(Delays(a)) == multiset(Delays(b)) && Failures(a) == Failures(b) && |a| == |b|
  {
    var f := (s: seq<Sample>) => multiset(Delays(s));
    forall x: seq<Sample>, y: seq<Sample> ensures f(x + y) == f(x) + f(y) { CountsConcat(x, y); }
    SumForgetsOrder(f, a, b);
    assert |multiset(a)| == |a| && |multiset(b)| == |b|;
    assert |multiset(Delays(a))| == |Delays(a)| && |multiset(Delays(b))| == |Delays(b)|;
    SamplesConserved(a);
    SamplesConserved(b);
  }

  /** Shuffling the stored samples changes no statistic. */
  lemma SummaryForgetsOrder(a: seq<Option<Sample>>, b: seq<Option<Sample>>, since: real)
    requires multiset(a) == multiset(b)
    ensures Summary(Some(a), since) == Summary(Some(b), since)
  {
    var wa, wb := Windowed(a, since), Windowed(b, since);
    forall s ensures multiset(wa)[s] == multiset(wb)[s] {
      WindowedCount(a, since, s);
      WindowedCount(b, since, s);
    }
    assert multiset(wa) == multiset(wb);
    PermutedCounts(wa, wb);
    NumberOrderIsTotal();
    assert |multiset(Delays(wa))| == |Delays(wa)| && |multiset(Delays(wb))| == |Delays(wb)|;
    SortForgetsOrder(Delays(wa), Delays(wb), NumberOrder());
  }

  // ----- What the statistics mean

  function LessThan(x: int): int -> bool { (y: int) => y < x }

  function AtMost(x: int): int -> bool { (y: int) => y <= x }

  /** `x` is one of the numbers and stands at place `k`, from 0, when they are put in order. */
  ghost predicate HasRank(s: seq<int>, x: int, k: int) {
    x in s && |Filter(s, LessThan(x))| <= k < |Filter(s, AtMost(x))|
  }

  lemma FewBelow(sorted: seq<int>, k: nat)
    requires k < |sorted| && Ascending(sorted)
    ensures |Filter(sorted, LessThan(sorted[k]))| <= k
  {
    var x, pre, post := sorted[k], sorted[..k], sorted[k..];
    forall i | 0 <= i < |post| ensures !LessThan(x)(post[i]) { assert post[i] == sorted[k + i]; }
    FilterNone(post, LessThan(x));
    FilterLength(pre, LessThan(x));
    assert sorted == pre + post;
    FilterConcat(pre, post, LessThan(x));
  }

  lemma ManyUpTo(sorted: seq<int>, k: nat)
    requires k < |sorted| && Ascending(sorted)
    ensures k < |Filter(sorted, AtMost(sorted[k]))|
  {
    var x, low, high := sorted[k], sorted[..k + 1], sorted[k + 1..];
    forall i | 0 <= i < |low| ensures AtMost(x)(low[i]) { assert low[i] == sorted[i]; }
    FilterLength(low, AtMost(x));
    assert sorted == low + high;
    FilterConcat(low, high, AtMost(x));
  }

  lemma SortedRank(sorted: seq<int>, k: nat)
    requires k < |sorted| && Ascending(sorted)
    ensures HasRank(sorted, sorted[k], k)
  {
    FewBelow(sorted, k);
    ManyUpTo(sorted, k);
  }

  lemma RankForgetsOrder(a: seq<int>, b: seq<int>, x: int, k: int)
    requires multiset(a) == multiset(b) && HasRank(a, x, k)
    ensures HasRank(b, x, k)
  {
    FilterPermuted(a, b, LessThan(x));
    FilterPermuted(a, b, AtMost(x));
    assert x in multiset(a);
  }

  lemma DelayRank(samples: seq<Sample>, k: nat)
    requires k < |Delays(samples)|
    ensures var sorted := Sort(Delays(samples), NumberOrder());
            |sorted| == |Delays(samples)| && HasRank(Delays(samples), sorted[k], k)
  {
    var sorted := Sort(Delays(samples), NumberOrder());
    SortAscends(Delays(samples));
    SortPermutes(Delays(samples), NumberOrder());
    SortedRank(sorted, k);
    RankForgetsOrder(sorted, Delays(samples), sorted[k], k);
  }

  /** `m` is half of `t`, rounded toward zero. */
  predicate IsHalf(m: int, t: int) { if t >= 0 then 0 <= t - 2 * m <= 1 else -1 <= t - 2 * m <= 0 }

  /** `k` is 95% of `n`, rounded up. */
  predicate Is95Percent(k: int, n: int) { 20 * k >= 19 * n && 20 * (k - 1) < 19 * n }

  /** An odd number of delays has its median in the middle, an even number between the two middle ones. */
  lemma MedianExactly(samples: seq<Sample>) returns (lo: int, hi: int)
    requires Delays(samples) != []
    ensures StatsOf(samples).median.Some?
    ensures var n, delays, median := |Delays(samples)|, Delays(samples), StatsOf(samples).median.value;
            if n % 2 == 1 then HasRank(delays, median, n / 2)
            else HasRank(delays, lo, n / 2 - 1) && HasRank(delays, hi, n / 2) && IsHalf(median, lo + hi)
  {
    var n := |Delays(samples)|;
    var sorted := Sort(Delays(samples), NumberOrder());
    DelayRank(samples, n / 2);
    hi := sorted[n / 2];
    lo := hi;
    if n % 2 == 0 {
      DelayRank(samples, n / 2 - 1);
      lo := sorted[n / 2 - 1];
    }
  }

  /** The 95th percentile is the delay at 95% of the last place, rounded up. */
  lemma P95Exactly(samples: seq<Sample>) returns (k: int)
    requires Delays(samples) != []
    ensures StatsOf(samples).p95.Some? && Is95Percent(k, |Delays(samples)| - 1)
    ensures HasRank(Delays(samples), StatsOf(samples).p95.value, k)
  {
    k := P95Index(|Delays(samples)|);
    DelayRank(samples, k);
  }

  /** A sample counts exactly when it is an object whose time is not before the window. */
  lemma WindowExactly(raw: seq<Option<Sample>>, since: real, s: Sample)
    ensures multiset(Windowed(raw, since))[s] == if s.at.Some? && s.at.value >= since then multiset(raw)[Some(s)] else 0
  {
    WindowedCount(raw, since, s);
  }

  /** `d` is the delay without its fraction. */
  predicate IsWhole(d: int, delay: real) {
    if delay >= 0.0 then d as real <= delay < d as real + 1.0 else d as real - 1.0 < delay <= d as real
  }

  /** A sample is a success exactly when it says so and has a delay; its delay is taken without fraction. */
  lemma OneMoreSample(samples: seq<Sample>, s: Sample)
    ensures if s.ok && s.delay.Some?
            then && Failures(samples + [s]) == Failures(samples) && |Delays(samples + [s])| == |Delays(samples)| + 1
                 && Delays(samples) <= Delays(samples + [s])
                 && IsWhole(Delays(samples + [s])[|Delays(samples)|], s.delay.value)
            else Failures(samples + [s]) == Failures(samples) + 1 && Delays(samples + [s]) == Delays(samples)
  {
    assert (samples + [s])[..|samples|] == samples;
  }

  /** `v` tenths of a percent are `part` of `whole`, half rounded up. */
  predicate IsTenths(v: int, part: nat, whole: nat) { 2 * whole * v <= 2000 * part + whole < 2 * whole * (v + 1) }

  lemma TenthsExactly(part: nat, whole: nat)
    requires whole > 0
    ensures IsTenths(Tenths(part, whole), part, whole)
  {
    var v := (2000 * part + whole) / (2 * whole);
    assert 2000 * part + whole == 2 * whole * v + (2000 * part + whole) % (2 * whole);
    assert 2 * whole * (v + 1) == 2 * whole * v + 2 * whole;
  }

  /** Every field of the statistics; without samples there are no percentages, without successes no delays. */
  lemma StatsExactly(samples: seq<Sample>)
    ensures var stats, n := StatsOf(samples), |samples|;
            && stats.samples == n && stats.failures == Failures(samples) && stats.successes == n - stats.failures
            && (if n == 0 then stats.loss == None && stats.availability == None
                else && stats.loss.Some? && IsTenths(stats.loss.value, stats.failures, n)
                     && stats.availability.Some? && IsTenths(stats.availability.value, stats.successes, n))
            && (stats.successes == 0 <==> stats.median == None) && (stats.successes == 0 <==> stats.p95 == None)
  {
    SamplesConserved(samples);
    SortPermutes(Delays(samples), NumberOrder());
    if samples != [] {
      TenthsExactly(Failures(samples), |samples|);
      TenthsExactly(|Delays(samples)|, |samples|);
    }
  }
}
