/**
 Sequence risk by shuffling (`app/backtest/research.py`).  The random generator is
 replaced by any list of permutations, so the limits hold for every seed.
 */
module MonteCarlo {
  import opened Market
  import opened Metrics
  import Sorting

  function Ceiling(x: real): (n: int)
    ensures n as real - 1.0 < x <= n as real
  {
    -((-x).Floor)
  }

  function Sorted(values: seq<real>): (r: seq<real>)
    ensures multiset(r) == multiset(values) && |r| == |values|
  {
    Sorting.StableSort(values, x => x)
  }

  function Median(values: seq<real>): Option<real> {
    if values == [] then None
    else
      var ordered, middle := Sorted(values), |values| / 2;
      Some(if |values| % 2 == 1 then ordered[middle] else (ordered[middle - 1] + ordered[middle]) / 2.0)
  }

  /** Position in the sorted list: nearest rank, kept inside the list. */
  function RankIndex(n: nat, percent: real): (i: nat)
    requires n > 0
    ensures i < n
  {
    var index := Ceiling(percent * n as real / 100.0) - 1;
    if index < 0 then 0 else if index > n - 1 then n - 1 else index
  }

  function Percentile(values: seq<real>, percent: real): Result<Option<real>> {
    if values == [] then Ok(None)
    else if !(0.0 <= percent <= 100.0) then Raised("percentile must be between 0 and 100")
    else Ok(Some(Sorted(values)[RankIndex(|values|, percent)]))
  }

  lemma SortedBetween(values: seq<real>, low: real, high: real)
    requires Between(values, low, high)
    ensures Between(Sorted(values), low, high)
  {
    var ordered := Sorted(values);
    forall i | 0 <= i < |ordered| ensures low <= ordered[i] <= high {
      assert ordered[i] in multiset(ordered);
      assert ordered[i] in values;
    }
  }

  lemma MedianBetween(values: seq<real>, low: real, high: real)
    requires values != [] && Between(values, low, high)
    ensures low <= Median(values).value <= high
  {
    SortedBetween(values, low, high);
  }

  lemma PercentileBetween(values: seq<real>, percent: real, low: real, high: real)
    requires values != [] && 0.0 <= percent <= 100.0 && Between(values, low, high)
    ensures Percentile(values, percent).Ok? && Percentile(values, percent).value.Some?
    ensures low <= Percentile(values, percent).value.value <= high
  {
    SortedBetween(values, low, high);
  }

  lemma CeilingGrows(x: real, y: real)
    requires x <= y
    ensures Ceiling(x) <= Ceiling(y)
  {
    hide Ceiling;
  }

  lemma RankIndexGrows(n: nat, p: real, q: real)
    requires n > 0 && p <= q
    ensures RankIndex(n, p) <= RankIndex(n, q)
  {
    ProductGrows(p, q, n as real);
    CeilingGrows(p * n as real / 100.0, q * n as real / 100.0);
    hide Ceiling;
  }

  lemma ProductGrows(p: real, q: real, n: real)
    requires p <= q && 0.0 <= n
    ensures p * n <= q * n
  {
    var gap := q - p;
    assert gap * n >= 0.0;
    assert q * n == (p + gap) * n == p * n + gap * n;
  }

  lemma PercentilesGrow(values: seq<real>, p: real, q: real)
    requires values != [] && 0.0 <= p <= q <= 100.0
    ensures Percentile(values, p).value.value <= Percentile(values, q).value.value
  {
    RankIndexGrows(|values|, p, q);
    Sorting.StableSortSorted(values, x => x);
    assert Sorting.SortedBy(Sorted(values), x => x);
    hide Sorted, RankIndex;
  }

  /** From the 90th percentile on the nearest rank lies at or behind the middle. */
  lemma MiddleRank(n: nat, percent: real)
    requires n > 0 && 90.0 <= percent <= 100.0
    ensures n / 2 <= RankIndex(n, percent)
  {
    RankIndexGrows(n, 90.0, percent);
    var x := 90.0 * n as real / 100.0;
    assert Ceiling(x) as real >= x;
    hide Ceiling;
    assert n >= 3 ==> Ceiling(x) as real - 1.0 >= n as real / 2.0;
  }

  lemma MedianBelow(values: seq<real>, percent: real)
    requires values != [] && 90.0 <= percent <= 100.0
    ensures Median(values).value <= Percentile(values, percent).value.value
  {
    var ordered, middle := Sorted(values), |values| / 2;
    MiddleRank(|values|, percent);
    Sorting.StableSortSorted(values, x => x);
    assert Sorting.SortedBy(ordered, x => x);
    hide Sorted, RankIndex;
    assert ordered[middle] <= ordered[RankIndex(|values|, percent)];
    assert middle > 0 ==> ordered[middle - 1] <= ordered[middle];
  }

  datatype Report = Report(
    medianTotal: real, invariantTotal: real, medianDrawdown: real, p90Drawdown: real, p95Drawdown: real, p99Drawdown: real,
    medianStreak: real, p95Streak: real, exceedance: real)

  /** Where the drawdown figures of a report can lie. */
  predicate DrawdownsWithin(r: Report, low: real, high: real, threshold: real) {
    && low <= r.medianDrawdown <= r.p90Drawdown <= r.p95Drawdown <= r.p99Drawdown <= high
    && 0.0 <= r.exceedance <= 1.0
    && (high <= threshold ==> r.exceedance == 0.0)
    && (threshold < low ==> r.exceedance == 1.0)
  }

  predicate StreaksWithin(r: Report, low: real, high: real) {
    low <= r.medianStreak <= r.p95Streak <= high
  }

  /** L losers among W winners make some run of at least L / (W + 1) losers. */
  function StreakFloor(outcomes: seq<real>): real {
    CountWithin(outcomes);
    CountLosing(outcomes) as real / (|outcomes| - CountLosing(outcomes) + 1) as real
  }

  lemma {:induction false} CountWithin(outcomes: seq<real>)
    ensures CountLosing(outcomes) <= |outcomes|
  {
    if outcomes != [] {
      CountWithin(outcomes[1..]);
    }
  }

  lemma QuotientBelow(a: nat, b: nat, n: nat)
    requires b >= 1 && a <= n * b
    ensures a as real / b as real <= n as real
  {
    assert (n * b) as real == n as real * b as real;
    QuotientGrows(a as real, n as real * b as real, b as real);
    assert n as real * b as real / b as real == n as real;
  }

  lemma QuotientGrows(x: real, y: real, d: real)
    requires x <= y && 0.0 < d
    ensures x / d <= y / d
  {
    assert (y - x) / d >= 0.0;
    assert y / d == x / d + (y - x) / d;
  }

  /** What no seed can change, and the limits of what it can. */
  ghost predicate Bounded(r: Report, outcomes: seq<real>, threshold: real) {
    && r.invariantTotal == r.medianTotal == Sum(outcomes)
    && DrawdownsWithin(r, Max(0.0, -Sum(outcomes)), Losses(outcomes), threshold)
    && StreaksWithin(r, StreakFloor(outcomes), CountLosing(outcomes) as real)
  }

  function Exceeding(values: seq<real>, threshold: real): (n: nat)
    ensures n <= |values|
  {
    if values == [] then 0 else (if values[0] > threshold then 1 else 0) + Exceeding(values[1..], threshold)
  }

  lemma {:induction false} ExceedingLimits(values: seq<real>, threshold: real, low: real, high: real)
    requires Between(values, low, high)
    ensures high <= threshold ==> Exceeding(values, threshold) == 0
    ensures threshold < low ==> Exceeding(values, threshold) == |values|
  {
    if values != [] {
      ExceedingLimits(values[1..], threshold, low, high);
    }
  }

  /** The three lists the shuffles fill. */
  ghost predicate Sampled(outcomes: seq<real>, n: nat, totals: seq<real>, drawdowns: seq<real>, streaks: seq<real>) {
    var total, losses, losers := Sum(outcomes), Losses(outcomes), CountLosing(outcomes);
    && |totals| == |drawdowns| == |streaks| == n
    && Between(totals, total, total)
    && Between(drawdowns, Max(0.0, -total), losses)
    && Between(streaks, StreakFloor(outcomes), losers as real)
  }

  method Total(xs: seq<real>) returns (total: real)
    ensures total == Sum(xs)
  {
    total := 0.0;
    for i := 0 to |xs|
      invariant total == Equity(xs, i)
    {
      total := total + xs[i];
    }
    EquityIsSum(xs, |xs|);
    assert xs[..|xs|] == xs;
  }

  lemma ShuffleBounds(outcomes: seq<real>, sample: seq<real>, drawdown: real, longest: nat)
    requires multiset(sample) == multiset(outcomes)
    requires IsMaxDrawdown(sample, |sample|, drawdown) && IsLongestStreak(sample, |sample|, longest)
    ensures Sum(sample) == Sum(outcomes)
    ensures Max(0.0, -Sum(outcomes)) <= drawdown <= Losses(outcomes)
    ensures longest <= CountLosing(outcomes) <= longest * (|outcomes| - CountLosing(outcomes) + 1)
    ensures StreakFloor(outcomes) <= longest as real
  {
    OrderIrrelevant(outcomes, sample);
    DrawdownLimits(sample, drawdown);
    StreakLimits(sample, longest);
    CountWithin(outcomes);
    QuotientBelow(CountLosing(outcomes), |outcomes| - CountLosing(outcomes) + 1, longest);
  }

  /** `samples` are the shuffles the generator produced, one per iteration. */
  method MonteCarloOrdering(outcomes: seq<real>, samples: seq<seq<real>>, threshold: real)
      returns (r: Result<Option<Report>>)
    requires forall i :: 0 <= i < |samples| ==> multiset(samples[i]) == multiset(outcomes)
    ensures r.Raised? <==> samples == []
    ensures r.Ok? ==> (r.value.None? <==> outcomes == [])
    ensures r.Ok? && r.value.Some? ==> Bounded(r.value.value, outcomes, threshold)
  {
    if samples == [] {
      return Raised("iterations must be positive");
    }
    if outcomes == [] {
      return Ok(None);
    }
    hide Sum, Losses, CountLosing, StreakFloor, IsMaxDrawdown, IsLongestStreak, Bounded, Percentile, Median, Exceeding, Max;
    var totals: seq<real>, drawdowns: seq<real>, streaks: seq<real> := [], [], [];
    for i := 0 to |samples|
      invariant Sampled(outcomes, i, totals, drawdowns, streaks)
    {
      var drawdown, streak := DrawdownAndStreak(samples[i]);
      var total := Total(samples[i]);
      ShuffleBounds(outcomes, samples[i], drawdown, streak);
      totals, drawdowns, streaks := totals + [total], drawdowns + [drawdown], streaks + [streak as real];
    }
    ReportBounded(outcomes, |samples|, totals, drawdowns, streaks, threshold);
    r := Ok(Some(ReportOf(totals, drawdowns, streaks, threshold)));
  }

  function ReportOf(totals: seq<real>, drawdowns: seq<real>, streaks: seq<real>, threshold: real): Report
    requires |totals| == |drawdowns| == |streaks| > 0
  {
    Report(Median(totals).value, totals[0], Median(drawdowns).value,
           Percentile(drawdowns, 90.0).value.value, Percentile(drawdowns, 95.0).value.value,
           Percentile(drawdowns, 99.0).value.value,
           Median(streaks).value, Percentile(streaks, 95.0).value.value,
           Exceeding(drawdowns, threshold) as real / |drawdowns| as real)
  }

  lemma ReportBounded(outcomes: seq<real>, n: nat, totals: seq<real>, drawdowns: seq<real>, streaks: seq<real>, threshold: real)
    requires n > 0 && Sampled(outcomes, n, totals, drawdowns, streaks)
    ensures Bounded(ReportOf(totals, drawdowns, streaks, threshold), outcomes, threshold)
  {
    var total, losses, losers := Sum(outcomes), Losses(outcomes), CountLosing(outcomes);
    assert totals[0] == total;
    hide Sum, Losses, CountLosing, StreakFloor, Max, Between, Percentile, Median, Exceeding, DrawdownsWithin, StreaksWithin;
    MedianBetween(totals, total, total);
    DrawdownsBounded(totals, drawdowns, streaks, threshold, Max(0.0, -total), losses);
    StreaksBounded(totals, drawdowns, streaks, threshold, StreakFloor(outcomes), losers as real);
  }

  lemma StreaksBounded(totals: seq<real>, drawdowns: seq<real>, streaks: seq<real>, threshold: real, low: real, high: real)
    requires |totals| == |drawdowns| == |streaks| > 0 && Between(streaks, low, high)
    ensures StreaksWithin(ReportOf(totals, drawdowns, streaks, threshold), low, high)
  {
    MedianBetween(streaks, low, high);
    PercentileBetween(streaks, 95.0, low, high);
    MedianBelow(streaks, 95.0);
    hide Between, Percentile, Median, Exceeding;
  }

  lemma DrawdownsBounded(totals: seq<real>, drawdowns: seq<real>, streaks: seq<real>, threshold: real, low: real, high: real)
    requires |totals| == |drawdowns| == |streaks| > 0 && Between(drawdowns, low, high)
    ensures DrawdownsWithin(ReportOf(totals, drawdowns, streaks, threshold), low, high, threshold)
  {
    MedianBetween(drawdowns, low, high);
    PercentileBetween(drawdowns, 90.0, low, high);
    PercentileBetween(drawdowns, 95.0, low, high);
    PercentileBetween(drawdowns, 99.0, low, high);
    MedianBelow(drawdowns, 90.0);
    PercentilesGrow(drawdowns, 90.0, 95.0);
    PercentilesGrow(drawdowns, 95.0, 99.0);
    ExceedingLimits(drawdowns, threshold, low, high);
    hide Percentile, Median, Exceeding, Between;
    ShareOf(Exceeding(drawdowns, threshold), |drawdowns|);
  }

  lemma ShareOf(k: nat, n: nat)
    requires k <= n && n > 0
    ensures 0.0 <= k as real / n as real <= 1.0
    ensures k == 0 ==> k as real / n as real == 0.0
    ensures k == n ==> k as real / n as real == 1.0
  {
  }

  // ------------------------------------------------- the upper limits are attained

  lemma {:induction false} LosersFirst(ys: seq<real>)
    requires forall i, j :: 0 <= i < j < |ys| ==> ys[i] <= ys[j]
    ensures var n := CountLosing(ys);
            n <= |ys| && Losing(ys, 0, n) && Losses(ys) == -Sum(ys[..n])
  {
    if ys != [] {
      LosersFirst(ys[1..]);
      var n := CountLosing(ys);
      if ys[0] <= 0.0 {
        assert ys[..n] == [ys[0]] + ys[1..][..n - 1];
        assert ys[..n][1..] == ys[1..][..n - 1];
      } else {
        NoLosers(ys[1..]);
        assert ys[..0] == [];
      }
    }
  }

  lemma {:induction false} NoLosers(ys: seq<real>)
    requires forall i :: 0 <= i < |ys| ==> ys[i] > 0.0
    ensures CountLosing(ys) == 0 && Losses(ys) == 0.0
  {
    if ys != [] {
      NoLosers(ys[1..]);
    }
  }

  /** Sorting the outcomes is the worst order for both measures. */
  lemma SortedIsWorst(outcomes: seq<real>)
    ensures IsMaxDrawdown(Sorted(outcomes), |outcomes|, Losses(outcomes))
    ensures IsLongestStreak(Sorted(outcomes), |outcomes|, CountLosing(outcomes))
  {
    var ys := Sorted(outcomes);
    Sorting.StableSortSorted(outcomes, x => x);
    assert Sorting.SortedBy(ys, x => x);
    OrderIrrelevant(outcomes, ys);
    LosersFirst(ys);
    var n := CountLosing(ys);
    EquityIsSum(ys, n);
    WorstDrawdown(ys, n);
    hide Sorted, Losses, CountLosing;
    forall i, j | j <= |ys| && Losing(ys, i, j) ensures j - i <= n {
      LosingRunCounts(ys, i, j);
    }
  }

  lemma WorstDrawdown(ys: seq<real>, n: nat)
    requires n <= |ys| && Losses(ys) == -Equity(ys, n)
    ensures IsMaxDrawdown(ys, |ys|, Losses(ys))
  {
    forall i, j | 0 <= i <= j <= |ys| ensures Equity(ys, i) - Equity(ys, j) <= Losses(ys) {
      FallWithinLosses(ys, i, j);
      PrefixLosses(ys, j);
    }
    assert Equity(ys, 0) - Equity(ys, n) == Losses(ys);
  }
}
