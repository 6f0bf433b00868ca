/** What drawdown, streak, median and percentile are, in sums and counts of outcomes. */
module FigureMeaning {
  import opened Market
  import opened Metrics
  import opened MonteCarlo
  import Sorting

  // ------------------------------------------------------- drawdown and streak

  /** The drawdown is the most that any outcomes in a row lose. */
  lemma DrawdownMeans(xs: seq<real>, d: real)
    ensures IsMaxDrawdown(xs, |xs|, d)
       <==> && (forall i, j :: 0 <= i <= j <= |xs| ==> -Sum(xs[i..j]) <= d)
            && (exists i, j :: 0 <= i <= j <= |xs| && -Sum(xs[i..j]) == d)
  {
    forall i, j | 0 <= i <= j <= |xs| ensures Equity(xs, i) - Equity(xs, j) == -Sum(xs[i..j]) {
      EquityIsSum(xs, i);
      EquityIsSum(xs, j);
      assert xs[..j] == xs[..i] + xs[i..j];
      SumsAppend(xs[..i], xs[i..j]);
    }
    hide Equity, Sum;
  }

  /** No outcome of the row is above zero. */
  predicate WithoutWin(row: seq<real>) {
    forall k :: 0 <= k < |row| ==> row[k] <= 0.0
  }

  /** The streak is the most outcomes in a row of which none is above zero. */
  lemma StreakMeans(xs: seq<real>, longest: nat)
    ensures IsLongestStreak(xs, |xs|, longest)
       <==> && (forall i, j :: 0 <= i <= j <= |xs| && WithoutWin(xs[i..j]) ==> j - i <= longest)
            && (exists i, j :: 0 <= i <= j <= |xs| && j - i == longest && WithoutWin(xs[i..j]))
  {
    forall i, j | 0 <= i <= j <= |xs| ensures Losing(xs, i, j) <==> WithoutWin(xs[i..j]) {
      var row := xs[i..j];
      if Losing(xs, i, j) {
        assert forall k :: 0 <= k < |row| ==> row[k] == xs[i + k];
      } else {
        var k :| i <= k < j && xs[k] > 0.0;
        assert row[k - i] == xs[k];
      }
    }
  }

  // ------------------------------------------------------ medians and percentiles

  /** The values that are below, or above, a limit. */
  function Below(limit: real): real -> bool { x => x < limit }

  function UpTo(limit: real): real -> bool { x => x <= limit }

  function Above(limit: real): real -> bool { x => x > limit }

  function From(limit: real): real -> bool { x => x >= limit }

  function Count(values: seq<real>, keep: real -> bool): (n: nat)
    ensures n <= |values|
  {
    |Sorting.Filter(values, keep)|
  }

  /** Sorting does not change how many values lie on one side of a limit. */
  lemma CountSorted(values: seq<real>, keep: real -> bool)
    ensures Count(Sorted(values), keep) == Count(values, keep)
  {
    Sorting.FilterCommutesWithSort(values, x => x, keep);
  }

  lemma {:induction false} CountAll(values: seq<real>, keep: real -> bool)
    requires forall i :: 0 <= i < |values| ==> keep(values[i])
    ensures Count(values, keep) == |values|
  {
    if values != [] {
      CountAll(values[1..], keep);
    }
  }

  lemma {:induction false} CountNone(values: seq<real>, keep: real -> bool)
    requires forall i :: 0 <= i < |values| ==> !keep(values[i])
    ensures Count(values, keep) == 0
  {
    if values != [] {
      CountNone(values[1..], keep);
    }
  }

  /** In a sorted list the value at place `k` has at most `k` below it and at least `k + 1` up to it. */
  lemma CountsAt(ys: seq<real>, k: nat)
    requires k < |ys| && Sorting.SortedBy(ys, x => x)
    ensures Count(ys, Below(ys[k])) <= k < Count(ys, UpTo(ys[k]))
    ensures Count(ys, Above(ys[k])) <= |ys| - 1 - k < Count(ys, From(ys[k]))
  {
    var y := ys[k];
    forall i, j | 0 <= i < j < |ys| ensures ys[i] <= ys[j] {
      assert (x => x)(ys[i]) <= (x => x)(ys[j]);
    }
    assert ys == ys[..k] + ys[k..] == ys[..k + 1] + ys[k + 1..];
    Sorting.FilterAppend(ys[..k], ys[k..], Below(y));
    Sorting.FilterAppend(ys[..k + 1], ys[k + 1..], UpTo(y));
    Sorting.FilterAppend(ys[..k + 1], ys[k + 1..], Above(y));
    Sorting.FilterAppend(ys[..k], ys[k..], From(y));
    CountNone(ys[k..], Below(y));
    CountAll(ys[..k + 1], UpTo(y));
    CountNone(ys[..k + 1], Above(y));
    CountAll(ys[k..], From(y));
  }

  lemma SortedCounts(values: seq<real>, k: nat)
    requires k < |values|
    ensures var y := Sorted(values)[k];
            && y in values
            && Count(values, Below(y)) <= k < Count(values, UpTo(y))
            && Count(values, Above(y)) <= |values| - 1 - k < Count(values, From(y))
  {
    var y := Sorted(values)[k];
    Sorting.StableSortSorted(values, x => x);
    assert Sorting.SortedBy(Sorted(values), x => x);
    CountsAt(Sorted(values), k);
    CountSorted(values, Below(y));
    CountSorted(values, UpTo(y));
    CountSorted(values, Above(y));
    CountSorted(values, From(y));
    Sorting.SameElements(values, Sorted(values));
    assert y in Sorted(values);
    hide Sorted, Count;
  }

  /** So many percent of `n`, in hundredths. */
  function Share(percent: real, n: nat): real { percent * n as real }

  /** A percentile is one of the values: fewer than so many percent are below it, and as many are not above it. */
  lemma PercentileMeans(values: seq<real>, percent: real)
    requires values != [] && 0.0 <= percent <= 100.0
    ensures Percentile(values, percent).Ok? && Percentile(values, percent).value.Some?
    ensures var r := Percentile(values, percent).value.value;
            && r in values
            && Share(percent, |values|) <= Count(values, UpTo(r)) as real * 100.0
            && (if percent > 0.0 then Count(values, Below(r)) as real * 100.0 < Share(percent, |values|)
                else Count(values, Below(r)) == 0)
  {
    hide Count, Sorted, RankIndex, Share;
    var k := RankIndex(|values|, percent);
    RankMeans(|values|, percent);
    SortedCounts(values, k);
    assert Percentile(values, percent) == Ok(Some(Sorted(values)[k]));
    hide Percentile;
  }

  lemma RankMeans(n: nat, percent: real)
    requires n > 0 && 0.0 <= percent <= 100.0
    ensures var k := RankIndex(n, percent);
            && Share(percent, n) <= (k + 1) as real * 100.0
            && (if percent > 0.0 then k as real * 100.0 < Share(percent, n) else k == 0)
  {
    var x := percent * n as real / 100.0;
    assert percent * n as real == x * 100.0;
    assert x <= n as real by {
      ProductGrows(percent, 100.0, n as real);
    }
    assert percent > 0.0 ==> x > 0.0;
    hide RankIndex;
    RankIs(n, percent, x);
  }

  lemma RankIs(n: nat, percent: real, x: real)
    requires n > 0 && x == percent * n as real / 100.0 && 0.0 <= x <= n as real
    ensures var k := RankIndex(n, percent);
            x <= (k + 1) as real && (if x > 0.0 then k as real < x else k == 0)
  {
  }

  /** A median is the mean of two values, neither with half of the values strictly beyond it. */
  lemma MedianMeans(values: seq<real>)
    requires values != []
    ensures Median(values).Some?
    ensures exists a <- values, b <- values :: Median(values).value * 2.0 == a + b && a <= b
              && 2 * Count(values, Below(a)) < |values| <= 2 * Count(values, UpTo(a))
              && 2 * Count(values, Above(b)) < |values| <= 2 * Count(values, From(b))
  {
    hide Count, Sorted;
    var lower, upper := (|values| - 1) / 2, |values| / 2;
    SortedCounts(values, lower);
    SortedCounts(values, upper);
    MiddleValues(values);
    hide Median;
  }

  lemma MiddleValues(values: seq<real>)
    requires values != []
    ensures var a, b := Sorted(values)[(|values| - 1) / 2], Sorted(values)[|values| / 2];
            a <= b && Median(values) == Some((a + b) / 2.0)
  {
    SortedAt(values, (|values| - 1) / 2, |values| / 2);
    hide Sorted;
  }

  lemma SortedAt(values: seq<real>, i: nat, j: nat)
    requires i <= j < |values|
    ensures Sorted(values)[i] <= Sorted(values)[j]
  {
    Sorting.StableSortSorted(values, x => x);
    assert Sorting.SortedBy(Sorted(values), x => x);
    hide Sorted;
    assert i < j ==> (x => x)(Sorted(values)[i]) <= (x => x)(Sorted(values)[j]);
  }

  lemma {:induction false} ExceedingCounts(values: seq<real>, threshold: real)
    ensures Exceeding(values, threshold) == Count(values, Above(threshold))
  {
    if values != [] {
      ExceedingCounts(values[1..], threshold);
    }
  }

  /** The report: which figure is which of the sampled lists. */
  lemma ReportMeans(totals: seq<real>, drawdowns: seq<real>, streaks: seq<real>, threshold: real)
    requires |totals| == |drawdowns| == |streaks| > 0
    ensures var r := ReportOf(totals, drawdowns, streaks, threshold);
            && Median(totals) == Some(r.medianTotal) && r.invariantTotal == totals[0]
            && Median(drawdowns) == Some(r.medianDrawdown) && Median(streaks) == Some(r.medianStreak)
            && IsPercentile(drawdowns, 90.0, r.p90Drawdown) && IsPercentile(drawdowns, 95.0, r.p95Drawdown)
            && IsPercentile(drawdowns, 99.0, r.p99Drawdown) && IsPercentile(streaks, 95.0, r.p95Streak)
  {
    hide Sorted, RankIndex, Exceeding;
  }

  predicate IsPercentile(values: seq<real>, percent: real, r: real) { Percentile(values, percent) == Ok(Some(r)) }

  /** The share of the drawdowns strictly above the threshold. */
  lemma ExceedanceMeans(totals: seq<real>, drawdowns: seq<real>, streaks: seq<real>, threshold: real)
    requires |totals| == |drawdowns| == |streaks| > 0
    ensures ReportOf(totals, drawdowns, streaks, threshold).exceedance * |drawdowns| as real
         == Count(drawdowns, Above(threshold)) as real
  {
    hide Count, Exceeding, Median, Percentile, Above;
    ExceedingCounts(drawdowns, threshold);
    ShareBack(Exceeding(drawdowns, threshold), |drawdowns|);
  }

  lemma ShareBack(k: nat, n: nat)
    requires n > 0
    ensures k as real / n as real * n as real == k as real
  {
  }
}
