/**
 Drawdown and losing streak, computed twice by running loops
 (`app/backtest/metrics.py`, `app/backtest/research.py`), and how far reordering
 the outcomes can move them.
 */
module Metrics {
  import opened Market
  import Sorting

  /** Equity after `n` outcomes. */
  function Equity(xs: seq<real>, n: nat): real
    requires n <= |xs|
  {
    if n == 0 then 0.0 else Equity(xs, n - 1) + xs[n - 1]
  }

  // --------------------------------------------------------------- definitions

  /** The largest fall of the equity curve from any point to any later one. */
  ghost predicate IsMaxDrawdown(xs: seq<real>, n: nat, d: real)
    requires n <= |xs|
  {
    && (forall i, j :: 0 <= i <= j <= n ==> Equity(xs, i) - Equity(xs, j) <= d)
    && (exists i, j :: 0 <= i <= j <= n && Equity(xs, i) - Equity(xs, j) == d)
  }

  /** No win from position `i` up to `j`. */
  predicate Losing(xs: seq<real>, i: int, j: int) {
    0 <= i <= j <= |xs| && forall k :: i <= k < j ==> xs[k] <= 0.0
  }

  ghost predicate IsLongestStreak(xs: seq<real>, n: nat, longest: nat)
    requires n <= |xs|
  {
    && (forall i, j :: j <= n && Losing(xs, i, j) ==> j - i <= longest)
    && (exists i, j :: j <= n && Losing(xs, i, j) && j - i == longest)
  }

  lemma DefinitionsAreUnique(xs: seq<real>, d: real, d': real, s: nat, s': nat)
    requires IsMaxDrawdown(xs, |xs|, d) && IsMaxDrawdown(xs, |xs|, d')
    requires IsLongestStreak(xs, |xs|, s) && IsLongestStreak(xs, |xs|, s')
    ensures d == d' && s == s'
  {
    var i, j :| 0 <= i <= j <= |xs| && Equity(xs, i) - Equity(xs, j) == d;
    var i', j' :| 0 <= i' <= j' <= |xs| && Equity(xs, i') - Equity(xs, j') == d';
    var a, b :| b <= |xs| && Losing(xs, a, b) && b - a == s;
    var a', b' :| b' <= |xs| && Losing(xs, a', b') && b' - a' == s';
  }

  // ----------------------------------------------------------------- the loops

  ghost predicate IsPeak(xs: seq<real>, n: nat, peak: real)
    requires n <= |xs|
  {
    && (forall i :: 0 <= i <= n ==> Equity(xs, i) <= peak)
    && (exists i :: 0 <= i <= n && Equity(xs, i) == peak)
  }

  /** The streak that ends at `n`, and no longer one does. */
  ghost predicate IsCurrent(xs: seq<real>, n: nat, streak: nat)
    requires n <= |xs|
  {
    streak <= n && Losing(xs, n - streak, n) && (streak < n ==> xs[n - streak - 1] > 0.0)
  }

  ghost predicate Watching(xs: seq<real>, n: nat, equity: real, peak: real, drawdown: real, streak: nat, longest: nat) {
    && n <= |xs|
    && equity == Equity(xs, n) && IsPeak(xs, n, peak) && IsMaxDrawdown(xs, n, drawdown)
    && IsCurrent(xs, n, streak) && IsLongestStreak(xs, n, longest)
  }

  lemma WatchNothing(xs: seq<real>)
    ensures Watching(xs, 0, 0.0, 0.0, 0.0, 0, 0)
  {
    assert Losing(xs, 0, 0);
  }

  lemma NextPeak(xs: seq<real>, n: nat, peak: real)
    requires n < |xs| && IsPeak(xs, n, peak)
    ensures IsPeak(xs, n + 1, Max(peak, Equity(xs, n + 1)))
  {
    var i :| 0 <= i <= n && Equity(xs, i) == peak;
    assert Max(peak, Equity(xs, n + 1)) in {Equity(xs, i), Equity(xs, n + 1)};
  }

  lemma NextDrawdown(xs: seq<real>, n: nat, peak: real, drawdown: real)
    requires n < |xs| && IsPeak(xs, n + 1, peak) && IsMaxDrawdown(xs, n, drawdown)
    ensures IsMaxDrawdown(xs, n + 1, Max(drawdown, peak - Equity(xs, n + 1)))
  {
    hide Equity;
    var i, j :| 0 <= i <= j <= n && Equity(xs, i) - Equity(xs, j) == drawdown;
    var p :| 0 <= p <= n + 1 && Equity(xs, p) == peak;
    var d := Max(drawdown, peak - Equity(xs, n + 1));
    assert Equity(xs, i) - Equity(xs, j) == d || Equity(xs, p) - Equity(xs, n + 1) == d;
  }

  lemma NextStreak(xs: seq<real>, n: nat, streak: nat, longest: nat)
    requires n < |xs| && IsCurrent(xs, n, streak) && IsLongestStreak(xs, n, longest)
    ensures var next := if xs[n] <= 0.0 then streak + 1 else 0;
            && IsCurrent(xs, n + 1, next)
            && IsLongestStreak(xs, n + 1, if next > longest then next else longest)
  {
    var next := if xs[n] <= 0.0 then streak + 1 else 0;
    assert Losing(xs, n + 1 - next, n + 1);
    var a, b :| b <= n && Losing(xs, a, b) && b - a == longest;
    forall i, j | j <= n + 1 && Losing(xs, i, j) ensures j - i <= if next > longest then next else longest {
      if j == n + 1 && i < n + 1 - next {
        assert false;
      }
    }
  }

  lemma WatchNext(xs: seq<real>, n: nat, equity: real, peak: real, drawdown: real, streak: nat, longest: nat)
    requires n < |xs| && Watching(xs, n, equity, peak, drawdown, streak, longest)
    ensures var equity', streak' := equity + xs[n], if xs[n] <= 0.0 then streak + 1 else 0;
            var peak' := Max(peak, equity');
            Watching(xs, n + 1, equity', peak', Max(drawdown, peak' - equity'), streak',
                     if streak' > longest then streak' else longest)
  {
    NextPeak(xs, n, peak);
    NextDrawdown(xs, n, Max(peak, Equity(xs, n + 1)), drawdown);
    NextStreak(xs, n, streak, longest);
    hide IsPeak, IsMaxDrawdown, IsCurrent, IsLongestStreak;
  }

  /** The loop of `calculate_metrics`: the drawdown is kept negative and its size returned. */
  method CalculateMetrics(net: seq<real>) returns (maxDrawdown: real, longest: nat)
    ensures IsMaxDrawdown(net, |net|, maxDrawdown) && IsLongestStreak(net, |net|, longest)
  {
    hide IsPeak, IsMaxDrawdown, IsCurrent, IsLongestStreak;
    var equity, peak, drawdown, streak := 0.0, 0.0, 0.0, 0;
    longest := 0;
    WatchNothing(net);
    for i := 0 to |net|
      invariant drawdown <= 0.0 && Watching(net, i, equity, peak, -drawdown, streak, longest)
    {
      WatchNext(net, i, equity, peak, -drawdown, streak, longest);
      var value := net[i];
      equity := equity + value;
      peak := Max(peak, equity);
      drawdown := Min(drawdown, equity - peak);
      if value <= 0.0 {
        streak := streak + 1;
        longest := if streak > longest then streak else longest;
      } else {
        streak := 0;
      }
    }
    maxDrawdown := Abs(drawdown);
  }

  /** The loop of `_drawdown_and_streak`: the drawdown is kept positive. */
  method DrawdownAndStreak(values: seq<real>) returns (drawdown: real, longest: nat)
    ensures IsMaxDrawdown(values, |values|, drawdown) && IsLongestStreak(values, |values|, longest)
  {
    hide IsPeak, IsMaxDrawdown, IsCurrent, IsLongestStreak;
    var equity, peak, streak := 0.0, 0.0, 0;
    drawdown, longest := 0.0, 0;
    WatchNothing(values);
    for i := 0 to |values|
      invariant Watching(values, i, equity, peak, drawdown, streak, longest)
    {
      WatchNext(values, i, equity, peak, drawdown, streak, longest);
      equity := equity + values[i];
      peak := Max(peak, equity);
      drawdown := Max(drawdown, peak - equity);
      if values[i] <= 0.0 {
        streak := streak + 1;
        longest := if streak > longest then streak else longest;
      } else {
        streak := 0;
      }
    }
  }

  // ------------------------------------------------- what no reordering changes

  function Loss(x: real): real { if x < 0.0 then -x else 0.0 }

  /** The sum of all losses. */
  function Losses(xs: seq<real>): real {
    if xs == [] then 0.0 else Loss(xs[0]) + Losses(xs[1..])
  }

  function CountLosing(xs: seq<real>): nat {
    if xs == [] then 0 else (if xs[0] <= 0.0 then 1 else 0) + CountLosing(xs[1..])
  }

  lemma {:induction false} SumsAppend(xs: seq<real>, ys: seq<real>)
    ensures Sum(xs + ys) == Sum(xs) + Sum(ys)
    ensures Losses(xs + ys) == Losses(xs) + Losses(ys)
    ensures CountLosing(xs + ys) == CountLosing(xs) + CountLosing(ys)
  {
    if xs == [] {
      assert xs + ys == ys;
    } else {
      assert (xs + ys)[1..] == xs[1..] + ys;
      SumsAppend(xs[1..], ys);
    }
  }

  lemma {:induction false} TakeOut(ys: seq<real>, i: nat) returns (rest: seq<real>)
    requires i < |ys|
    ensures multiset(ys) == multiset(rest) + multiset{ys[i]} && |rest| == |ys| - 1
    ensures Sum(ys) == Sum(rest) + ys[i]
    ensures Losses(ys) == Losses(rest) + Loss(ys[i])
    ensures CountLosing(ys) == CountLosing(rest) + (if ys[i] <= 0.0 then 1 else 0)
  {
    assert ys == [ys[0]] + ys[1..];
    if i == 0 {
      rest := ys[1..];
    } else {
      var rest' := TakeOut(ys[1..], i - 1);
      rest := [ys[0]] + rest';
      assert rest[1..] == rest';
    }
  }

  /** Totals depend on the outcomes, not on their order. */
  lemma {:induction false} OrderIrrelevant(xs: seq<real>, ys: seq<real>)
    requires multiset(xs) == multiset(ys)
    ensures |xs| == |ys|
    ensures Sum(xs) == Sum(ys) && Losses(xs) == Losses(ys) && CountLosing(xs) == CountLosing(ys)
    decreases |xs|
  {
    assert |multiset(xs)| == |xs| && |multiset(ys)| == |ys|;
    if xs != [] {
      assert xs[0] in multiset(xs);
      var i :| 0 <= i < |ys| && ys[i] == xs[0];
      var rest := TakeOut(ys, i);
      var first := TakeOut(xs, 0);
      assert multiset(first) == multiset(xs) - multiset{xs[0]};
      assert multiset(rest) == multiset(ys) - multiset{ys[i]};
      OrderIrrelevant(first, rest);
    }
  }

  // ------------------------------------------------------------ limits of both

  lemma {:induction false} EquityIsSum(xs: seq<real>, n: nat)
    requires n <= |xs|
    ensures Equity(xs, n) == Sum(xs[..n])
  {
    if n > 0 {
      EquityIsSum(xs, n - 1);
      assert xs[..n] == xs[..n - 1] + [xs[n - 1]];
      SumsAppend(xs[..n - 1], [xs[n - 1]]);
      assert [xs[n - 1]][1..] == [];
    }
  }

  /** A fall is at most the losses on the way. */
  lemma {:induction false} FallWithinLosses(xs: seq<real>, i: nat, j: nat)
    requires i <= j <= |xs|
    ensures Equity(xs, i) - Equity(xs, j) <= Losses(xs[..j])
    ensures 0.0 <= Losses(xs[..j])
    decreases j
  {
    if j > 0 {
      assert xs[..j] == xs[..j - 1] + [xs[j - 1]];
      SumsAppend(xs[..j - 1], [xs[j - 1]]);
      assert [xs[j - 1]][1..] == [];
      FallWithinLosses(xs, if i < j then i else j - 1, j - 1);
    }
  }

  lemma PrefixLosses(xs: seq<real>, j: nat)
    requires j <= |xs|
    ensures Losses(xs[..j]) <= Losses(xs)
  {
    assert xs == xs[..j] + xs[j..];
    SumsAppend(xs[..j], xs[j..]);
    FallWithinLosses(xs[j..], 0, |xs[j..]|);
    assert xs[j..][..|xs[j..]|] == xs[j..];
  }

  lemma DrawdownLimits(xs: seq<real>, d: real)
    requires IsMaxDrawdown(xs, |xs|, d)
    ensures Max(0.0, -Sum(xs)) <= d <= Losses(xs)
  {
    EquityIsSum(xs, |xs|);
    assert xs[..|xs|] == xs;
    assert Equity(xs, 0) - Equity(xs, |xs|) <= d && Equity(xs, 0) - Equity(xs, 0) <= d;
    var i, j :| 0 <= i <= j <= |xs| && Equity(xs, i) - Equity(xs, j) == d;
    hide IsMaxDrawdown, Losses, Sum;
    FallWithinLosses(xs, i, j);
    PrefixLosses(xs, j);
  }

  lemma {:induction false} LosingRunCounts(xs: seq<real>, i: nat, j: nat)
    requires Losing(xs, i, j)
    ensures j - i <= CountLosing(xs)
  {
    if i == j {
    } else if i > 0 {
      LosingRunCounts(xs[1..], i - 1, j - 1);
    } else {
      LosingRunCounts(xs[1..], 0, j - 1);
    }
  }

  /** The losers among the first `n`. */
  function LosersTo(xs: seq<real>, n: nat): (count: nat)
    requires n <= |xs|
    ensures count <= n
  {
    if n == 0 then 0 else LosersTo(xs, n - 1) + (if xs[n - 1] <= 0.0 then 1 else 0)
  }

  lemma {:induction false} LosersToEnd(xs: seq<real>, n: nat)
    requires n <= |xs|
    ensures LosersTo(xs, n) == CountLosing(xs[..n])
  {
    if n > 0 {
      LosersToEnd(xs, n - 1);
      assert xs[..n] == xs[..n - 1] + [xs[n - 1]];
      SumsAppend(xs[..n - 1], [xs[n - 1]]);
      assert [xs[n - 1]][1..] == [];
    }
  }

  /** The wins cut the outcomes into losing runs, the last of them still open at `n`. */
  lemma {:induction false} LosersFitInRuns(xs: seq<real>, n: nat)
    requires n <= |xs|
    ensures LosersTo(xs, n) <= LongestTo(xs, n) * (n - LosersTo(xs, n)) + CurrentTo(xs, n)
    ensures CurrentTo(xs, n) <= LongestTo(xs, n)
  {
    hide IsCurrent, IsLongestStreak;
    if n > 0 {
      LosersFitInRuns(xs, n - 1);
      MoreRuns(LongestTo(xs, n - 1), LongestTo(xs, n), n - 1 - LosersTo(xs, n - 1));
    }
  }

  lemma MoreRuns(before: nat, longest: nat, wins: int)
    requires before <= longest && 0 <= wins
    ensures before * wins <= longest * wins && longest * (wins + 1) == longest * wins + longest
  {
    assert (longest - before) * wins >= 0;
  }

  ghost function LongestTo(xs: seq<real>, n: nat): (longest: nat)
    requires n <= |xs|
    ensures IsLongestStreak(xs, n, longest)
  {
    if n == 0 then
      assert Losing(xs, 0, 0);
      0
    else
      var current, before := CurrentTo(xs, n - 1), LongestTo(xs, n - 1);
      NextStreak(xs, n - 1, current, before);
      var next := if xs[n - 1] <= 0.0 then current + 1 else 0;
      if next > before then next else before
  }

  ghost function CurrentTo(xs: seq<real>, n: nat): (streak: nat)
    requires n <= |xs|
    ensures IsCurrent(xs, n, streak)
  {
    if n == 0 then 0 else if xs[n - 1] <= 0.0 then CurrentTo(xs, n - 1) + 1 else 0
  }

  /** The number of winners bounds how far losers can be kept apart: streak * (W + 1) >= L. */
  lemma StreakLimits(xs: seq<real>, longest: nat)
    requires IsLongestStreak(xs, |xs|, longest)
    ensures longest <= CountLosing(xs) <= longest * (|xs| - CountLosing(xs) + 1)
  {
    var i, j :| j <= |xs| && Losing(xs, i, j) && j - i == longest;
    LosingRunCounts(xs, i, j);
    var a, b :| b <= |xs| && Losing(xs, a, b) && b - a == LongestTo(xs, |xs|);
    assert longest == LongestTo(xs, |xs|);
    LosersToEnd(xs, |xs|);
    LosersFitInRuns(xs, |xs|);
    assert xs[..|xs|] == xs;
    var wins := |xs| - CountLosing(xs);
    assert longest * (wins + 1) == longest * wins + longest;
  }
}
