/**
 Repricing trades under stressed costs (`app/backtest/research.py`), and what that
 can do to the performance figures.
 */
module CostStress {
  import opened Market
  import opened Costs
  import opened Metrics
  import Backtest
  import Exits

  datatype Scenario = Base | HighSlippage | HighFees | AdverseFunding | SevereCost

  function StressSettings(base: CostSettings, scenario: Scenario): CostSettings {
    match scenario
    case Base => base
    case HighSlippage => base.(slippage := base.slippage * 2.0, slippageStop := base.slippageStop * 2.0)
    case HighFees => base.(takerFee := base.takerFee * 2.0, makerFee := base.makerFee * 2.0)
    case AdverseFunding => base.(fundingSource := Fixed, fundingRate := Max(base.fundingRate * 3.0, 0.01))
    case SevereCost =>
      base.(takerFee := base.takerFee * 2.0, makerFee := base.makerFee * 2.0,
            slippage := base.slippage * 3.0, slippageStop := base.slippageStop * 3.0,
            fundingSource := Fixed, fundingRate := Max(base.fundingRate * 3.0, 0.01))
  }

  /** What repricing needs of an audit; older audits may lack it. */
  datatype Execution = Execution(entry: real, stop: real, openedAt: int, closedAt: int, isStop: bool, grossR: real)

  function Cost(s: CostSettings, e: Execution): Result<CostBreakdown> {
    Breakdown(s, e.entry, e.stop, e.isStop, e.openedAt, e.closedAt)
  }

  /** The repriced net outcomes of the trades that can be repriced, and how many cannot; one pricing error ends the report. */
  function Repriced(s: CostSettings, trades: seq<Option<Execution>>, n: nat): Result<(seq<real>, nat)>
    requires n <= |trades|
  {
    if n == 0 then Ok(([], 0))
    else
      match Repriced(s, trades, n - 1)
      case Raised(e) => Raised(e)
      case Ok((nets, missing)) =>
        if trades[n - 1].None? then Ok((nets, missing + 1))
        else
          var e := trades[n - 1].value;
          match Cost(s, e)
          case Raised(error) => Raised(error)
          case Ok(cost) => Ok((nets + [e.grossR - cost.totalR], missing))
  }

  datatype Figures = Figures(nets: seq<real>, missing: nat, maxDrawdown: real, longest: nat)

  /** One scenario of the report. */
  method StressOne(s: CostSettings, trades: seq<Option<Execution>>) returns (r: Result<Figures>)
    ensures r.Ok? <==> Repriced(s, trades, |trades|).Ok?
    ensures r.Ok? ==>
      && (r.value.nets, r.value.missing) == Repriced(s, trades, |trades|).value
      && IsMaxDrawdown(r.value.nets, |r.value.nets|, r.value.maxDrawdown)
      && IsLongestStreak(r.value.nets, |r.value.nets|, r.value.longest)
  {
    hide Cost, IsMaxDrawdown, IsLongestStreak;
    var stressed: seq<real>, missing := [], 0;
    for i := 0 to |trades|
      invariant Repriced(s, trades, i) == Ok((stressed, missing))
    {
      if trades[i].None? {
        missing := missing + 1;
      } else {
        var cost := Cost(s, trades[i].value);
        if cost.Raised? {
          StaysRaised(s, trades, i + 1, |trades|);
          return Raised(cost.error);
        }
        stressed := stressed + [trades[i].value.grossR - cost.value.totalR];
      }
    }
    var maxDrawdown, longest := CalculateMetrics(stressed);
    return Ok(Figures(stressed, missing, maxDrawdown, longest));
  }

  lemma {:induction false} StaysRaised(s: CostSettings, trades: seq<Option<Execution>>, i: nat, n: nat)
    requires i <= n <= |trades| && Repriced(s, trades, i).Raised?
    ensures Repriced(s, trades, n).Raised?
  {
    hide Cost;
    if i < n {
      StaysRaised(s, trades, i, n - 1);
    }
  }

  // --------------------------------------------------------- one trade dominated

  /** Every price of the first is at most that of the second, and its funding source charges no more. */
  predicate Cheaper(a: CostSettings, b: CostSettings) {
    && a.takerFee <= b.takerFee && a.makerFee <= b.makerFee
    && a.slippage <= b.slippage && a.slippageStop <= b.slippageStop
    && a.entryOrder == b.entryOrder && a.exitOrder == b.exitOrder
    && (a.fundingSource.Disabled? || (a.fundingSource.Fixed? && b.fundingSource.Fixed? && a.fundingRate <= b.fundingRate))
    && !b.fundingSource.Historical?
  }

  lemma ScenariosAreDearer(base: CostSettings, scenario: Scenario)
    requires base.Valid() && !base.fundingSource.Historical?
    ensures Cheaper(base, StressSettings(base, scenario))
    ensures Cheaper(StressSettings(base, scenario), StressSettings(base, SevereCost))
    ensures StressSettings(base, scenario).Valid()
  {
  }

  lemma ShareGrows(x: real, y: real, risk: real)
    requires x <= y && risk > 0.0
    ensures x / risk <= y / risk
  {
  }

  lemma FundingGrows(n: int, x: real, y: real, risk: real)
    requires 0 <= n && 0.0 <= x <= y && risk > 0.0
    ensures 0.0 <= n as real * x / risk <= n as real * y / risk
  {
    assert n as real * (y - x) >= 0.0 && n as real * x >= 0.0;
    ShareGrows(n as real * x, n as real * y, risk);
  }

  lemma FundingNoLess(a: CostSettings, b: CostSettings, openedAt: int, closedAt: int, risk: real)
    requires a.Valid() && b.Valid() && Cheaper(a, b) && risk > 0.0
    ensures FundingR(a, openedAt, closedAt, risk).Ok? && FundingR(b, openedAt, closedAt, risk).Ok?
    ensures FundingR(a, openedAt, closedAt, risk).value <= FundingR(b, openedAt, closedAt, risk).value
  {
    if closedAt > openedAt {
      var n := FundingPeriods(openedAt, closedAt);
      FundingGrows(n, 0.0, b.fundingRate, risk);
      FundingGrows(n, if a.fundingSource.Disabled? then 0.0 else a.fundingRate, b.fundingRate, risk);
    }
  }

  lemma DearerCostsMore(a: CostSettings, b: CostSettings, e: Execution)
    requires a.Valid() && b.Valid() && Cheaper(a, b)
    ensures Cost(a, e).Ok? <==> Cost(b, e).Ok?
    ensures Cost(a, e).Ok? ==> Cost(a, e).value.totalR <= Cost(b, e).value.totalR
  {
    if RiskPercent(e.entry, e.stop).Ok? {
      var risk := RiskPercent(e.entry, e.stop).value;
      hide RiskPercent, FundingR, FundingPeriods;
      FundingNoLess(a, b, e.openedAt, e.closedAt, risk);
      ShareGrows(a.Fee(a.entryOrder), b.Fee(b.entryOrder), risk);
      ShareGrows(a.Fee(a.exitOrder), b.Fee(b.exitOrder), risk);
      ShareGrows(a.slippage, b.slippage, risk);
      ShareGrows(a.slippageStop, b.slippageStop, risk);
    }
  }

  // -------------------------------------------------- lists of outcomes dominated

  /** Outcome by outcome, the first list is no better. */
  ghost predicate NoBetter(xs: seq<real>, ys: seq<real>) {
    |xs| == |ys| && forall i :: 0 <= i < |xs| ==> xs[i] <= ys[i]
  }

  lemma {:induction false} RepricingDominates(a: CostSettings, b: CostSettings, trades: seq<Option<Execution>>, n: nat)
    requires a.Valid() && b.Valid() && Cheaper(a, b) && n <= |trades|
    ensures Repriced(a, trades, n).Ok? <==> Repriced(b, trades, n).Ok?
    ensures Repriced(a, trades, n).Ok? ==>
      && Repriced(a, trades, n).value.1 == Repriced(b, trades, n).value.1
      && NoBetter(Repriced(b, trades, n).value.0, Repriced(a, trades, n).value.0)
  {
    hide Cheaper, Cost;
    if n > 0 {
      RepricingDominates(a, b, trades, n - 1);
      if trades[n - 1].Some? {
        DearerCostsMore(a, b, trades[n - 1].value);
      }
    }
  }

  function Wins(xs: seq<real>): nat {
    |xs| - Losers(xs)
  }

  function Losers(xs: seq<real>): (n: nat)
    ensures n <= |xs|
  {
    LosersTo(xs, |xs|)
  }

  lemma {:induction false} DominatedPrefix(xs: seq<real>, ys: seq<real>, n: nat)
    requires NoBetter(xs, ys) && n <= |xs|
    ensures Equity(xs, n) <= Equity(ys, n)
    ensures LosersTo(xs, n) >= LosersTo(ys, n)
  {
    if n > 0 {
      DominatedPrefix(xs, ys, n - 1);
    }
  }

  /** Every rise of the better curve is at least that of the worse. */
  lemma {:induction false} DominatedSegment(xs: seq<real>, ys: seq<real>, i: nat, j: nat)
    requires NoBetter(xs, ys) && i <= j <= |xs|
    ensures Equity(ys, i) - Equity(ys, j) <= Equity(xs, i) - Equity(xs, j)
    decreases j
  {
    if i < j {
      DominatedSegment(xs, ys, i, j - 1);
    }
  }

  /** Worse outcomes, trade by trade, never improve a figure. */
  lemma DominatedFigures(xs: seq<real>, ys: seq<real>, d: real, d': real, s: nat, s': nat)
    requires NoBetter(xs, ys)
    requires IsMaxDrawdown(xs, |xs|, d) && IsMaxDrawdown(ys, |ys|, d')
    requires IsLongestStreak(xs, |xs|, s) && IsLongestStreak(ys, |ys|, s')
    ensures Sum(xs) <= Sum(ys) && Wins(xs) <= Wins(ys) && d >= d' && s >= s'
    ensures xs != [] ==> Sum(xs) / |xs| as real <= Sum(ys) / |ys| as real
  {
    DominatedPrefix(xs, ys, |xs|);
    EquityIsSum(xs, |xs|);
    EquityIsSum(ys, |ys|);
    assert xs[..|xs|] == xs && ys[..|ys|] == ys;
    if xs != [] {
      ShareGrows(Sum(xs), Sum(ys), |xs| as real);
    }
    var i, j :| 0 <= i <= j <= |ys| && Equity(ys, i) - Equity(ys, j) == d';
    DominatedSegment(xs, ys, i, j);
    var a, b :| b <= |ys| && Losing(ys, a, b) && b - a == s';
    assert Losing(xs, a, b);
  }

  /** The figures of one list are no better than those of another. */
  ghost predicate Worse(a: Figures, b: Figures) {
    && a.missing == b.missing && |a.nets| == |b.nets|
    && Sum(a.nets) <= Sum(b.nets) && Wins(a.nets) <= Wins(b.nets)
    && (a.nets != [] ==> Sum(a.nets) / |a.nets| as real <= Sum(b.nets) / |b.nets| as real)
    && a.maxDrawdown >= b.maxDrawdown && a.longest >= b.longest
  }

  /** The report: with a priced base source, no scenario improves on the base and none is worse than the severe one. */
  method CostStressReport(base: CostSettings, trades: seq<Option<Execution>>)
      returns (r: Result<map<Scenario, Figures>>)
    requires base.Valid()
    ensures r.Ok? ==> forall s: Scenario :: s in r.value
    ensures r.Ok? ==> forall s: Scenario :: Repriced(StressSettings(base, s), trades, |trades|)
                                              == Ok((r.value[s].nets, r.value[s].missing))
    ensures r.Raised? ==> exists s: Scenario :: Repriced(StressSettings(base, s), trades, |trades|).Raised?
    ensures r.Ok? && !base.fundingSource.Historical? ==>
      forall s: Scenario :: Worse(r.value[s], r.value[Base]) && Worse(r.value[SevereCost], r.value[s])
  {
    hide Repriced, IsMaxDrawdown, IsLongestStreak, Worse, StressSettings;
    var order := [Base, HighSlippage, HighFees, AdverseFunding, SevereCost];
    var report: map<Scenario, Figures> := map[];
    for i := 0 to |order|
      invariant forall j :: 0 <= j < i ==> order[j] in report
      invariant forall s <- report :: Computed(StressSettings(base, s), trades, report[s])
    {
      var figures := StressOne(StressSettings(base, order[i]), trades);
      if figures.Raised? {
        return Raised(figures.error);
      }
      report := report[order[i] := figures.value];
    }
    forall s: Scenario ensures s in report {
      assert order[Place(s)] == s;
    }
    if !base.fundingSource.Historical? {
      forall s: Scenario ensures Worse(report[s], report[Base]) && Worse(report[SevereCost], report[s]) {
        ScenariosAreDearer(base, s);
        BaseIsBase(base);
        DearerIsWorse(base, StressSettings(base, s), trades, report[Base], report[s]);
        ScenariosAreDearer(base, SevereCost);
        DearerIsWorse(StressSettings(base, s), StressSettings(base, SevereCost), trades, report[s], report[SevereCost]);
      }
    }
    return Ok(report);
  }

  function Place(s: Scenario): nat {
    match s
    case Base => 0
    case HighSlippage => 1
    case HighFees => 2
    case AdverseFunding => 3
    case SevereCost => 4
  }

  lemma BaseIsBase(base: CostSettings)
    ensures StressSettings(base, Base) == base
  {
  }

  /** These figures are those of the trades repriced. */
  ghost predicate Computed(s: CostSettings, trades: seq<Option<Execution>>, f: Figures) {
    && Repriced(s, trades, |trades|) == Ok((f.nets, f.missing))
    && IsMaxDrawdown(f.nets, |f.nets|, f.maxDrawdown)
    && IsLongestStreak(f.nets, |f.nets|, f.longest)
  }

  lemma DearerIsWorse(a: CostSettings, b: CostSettings, trades: seq<Option<Execution>>, fa: Figures, fb: Figures)
    requires a.Valid() && b.Valid() && Cheaper(a, b)
    requires Computed(a, trades, fa) && Computed(b, trades, fb)
    ensures Worse(fb, fa)
  {
    hide Cheaper, IsMaxDrawdown, IsLongestStreak, Repriced;
    RepricingDominates(a, b, trades, |trades|);
    DominatedFigures(fb.nets, fa.nets, fb.maxDrawdown, fa.maxDrawdown, fb.longest, fa.longest);
  }

  /** The base scenario gives back the net result the backtest has booked. */
  lemma BaseReproduces(setup: Backtest.Setup, plan: Backtest.Plan, signal: Candle, t: Exits.Trade)
    requires Backtest.Complete(t) && Backtest.AuditOf(setup, plan, signal, t).Ok?
    ensures var a := Backtest.AuditOf(setup, plan, signal, t).value;
            var e := Execution(t.entryFill.value, t.plan.stopLoss, a.enteredAt, a.exitTime,
                               Backtest.IsStopExit(a.exitReason), a.grossR);
            Repriced(StressSettings(setup.costs, Base), [Some(e)], 1) == Ok(([a.netR], 0))
  {
    var a := Backtest.AuditOf(setup, plan, signal, t).value;
    var e := Execution(t.entryFill.value, t.plan.stopLoss, a.enteredAt, a.exitTime, Backtest.IsStopExit(a.exitReason), a.grossR);
    assert Cost(setup.costs, e).Ok? && a.netR == a.grossR - Cost(setup.costs, e).value.totalR;
    hide Cost;
    assert Repriced(setup.costs, [Some(e)], 0) == Ok(([], 0));
    assert [Some(e)][0] == Some(e) && [] + [a.netR] == [a.netR];
    BaseIsBase(setup.costs);
  }
}
