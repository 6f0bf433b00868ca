/** What each stress scenario adds to the cost of a trade. */
module StressMeaning {
  import opened Market
  import opened Costs
  import opened CostStress
  import AuditMeaning

  /** A percentage of the notional in units of risk. */
  function Part(x: real, percent: real): real
    requires percent > 0.0
  {
    x / percent
  }

  /** Scaling a percentage scales its part. */
  lemma Scaled(f: real, x: real, y: real, percent: real)
    requires percent > 0.0 && y == f * x
    ensures Part(y, percent) == f * Part(x, percent)
  {
    var q := x / percent;
    assert q * percent == x;
    assert f * q * percent == f * x;
  }

  /** Fees, slippages and funding of a scenario against those of the base. */
  ghost predicate Stressed(base: CostBreakdown, stressed: CostBreakdown, fees: real, slippages: real) {
    && stressed.entryFeeR == fees * base.entryFeeR && stressed.exitFeeR == fees * base.exitFeeR
    && stressed.entrySlippageR == slippages * base.entrySlippageR && stressed.exitSlippageR == slippages * base.exitSlippageR
    && stressed.totalR == stressed.entryFeeR + stressed.exitFeeR + stressed.entrySlippageR + stressed.exitSlippageR + stressed.fundingR
  }

  /** At these prices and times the funding is charged at three times its rate, and at 0.01 percent at least. */
  ghost predicate AdverselyFunded(base: CostSettings, e: Execution, stressed: CostBreakdown)
    requires e.entry != 0.0
  {
    AuditMeaning.FundingPercent(
      base.(fundingSource := Fixed, fundingRate := if base.fundingRate * 3.0 < 0.01 then 0.01 else base.fundingRate * 3.0),
      e.openedAt, e.closedAt, stressed.fundingR * (Abs(e.entry - e.stop) / e.entry * 100.0))
  }

  /**
   Dearer fees double both fees, more slippage doubles both slippages, adverse funding
   changes the funding alone, and the severe scenario doubles the fees, trebles the
   slippages and funds adversely.
   */
  lemma ScenariosMean(base: CostSettings, e: Execution)
    requires Cost(base, e).Ok?
    ensures 0.0 < e.entry && forall s: Scenario :: Cost(StressSettings(base, s), e).Ok?
    ensures var b := Cost(base, e).value;
            && Cost(StressSettings(base, Base), e).value == b
            && Stressed(b, Cost(StressSettings(base, HighFees), e).value, 2.0, 1.0)
            && Stressed(b, Cost(StressSettings(base, HighSlippage), e).value, 1.0, 2.0)
            && Stressed(b, Cost(StressSettings(base, AdverseFunding), e).value, 1.0, 1.0)
            && Stressed(b, Cost(StressSettings(base, SevereCost), e).value, 2.0, 3.0)
            && Cost(StressSettings(base, HighFees), e).value.fundingR == b.fundingR
            && Cost(StressSettings(base, HighSlippage), e).value.fundingR == b.fundingR
            && AdverselyFunded(base, e, Cost(StressSettings(base, AdverseFunding), e).value)
            && AdverselyFunded(base, e, Cost(StressSettings(base, SevereCost), e).value)
  {
    hide Cost, Stressed, StressSettings;
    PricedInAll(base, e);
    BaseIsBase(base);
    HighFeesMean(base, e);
    HighSlippageMeans(base, e);
    FundingMeans(base, e);
    SevereMeans(base, e);
    FundedAdversely(base, e, AdverseFunding);
    FundedAdversely(base, e, SevereCost);
    hide AdverselyFunded;
  }

  lemma PricedInAll(base: CostSettings, e: Execution)
    requires Cost(base, e).Ok?
    ensures 0.0 < e.entry && forall s: Scenario :: Cost(StressSettings(base, s), e).Ok?
  {
    BreakdownDefined(base, e.entry, e.stop, e.isStop, e.openedAt, e.closedAt);
    forall s: Scenario ensures Cost(StressSettings(base, s), e).Ok? {
      BreakdownDefined(StressSettings(base, s), e.entry, e.stop, e.isStop, e.openedAt, e.closedAt);
      hide Breakdown;
    }
  }

  /** Settings with scaled prices scale the parts of the cost. */
  lemma ScaledCosts(a: CostSettings, b: CostSettings, e: Execution, fees: real, slippages: real)
    requires Cost(a, e).Ok? && Cost(b, e).Ok?
    requires b.takerFee == fees * a.takerFee && b.makerFee == fees * a.makerFee
    requires b.slippage == slippages * a.slippage && b.slippageStop == slippages * a.slippageStop
    requires b.entryOrder == a.entryOrder && b.exitOrder == a.exitOrder
    ensures Stressed(Cost(a, e).value, Cost(b, e).value, fees, slippages)
    ensures a.fundingSource == b.fundingSource && a.fundingRate == b.fundingRate
            ==> Cost(a, e).value.fundingR == Cost(b, e).value.fundingR
  {
    hide Cost, RiskPercent, FundingR, Part;
    Parts(a, e);
    Parts(b, e);
    var percent := RiskPercent(e.entry, e.stop).value;
    SameFunding(a, b, e.openedAt, e.closedAt, percent);
    Scaled(fees, a.Fee(a.entryOrder), b.Fee(b.entryOrder), percent);
    Scaled(fees, a.Fee(a.exitOrder), b.Fee(b.exitOrder), percent);
    Scaled(slippages, a.slippage, b.slippage, percent);
    Scaled(slippages, a.slippageStop, b.slippageStop, percent);
  }

  lemma Parts(s: CostSettings, e: Execution)
    requires Cost(s, e).Ok?
    ensures RiskPercent(e.entry, e.stop).Ok?
    ensures var c, percent := Cost(s, e).value, RiskPercent(e.entry, e.stop).value;
            && c.entryFeeR == Part(s.Fee(s.entryOrder), percent) && c.exitFeeR == Part(s.Fee(s.exitOrder), percent)
            && c.entrySlippageR == Part(s.slippage, percent)
            && c.exitSlippageR == Part(if e.isStop then s.slippageStop else s.slippage, percent)
            && Ok(c.fundingR) == FundingR(s, e.openedAt, e.closedAt, percent)
            && c.totalR == c.entryFeeR + c.exitFeeR + c.entrySlippageR + c.exitSlippageR + c.fundingR
  {
    hide FundingR, RiskPercent;
  }

  lemma SameFunding(a: CostSettings, b: CostSettings, openedAt: int, closedAt: int, percent: real)
    ensures a.fundingSource == b.fundingSource && a.fundingRate == b.fundingRate
            ==> FundingR(a, openedAt, closedAt, percent) == FundingR(b, openedAt, closedAt, percent)
  {
    hide Charged, FundingPeriods;
  }

  lemma HighFeesMean(base: CostSettings, e: Execution)
    requires Cost(base, e).Ok? && Cost(StressSettings(base, HighFees), e).Ok?
    ensures Stressed(Cost(base, e).value, Cost(StressSettings(base, HighFees), e).value, 2.0, 1.0)
    ensures Cost(StressSettings(base, HighFees), e).value.fundingR == Cost(base, e).value.fundingR
  {
    hide Cost, Stressed;
    ScaledCosts(base, StressSettings(base, HighFees), e, 2.0, 1.0);
  }

  lemma HighSlippageMeans(base: CostSettings, e: Execution)
    requires Cost(base, e).Ok? && Cost(StressSettings(base, HighSlippage), e).Ok?
    ensures Stressed(Cost(base, e).value, Cost(StressSettings(base, HighSlippage), e).value, 1.0, 2.0)
    ensures Cost(StressSettings(base, HighSlippage), e).value.fundingR == Cost(base, e).value.fundingR
  {
    hide Cost, Stressed;
    ScaledCosts(base, StressSettings(base, HighSlippage), e, 1.0, 2.0);
  }

  lemma FundingMeans(base: CostSettings, e: Execution)
    requires Cost(base, e).Ok? && Cost(StressSettings(base, AdverseFunding), e).Ok?
    ensures Stressed(Cost(base, e).value, Cost(StressSettings(base, AdverseFunding), e).value, 1.0, 1.0)
  {
    hide Cost, Stressed;
    ScaledCosts(base, StressSettings(base, AdverseFunding), e, 1.0, 1.0);
  }

  lemma SevereMeans(base: CostSettings, e: Execution)
    requires Cost(base, e).Ok? && Cost(StressSettings(base, SevereCost), e).Ok?
    ensures Stressed(Cost(base, e).value, Cost(StressSettings(base, SevereCost), e).value, 2.0, 3.0)
  {
    hide Cost, Stressed;
    ScaledCosts(base, StressSettings(base, SevereCost), e, 2.0, 3.0);
  }

  lemma FundedAdversely(base: CostSettings, e: Execution, scenario: Scenario)
    requires Cost(StressSettings(base, scenario), e).Ok? && scenario in {AdverseFunding, SevereCost} && e.entry != 0.0
    ensures AdverselyFunded(base, e, Cost(StressSettings(base, scenario), e).value)
  {
    var s, percent := StressSettings(base, scenario), Abs(e.entry - e.stop) / e.entry * 100.0;
    assert RiskPercent(e.entry, e.stop) == Ok(percent);
    assert Cost(s, e).value.fundingR == FundingR(s, e.openedAt, e.closedAt, percent).value;
    AuditMeaning.FundingMeans(s, e.openedAt, e.closedAt, percent);
    hide RiskPercent, FundingR;
  }

  /** How many of the first `n` trades have execution data. */
  function Priced(trades: seq<Option<Execution>>, n: nat): (k: nat)
    requires n <= |trades|
    ensures k <= n
  {
    if n == 0 then 0 else Priced(trades, n - 1) + if trades[n - 1].Some? then 1 else 0
  }

  /** Every trade with execution data is repriced in its place, and the others are counted. */
  lemma {:induction false} RepricedMeans(s: CostSettings, trades: seq<Option<Execution>>, n: nat)
    requires n <= |trades| && Repriced(s, trades, n).Ok?
    ensures var (nets, missing) := Repriced(s, trades, n).value;
            && |nets| == Priced(trades, n) && missing == n - Priced(trades, n)
            && forall k :: 0 <= k < n && trades[k].Some? ==>
                 && Cost(s, trades[k].value).Ok? && Priced(trades, k) < |nets|
                 && nets[Priced(trades, k)] == trades[k].value.grossR - Cost(s, trades[k].value).value.totalR
  {
    hide Cost;
    if n > 0 {
      RepricedMeans(s, trades, n - 1);
    }
  }
}
