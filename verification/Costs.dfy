/**
 The cost model of `app/backtest/costs.py`: percentages of notional expressed in
 units of initial stop risk.
 */
module Costs {
  import opened Market

  datatype OrderType = Taker | Maker

  datatype FundingSource = Historical | Fixed | Disabled

  datatype CostSettings = CostSettings(
    takerFee: real, makerFee: real, entryOrder: OrderType, exitOrder: OrderType,
    slippage: real, slippageStop: real, fundingRate: real, fundingSource: FundingSource)
  {
    /** `load_settings` refuses negative values. */
    predicate Valid() {
      0.0 <= takerFee && 0.0 <= makerFee && 0.0 <= slippage && 0.0 <= slippageStop && 0.0 <= fundingRate
    }

    function Fee(order: OrderType): real { if order.Taker? then takerFee else makerFee }
  }

  datatype CostBreakdown = CostBreakdown(
    entryFeeR: real, exitFeeR: real, entrySlippageR: real, exitSlippageR: real, fundingR: real, totalR: real)

  const EIGHT_HOURS_MS := 28_800_000

  /** Whole eight-hour periods between two times, the first before the second. */
  function FundingPeriods(openedAt: int, closedAt: int): int {
    (closedAt - openedAt) / EIGHT_HOURS_MS
  }

  /** So many payments of a rate, both in percent of the notional, in units of risk. */
  function Charged(periods: int, rate: real, riskPercent: real): real
    requires riskPercent > 0.0
  {
    periods as real * rate / riskPercent
  }

  function FundingR(s: CostSettings, openedAt: int, closedAt: int, riskPercent: real): Result<real> {
    if closedAt <= openedAt || riskPercent <= 0.0 || s.fundingSource.Disabled? then Ok(0.0)
    else if s.fundingSource.Historical? then Raised("historical funding source is not configured for V2")
    else Ok(Charged(FundingPeriods(openedAt, closedAt), s.fundingRate, riskPercent))
  }

  function RiskPercent(entry: real, stopLoss: real): (r: Result<real>)
    ensures r.Ok? ==> r.value > 0.0
  {
    if entry == 0.0 then Raised("division by zero")
    else
      var percent := Abs(entry - stopLoss) / entry * 100.0;
      if percent <= 0.0 then Raised("entry and stop_loss must define positive risk") else Ok(percent)
  }

  function Breakdown(s: CostSettings, entry: real, stopLoss: real, isStopExit: bool,
                     openedAt: int, closedAt: int): Result<CostBreakdown>
  {
    match RiskPercent(entry, stopLoss)
    case Raised(e) => Raised(e)
    case Ok(percent) =>
      var entryFee, exitFee := s.Fee(s.entryOrder) / percent, s.Fee(s.exitOrder) / percent;
      var entrySlip, exitSlip := s.slippage / percent, (if isStopExit then s.slippageStop else s.slippage) / percent;
      match FundingR(s, openedAt, closedAt, percent)
      case Raised(e) => Raised(e)
      case Ok(funding) =>
        Ok(CostBreakdown(entryFee, exitFee, entrySlip, exitSlip, funding,
                         entryFee + exitFee + entrySlip + exitSlip + funding))
  }

  /** Exactly when a trade can be priced. */
  predicate Priceable(s: CostSettings, entry: real, stopLoss: real, openedAt: int, closedAt: int) {
    0.0 < entry && entry != stopLoss && (s.fundingSource.Historical? ==> closedAt <= openedAt)
  }

  lemma BreakdownDefined(s: CostSettings, entry: real, stopLoss: real, isStopExit: bool, openedAt: int, closedAt: int)
    ensures Breakdown(s, entry, stopLoss, isStopExit, openedAt, closedAt).Ok?
       <==> Priceable(s, entry, stopLoss, openedAt, closedAt)
  {
    if entry != 0.0 {
      var q := Abs(entry - stopLoss) / entry;
      assert q * entry == Abs(entry - stopLoss);
      if entry < 0.0 {
        assert q * entry >= 0.0;
        assert q <= 0.0;
      } else if entry != stopLoss {
        assert q > 0.0;
      }
    }
  }
}
