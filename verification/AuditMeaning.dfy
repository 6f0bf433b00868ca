/**
 What a persisted audit says, in the settings, the plan and the candles: when the
 trade was open, what it cost and what it nets.
 */
module AuditMeaning {
  import opened Market
  import opened Exits
  import opened ExitBounds
  import opened ExitLimits
  import opened ExitProgress
  import opened ExitMeaning
  import opened Backtest
  import Agreement = BacktestAgreement
  import Costs
  import Sorting

  // ------------------------------------------------------------------ the costs

  /** Percent of notional that the funding of a position open between two times costs. */
  ghost predicate FundingPercent(s: Costs.CostSettings, openedAt: int, closedAt: int, percent: real) {
    if s.fundingSource.Disabled? || closedAt <= openedAt then percent == 0.0
    else exists periods: nat :: periods * 28_800_000 <= closedAt - openedAt < periods * 28_800_000 + 28_800_000
           && percent == periods as real * s.fundingRate
  }

  /**
   Costs of `costsR` at a risk of `risk` percent of the entry are two fees, two
   slippages and the funding, in percent of the notional.
   */
  ghost predicate PaysPercent(s: Costs.CostSettings, stopped: bool, openedAt: int, closedAt: int, costsR: real, risk: real) {
    exists funding: real :: FundingPercent(s, openedAt, closedAt, funding)
      && costsR * risk == (if s.entryOrder.Taker? then s.takerFee else s.makerFee) + s.slippage
                    + (if s.exitOrder.Taker? then s.takerFee else s.makerFee) + (if stopped then s.slippageStop else s.slippage)
                    + funding
  }

  lemma ShareOf(percent: real, risk: real)
    requires risk > 0.0
    ensures percent / risk * risk == percent
  {
  }

  lemma FundingMeans(s: Costs.CostSettings, openedAt: int, closedAt: int, risk: real)
    requires risk > 0.0 && Costs.FundingR(s, openedAt, closedAt, risk).Ok?
    ensures FundingPercent(s, openedAt, closedAt, Costs.FundingR(s, openedAt, closedAt, risk).value * risk)
  {
    if !s.fundingSource.Disabled? && openedAt < closedAt {
      var periods: nat := (closedAt - openedAt) / 28_800_000;
      ShareOf(periods as real * s.fundingRate, risk);
      assert periods * 28_800_000 <= closedAt - openedAt < periods * 28_800_000 + 28_800_000;
    }
  }

  /** The cost of a trade in R, times its risk in percent of the entry, is what it pays in percent. */
  lemma CostMeans(s: Costs.CostSettings, entry: real, stop: real, isStop: bool, openedAt: int, closedAt: int)
    requires Costs.Breakdown(s, entry, stop, isStop, openedAt, closedAt).Ok?
    ensures 0.0 < entry && entry != stop
    ensures PaysPercent(s, isStop, openedAt, closedAt,
                        Costs.Breakdown(s, entry, stop, isStop, openedAt, closedAt).value.totalR, Abs(entry - stop) / entry * 100.0)
  {
    Costs.BreakdownDefined(s, entry, stop, isStop, openedAt, closedAt);
    var risk := Abs(entry - stop) / entry * 100.0;
    var b := Costs.Breakdown(s, entry, stop, isStop, openedAt, closedAt).value;
    assert Costs.RiskPercent(entry, stop) == Ok(risk);
    ShareOf(s.Fee(s.entryOrder), risk);
    ShareOf(s.Fee(s.exitOrder), risk);
    ShareOf(s.slippage, risk);
    ShareOf(s.slippageStop, risk);
    FundingMeans(s, openedAt, closedAt, risk);
    hide Costs.FundingR, Costs.RiskPercent, FundingPercent;
    Spread(b.entryFeeR, b.exitFeeR, b.entrySlippageR, b.exitSlippageR, b.fundingR, risk);
  }

  lemma Spread(a: real, b: real, c: real, d: real, e: real, risk: real)
    ensures (a + b + c + d + e) * risk == a * risk + b * risk + c * risk + d * risk + e * risk
  {
  }

  // ------------------------------------------------------------ how trades end

  /** The reason of a stop goes with the resolution of a stop, and only ambiguous candles are counted as such. */
  ghost predicate EndsAlike(t: Trade) {
    && (t.state.Closed? ==> t.exitReason.Some? && t.resolution.Some?)
    && (t.state.Closed? ==>
         (t.exitReason.value.StopLoss? || t.exitReason.value.StopAfterPartialTp?
          <==> t.resolution.value.SameCandle? || t.resolution.value.StopOnly?))
    && t.ambiguous == (if t.state.Closed? && t.resolution == Some(SameCandle) then 1 else 0)
  }

  lemma ManageEndsAlike(policy: ExitPolicy, t: Trade, c: Candle)
    requires t.entryFill.Some? && t.legs != [] && t.state.Open? && t.ambiguous == 0
    ensures EndsAlike(Manage(policy, t, c))
  {
    hide TargetsHit, FillHits, PriceAtR, StopHit, Risk;
    assert Excurse(t, c).ambiguous == 0;
  }

  lemma {:induction false} RunEndsAlike(policy: ExitPolicy, plan: TradePlan, cs: seq<Candle>)
    requires policy.legs != []
    ensures EndsAlike(Replayed(policy, OpenTrade(policy, plan), cs))
    decreases |cs|
  {
    hide Manage;
    if cs != [] {
      RunEndsAlike(policy, plan, cs[..|cs| - 1]);
      var t, c := Replayed(policy, OpenTrade(policy, plan), cs[..|cs| - 1]), cs[|cs| - 1];
      var t1 := t.(barsSinceSignal := t.barsSinceSignal + 1);
      if t.state.Open? {
        ManageEndsAlike(policy, t1, c);
      } else if !t.Terminal() {
        ManageEndsAlike(policy, Enter(t1, c), c);
      }
    }
  }

  // ----------------------------------------------------------------- the audit

  /**
   How a trade ended on candle `c`, `bars` candles into it: at the stop that stood
   behind `level`, at its last target, by the time stop, or with the data.
   */
  ghost predicate EndsAs(policy: ExitPolicy, plan: TradePlan, c: Candle, level: real, bars: int, best: real,
                         reason: ExitReason, resolution: Resolution, exitPrice: real)
    requires policy.legs != [] && plan.WellPosed() && Risk(plan, plan.referenceEntry) > 0.0
  {
    var exit := InR(plan, plan.referenceEntry, exitPrice);
    match resolution
    case SameCandle =>
      && Worst(plan, c) <= StopInR(policy, level) == exit && StopReason(policy, level, reason)
      && exists i :: 0 <= i < |policy.legs| && level < policy.legs[i].targetR <= Best(plan, c)
    case StopOnly =>
      && Worst(plan, c) <= StopInR(policy, level) == exit && StopReason(policy, level, reason)
      && forall i :: 0 <= i < |policy.legs| ==> !(level < policy.legs[i].targetR <= Best(plan, c))
    case TargetOnly =>
      && reason == LastLeg(|policy.legs|) && exit == policy.legs[|policy.legs| - 1].targetR
      && forall i :: 0 <= i < |policy.legs| ==> policy.legs[i].targetR <= best
    case AtTimeStop => reason == TimeStop && exitPrice == c.close && policy.timeStopBars.Some? && policy.timeStopBars.value <= bars
    case AtEndOfData => reason == EndOfData && exitPrice == c.close
  }

  /** A stop behind some filled leg is told from a plain one. */
  ghost predicate StopReason(policy: ExitPolicy, level: real, reason: ExitReason) {
    reason == if exists i :: 0 <= i < |policy.legs| && policy.legs[i].targetR <= level then StopAfterPartialTp else StopLoss
  }

  /**
   From candle `e` on the trade was open on `bars` candles, which date and measure it.
   The legs at or below `level` paid their targets and the rest left at the exit price:
   a stop leaves the last candle out of the level, any other end counts it.
   */
  ghost predicate OpenFrom(policy: ExitPolicy, later: seq<Candle>, a: Audit, e: nat, level: real)
    requires policy.legs != [] && a.plan.prices.WellPosed() && Risk(a.plan.prices, a.plan.prices.referenceEntry) > 0.0
  {
    var plan := a.plan.prices;
    && EntersAt(policy, plan, later, e) && 1 <= a.bars && e + a.bars <= |later|
    && a.enteredAt == later[e].closeTime && a.exitTime == later[e + a.bars - 1].closeTime
    && Extremes(plan, later, e, a.bars, a.mfeR, a.maeR)
    && (if a.resolution.SameCandle? || a.resolution.StopOnly? then Highest(plan, later, e, a.bars - 1, level) else level == a.mfeR)
    && (a.resolution.AtEndOfData? ==> e + a.bars == |later|)
    && EndsAs(policy, plan, later[e + a.bars - 1], level, a.bars, a.mfeR, a.exitReason, a.resolution, a.exitPrice)
    && a.grossR == TotalR(Banked(policy.legs, level), InR(plan, plan.referenceEntry, a.exitPrice), Above(policy.legs, level))
  }

  /** What the figures of an audit mean. */
  ghost predicate Meant(setup: Setup, plan: Plan, signal: Candle, later: seq<Candle>, a: Audit)
    requires setup.policy.legs != [] && plan.prices.WellPosed()
  {
    var entry, stop := plan.prices.referenceEntry, plan.prices.stopLoss;
    && a.plan == plan && a.signalTime == signal.closeTime
    && Risk(plan.prices, entry) > 0.0 && (exists e: nat, level :: OpenFrom(setup.policy, later, a, e, level))
    && (a.ambiguous <==> a.resolution.SameCandle?)
    && (a.exitReason.StopLoss? || a.exitReason.StopAfterPartialTp? <==> a.resolution.SameCandle? || a.resolution.StopOnly?)
    && 0.0 < entry
    && PaysPercent(setup.costs, a.resolution.SameCandle? || a.resolution.StopOnly?, a.enteredAt, a.exitTime,
                   a.costsR, Abs(entry - stop) / entry * 100.0)
    && a.netR == a.grossR - a.costsR
  }

  /** The legs at or below `level` are filled: all that the excursion reached, except on the candle of a stop. */
  ghost predicate Level(policy: ExitPolicy, plan: TradePlan, later: seq<Candle>, e: nat, t: Trade, level: real)
    requires policy.legs != [] && plan.WellPosed() && Risk(plan, plan.referenceEntry) > 0.0
  {
    && OpenSince(plan, later, e, t) && t.resolution.Some? && t.exitReason.Some? && t.exitPrice.Some?
    && EndsAs(policy, plan, later[e + t.barsSinceEntry - 1], level, t.barsSinceEntry, t.mfeR, t.exitReason.value,
              t.resolution.value, t.exitPrice.value)
    && FilledUpTo(t.legs, level)
    && (if t.resolution == Some(SameCandle) || t.resolution == Some(StopOnly)
        then Highest(plan, later, e, t.barsSinceEntry - 1, level) else level == t.mfeR)
    && (t.resolution == Some(AtEndOfData) ==> e + t.barsSinceEntry == |later|)
  }

  lemma LevelAtEnd(policy: ExitPolicy, plan: TradePlan, later: seq<Candle>, e: nat)
    requires policy.Valid() && plan.WellPosed() && EntersAt(policy, plan, later, e) && later != []
    requires Replayed(policy, OpenTrade(policy, plan), later).state.Open?
    ensures Risk(plan, plan.referenceEntry) > 0.0
    ensures Level(policy, plan, later, e, Settled(policy, plan, later), Settled(policy, plan, later).mfeR)
  {
    InitialStopInR(plan);
    hide Replayed, Extremes, Highest, StopAt, InR, Risk, FilledUpTo, EntersAt;
    ExcursionMeaning(policy, plan, later, e);
    OpenTradeIsItsLevel(policy, plan, later);
  }

  lemma LevelOfClosed(policy: ExitPolicy, plan: TradePlan, later: seq<Candle>, e: nat) returns (level: real)
    requires policy.Valid() && plan.WellPosed() && EntersAt(policy, plan, later, e)
    requires Replayed(policy, OpenTrade(policy, plan), later).state.Closed?
    ensures Risk(plan, plan.referenceEntry) > 0.0
    ensures Level(policy, plan, later, e, Replayed(policy, OpenTrade(policy, plan), later), level)
  {
    InitialStopInR(plan);
    hide Replayed, Extremes, EntersAt, Best, Worst, StopInR, InR, Risk, FilledUpTo, Highest, CandleOutcome, EndsAs, ExitInR;
    var t := Replayed(policy, OpenTrade(policy, plan), later);
    var h := ClosingMeaning(policy, plan, later, e);
    var c := later[e + t.barsSinceEntry - 1];
    MostSoFar(plan, later, e, t, h);
    SamePrice(plan, t.exitPrice.value, c.close);
    EndsAsTold(policy, plan, c, h, t);
    level := if t.resolution == Some(SameCandle) || t.resolution == Some(StopOnly) then h else t.mfeR;
  }

  /** The outcome of the last candle, told by the level. */
  lemma EndsAsTold(policy: ExitPolicy, plan: TradePlan, c: Candle, h: real, t: Trade)
    requires policy.legs != [] && plan.WellPosed() && Risk(plan, plan.referenceEntry) > 0.0 && t.plan == plan
    requires t.state.Closed? && t.exitPrice.Some? && t.mfeR == Max(h, Best(plan, c))
    requires InR(plan, plan.referenceEntry, t.exitPrice.value) == InR(plan, plan.referenceEntry, c.close) ==> t.exitPrice.value == c.close
    requires CandleOutcome(policy, h, t.barsSinceEntry, Best(plan, c), Worst(plan, c), InR(plan, plan.referenceEntry, c.close), t, ExitInR(t))
    ensures t.exitReason.Some? && t.resolution.Some? && !t.resolution.value.AtEndOfData?
    ensures var level := if t.resolution == Some(SameCandle) || t.resolution == Some(StopOnly) then h else t.mfeR;
            && FilledUpTo(t.legs, level)
            && EndsAs(policy, plan, c, level, t.barsSinceEntry, t.mfeR, t.exitReason.value, t.resolution.value, t.exitPrice.value)
  {
    hide Best, Worst, StopInR, InR, Risk, FilledUpTo;
    assert ExitInR(t) == InR(plan, plan.referenceEntry, t.exitPrice.value);
  }

  /** Prices at one distance from the entry are one price. */
  lemma SamePrice(plan: TradePlan, x: real, y: real)
    requires Risk(plan, plan.referenceEntry) > 0.0
    ensures InR(plan, plan.referenceEntry, x) == InR(plan, plan.referenceEntry, y) ==> x == y
  {
    var risk := Risk(plan, plan.referenceEntry);
    ShareOf(x - plan.referenceEntry, risk);
    ShareOf(y - plan.referenceEntry, risk);
    ShareOf(plan.referenceEntry - x, risk);
    ShareOf(plan.referenceEntry - y, risk);
    hide Risk;
  }

  /** The best excursion is that before the last candle or that of the last candle. */
  lemma MostSoFar(plan: TradePlan, later: seq<Candle>, e: nat, t: Trade, h: real)
    requires plan.WellPosed() && OpenSince(plan, later, e, t) && Highest(plan, later, e, t.barsSinceEntry - 1, h)
    ensures t.mfeR == Max(h, Best(plan, later[e + t.barsSinceEntry - 1]))
  {
    hide Best, Worst;
  }

  /**
   Every priced outcome of a plan: open from the first candle that overlaps the zone
   to the one that closes it, charged the stop slippage exactly when it left at its
   stop, and netted by what it paid.
   */
  lemma AuditMeans(setup: Setup, plan: Plan, signal: Candle, later: seq<Candle>, a: Audit)
    requires setup.policy.Valid() && plan.prices.WellPosed()
    requires Backtest.Outcome(setup, plan, signal, later) == Some(Ok(a))
    ensures Meant(setup, plan, signal, later, a)
  {
    hide Replayed, Costs.Breakdown, GrossR, PaysPercent, EntersAt, Extremes, Costs.RiskPercent, Highest, FilledUpTo, Banked, Above, TotalR;
    var t := Replayed(setup.policy, OpenTrade(setup.policy, plan.prices), later);
    ReplaySound(setup.policy, plan.prices, later);
    RunEndsAlike(setup.policy, plan.prices, later);
    EntryMeaning(setup.policy, plan.prices, later);
    var e: nat :| EntersAt(setup.policy, plan.prices, later, e);
    ExcursionMeaning(setup.policy, plan.prices, later, e);
    var closed := CloseAtEnd(t, later[|later| - 1]);
    InitialStopInR(plan.prices);
    var level := t.mfeR;
    if t.state.Open? {
      LevelAtEnd(setup.policy, plan.prices, later, e);
    } else {
      level := LevelOfClosed(setup.policy, plan.prices, later, e);
    }
    ResultMeaning(setup.policy, plan.prices, later, level);
    CostMeans(setup.costs, plan.prices.referenceEntry, plan.prices.stopLoss, IsStopExit(closed.exitReason.value),
              closed.enteredAt.value, closed.closedAt.value);
    assert a.costsR == Costs.Breakdown(setup.costs, plan.prices.referenceEntry, plan.prices.stopLoss,
                                       IsStopExit(closed.exitReason.value), a.enteredAt, a.exitTime).value.totalR;
    assert EndsAlike(closed);
    assert OpenFrom(setup.policy, later, a, e, level);
  }

  /** Every audit the runner persists means this over the candles of its series behind its signal. */
  lemma PersistedMeans(setup: Setup, strategy: Strategy, candles: seq<Candle>, id: PlanId)
    requires setup.policy.Valid() && Agreement.Issued(strategy, Ordered(candles), id)
    requires PlansAt(strategy, Ordered(candles), id.candle)[id.rank].prices.WellPosed()
    ensures var ordered := Ordered(candles);
            var plan, signal := PlansAt(strategy, ordered, id.candle)[id.rank], ordered[id.candle];
            var later := Sorting.Filter<Candle>(ordered[id.candle + 1..], OfKey(plan.key));
            forall r <- Agreement.Lookup(Online(setup, strategy, candles), id) ::
              r.Ok? ==> Meant(setup, plan, signal, later, r.value)
  {
    hide Online, Backtest.Outcome, Agreement.Lookup, Ordered, Meant, Sorting.Filter, Agreement.Listed;
    var ordered := Ordered(candles);
    var p := Agreement.OnlineIsOwn(setup, strategy, candles, id);
    assert ordered[id.candle + 1..|ordered|] == ordered[id.candle + 1..];
    ListedMeans(setup, p.plan, p.signal, Agreement.Later(ordered, p, |ordered|));
    hide PlansAt;
  }

  lemma ListedMeans(setup: Setup, plan: Plan, signal: Candle, later: seq<Candle>)
    requires setup.policy.Valid() && plan.prices.WellPosed()
    ensures forall r <- Agreement.Listed(Backtest.Outcome(setup, plan, signal, later)) ::
              r.Ok? ==> Meant(setup, plan, signal, later, r.value)
  {
    hide Backtest.Outcome, Meant;
    var outcome := Backtest.Outcome(setup, plan, signal, later);
    if outcome.Some? && outcome.value.Ok? {
      AuditMeans(setup, plan, signal, later, outcome.value.value);
    }
  }
}
