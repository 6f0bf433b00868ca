/**
 The strategy engine inside the backtest: the replay loop feeds it a growing
 store, and its plans go through the exit simulator to persisted audits.
 */
module EngineBacktest {
  import opened Market
  import opened Exits
  import opened Strategy
  import opened StrategyEngine
  import opened Backtest
  import Agreement = BacktestAgreement
  import ExitBounds
  import ExitLimits
  import ExitProgress
  import Store = CandleStore
  import Costs
  import Retest
  import Csd
  import Structure
  import Risk
  import Indicators
  import Scoring
  import Sorting

  /** The replay loop: each candle is stored and then handled. */
  method ReplayEngine<I>(settings: Strategy.Settings, analytics: Analytics<I>, cs: seq<PricedCandle>)
      returns (reports: seq<Assessment>)
    requires settings.Valid()
    ensures reports == Run(settings, analytics, Incremental(cs, |cs|)).1
  {
    hide Strategy.OnCandle, Store.BookOf, Store.With;
    var store := new Store.CandleStore();
    var engine := new CSDStrategyEngine(settings, analytics, store);
    EmptyBook(cs);
    reports := [];
    for i := 0 to |cs|
      invariant engine.Wired() && engine.store == store && engine.settings == settings && engine.analytics == analytics
      invariant fresh(store) && fresh(engine) && fresh(engine.swingStore) && fresh(engine.csd) && fresh(engine.breakouts)
      invariant store.Valid() && store.candles == Store.BookOf(Front(cs, i))
      invariant (engine.Value(), reports) == Run(settings, analytics, Incremental(cs, i))
    {
      var changed := store.AddCandle(cs[i]);
      NextBook(cs, i);
      var found := engine.OnCandleClosed(cs[i]);
      NextEvent(settings, analytics, cs, i);
      reports := reports + found;
    }
  }

  ghost function Front<T>(cs: seq<T>, n: nat): seq<T>
    requires n <= |cs|
  {
    cs[..n]
  }

  lemma EmptyBook(cs: seq<PricedCandle>)
    ensures Store.BookOf(Front(cs, 0)) == map[]
  {
  }

  lemma NextBook(cs: seq<PricedCandle>, i: nat)
    requires i < |cs|
    ensures Store.BookOf(Front(cs, i + 1)) == Store.With(Store.BookOf(Front(cs, i)), cs[i])
  {
    assert cs[..i + 1][..i] == cs[..i];
  }

  lemma NextEvent<I>(s: Strategy.Settings, an: Analytics<I>, cs: seq<PricedCandle>, i: nat)
    requires s.Valid() && i < |cs|
    ensures var (st, out) := Run(s, an, Incremental(cs, i));
            var (st', new_) := Strategy.OnCandle(s, an, Store.BookOf(Front(cs, i + 1)), st, cs[i]);
            Run(s, an, Incremental(cs, i + 1)) == (st', out + new_)
  {
    hide Strategy.OnCandle, Store.BookOf;
    assert Incremental(cs, i + 1)[..i] == Incremental(cs, i);
  }

  // ------------------------------------------------------- plans are tradable

  /** The grades of a setup lie where the scoring expects them. */
  predicate Graded(setup: Retest.BreakoutSetup) {
    0.0 <= setup.source.distancePercent && 0.0 <= setup.quality <= 1.0
  }

  ghost predicate ProperSetups<I>(st: State<I>) {
    forall key <- st.setups :: Risk.Proper(st.setups[key]) && Graded(st.setups[key]) && st.setups[key].Series() == key
  }

  /**
   A report on candle `c`: a plan belongs to the series of `c`, can be traded and
   priced, and has its stop beyond the signal candle and the broken one; without a
   buffer an eligible setup goes without a plan only when there is no room for a stop.
   */
  ghost predicate Tradable(s: Strategy.Settings, a: Assessment, c: PricedCandle) {
    && Graded(a.setup)
    && (a.plan.Some? ==>
         var p := a.plan.value;
         && a.eligible && p.series == c.key && p.prices.WellPosed() && p.prices.referenceEntry > 0.0
         && Risk.StopBeyond(a.setup.direction, p.prices.stopLoss, c)
         && Risk.StopBeyond(a.setup.direction, p.prices.stopLoss, a.setup.source.candle))
    && (a.eligible && s.stopBuffer == 0.0 ==> (a.plan.None? <==> Risk.NoRoom(a.setup, c)))
  }

  lemma AssessTradable<I>(s: Strategy.Settings, an: Analytics<I>, indicators: map<SeriesKey, I>,
                          setup: Retest.BreakoutSetup, c: PricedCandle, trigger: Trigger, quality: real)
    requires s.Valid() && c.key in indicators && Risk.Proper(setup) && Graded(setup) && setup.Series() == c.key
    ensures Tradable(s, Assess(s, an, indicators, setup, c, trigger, quality), c)
  {
    if Risk.Calculate(s.stopBuffer, setup, c).Ok? {
      Risk.PlanIsTradable(s.stopBuffer, setup, c);
      Risk.StopBeyondCandles(s.stopBuffer, setup, c);
    }
    if s.stopBuffer == 0.0 {
      Risk.RefusedWithoutBuffer(setup, c);
    }
    hide Risk.Calculate;
  }

  lemma CandleTradable<I>(s: Strategy.Settings, an: Analytics<I>, book: Store.Book, st: State<I>, c: PricedCandle)
    requires s.Valid() && ProperSetups(st)
    ensures var (st', reports) := Strategy.OnCandle(s, an, book, st, c);
            ProperSetups(st') && forall a <- reports :: Tradable(s, a, c)
  {
    hide Assess, StructureAt, Store.RecentAsOf, Csd.Detection, Tradable, Retest.Started, Retest.Tracked;
    var candles := Store.RecentAsOf(book, c.key, LOOKBACK, c.openTime);
    var st1 := st.(indicators := st.indicators[c.key := an.indicators(candles)]);
    if c.key.timeframe == s.primary {
      var (st2, first) := RetestStage(s, an, st1, c);
      var event := Retest.TrackedIn(s.breakout, st1.setups, c).1;
      if event.Some? {
        AssessTradable(s, an, st1.indicators, event.value.setup, c, ViaRetest, event.value.quality);
      }
      assert ProperSetups(st2);
      var structure := StructureAt(s, candles, c.closeTime);
      var broken := Csd.Detection(s.csd, st2.emitted, c, structure, an.atr(st2.indicators[c.key])).1;
      if broken.Some? {
        AssessTradable(s, an, st2.indicators, Retest.Started(s.breakout, broken.value), c, Immediate, 0.0);
      }
    }
  }

  lemma {:induction false} RunTradable<I>(s: Strategy.Settings, an: Analytics<I>, events: seq<Event>)
    requires s.Valid()
    ensures ProperSetups(Run(s, an, events).0)
    decreases |events|
  {
    hide Strategy.OnCandle;
    if events != [] {
      RunTradable(s, an, events[..|events| - 1]);
      var last := events[|events| - 1];
      CandleTradable(s, an, last.book, Run(s, an, events[..|events| - 1]).0, last.candle);
    }
  }

  // -------------------------------------------------- the engine as a strategy

  predicate Priced(cs: seq<Candle>) {
    forall c <- cs :: 0.0 < c.low
  }

  function AsPriced(cs: seq<Candle>): (r: seq<PricedCandle>)
    requires Priced(cs)
    ensures |r| == |cs| && forall i :: 0 <= i < |r| ==> r[i] == cs[i]
  {
    seq(|cs|, i requires 0 <= i < |cs| => Same(cs, i))
  }

  function Same(cs: seq<Candle>, i: nat): (c: PricedCandle)
    requires i < |cs| && Priced(cs)
    ensures c == cs[i]
  {
    assert cs[i] in cs;
    cs[i]
  }

  function PlansIn(reports: seq<Assessment>): (plans: seq<Plan>) {
    if reports == [] then [] else PlanOf(reports[0]) + PlansIn(reports[1..])
  }

  function PlanOf(a: Assessment): seq<Plan> {
    if a.plan.Some? then [Plan(a.plan.value.series, a.plan.value.prices)] else []
  }

  lemma {:induction false} PlansTradable(s: Strategy.Settings, reports: seq<Assessment>, c: PricedCandle)
    requires forall a <- reports :: Tradable(s, a, c)
    ensures forall p <- PlansIn(reports) :: p.key == c.key && p.prices.WellPosed() && p.prices.referenceEntry > 0.0
  {
    if reports != [] {
      assert reports[0] in reports;
      PlansTradable(s, reports[1..], c);
    }
  }

  /** Reports hand over their plans in order, each with its series and prices, and nothing else. */
  lemma PlansMean(reports: seq<Assessment>, last: Assessment)
    ensures PlansIn([]) == []
    ensures PlansIn(reports + [last])
         == PlansIn(reports) + if last.plan.Some? then [Plan(last.plan.value.series, last.plan.value.prices)] else []
  {
    PlansAppend(reports, last);
  }

  lemma {:induction false} PlansAppend(reports: seq<Assessment>, last: Assessment)
    ensures PlansIn(reports + [last]) == PlansIn(reports) + PlanOf(last)
  {
    hide PlanOf;
    if reports == [] {
      assert [last][1..] == [] && [] + [last] == [last];
      assert PlanOf(last) + [] == PlanOf(last) == [] + PlanOf(last);
    } else {
      assert (reports + [last])[1..] == reports[1..] + [last];
      PlansAppend(reports[1..], last);
      Joined(PlanOf(reports[0]), PlansIn(reports[1..]), PlanOf(last));
    }
  }

  lemma Joined(a: seq<Plan>, b: seq<Plan>, c: seq<Plan>)
    ensures a + (b + c) == (a + b) + c
  {
  }

  /** What the engine reports on the last candle of a history it has replayed. */
  ghost function LastReports<I>(s: Strategy.Settings, an: Analytics<I>, cs: seq<PricedCandle>): seq<Assessment>
    requires s.Valid() && cs != []
  {
    Strategy.OnCandle(s, an, Store.BookOf(cs), Run(s, an, Incremental(cs, |cs| - 1)).0, cs[|cs| - 1]).1
  }

  ghost function EngineStrategy<I>(s: Strategy.Settings, an: Analytics<I>): Backtest.Strategy
    requires s.Valid()
  {
    (history: seq<Candle>) =>
      if history != [] && Priced(history) then PlansIn(LastReports(s, an, AsPriced(history))) else []
  }

  lemma EnginePlans<I>(s: Strategy.Settings, an: Analytics<I>, ordered: seq<Candle>, n: nat)
    requires s.Valid() && n < |ordered|
    ensures forall p <- PlansAt(EngineStrategy(s, an), ordered, n) ::
              p.key == ordered[n].key && p.prices.WellPosed() && p.prices.referenceEntry > 0.0
  {
    hide Strategy.OnCandle, Run;
    var history := ordered[..n + 1];
    if Priced(history) {
      var cs := AsPriced(history);
      var events := Incremental(cs, n);
      RunTradable(s, an, events);
      CandleTradable(s, an, Store.BookOf(cs), Run(s, an, events).0, cs[n]);
      PlansTradable(s, LastReports(s, an, cs), cs[n]);
    }
  }

  /** The engine's plans are persisted online exactly as the simulator would report them. */
  lemma EngineOnlineEqualsOffline<I>(setup: Setup, s: Strategy.Settings, an: Analytics<I>, candles: seq<Candle>, id: PlanId)
    requires setup.policy.legs != [] && s.Valid() && Agreement.UniqueTimes(candles)
    ensures var ordered, strategy := Ordered(candles), EngineStrategy(s, an);
            Agreement.Lookup(Online(setup, strategy, candles), id)
            == if Agreement.Issued(strategy, ordered, id) then
                 Agreement.Listed(Simulated(setup, PlansAt(strategy, ordered, id.candle)[id.rank], ordered[id.candle], candles))
               else []
  {
    hide Online, Simulated, Agreement.Lookup, EngineStrategy, Ordered;
    var ordered, strategy := Ordered(candles), EngineStrategy(s, an);
    forall n | 0 <= n < |ordered| ensures forall p <- PlansAt(strategy, ordered, n) :: p.key == ordered[n].key {
      EnginePlans(s, an, ordered, n);
    }
    Agreement.OnlineEqualsOffline(setup, strategy, candles, id);
  }

  // ------------------------------------------------------- from plan to audit

  /** An audit inside the limits that its policy guarantees. */
  predicate WithinLimits(setup: Setup, a: Audit)
    requires setup.policy.legs != []
  {
    && a.maeR <= a.grossR
    && (ExitLimits.KeepsInitialRisk(setup.policy) ==> -1.0 <= a.grossR)
    && (ExitLimits.StopBelowTargets(setup.policy) ==> a.grossR <= ExitBounds.AllTargetsR(setup.policy.legs))
    && (ExitLimits.StopBelowFills(setup.policy) ==> a.grossR <= a.mfeR)
    && a.netR == a.grossR - a.costsR <= a.grossR
  }

  lemma CostsOnlyTake(s: Costs.CostSettings, entry: real, stop: real, isStop: bool, openedAt: int, closedAt: int)
    requires s.Valid() && !s.fundingSource.Historical? && 0.0 < entry && entry != stop
    ensures var r := Costs.Breakdown(s, entry, stop, isStop, openedAt, closedAt);
            r.Ok? && 0.0 <= r.value.totalR
  {
    Costs.BreakdownDefined(s, entry, stop, isStop, openedAt, closedAt);
    hide Costs.FundingR;
    var percent := Costs.RiskPercent(entry, stop).value;
    NotNegative(s.Fee(s.entryOrder), percent);
    NotNegative(s.Fee(s.exitOrder), percent);
    NotNegative(s.slippage, percent);
    NotNegative(s.slippageStop, percent);
    FundingNotNegative(s, openedAt, closedAt, percent);
    hide Costs.RiskPercent;
  }

  lemma NotNegative(x: real, percent: real)
    requires 0.0 <= x && 0.0 < percent
    ensures 0.0 <= x / percent
  {
  }

  lemma FundingNotNegative(s: Costs.CostSettings, openedAt: int, closedAt: int, percent: real)
    requires s.Valid() && 0.0 < percent && Costs.FundingR(s, openedAt, closedAt, percent).Ok?
    ensures 0.0 <= Costs.FundingR(s, openedAt, closedAt, percent).value
  {
    if openedAt < closedAt {
      var paid := Costs.FundingPeriods(openedAt, closedAt) as real * s.fundingRate;
      assert 0.0 <= paid;
      NotNegative(paid, percent);
    }
  }

  lemma OutcomeWithinLimits(setup: Setup, plan: Plan, signal: Candle, later: seq<Candle>)
    requires setup.policy.Valid() && setup.costs.Valid() && !setup.costs.fundingSource.Historical?
    requires plan.prices.WellPosed() && plan.prices.referenceEntry > 0.0
    requires Outcome(setup, plan, signal, later).Some?
    ensures Outcome(setup, plan, signal, later).value.Ok?
    ensures WithinLimits(setup, Outcome(setup, plan, signal, later).value.value)
  {
    hide Replayed, Costs.Breakdown, GrossR, ExitLimits.KeepsInitialRisk, ExitLimits.StopBelowTargets, ExitLimits.StopBelowFills;
    var t := ExitBounds.Settled(setup.policy, plan.prices, later);
    ExitProgress.EntryAtReference(setup.policy, plan.prices, later);
    ReplaySound(setup.policy, plan.prices, later);
    ExitLimits.SettledLimits(setup.policy, plan.prices, later);
    CostsOnlyTake(setup.costs, t.entryFill.value, plan.prices.stopLoss, IsStopExit(t.exitReason.value),
                  t.enteredAt.value, t.closedAt.value);
  }

  /**
   Every audit a backtest of the engine persists is priced and inside the limits
   of the exit policy, on every candle history.
   */
  lemma EngineAuditsWithinLimits<I>(setup: Setup, s: Strategy.Settings, an: Analytics<I>, candles: seq<Candle>, id: PlanId)
    requires setup.policy.Valid() && setup.costs.Valid() && !setup.costs.fundingSource.Historical?
    requires s.Valid() && Agreement.UniqueTimes(candles)
    ensures var strategy := EngineStrategy(s, an);
            forall r <- Agreement.Lookup(Online(setup, strategy, candles), id) :: r.Ok? && WithinLimits(setup, r.value)
  {
    hide Online, Outcome, WithinLimits, Agreement.Lookup, EngineStrategy, Ordered;
    var ordered, strategy := Ordered(candles), EngineStrategy(s, an);
    EngineOnlineEqualsOffline(setup, s, an, candles, id);
    if Agreement.Issued(strategy, ordered, id) {
      EnginePlans(s, an, ordered, id.candle);
      var plan, signal := PlansAt(strategy, ordered, id.candle)[id.rank], ordered[id.candle];
      assert plan in PlansAt(strategy, ordered, id.candle);
      if Simulated(setup, plan, signal, candles).Some? {
        var later := SimulatedOver(setup, plan, signal, candles);
        OutcomeWithinLimits(setup, plan, signal, later);
      }
    }
  }

  /** Without historical funding no backtest of the engine ends in a trade that cannot be priced. */
  lemma EngineRunCompletes<I>(setup: Setup, s: Strategy.Settings, an: Analytics<I>, candles: seq<Candle>)
    requires setup.policy.Valid() && setup.costs.Valid() && !setup.costs.fundingSource.Historical?
    requires s.Valid() && Agreement.UniqueTimes(candles)
    ensures var log := Online(setup, EngineStrategy(s, an), candles);
            FailureOf(log).None? && Kept(log) == log
  {
    hide Online, EngineStrategy, WithinLimits, Agreement.Lookup;
    var log := Online(setup, EngineStrategy(s, an), candles);
    if FailureOf(log).Some? {
      var id := Agreement.LookupOfFailure(log);
      EngineAuditsWithinLimits(setup, s, an, candles, id);
      assert false;
    }
    KeptAppend(log, []);
  }

  lemma SimulatedOver(setup: Setup, plan: Plan, signal: Candle, candles: seq<Candle>) returns (later: seq<Candle>)
    requires setup.policy.legs != []
    ensures Simulated(setup, plan, signal, candles) == Outcome(setup, plan, signal, later)
  {
    hide Outcome, Series;
    later := After(Sorting.StableSort(Series(candles, plan.key), OpenTimeOf), signal.openTime);
  }

  // ------------------------------------------------------ scoring never aborts

  /**
   In every run of the engine with an admissible volume threshold, each
   assessment is made from qualities the scoring accepts, so it never raises.
   */
  lemma EngineNeverRaises(s: Strategy.Settings, conf: Scoring.ConfirmationSettings, w: Scoring.Weights,
                          events: seq<Event>, last: Event, higher: seq<Option<Indicators.IndicatorValues>>, retestQuality: real)
    requires s.Valid() && conf.Valid() && 0.0 <= retestQuality <= 1.0
    requires conf.volumeRatioMinimum == 0.0 || 1.0 <= conf.volumeRatioMinimum
    ensures var an := Scoring.StrategyAnalytics(conf, w);
            var v := Indicators.Calculated(Store.RecentAsOf(last.book, last.candle.key, LOOKBACK, last.candle.openTime));
            forall a <- Strategy.OnCandle(s, an, last.book, Run(s, an, events).0, last.candle).1 ::
              Scoring.ScoreOf(w, Scoring.Evaluate(conf, a.setup.direction, v, higher), CsdQuality(s, a), a.setup.quality,
                              retestQuality).Ok?
  {
    var an := Scoring.StrategyAnalytics(conf, w);
    hide Strategy.OnCandle, Run, Scoring.ScoreOf, Scoring.Evaluate, Indicators.Calculated, Scoring.StrategyAnalytics;
    RunTradable(s, an, events);
    var st := Run(s, an, events).0;
    CandleTradable(s, an, last.book, st, last.candle);
    var candles := Store.RecentAsOf(last.book, last.candle.key, LOOKBACK, last.candle.openTime);
    Indicators.CalculatedIsSane(candles);
    var v := Indicators.Calculated(candles);
    forall a | a in Strategy.OnCandle(s, an, last.book, st, last.candle).1
      ensures Scoring.ScoreOf(w, Scoring.Evaluate(conf, a.setup.direction, v, higher), CsdQuality(s, a), a.setup.quality,
                              retestQuality).Ok?
    {
      SaturatedCsd(a.setup.source.distancePercent, s.csdSaturation);
      Scoring.ScoredWhen(conf, w, a.setup.direction, v, higher, CsdQuality(s, a), a.setup.quality, retestQuality);
    }
  }

  /** The first quality `_assess` hands to the scoring. */
  function CsdQuality(s: Strategy.Settings, a: Assessment): real
    requires s.Valid()
  {
    Min(a.setup.source.distancePercent / s.csdSaturation, 1.0)
  }

  lemma SaturatedCsd(distance: real, saturation: real)
    requires 0.0 <= distance && 0.0 < saturation
    ensures 0.0 <= Min(distance / saturation, 1.0) <= 1.0
  {
    assert distance / saturation >= 0.0;
  }
}
