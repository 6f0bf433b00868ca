/** What a report of the strategy engine was graded on, and what its plan comes from. */
module SignalMeaning {
  import opened Market
  import opened Retest
  import opened Strategy
  import Csd
  import Risk
  import Structure
  import RetestMeaning
  import Store = CandleStore

  /** The indicators of an event: over the last 500 candles of its series up to its own. */
  ghost function IndicatorsAt<I>(an: Analytics<I>, e: Event): I {
    an.indicators(Store.RecentAsOf(e.book, e.candle.key, 500, e.candle.openTime))
  }

  /** Event `i` is the last of its series. */
  predicate LastOfSeries(events: seq<Event>, key: SeriesKey, i: int) {
    0 <= i < |events| && events[i].candle.key == key && forall j :: i < j < |events| ==> events[j].candle.key != key
  }

  /** What the engine knows of a series, of any timeframe, are the indicators of its last event. */
  lemma {:induction false} KnownIndicators<I>(s: Settings, an: Analytics<I>, events: seq<Event>, key: SeriesKey)
    requires s.Valid()
    ensures var known := Run(s, an, events).0.indicators;
            && (key in known <==> exists i :: LastOfSeries(events, key, i))
            && forall i :: LastOfSeries(events, key, i) ==> key in known && known[key] == IndicatorsAt(an, events[i])
    decreases |events|
  {
    hide Store.RecentAsOf, RetestStage, BreakStage, StructureAt;
    if events != [] {
      var n := |events| - 1;
      var init := events[..n];
      KnownIndicators(s, an, init, key);
      assert forall i :: 0 <= i < n ==> init[i] == events[i];
      if events[n].candle.key == key {
        assert LastOfSeries(events, key, n);
      } else {
        assert forall i :: LastOfSeries(events, key, i) <==> LastOfSeries(init, key, i);
      }
    }
  }

  /** The indicators of the confirmation timeframes of one symbol, as far as they are known. */
  function Higher<I>(known: map<SeriesKey, I>, symbol: string, timeframes: seq<Timeframe>): (higher: seq<Option<I>>)
    ensures |higher| == |timeframes|
  {
    if timeframes == [] then []
    else
      var key := SeriesKey(symbol, timeframes[0]);
      [if key in known then Some(known[key]) else None] + Higher(known, symbol, timeframes[1..])
  }

  lemma {:induction false} HigherAt<I>(known: map<SeriesKey, I>, symbol: string, timeframes: seq<Timeframe>, i: nat)
    requires i < |timeframes|
    ensures Higher(known, symbol, timeframes)[i]
         == var key := SeriesKey(symbol, timeframes[i]); if key in known then Some(known[key]) else None
  {
    if i > 0 {
      HigherAt(known, symbol, timeframes[1..], i - 1);
    }
  }

  /** The distance of the break over the saturation, at most 1. */
  predicate GradesBreak(s: Settings, distancePercent: real, q: real) {
    (q == 1.0 <==> s.csdSaturation <= distancePercent) && (q == 1.0 || q * s.csdSaturation == distancePercent)
  }

  /** An immediate entry has no retest to grade; a retest counts by where in its range the candle closed. */
  predicate GradesRetest(a: Assessment, q: real) {
    if a.trigger.Immediate? then q == 0.0
    else
      && q * (a.candle.high - a.candle.low)
         == (if a.setup.direction.Bullish? then a.candle.close - a.candle.low else a.candle.high - a.candle.close)
      && (a.candle.high == a.candle.low ==> q == 0.0)
  }

  /** The grades a report was judged by, with all it is eligible for. */
  ghost predicate Judged<I>(s: Settings, an: Analytics<I>, known: map<SeriesKey, I>, v: I, a: Assessment,
                            break_: real, retest: real)
  {
    && GradesBreak(s, a.setup.source.distancePercent, break_) && GradesRetest(a, retest)
    && (a.eligible <==> an.eligible(a.setup.direction, v, Higher(known, a.candle.key.symbol, s.confirmation), break_,
                                     a.setup.quality, retest))
  }

  lemma BreakGraded(distancePercent: real, saturation: real)
    requires 0.0 < saturation
    ensures var q := Min(distancePercent / saturation, 1.0);
            (q == 1.0 <==> saturation <= distancePercent) && (q == 1.0 || q * saturation == distancePercent)
  {
    var q := distancePercent / saturation;
    assert q * saturation == distancePercent;
    assert q >= 1.0 ==> (q - 1.0) * saturation >= 0.0;
    assert q < 1.0 ==> (1.0 - q) * saturation > 0.0;
  }

  ghost predicate JudgedSomehow<I>(s: Settings, an: Analytics<I>, known: map<SeriesKey, I>, v: I, a: Assessment) {
    exists break_: real, retest: real :: Judged(s, an, known, v, a, break_, retest)
  }

  /** A report on candle `c`: how it was judged, and that it has the plan of its setup exactly when it is eligible and not refused. */
  ghost predicate Told<I>(s: Settings, an: Analytics<I>, known: map<SeriesKey, I>, v: I, c: PricedCandle, a: Assessment) {
    && a.candle == c && JudgedSomehow(s, an, known, v, a)
    && (a.plan.Some? <==> a.eligible && Risk.Calculate(s.stopBuffer, a.setup, c).Ok?)
    && (a.plan.Some? ==> Ok(a.plan.value) == Risk.Calculate(s.stopBuffer, a.setup, c))
  }

  lemma AssessedMeans<I>(s: Settings, an: Analytics<I>, indicators: map<SeriesKey, I>, setup: BreakoutSetup,
                         c: PricedCandle, trigger: Trigger, quality: real)
    requires s.Valid() && c.key in indicators
    requires GradesRetest(Assess(s, an, indicators, setup, c, trigger, quality), quality)
    ensures Told(s, an, indicators, indicators[c.key], c, Assess(s, an, indicators, setup, c, trigger, quality))
  {
    hide Risk.Calculate, GradesRetest;
    BreakGraded(setup.source.distancePercent, s.csdSaturation);
    var higher := seq(|s.confirmation|, i requires 0 <= i < |s.confirmation| =>
      var key := SeriesKey(c.key.symbol, s.confirmation[i]);
      if key in indicators then Some(indicators[key]) else None);
    forall i | 0 <= i < |s.confirmation| ensures Higher(indicators, c.key.symbol, s.confirmation)[i] == higher[i] {
      HigherAt(indicators, c.key.symbol, s.confirmation, i);
    }
    assert Higher(indicators, c.key.symbol, s.confirmation) == higher;
    assert Judged(s, an, indicators, indicators[c.key], Assess(s, an, indicators, setup, c, trigger, quality),
                  Min(setup.source.distancePercent / s.csdSaturation, 1.0), quality);
  }

  /** Every report of an event is judged by the indicators of its own candle and by those of the other timeframes so far. */
  lemma ReportsMean<I>(s: Settings, an: Analytics<I>, st: State<I>, e: Event)
    requires s.Valid()
    ensures e.candle.key.timeframe != s.primary ==> OnCandle(s, an, e.book, st, e.candle).1 == []
    ensures forall a <- OnCandle(s, an, e.book, st, e.candle).1 ::
              Told(s, an, st.indicators[e.candle.key := IndicatorsAt(an, e)], IndicatorsAt(an, e), e.candle, a)
  {
    hide StructureAt, Store.RecentAsOf, Started, Tracked, Csd.Detection, Told;
    var c := e.candle;
    var candles := Store.RecentAsOf(e.book, c.key, LOOKBACK, c.openTime);
    var v := an.indicators(candles);
    var st1 := st.(indicators := st.indicators[c.key := v]);
    if c.key.timeframe == s.primary {
      var (st2, first) := RetestStage(s, an, st1, c);
      RetestStageTold(s, an, st1, c);
      var structure := StructureAt(s, candles, c.closeTime);
      BreakStageTold(s, an, st2, c, structure);
      hide RetestStage, BreakStage;
    }
  }

  lemma RetestStageTold<I>(s: Settings, an: Analytics<I>, st: State<I>, c: PricedCandle)
    requires s.Valid() && c.key in st.indicators
    ensures forall a <- RetestStage(s, an, st, c).1 :: Told(s, an, st.indicators, st.indicators[c.key], c, a)
  {
    hide Told, Tracked;
    var event := TrackedIn(s.breakout, st.setups, c).1;
    if event.Some? && event.value.status.RetestDetected? {
      RetestMeaning.RejectionMeans(event.value.setup, c);
      hide RejectionQuality;
      AssessedMeans(s, an, st.indicators, event.value.setup, c, ViaRetest, event.value.quality);
    }
    hide Assess;
  }

  lemma BreakStageTold<I>(s: Settings, an: Analytics<I>, st: State<I>, c: PricedCandle, structure: seq<Structure.StructureEvent>)
    requires s.Valid() && c.key in st.indicators
    ensures forall a <- BreakStage(s, an, st, c, structure).1 :: Told(s, an, st.indicators, st.indicators[c.key], c, a)
  {
    hide Told, Csd.Detection, Started;
    var event := Csd.Detection(s.csd, st.emitted, c, structure, an.atr(st.indicators[c.key])).1;
    if event.Some? {
      AssessedMeans(s, an, st.indicators, Started(s.breakout, event.value), c, Immediate, 0.0);
    }
    hide Assess;
  }

  /** Series, direction, time and price of the broken swing and the kind of entry tell all reports of a run apart. */
  lemma NoTwoAlike<I>(s: Settings, an: Analytics<I>, events: seq<Event>)
    requires s.Valid()
    ensures var out := Run(s, an, events).1;
            forall i, j :: 0 <= i < j < |out| ==>
              var a, b := out[i], out[j];
              !(a.setup.source.candle.key == b.setup.source.candle.key && a.setup.direction == b.setup.direction
                && a.setup.source.swing.candle.openTime == b.setup.source.swing.candle.openTime
                && a.setup.source.swing.Price() == b.setup.source.swing.Price() && a.trigger == b.trigger)
  {
    NoDuplicateSignals(s, an, events);
    hide Run, Fresh;
  }
}
