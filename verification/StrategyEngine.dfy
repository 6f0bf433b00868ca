/**
 The strategy engine as it runs, sharing its store and setup table with its parts
 (`app/strategy/csd_strategy.py`), and what it means for a whole backtest.
 */
module StrategyEngine {
  import opened Market
  import opened Swings
  import opened Structure
  import opened Csd
  import opened Retest
  import opened Strategy
  import Store = CandleStore
  import Risk
  import Sorting

  lemma {:induction false} PivotsAreCandles(cs: seq<PricedCandle>, left: nat, right: nat, end: int)
    requires end + right <= |cs|
    ensures forall s <- PivotsBefore(cs, left, right, end) :: s.candle in cs
    decreases end
  {
    if end > left {
      PivotsAreCandles(cs, left, right, end - 1);
      PivotsShareTime(cs, left, right, end - 1);
      hide PivotsAt;
    }
  }

  lemma OrderedAreCandles(candles: seq<PricedCandle>)
    ensures forall c <- OrderedClosed(candles) :: c in candles
  {
    var closed, ordered := Sorting.Filter(candles, ClosedPriced), OrderedClosed(candles);
    Sorting.SameElements(closed, ordered);
  }

  /** An as-of read returns candles of the series asked for. */
  lemma ReadsOwnSeries(book: Store.Book, key: SeriesKey, limit: nat, asOf: int)
    requires Store.Filed(book)
    ensures forall c <- Store.RecentAsOf(book, key, limit, asOf) :: c.key == key
  {
    hide Store.Listing;
    var cs := Store.RecentAsOf(book, key, limit, asOf);
    var bucket := Store.Bucket(book, key);
    var all := Store.Listing(set t | t in bucket && t <= asOf);
    var times := Store.LastOf(all, limit);
    forall i | 0 <= i < |cs| ensures cs[i].key == key {
      assert times[i] in all;
      assert times[i] in bucket;
      assert cs[i] == book[key][times[i]];
    }
  }

  lemma DetectedAreCandles(candles: seq<PricedCandle>, left: nat, right: nat)
    ensures forall p <- Detected(OrderedClosed(candles), left, right) :: p.candle in candles
  {
    hide OrderedClosed, PivotsBefore;
    var ordered := OrderedClosed(candles);
    OrderedAreCandles(candles);
    PivotsAreCandles(ordered, left, right, |ordered| - right);
    assert Detected(ordered, left, right) == PivotsBefore(ordered, left, right, |ordered| - right);
    hide Detected;
  }

  lemma GateKeeps(found: seq<SwingPoint>, at: int)
    ensures forall p <- Gate(found, at) :: p in found
  {
  }

  /** Whatever the gate shows of candles of one series belongs to that series. */
  lemma GatedIsOneSeries(s: Settings, candles: seq<PricedCandle>, key: SeriesKey, at: int)
    requires forall c <- candles :: c.key == key
    ensures OneSeries(key, Gate(Detected(OrderedClosed(candles), s.left, s.right), at))
  {
    var found := Detected(OrderedClosed(candles), s.left, s.right);
    DetectedAreCandles(candles, s.left, s.right);
    GateKeeps(found, at);
    hide Gate, Detected, OrderedClosed;
    var swings := Gate(found, at);
    forall i | 0 <= i < |swings| ensures swings[i].candle.key == key {
      assert swings[i] in swings;
    }
  }

  class CSDStrategyEngine<I> {
    const settings: Settings
    const analytics: Analytics<I>
    const store: Store.CandleStore
    const detector: SwingDetector
    const swingStore: SwingStore
    const structure: MarketStructureEngine
    const csd: CSDEngine
    const breakouts: BreakoutEngine
    const retests: RetestEngine
    var latestIndicators: map<SeriesKey, I>

    constructor (settings: Settings, analytics: Analytics<I>, store: Store.CandleStore)
      requires settings.Valid()
      ensures this.settings == settings && this.analytics == analytics && this.store == store
      ensures Wired() && Value() == Start()
      ensures fresh(swingStore) && fresh(csd) && fresh(breakouts)
    {
      this.settings, this.analytics, this.store := settings, analytics, store;
      var breakouts := new BreakoutEngine(settings.breakout);
      detector := new SwingDetector(settings.left, settings.right);
      swingStore := new SwingStore();
      structure := new MarketStructureEngine();
      csd := new CSDEngine(settings.csd);
      this.breakouts := breakouts;
      retests := new RetestEngine(breakouts);
      latestIndicators := map[];
    }

    /** The parts carry the engine's settings, and the retest engine advances the engine's own setups. */
    predicate Wired() {
      && settings.Valid()
      && detector.leftBars == settings.left && detector.rightBars == settings.right
      && csd.settings == settings.csd
      && breakouts.settings == settings.breakout && retests.breakouts == breakouts
    }

    ghost function Value(): State<I>
      reads this, csd, breakouts
    {
      State(csd.emittedBreaks, breakouts.setups, latestIndicators)
    }

    /** One closed candle: the state and the reports are those of `OnCandle`. */
    method OnCandleClosed(c: PricedCandle) returns (reports: seq<Assessment>)
      requires Wired() && store.Valid()
      modifies this, swingStore, csd, breakouts
      ensures (Value(), reports) == OnCandle(settings, analytics, store.candles, old(Value()), c)
    {
      hide StructureAt, Store.RecentAsOf, Detection, TrackedIn, Assess;
      var candles := store.GetRecentAsOf(c.key, LOOKBACK, c.openTime);
      latestIndicators := latestIndicators[c.key := analytics.indicators(candles)];
      if c.key.timeframe != settings.primary {
        return [];
      }
      ghost var st1 := Value();
      var retest := retests.Evaluate(c);
      reports := [];
      if retest.Some? && retest.value.status.RetestDetected? && !settings.mode.ImmediateOnly? {
        reports := [Assess(settings, analytics, latestIndicators, retest.value.setup, c, ViaRetest, retest.value.quality)];
      }
      ghost var st2, first := Value(), reports;
      assert (st2, first) == RetestStage(settings, analytics, st1, c);
      var events := StructureOf(c, candles);
      var broken := csd.Evaluate(c, events, analytics.atr(latestIndicators[c.key]));
      if broken.Some? {
        var setup := breakouts.Start(broken.value);
        if !settings.mode.RetestOnly? {
          reports := reports + [Assess(settings, analytics, latestIndicators, setup, c, Immediate, 0.0)];
        }
      }
      ghost var (st3, second) := BreakStage(settings, analytics, st2, c, events);
      assert Value() == st3;
      assert reports == first + second;
    }

    /** Detection, the gated read and classification. */
    method StructureOf(c: PricedCandle, candles: seq<PricedCandle>) returns (events: seq<StructureEvent>)
      requires Wired() && store.Valid()
      requires candles == Store.RecentAsOf(store.candles, c.key, LOOKBACK, c.openTime)
      modifies swingStore
      ensures events == StructureAt(settings, candles, c.closeTime)
    {
      hide Store.RecentAsOf, Detected, OrderedClosed, Gate, Classified, Sorting.StableSort;
      var found := detector.Detect(candles);
      swingStore.Replace(found);
      ReadsOwnSeries(store.candles, c.key, LOOKBACK, c.openTime);
      GatedIsOneSeries(settings, candles, c.key, c.closeTime);
      var result := structure.Evaluate(c.key, swingStore.GetSwings(c.closeTime));
      events := result.value;
    }
  }
}
