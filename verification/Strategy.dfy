/**
 The composition root of `app/strategy/csd_strategy.py`: the order of steps on a
 closed candle.  Indicators, and the confirmation and scoring built on them, are
 arbitrary functions here; every result holds for all of them.
 */
module Strategy {
  import opened Market
  import opened Swings
  import opened Structure
  import opened Csd
  import opened Retest
  import Store = CandleStore
  import Exits
  import Risk
  import Sorting

  /** Indicator values, their ATR, and whether a setup scores as a signal. */
  datatype Analytics<!I> = Analytics(
    indicators: seq<PricedCandle> -> I, atr: I -> Option<real>,
    eligible: (Direction, I, seq<Option<I>>, real, real, real) -> bool)

  datatype EntryMode = RetestOnly | ImmediateOnly | Both

  datatype Settings = Settings(
    primary: Timeframe, confirmation: seq<Timeframe>, left: nat, right: nat,
    csd: CsdSettings, breakout: BreakoutSettings, csdSaturation: real, stopBuffer: real, mode: EntryMode)
  {
    predicate Valid() { 1 <= left && 1 <= right && breakout.Valid() && 0.0 < csdSaturation && 0.0 <= stopBuffer }
  }

  datatype Trigger = ViaRetest | Immediate

  /** What `on_assessment` and `on_risk_analysis` receive. */
  datatype Assessment = Assessment(
    setup: BreakoutSetup, candle: PricedCandle, trigger: Trigger, eligible: bool, plan: Option<Risk.RiskAnalysis>)

  /** The parts of `build_signal_id`. */
  datatype SignalId = SignalId(series: SeriesKey, direction: Direction, swingTime: int, swingPrice: real, trigger: Trigger)

  function IdOf(a: Assessment): SignalId {
    SignalId(a.setup.Series(), a.setup.direction, a.setup.source.swing.candle.openTime,
             a.setup.source.swing.Price(), a.trigger)
  }

  datatype State<I> = State(emitted: set<BreakKey>, setups: Setups, indicators: map<SeriesKey, I>)

  const LOOKBACK: nat := 500

  // ------------------------------------------------------------ one candle

  function Assess<I>(s: Settings, an: Analytics<I>, indicators: map<SeriesKey, I>, setup: BreakoutSetup,
                     c: PricedCandle, trigger: Trigger, quality: real): Assessment
    requires s.Valid() && c.key in indicators
  {
    var higher := seq(|s.confirmation|, i requires 0 <= i < |s.confirmation| =>
      var key := SeriesKey(c.key.symbol, s.confirmation[i]);
      if key in indicators then Some(indicators[key]) else None);
    var csdQuality := Min(setup.source.distancePercent / s.csdSaturation, 1.0);
    var eligible := an.eligible(setup.direction, indicators[c.key], higher, csdQuality, setup.quality, quality);
    var plan := Risk.Calculate(s.stopBuffer, setup, c);
    Assessment(setup, c, trigger, eligible, if eligible && plan.Ok? then Some(plan.value) else None)
  }

  ghost function StructureAt(s: Settings, candles: seq<PricedCandle>, asOf: int): seq<StructureEvent> {
    Classified(Sorting.StableSort(Gate(Detected(OrderedClosed(candles), s.left, s.right), asOf), SwingTime))
  }

  /** The retest stage: pending setups first. */
  function RetestStage<I>(s: Settings, an: Analytics<I>, st: State<I>, c: PricedCandle): (r: (State<I>, seq<Assessment>))
    requires s.Valid() && c.key in st.indicators
    ensures r.0.indicators == st.indicators
  {
    var (setups, event) := TrackedIn(s.breakout, st.setups, c);
    (st.(setups := setups),
     if event.Some? && event.value.status.RetestDetected? && !s.mode.ImmediateOnly?
     then [Assess(s, an, st.indicators, event.value.setup, c, ViaRetest, event.value.quality)] else [])
  }

  /** The break stage: a new break starts a setup, replacing the old one. */
  function BreakStage<I>(s: Settings, an: Analytics<I>, st: State<I>, c: PricedCandle, structure: seq<StructureEvent>)
      : (r: (State<I>, seq<Assessment>))
    requires s.Valid() && c.key in st.indicators
    ensures r.0.indicators == st.indicators
  {
    var (emitted, event) := Detection(s.csd, st.emitted, c, structure, an.atr(st.indicators[c.key]));
    if event.None? then (st.(emitted := emitted), [])
    else
      var setup := Started(s.breakout, event.value);
      (st.(emitted := emitted, setups := st.setups[c.key := setup]),
       if s.mode.RetestOnly? then [] else [Assess(s, an, st.indicators, setup, c, Immediate, 0.0)])
  }

  ghost function OnCandle<I>(s: Settings, an: Analytics<I>, book: Store.Book, st: State<I>, c: PricedCandle)
      : (State<I>, seq<Assessment>)
    requires s.Valid()
  {
    var candles := Store.RecentAsOf(book, c.key, LOOKBACK, c.openTime);
    var st1 := st.(indicators := st.indicators[c.key := an.indicators(candles)]);
    if c.key.timeframe != s.primary then (st1, [])
    else
      var (st2, first) := RetestStage(s, an, st1, c);
      var (st3, second) := BreakStage(s, an, st2, c, StructureAt(s, candles, c.closeTime));
      (st3, first + second)
  }

  // -------------------------------------------------------------- whole runs

  /** A candle event and the store it is handled with. */
  datatype Event = Event(book: Store.Book, candle: PricedCandle)

  ghost function Start<I>(): State<I> { State({}, map[], map[]) }

  ghost function Run<I>(s: Settings, an: Analytics<I>, events: seq<Event>): (State<I>, seq<Assessment>)
    requires s.Valid()
    decreases |events|
  {
    if events == [] then (Start(), [])
    else
      var (st, out) := Run(s, an, events[..|events| - 1]);
      var last := events[|events| - 1];
      var (st', new_) := OnCandle(s, an, last.book, st, last.candle);
      (st', out + new_)
  }

  // --------------------------------------------------------- no duplicate ids

  ghost predicate DistinctIds(out: seq<Assessment>) {
    forall i, j :: 0 <= i < j < |out| ==> IdOf(out[i]) != IdOf(out[j])
  }

  /**
   Every id seen belongs to an emitted break, and a setup that still waits has
   not been reported through a retest.
   */
  ghost predicate Fresh<I>(st: State<I>, out: seq<Assessment>) {
    && (forall a <- out :: a.setup.Break() in st.emitted)
    && (forall key <- st.setups :: st.setups[key].Series() == key && st.setups[key].Break() in st.emitted)
    && (forall key <- st.setups :: st.setups[key].status.PendingRetest? ==>
          forall a <- out :: a.trigger.ViaRetest? ==> a.setup.Break() != st.setups[key].Break())
  }

  lemma AddDistinct(out: seq<Assessment>, a: Assessment)
    requires DistinctIds(out)
    requires forall b <- out :: b.setup.Break() != a.setup.Break() || b.trigger != a.trigger
    ensures DistinctIds(out + [a])
  {
    forall b | b in out ensures IdOf(b) != IdOf(a) {
    }
  }

  lemma RetestStageFresh<I>(s: Settings, an: Analytics<I>, st: State<I>, c: PricedCandle, out: seq<Assessment>)
    requires s.Valid() && c.key in st.indicators && Fresh(st, out) && DistinctIds(out)
    ensures var (st', new_) := RetestStage(s, an, st, c);
            Fresh(st', out + new_) && DistinctIds(out + new_)
  {
    var (st', new_) := RetestStage(s, an, st, c);
    if new_ == [] {
      assert out + new_ == out;
    } else {
      AddDistinct(out, new_[0]);
    }
  }

  lemma BreakStageFresh<I>(s: Settings, an: Analytics<I>, st: State<I>, c: PricedCandle,
                           structure: seq<StructureEvent>, out: seq<Assessment>)
    requires s.Valid() && c.key in st.indicators && Fresh(st, out) && DistinctIds(out)
    ensures var (st', new_) := BreakStage(s, an, st, c, structure);
            Fresh(st', out + new_) && DistinctIds(out + new_)
  {
    var (st', new_) := BreakStage(s, an, st, c, structure);
    if new_ == [] {
      assert out + new_ == out;
    } else {
      AddDistinct(out, new_[0]);
    }
  }

  /** No signal id is ever produced twice, on any candles, stores and analytics. */
  lemma {:induction false} NoDuplicateSignals<I>(s: Settings, an: Analytics<I>, events: seq<Event>)
    requires s.Valid()
    ensures Fresh(Run(s, an, events).0, Run(s, an, events).1)
    ensures DistinctIds(Run(s, an, events).1)
    decreases |events|
  {
    hide RetestStage, BreakStage, StructureAt, Store.RecentAsOf;
    if events != [] {
      NoDuplicateSignals(s, an, events[..|events| - 1]);
      var (st, out) := Run(s, an, events[..|events| - 1]);
      var last := events[|events| - 1];
      var c := last.candle;
      var candles := Store.RecentAsOf(last.book, c.key, LOOKBACK, c.openTime);
      var st1 := st.(indicators := st.indicators[c.key := an.indicators(candles)]);
      assert Fresh(st1, out);
      if c.key.timeframe != s.primary {
        assert out + [] == out;
      } else {
        var (st2, first) := RetestStage(s, an, st1, c);
        var structure := StructureAt(s, candles, c.closeTime);
        RetestStageFresh(s, an, st1, c, out);
        BreakStageFresh(s, an, st2, c, structure, out + first);
        var (_, second) := BreakStage(s, an, st2, c, structure);
        assert out + (first + second) == (out + first) + second;
      }
    }
  }

  // -------------------------------------------------- no view of the future

  /** Stores that agree up to the open time of the candle drive the engine equally. */
  lemma StepIsCausal<I>(s: Settings, an: Analytics<I>, a: Store.Book, b: Store.Book, st: State<I>, c: PricedCandle)
    requires s.Valid() && Store.AgreeUpTo(a, b, c.key, c.openTime)
    ensures OnCandle(s, an, a, st, c) == OnCandle(s, an, b, st, c)
  {
    Store.ReadsAgree(a, b, c.key, LOOKBACK, c.openTime);
  }

  /** Two event lists with the same candles and stores that agree on what each may read. */
  ghost predicate SameToTheEngine(xs: seq<Event>, ys: seq<Event>) {
    && |xs| == |ys|
    && forall i :: 0 <= i < |xs| ==>
         xs[i].candle == ys[i].candle && Store.AgreeUpTo(xs[i].book, ys[i].book, xs[i].candle.key, xs[i].candle.openTime)
  }

  lemma {:induction false} RunIsCausal<I>(s: Settings, an: Analytics<I>, xs: seq<Event>, ys: seq<Event>)
    requires s.Valid() && SameToTheEngine(xs, ys)
    ensures Run(s, an, xs) == Run(s, an, ys)
    decreases |xs|
  {
    hide OnCandle, Store.AgreeUpTo;
    if xs != [] {
      var n := |xs| - 1;
      RunIsCausal(s, an, xs[..n], ys[..n]);
      StepIsCausal(s, an, xs[n].book, ys[n].book, Run(s, an, xs[..n]).0, xs[n].candle);
    }
  }

  /** Each candle handled with the store as it stands right after that candle. */
  ghost function Incremental(cs: seq<PricedCandle>, n: nat): seq<Event>
    requires n <= |cs|
  {
    seq(n, i requires 0 <= i < n => Event(Store.BookOf(cs[..i + 1]), cs[i]))
  }

  /** The same candles, handled with a store that already holds all of `cs`. */
  ghost function Preloaded(cs: seq<PricedCandle>, n: nat): seq<Event>
    requires n <= |cs|
  {
    seq(n, i requires 0 <= i < n => Event(Store.BookOf(cs), cs[i]))
  }

  /**
   No view of the future: over candles in open-time order, the first `n` candles
   give the same states and signals whether the store grows with them or already
   holds every later candle.
   */
  lemma FutureIsInvisible<I>(s: Settings, an: Analytics<I>, cs: seq<PricedCandle>, n: nat)
    requires s.Valid() && n <= |cs| && Store.NoTwins(cs)
    requires forall i, j :: 0 <= i < j < |cs| ==> cs[i].openTime <= cs[j].openTime
    ensures Run(s, an, Preloaded(cs, n)) == Run(s, an, Incremental(cs, n))
  {
    var xs, ys := Preloaded(cs, n), Incremental(cs, n);
    forall i | 0 <= i < n
      ensures Store.AgreeUpTo(xs[i].book, ys[i].book, xs[i].candle.key, xs[i].candle.openTime)
    {
      Store.LaterCandlesInvisible(cs, i);
    }
    RunIsCausal(s, an, xs, ys);
  }

  lemma IncrementalCut(cs: seq<PricedCandle>, k: nat)
    requires k <= |cs|
    ensures Incremental(cs[..k], k) == Incremental(cs, k)
  {
    hide Store.BookOf;
    var xs, ys := Incremental(cs[..k], k), Incremental(cs, k);
    forall i | 0 <= i < k ensures xs[i] == ys[i] {
      assert cs[..k][..i + 1] == cs[..i + 1];
    }
  }

  /** Cutting the history gives a prefix of the signals. */
  lemma {:induction false} TruncationIsPrefix<I>(s: Settings, an: Analytics<I>, cs: seq<PricedCandle>, k: nat, n: nat)
    requires s.Valid() && k <= n <= |cs|
    ensures Run(s, an, Incremental(cs[..k], k)).1 <= Run(s, an, Incremental(cs, n)).1
  {
    hide OnCandle, Store.BookOf;
    IncrementalCut(cs, k);
    if k < n {
      TruncationIsPrefix(s, an, cs, k, n - 1);
      assert Incremental(cs, n)[..n - 1] == Incremental(cs, n - 1);
    }
  }
}
