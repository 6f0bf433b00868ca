/**
 The retest machine inside the strategy engine: what becomes of a break while no
 newer break of its series replaces it.
 */
module EngineRetest {
  import opened Market
  import opened Csd
  import opened Retest
  import opened Strategy
  import Store = CandleStore

  /** The engine from any state on. */
  ghost function RunFrom<I>(s: Settings, an: Analytics<I>, start: State<I>, events: seq<Event>)
      : (State<I>, seq<Assessment>)
    requires s.Valid()
    decreases |events|
  {
    if events == [] then (start, [])
    else
      var (st, out) := RunFrom(s, an, start, events[..|events| - 1]);
      var last := events[|events| - 1];
      var (st', new_) := OnCandle(s, an, last.book, st, last.candle);
      (st', out + new_)
  }

  lemma {:induction false} RunSplits<I>(s: Settings, an: Analytics<I>, xs: seq<Event>, ys: seq<Event>)
    requires s.Valid()
    ensures var (st, out) := Run(s, an, xs);
            var (end, more) := RunFrom(s, an, st, ys);
            Run(s, an, xs + ys) == (end, out + more)
    decreases |ys|
  {
    hide OnCandle;
    if ys == [] {
      assert xs + ys == xs;
      assert Run(s, an, xs).1 + [] == Run(s, an, xs).1;
    } else {
      var init := ys[..|ys| - 1];
      RunSplits(s, an, xs, init);
      assert (xs + ys)[..|xs + ys| - 1] == xs + init;
      var last := ys[|ys| - 1];
      assert (xs + ys)[|xs + ys| - 1] == last;
      var (st, out) := Run(s, an, xs);
      var (mid, more) := RunFrom(s, an, st, init);
      var (_, new_) := OnCandle(s, an, last.book, mid, last.candle);
      assert out + (more + new_) == (out + more) + new_;
    }
  }

  /** The break that an event emits, if any. */
  ghost function BreakBy<I>(s: Settings, an: Analytics<I>, st: State<I>, e: Event): (b: Option<CsdEvent>)
    ensures b.Some? ==> b.value.candle == e.candle && e.candle.key.timeframe == s.primary
  {
    if e.candle.key.timeframe != s.primary then None
    else
      var candles := Store.RecentAsOf(e.book, e.candle.key, LOOKBACK, e.candle.openTime);
      Detection(s.csd, st.emitted, e.candle, StructureAt(s, candles, e.candle.closeTime), an.atr(an.indicators(candles))).1
  }

  /** No event of the list emits a break of the series. */
  ghost predicate NoBreak<I>(s: Settings, an: Analytics<I>, start: State<I>, events: seq<Event>, key: SeriesKey)
    requires s.Valid()
    decreases |events|
  {
    events != [] ==>
      var init, last := events[..|events| - 1], events[|events| - 1];
      && NoBreak(s, an, start, init, key)
      && (last.candle.key == key ==> BreakBy(s, an, RunFrom(s, an, start, init).0, last).None?)
  }

  /** The candles of one series among the events. */
  function Own(events: seq<Event>, key: SeriesKey): (cs: seq<PricedCandle>)
    decreases |events|
  {
    if events == [] then []
    else
      var last := events[|events| - 1].candle;
      Own(events[..|events| - 1], key) + if last.key == key then [last] else []
  }

  /** What one event does to the setup of a series, and the retests of it that it reports. */
  lemma EventOnSetup<I>(s: Settings, an: Analytics<I>, st: State<I>, e: Event, key: SeriesKey)
    requires s.Valid() && key.timeframe == s.primary && key in st.setups
    ensures var (st', new_) := OnCandle(s, an, e.book, st, e.candle);
            var t, c := Tracked(s.breakout, st.setups[key], e.candle), e.candle;
            && (c.key != key ==> key in st'.setups && st'.setups[key] == st.setups[key])
            && (c.key == key && BreakBy(s, an, st, e).None? ==> key in st'.setups && st'.setups[key] == t)
            && (forall a <- new_ :: a.candle == c)
            && (c.key == key ==>
                 ((exists a <- new_ :: a.trigger.ViaRetest?) <==>
                   !s.mode.ImmediateOnly? && st.setups[key].status.PendingRetest? && t.status.RetestDetected?)
                 && forall a <- new_ :: a.trigger.ViaRetest? ==> a.setup == t)
  {
    hide StructureAt, Store.RecentAsOf, Started, Tracked;
    var c := e.candle;
    var candles := Store.RecentAsOf(e.book, c.key, LOOKBACK, c.openTime);
    var st1 := st.(indicators := st.indicators[c.key := an.indicators(candles)]);
    if c.key.timeframe == s.primary {
      var (st2, first) := RetestStage(s, an, st1, c);
      var (_, second) := BreakStage(s, an, st2, c, StructureAt(s, candles, c.closeTime));
      assert forall a <- second :: a.trigger.Immediate?;
      assert first != [] ==> first[0] in first + second;
      hide Assess;
    }
  }

  /** An emitted break puts a fresh setup in the place of its series. */
  lemma BreakStarts<I>(s: Settings, an: Analytics<I>, st: State<I>, e: Event)
    requires s.Valid() && BreakBy(s, an, st, e).Some?
    ensures var (st', _) := OnCandle(s, an, e.book, st, e.candle);
            var setup := Started(s.breakout, BreakBy(s, an, st, e).value);
            && e.candle.key in st'.setups && st'.setups[e.candle.key] == setup
            && setup.Break() in st'.emitted && setup.Break() !in st.emitted
  {
    hide StructureAt, Store.RecentAsOf, Assess, TrackedIn;
    var c := e.candle;
    var candles := Store.RecentAsOf(e.book, c.key, LOOKBACK, c.openTime);
    var st1 := st.(indicators := st.indicators[c.key := an.indicators(candles)]);
    var (st2, _) := RetestStage(s, an, st1, c);
    assert st2.emitted == st.emitted;
  }

  /** The isolated machine reads the candles of its series only. */
  lemma OwnStep(settings: BreakoutSettings, setup: BreakoutSetup, events: seq<Event>, key: SeriesKey)
    requires events != []
    ensures var init, last := events[..|events| - 1], events[|events| - 1].candle;
            After(settings, setup, Own(events, key))
            == if last.key == key then Tracked(settings, After(settings, setup, Own(init, key)), last)
               else After(settings, setup, Own(init, key))
  {
    hide Tracked;
    var cs, last := Own(events, key), events[|events| - 1].candle;
    if last.key == key {
      assert cs[..|cs| - 1] == Own(events[..|events| - 1], key);
    } else {
      assert cs == Own(events[..|events| - 1], key);
    }
  }

  /** Without a newer break the engine's setup is the isolated machine on the candles of its series. */
  lemma {:induction false} SetupIsTracked<I>(s: Settings, an: Analytics<I>, start: State<I>, events: seq<Event>, key: SeriesKey)
    requires s.Valid() && key.timeframe == s.primary && key in start.setups
    requires NoBreak(s, an, start, events, key)
    ensures var (st, _) := RunFrom(s, an, start, events);
            key in st.setups && st.setups[key] == After(s.breakout, start.setups[key], Own(events, key))
    decreases |events|
  {
    if events != [] {
      var init, last := events[..|events| - 1], events[|events| - 1];
      SetupIsTracked(s, an, start, init, key);
      var (st, _) := RunFrom(s, an, start, init);
      OwnStep(s.breakout, start.setups[key], events, key);
      hide OnCandle, BreakBy, Tracked, After, Own;
      EventOnSetup(s, an, st, last, key);
    }
  }

  ghost predicate RetestOf(a: Assessment, key: SeriesKey) {
    a.trigger.ViaRetest? && a.candle.key == key
  }

  lemma OneMoreReport(out: seq<Assessment>, new_: seq<Assessment>, key: SeriesKey, c: PricedCandle)
    requires forall a <- new_ :: a.candle == c
    ensures (exists a <- out + new_ :: RetestOf(a, key))
       <==> (exists a <- out :: RetestOf(a, key)) || (c.key == key && exists a <- new_ :: a.trigger.ViaRetest?)
  {
    if a :| a in out + new_ && RetestOf(a, key) {
      assert a in out || a in new_;
    }
    if a :| a in out && RetestOf(a, key) {
      assert a in out + new_;
    }
    if c.key == key {
      if a :| a in new_ && a.trigger.ViaRetest? {
        assert a in out + new_ && RetestOf(a, key);
      }
    }
  }

  /** A waiting setup is reported by the time it is a detected retest, and as that setup. */
  lemma {:induction false} ReportedWhenDetected<I>(s: Settings, an: Analytics<I>, start: State<I>, events: seq<Event>, key: SeriesKey)
    requires s.Valid() && key.timeframe == s.primary && key in start.setups
    requires start.setups[key].status.PendingRetest? && NoBreak(s, an, start, events, key)
    ensures var (_, out) := RunFrom(s, an, start, events);
            var t := After(s.breakout, start.setups[key], Own(events, key));
            && ((exists a <- out :: RetestOf(a, key)) <==> !s.mode.ImmediateOnly? && t.status.RetestDetected?)
            && (forall a <- out :: RetestOf(a, key) ==> a.setup == t)
    decreases |events|
  {
    if events != [] {
      var init, last := events[..|events| - 1], events[|events| - 1];
      ReportedWhenDetected(s, an, start, init, key);
      SetupIsTracked(s, an, start, init, key);
      var (st, out) := RunFrom(s, an, start, init);
      OwnStep(s.breakout, start.setups[key], events, key);
      var (_, new_) := OnCandle(s, an, last.book, st, last.candle);
      hide OnCandle, BreakBy, Tracked, After, Own;
      EventOnSetup(s, an, st, last, key);
      hide NoBreak;
      OneMoreReport(out, new_, key, last.candle);
    }
  }

  /**
   The event that reports the retest of a fresh setup is the one whose candle decides
   it, even when that candle breaks the next swing.
   */
  lemma ReportedAtDecision<I>(s: Settings, an: Analytics<I>, start: State<I>, events: seq<Event>, last: Event, key: SeriesKey)
    requires s.Valid() && key.timeframe == s.primary && key in start.setups
    requires start.setups[key].status.PendingRetest? && start.setups[key].bars == 0
    requires NoBreak(s, an, start, events, key) && last.candle.key == key
    requires forall c <- Own(events + [last], key) :: c.isClosed
    ensures var (_, new_) := OnCandle(s, an, last.book, RunFrom(s, an, start, events).0, last.candle);
            var setup, own := start.setups[key], Own(events + [last], key);
            && own == Own(events, key) + [last.candle]
            && ((exists a <- new_ :: RetestOf(a, key)) <==>
                 !s.mode.ImmediateOnly? && DecidedAt(s.breakout, setup, own, |own|) && Qualifies(setup, last.candle))
            && forall a <- new_ :: RetestOf(a, key) ==> a.candle == last.candle && a.setup == After(s.breakout, setup, own)
  {
    hide OnCandle, RunFrom, NoBreak, After, Tracked, DecidedAt, Qualifies, BreakBy;
    assert (events + [last])[..|events + [last]| - 1] == events;
    var setup, own := start.setups[key], Own(events + [last], key);
    OwnStep(s.breakout, setup, events + [last], key);
    SetupIsTracked(s, an, start, events, key);
    EventOnSetup(s, an, RunFrom(s, an, start, events).0, last, key);
    ResolvedAt(s.breakout, setup, own, |own|);
    assert own[..|own| - 1] == Own(events, key) && own[..|own|] == own;
  }

  /** The retest stage reports a candle for a break of its own series. */
  lemma StepReportsOwnSeries<I>(s: Settings, an: Analytics<I>, st: State<I>, e: Event)
    requires s.Valid() && forall key <- st.setups :: st.setups[key].Series() == key
    ensures forall a <- OnCandle(s, an, e.book, st, e.candle).1 :: a.candle.key == a.setup.Series()
  {
    hide StructureAt, Store.RecentAsOf, Started, Tracked;
    var c := e.candle;
    var candles := Store.RecentAsOf(e.book, c.key, LOOKBACK, c.openTime);
    var st1 := st.(indicators := st.indicators[c.key := an.indicators(candles)]);
    if c.key.timeframe == s.primary {
      var (st2, first) := RetestStage(s, an, st1, c);
      assert forall a <- first :: a.candle.key == a.setup.Series();
      var (_, second) := BreakStage(s, an, st2, c, StructureAt(s, candles, c.closeTime));
      assert forall a <- second :: a.candle.key == a.setup.Series();
    }
  }

  lemma {:induction false} ReportsOwnSeries<I>(s: Settings, an: Analytics<I>, events: seq<Event>)
    requires s.Valid()
    ensures forall a <- Run(s, an, events).1 :: a.candle.key == a.setup.Series()
    decreases |events|
  {
    hide OnCandle;
    if events != [] {
      var init, last := events[..|events| - 1], events[|events| - 1];
      ReportsOwnSeries(s, an, init);
      NoDuplicateSignals(s, an, init);
      StepReportsOwnSeries(s, an, Run(s, an, init).0, last);
    }
  }

  /** A retest report of one break. */
  ghost predicate RetestOfBreak(a: Assessment, b: BreakKey) {
    a.trigger.ViaRetest? && a.setup.Break() == b
  }

  lemma {:induction false} AfterKeepsBreak(settings: BreakoutSettings, setup: BreakoutSetup, cs: seq<PricedCandle>)
    ensures After(settings, setup, cs).Break() == setup.Break()
    decreases |cs|
  {
    hide Tracked;
    if cs != [] {
      AfterKeepsBreak(settings, setup, cs[..|cs| - 1]);
    }
  }

  /** Retests of a break are reported behind it, on candles of its series, as its setup. */
  lemma RetestsOfBreak<I>(s: Settings, an: Analytics<I>, xs: seq<Event>, ys: seq<Event>, key: SeriesKey)
    requires s.Valid() && key.timeframe == s.primary && key in Run(s, an, xs).0.setups
    requires Run(s, an, xs).0.setups[key].status.PendingRetest?
    requires NoBreak(s, an, Run(s, an, xs).0, ys, key)
    ensures var (st, out) := Run(s, an, xs);
            var (_, more) := RunFrom(s, an, st, ys);
            var b := st.setups[key].Break();
            && Run(s, an, xs + ys).1 == out + more
            && (forall a <- out :: !RetestOfBreak(a, b))
            && (forall a <- more :: RetestOfBreak(a, b) <==> RetestOf(a, key))
  {
    var (st, out) := Run(s, an, xs);
    var (_, more) := RunFrom(s, an, st, ys);
    NoDuplicateSignals(s, an, xs);
    assert st.setups[key].Series() == key;
    RunSplits(s, an, xs, ys);
    ReportsOwnSeries(s, an, xs + ys);
    ReportedWhenDetected(s, an, st, ys, key);
    AfterKeepsBreak(s.breakout, st.setups[key], Own(ys, key));
    hide Run, RunFrom, NoBreak, After, Own, OnCandle, DistinctIds;
    forall a | a in more ensures RetestOfBreak(a, st.setups[key].Break()) <==> RetestOf(a, key) {
      assert a in out + more;
    }
  }

  /**
   What becomes of an emitted break: over every further event without a newer break
   of its series the engine reports its retest if and only if, among the candles of
   the series, the first one to decide it within the window is a qualifying retest.
   */
  lemma BreakIsRetested<I>(s: Settings, an: Analytics<I>, before: seq<Event>, e: Event, later: seq<Event>)
    requires s.Valid() && BreakBy(s, an, Run(s, an, before).0, e).Some?
    requires NoBreak(s, an, Run(s, an, before + [e]).0, later, e.candle.key)
    requires forall c <- Own(later, e.candle.key) :: c.isClosed
    ensures var setup := Started(s.breakout, BreakBy(s, an, Run(s, an, before).0, e).value);
            var own := Own(later, e.candle.key);
            var (st, out) := Run(s, an, before + [e] + later);
            && e.candle.key in st.setups && st.setups[e.candle.key] == After(s.breakout, setup, own)
            && ((exists a <- out :: RetestOfBreak(a, setup.Break())) <==>
                 !s.mode.ImmediateOnly? && exists j :: DecidedAt(s.breakout, setup, own, j) && Qualifies(setup, own[j - 1]))
  {
    hide OnCandle, NoBreak, Own, After, Fresh, DistinctIds, DecidedAt, Qualifies, Started, BreakBy;
    var key := e.candle.key;
    var start := Run(s, an, before + [e]).0;
    var setup := Started(s.breakout, BreakBy(s, an, Run(s, an, before).0, e).value);
    assert (before + [e])[..|before + [e]| - 1] == before;
    BreakStarts(s, an, Run(s, an, before).0, e);
    SetupIsTracked(s, an, start, later, key);
    RunSplits(s, an, before + [e], later);
    RetestMachineMeaning(s.breakout, setup, Own(later, key));
    ReportedWhenDetected(s, an, start, later, key);
    RetestsOfBreak(s, an, before + [e], later, key);
    hide Run, RunFrom;
    var out := Run(s, an, before + [e]).1;
    var more := RunFrom(s, an, start, later).1;
    assert forall a :: a in out + more <==> a in out || a in more;
    assert (exists a <- out + more :: RetestOfBreak(a, setup.Break())) <==> exists a <- more :: RetestOf(a, key);
  }
}
