/**
 Symbols do not influence each other: what a run over several symbols reports for
 one of them is what a run over the candles of that symbol alone reports.
 */
module EngineSymbols {
  import opened Market
  import opened Csd
  import opened Retest
  import opened Strategy
  import Store = CandleStore

  /** The candles of one symbol, on all its timeframes. */
  function OfSymbol(cs: seq<PricedCandle>, symbol: string): (r: seq<PricedCandle>) {
    if cs == [] then []
    else
      var last := cs[|cs| - 1];
      OfSymbol(cs[..|cs| - 1], symbol) + if last.key.symbol == symbol then [last] else []
  }

  ghost function ReportsOf(out: seq<Assessment>, symbol: string): seq<Assessment> {
    if out == [] then []
    else
      var last := out[|out| - 1];
      ReportsOf(out[..|out| - 1], symbol) + if last.candle.key.symbol == symbol then [last] else []
  }

  /** The part of a state that belongs to one symbol. */
  ghost function Restrict<I>(st: State<I>, symbol: string): State<I> {
    State(set b | b in st.emitted && b.series.symbol == symbol,
          map key | key in st.setups && key.symbol == symbol :: st.setups[key],
          map key | key in st.indicators && key.symbol == symbol :: st.indicators[key])
  }

  // -------------------------------------------------------------- one candle

  lemma RetestElsewhere<I>(s: Settings, an: Analytics<I>, st: State<I>, c: PricedCandle, symbol: string)
    requires s.Valid() && c.key in st.indicators && c.key.symbol != symbol
    ensures Restrict(RetestStage(s, an, st, c).0, symbol) == Restrict(st, symbol)
  {
    hide Tracked, Assess;
  }

  lemma RetestHere<I>(s: Settings, an: Analytics<I>, st: State<I>, c: PricedCandle)
    requires s.Valid() && c.key in st.indicators
    ensures var own := Restrict(st, c.key.symbol);
            RetestStage(s, an, own, c)
            == (Restrict(RetestStage(s, an, st, c).0, c.key.symbol), RetestStage(s, an, st, c).1)
  {
    SameAssessment(s, an, st.indicators, c);
    hide Tracked, Assess;
    var own := Restrict(st, c.key.symbol);
    var there, here := RetestStage(s, an, st, c), RetestStage(s, an, own, c);
    assert here.0.setups == Restrict(there.0, c.key.symbol).setups;
    assert here.1 == there.1;
  }

  lemma BreakElsewhere<I>(s: Settings, an: Analytics<I>, st: State<I>, c: PricedCandle,
                          structure: seq<Structure.StructureEvent>, symbol: string)
    requires s.Valid() && c.key in st.indicators && c.key.symbol != symbol
    ensures Restrict(BreakStage(s, an, st, c, structure).0, symbol) == Restrict(st, symbol)
  {
    hide Detection, Started, Assess;
  }

  lemma BreakHere<I>(s: Settings, an: Analytics<I>, st: State<I>, c: PricedCandle, structure: seq<Structure.StructureEvent>)
    requires s.Valid() && c.key in st.indicators
    ensures var own := Restrict(st, c.key.symbol);
            BreakStage(s, an, own, c, structure)
            == (Restrict(BreakStage(s, an, st, c, structure).0, c.key.symbol), BreakStage(s, an, st, c, structure).1)
  {
    SameAssessment(s, an, st.indicators, c);
    hide Started, Assess, FarEnough, Broken, Distance, DistanceInAtr;
    var own := Restrict(st, c.key.symbol);
    var there, here := BreakStage(s, an, st, c, structure), BreakStage(s, an, own, c, structure);
    var atr := an.atr(st.indicators[c.key]);
    assert Detection(s.csd, own.emitted, c, structure, atr).1 == Detection(s.csd, st.emitted, c, structure, atr).1;
    assert here.0.emitted == Restrict(there.0, c.key.symbol).emitted;
    assert here.0.setups == Restrict(there.0, c.key.symbol).setups;
    assert here.1 == there.1;
  }

  /** An assessment reads the indicators of its own symbol only. */
  lemma SameAssessment<I>(s: Settings, an: Analytics<I>, indicators: map<SeriesKey, I>, c: PricedCandle)
    requires s.Valid() && c.key in indicators
    ensures var own := map key | key in indicators && key.symbol == c.key.symbol :: indicators[key];
            forall setup, trigger, quality ::
              Assess(s, an, own, setup, c, trigger, quality) == Assess(s, an, indicators, setup, c, trigger, quality)
  {
    var own := map key | key in indicators && key.symbol == c.key.symbol :: indicators[key];
    var wide := seq(|s.confirmation|, i requires 0 <= i < |s.confirmation| =>
      var key := SeriesKey(c.key.symbol, s.confirmation[i]);
      if key in indicators then Some(indicators[key]) else None);
    var narrow := seq(|s.confirmation|, i requires 0 <= i < |s.confirmation| =>
      var key := SeriesKey(c.key.symbol, s.confirmation[i]);
      if key in own then Some(own[key]) else None);
    assert wide == narrow;
  }

  /** Every report of a candle carries that candle. */
  lemma ReportsCarryCandle<I>(s: Settings, an: Analytics<I>, book: Store.Book, st: State<I>, c: PricedCandle)
    requires s.Valid()
    ensures forall a <- OnCandle(s, an, book, st, c).1 :: a.candle == c
  {
    hide StructureAt, Store.RecentAsOf, Started, TrackedIn, Detection;
    var candles := Store.RecentAsOf(book, c.key, LOOKBACK, c.openTime);
    var st1 := st.(indicators := st.indicators[c.key := an.indicators(candles)]);
    if c.key.timeframe == s.primary {
      var (st2, first) := RetestStage(s, an, st1, c);
      assert forall a <- first :: a.candle == c;
      var (_, second) := BreakStage(s, an, st2, c, StructureAt(s, candles, c.closeTime));
      assert forall a <- second :: a.candle == c;
    }
  }

  /** A candle of another symbol leaves the symbol's part of the state alone. */
  lemma StepElsewhere<I>(s: Settings, an: Analytics<I>, book: Store.Book, st: State<I>, c: PricedCandle, symbol: string)
    requires s.Valid() && c.key.symbol != symbol
    ensures Restrict(OnCandle(s, an, book, st, c).0, symbol) == Restrict(st, symbol)
  {
    hide StructureAt, Store.RecentAsOf, RetestStage, BreakStage;
    var candles := Store.RecentAsOf(book, c.key, LOOKBACK, c.openTime);
    var st1 := st.(indicators := st.indicators[c.key := an.indicators(candles)]);
    assert Restrict(st1, symbol).indicators == Restrict(st, symbol).indicators;
    if c.key.timeframe == s.primary {
      RetestElsewhere(s, an, st1, c, symbol);
      BreakElsewhere(s, an, RetestStage(s, an, st1, c).0, c, StructureAt(s, candles, c.closeTime), symbol);
    }
  }

  /** A candle of the symbol reads and changes the symbol's part only. */
  lemma StepHere<I>(s: Settings, an: Analytics<I>, book: Store.Book, own: Store.Book, st: State<I>, c: PricedCandle)
    requires s.Valid() && Store.Bucket(own, c.key) == Store.Bucket(book, c.key)
    ensures var (st', new_) := OnCandle(s, an, book, st, c);
            OnCandle(s, an, own, Restrict(st, c.key.symbol), c) == (Restrict(st', c.key.symbol), new_)
  {
    Store.ReadsAgree(own, book, c.key, LOOKBACK, c.openTime);
    hide StructureAt, Store.RecentAsOf, RetestStage, BreakStage;
    var candles, symbol := Store.RecentAsOf(book, c.key, LOOKBACK, c.openTime), c.key.symbol;
    var st1 := st.(indicators := st.indicators[c.key := an.indicators(candles)]);
    var part := Restrict(st, symbol);
    var part1 := part.(indicators := part.indicators[c.key := an.indicators(candles)]);
    assert part1.indicators == Restrict(st1, symbol).indicators;
    assert part1 == Restrict(st1, symbol);
    if c.key.timeframe == s.primary {
      RetestHere(s, an, st1, c);
      BreakHere(s, an, RetestStage(s, an, st1, c).0, c, StructureAt(s, candles, c.closeTime));
    }
  }

  // --------------------------------------------------------------- whole runs

  /** The store of one symbol alone holds the series of that symbol as the shared store does. */
  lemma {:induction false} OwnStore(cs: seq<PricedCandle>, key: SeriesKey)
    ensures Store.Bucket(Store.BookOf(OfSymbol(cs, key.symbol)), key) == Store.Bucket(Store.BookOf(cs), key)
  {
    if cs != [] {
      OwnStore(cs[..|cs| - 1], key);
      var own, last := OfSymbol(cs, key.symbol), cs[|cs| - 1];
      if last.key.symbol == key.symbol {
        assert own[..|own| - 1] == OfSymbol(cs[..|cs| - 1], key.symbol);
      } else {
        assert own == OfSymbol(cs[..|cs| - 1], key.symbol);
      }
    }
  }

  ghost function RunOver<I>(s: Settings, an: Analytics<I>, cs: seq<PricedCandle>): (State<I>, seq<Assessment>)
    requires s.Valid()
  {
    Run(s, an, Incremental(cs, |cs|))
  }

  lemma RunGrows<I>(s: Settings, an: Analytics<I>, cs: seq<PricedCandle>)
    requires s.Valid() && cs != []
    ensures var (st, out) := RunOver(s, an, cs[..|cs| - 1]);
            var (st', new_) := OnCandle(s, an, Store.BookOf(cs), st, cs[|cs| - 1]);
            RunOver(s, an, cs) == (st', out + new_)
  {
    hide OnCandle, Store.BookOf;
    var n := |cs| - 1;
    IncrementalCut(cs, n);
    var events := Incremental(cs, n + 1);
    assert events[..n] == Incremental(cs, n);
    assert cs[..n + 1] == cs;
    assert events[n] == Event(Store.BookOf(cs), cs[n]);
    assert RunOver(s, an, cs[..n]) == Run(s, an, events[..n]);
    hide Incremental;
  }

  lemma {:induction false} ReportsAppend(xs: seq<Assessment>, ys: seq<Assessment>, symbol: string)
    ensures ReportsOf(xs + ys, symbol) == ReportsOf(xs, symbol) + ReportsOf(ys, symbol)
    decreases |ys|
  {
    if ys == [] {
      assert xs + ys == xs;
    } else {
      assert (xs + ys)[..|xs + ys| - 1] == xs + ys[..|ys| - 1];
      ReportsAppend(xs, ys[..|ys| - 1], symbol);
    }
  }

  lemma {:induction false} AllOrNoReports(out: seq<Assessment>, c: PricedCandle, symbol: string)
    requires forall a <- out :: a.candle == c
    ensures ReportsOf(out, symbol) == if c.key.symbol == symbol then out else []
  {
    if out != [] {
      AllOrNoReports(out[..|out| - 1], c, symbol);
      assert out[|out| - 1] in out;
      assert out[..|out| - 1] + [out[|out| - 1]] == out;
    }
  }

  /**
   One symbol of a run over many, on any candles, twins and any order included: its
   state and its reports are those of a run over its own candles alone.
   */
  lemma {:induction false} SymbolsAreIndependent<I>(s: Settings, an: Analytics<I>, cs: seq<PricedCandle>, symbol: string)
    requires s.Valid()
    ensures var (st, out) := RunOver(s, an, cs);
            RunOver(s, an, OfSymbol(cs, symbol)) == (Restrict(st, symbol), ReportsOf(out, symbol))
    decreases |cs|
  {
    hide OnCandle, Store.BookOf;
    if cs == [] {
      assert Restrict(Start<I>(), symbol) == Start<I>();
    } else {
      var init, last := cs[..|cs| - 1], cs[|cs| - 1];
      SymbolsAreIndependent(s, an, init, symbol);
      RunGrows(s, an, cs);
      var (st, out) := RunOver(s, an, init);
      var (_, new_) := OnCandle(s, an, Store.BookOf(cs), st, last);
      ReportsCarryCandle(s, an, Store.BookOf(cs), st, last);
      AllOrNoReports(new_, last, symbol);
      ReportsAppend(out, new_, symbol);
      hide Run, Incremental, Restrict, RunOver;
      if last.key.symbol != symbol {
        assert OfSymbol(cs, symbol) == OfSymbol(init, symbol);
        assert ReportsOf(out, symbol) + [] == ReportsOf(out, symbol);
        StepElsewhere(s, an, Store.BookOf(cs), st, last, symbol);
      } else {
        var own := OfSymbol(cs, symbol);
        assert own[..|own| - 1] == OfSymbol(init, symbol);
        RunGrows(s, an, own);
        OwnStore(cs, last.key);
        StepHere(s, an, Store.BookOf(cs), Store.BookOf(own), st, last);
      }
    }
  }
}
