/**
 The two walk-forward aggregations: the plain one (`app/backtest/phase9.py`) and
 the resumable one (`app/backtest/research_orchestrator.py`).
 */
module WalkForwardRuns {
  import opened Market
  import opened Checkpoints
  import Sorting
  import Calendar = WalkForward

  /** What a window's validation reports of a trade. */
  datatype Trade = Trade(signalTime: int, netR: Option<real>)

  datatype Span = Span(inStart: int, inEnd: int, outStart: int, outEnd: int)

  datatype Input = Input(symbol: string, candles: seq<Candle>)

  /** `build_symbol_validation` on the candles of one window. */
  type Validate = seq<Candle> -> Result<seq<Trade>>

  datatype Record = Record(span: Span, inTrades: nat, outTrades: nat, outTotal: real)

  datatype Summary = Summary(records: seq<Record>, trades: nat, total: real, expectancy: real)

  predicate InScope(w: Span, c: Candle) { w.inStart <= c.openTime < w.outEnd }

  predicate InOut(w: Span, t: Trade) { w.outStart <= t.signalTime < w.outEnd }

  predicate InSample(w: Span, t: Trade) { !InOut(w, t) && w.inStart <= t.signalTime < w.inEnd }

  function Scoped(cs: seq<Candle>, w: Span): seq<Candle> {
    Sorting.Filter(cs, (c: Candle) => InScope(w, c))
  }

  function OutTrades(ts: seq<Trade>, w: Span): seq<Trade> {
    Sorting.Filter(ts, t => InOut(w, t))
  }

  function InTrades(ts: seq<Trade>, w: Span): seq<Trade> {
    Sorting.Filter(ts, t => InSample(w, t))
  }

  function Net(ts: seq<Trade>): seq<real> {
    if ts == [] then [] else (if ts[0].netR.Some? then [ts[0].netR.value] else []) + Net(ts[1..])
  }

  /** The trades of the first `n` symbols in one window; a failed validation contributes none. */
  function WindowTrades(validate: Validate, inputs: seq<Input>, w: Span, n: nat): seq<Trade>
    requires n <= |inputs|
  {
    if n == 0 then []
    else
      var r := validate(Scoped(inputs[n - 1].candles, w));
      WindowTrades(validate, inputs, w, n - 1) + (if r.Ok? then r.value else [])
  }

  function AllTrades(validate: Validate, inputs: seq<Input>, w: Span): seq<Trade> {
    WindowTrades(validate, inputs, w, |inputs|)
  }

  /** The out-of-sample trades of the first `n` windows, one window after the other. */
  function OutSoFar(validate: Validate, inputs: seq<Input>, windows: seq<Span>, n: nat): seq<Trade>
    requires n <= |windows|
  {
    if n == 0 then []
    else
      OutSoFar(validate, inputs, windows, n - 1)
      + OutTrades(AllTrades(validate, inputs, windows[n - 1]), windows[n - 1])
  }

  /** The plain record sums everything collected so far that lies in the window. */
  function PlainRecord(validate: Validate, inputs: seq<Input>, windows: seq<Span>, k: nat): Record
    requires k < |windows|
  {
    var w, ts := windows[k], AllTrades(validate, inputs, windows[k]);
    Record(w, |InTrades(ts, w)|, |OutTrades(ts, w)|, Sum(Net(OutTrades(OutSoFar(validate, inputs, windows, k + 1), w))))
  }

  /** The resumable record sums the trades of its own window. */
  function OwnRecord(validate: Validate, inputs: seq<Input>, windows: seq<Span>, k: nat): Record
    requires k < |windows|
  {
    var w, ts := windows[k], AllTrades(validate, inputs, windows[k]);
    Record(w, |InTrades(ts, w)|, |OutTrades(ts, w)|, Sum(Net(OutTrades(ts, w))))
  }

  function Totals(records: seq<Record>, outs: seq<Trade>): Summary {
    var net := Net(outs);
    Summary(records, |net|, Sum(net), if net == [] then 0.0 else Sum(net) / |net| as real)
  }

  function Plain(validate: Validate, inputs: seq<Input>, windows: seq<Span>): Summary {
    Totals(seq(|windows|, k requires 0 <= k < |windows| => PlainRecord(validate, inputs, windows, k)),
           OutSoFar(validate, inputs, windows, |windows|))
  }

  /** The first of the first `n` symbols with candles in the window whose validation raises, and its error. */
  function WindowFailure(validate: Validate, inputs: seq<Input>, w: Span, n: nat): Option<string>
    requires n <= |inputs|
  {
    if n == 0 then None
    else if WindowFailure(validate, inputs, w, n - 1).Some? then WindowFailure(validate, inputs, w, n - 1)
    else
      var scoped := Scoped(inputs[n - 1].candles, w);
      if scoped != [] && validate(scoped).Raised? then Some(validate(scoped).error) else None
  }

  /** The first failure of the first `n` windows. */
  function FirstFailure(validate: Validate, inputs: seq<Input>, windows: seq<Span>, n: nat): Option<string>
    requires n <= |windows|
  {
    if n == 0 then None
    else if FirstFailure(validate, inputs, windows, n - 1).Some? then FirstFailure(validate, inputs, windows, n - 1)
    else WindowFailure(validate, inputs, windows[n - 1], |inputs|)
  }

  /** The plain aggregation: it raises what the first failing validation raises. */
  function PlainOutcome(validate: Validate, inputs: seq<Input>, windows: seq<Span>): Result<Summary> {
    match FirstFailure(validate, inputs, windows, |windows|)
    case Some(error) => Raised(error)
    case None => Ok(Plain(validate, inputs, windows))
  }

  function Resumable(validate: Validate, inputs: seq<Input>, windows: seq<Span>): Summary {
    Totals(seq(|windows|, k requires 0 <= k < |windows| => OwnRecord(validate, inputs, windows, k)),
           OutSoFar(validate, inputs, windows, |windows|))
  }

  // ---------------------------------------------------------------- as they run

  lemma OneMoreTrade(ts: seq<Trade>, n: nat, w: Span)
    requires n < |ts|
    ensures OutTrades(ts[..n + 1], w) == OutTrades(ts[..n], w) + (if InOut(w, ts[n]) then [ts[n]] else [])
    ensures InTrades(ts[..n + 1], w) == InTrades(ts[..n], w) + (if InSample(w, ts[n]) then [ts[n]] else [])
  {
    assert ts[..n + 1] == ts[..n] + [ts[n]];
    Sorting.FilterAppend(ts[..n], [ts[n]], t => InOut(w, t));
    Sorting.FilterAppend(ts[..n], [ts[n]], t => InSample(w, t));
    Sorting.FilterOne(ts[n], t => InOut(w, t));
    Sorting.FilterOne(ts[n], t => InSample(w, t));
  }

  lemma MoreTrades(a: seq<Trade>, b: seq<Trade>, w: Span)
    ensures OutTrades(a + b, w) == OutTrades(a, w) + OutTrades(b, w)
    ensures |InTrades(a + b, w)| == |InTrades(a, w)| + |InTrades(b, w)|
  {
    Sorting.FilterAppend(a, b, t => InOut(w, t));
    Sorting.FilterAppend(a, b, t => InSample(w, t));
  }

  /** The inner loop: out-of-sample trades are collected, in-sample ones counted. */
  method Tally(ts: seq<Trade>, w: Span) returns (outs: seq<Trade>, inCount: nat)
    ensures outs == OutTrades(ts, w) && inCount == |InTrades(ts, w)|
  {
    outs, inCount := [], 0;
    assert ts[..0] == [];
    for i := 0 to |ts|
      invariant outs == OutTrades(ts[..i], w) && inCount == |InTrades(ts[..i], w)|
    {
      OneMoreTrade(ts, i, w);
      if w.outStart <= ts[i].signalTime < w.outEnd {
        outs := outs + [ts[i]];
      } else if w.inStart <= ts[i].signalTime < w.inEnd {
        inCount := inCount + 1;
      }
    }
    assert ts[..|ts|] == ts;
  }

  /** No candles, no trades. */
  ghost predicate QuietWhenEmpty(validate: Validate) { validate([]) == Ok([]) }

  /** One window of the plain aggregation. */
  method PlainWindow(validate: Validate, inputs: seq<Input>, w: Span)
      returns (outs: seq<Trade>, inCount: nat, failed: Option<string>)
    requires QuietWhenEmpty(validate)
    ensures failed == WindowFailure(validate, inputs, w, |inputs|)
    ensures failed.None? ==>
      && outs == OutTrades(AllTrades(validate, inputs, w), w)
      && inCount == |InTrades(AllTrades(validate, inputs, w), w)|
  {
    hide OutTrades, InTrades, Scoped;
    outs, inCount := [], 0;
    NoTrades(w);
    for i := 0 to |inputs|
      invariant WindowFailure(validate, inputs, w, i).None?
      invariant outs == OutTrades(WindowTrades(validate, inputs, w, i), w)
      invariant inCount == |InTrades(WindowTrades(validate, inputs, w, i), w)|
    {
      var scoped := Scoped(inputs[i].candles, w);
      var result := if scoped == [] then Ok([]) else validate(scoped);
      if result.Raised? {
        FailureStays(validate, inputs, w, i + 1);
        return outs, inCount, Some(result.error);
      }
      MoreTrades(WindowTrades(validate, inputs, w, i), result.value, w);
      var found, counted := Tally(result.value, w);
      outs, inCount := outs + found, inCount + counted;
    }
    return outs, inCount, None;
  }

  lemma {:induction false} FailureStays(validate: Validate, inputs: seq<Input>, w: Span, n: nat)
    requires n <= |inputs| && WindowFailure(validate, inputs, w, n).Some?
    ensures WindowFailure(validate, inputs, w, |inputs|) == WindowFailure(validate, inputs, w, n)
    decreases |inputs| - n
  {
    if n < |inputs| {
      FailureStays(validate, inputs, w, n + 1);
    }
  }

  lemma {:induction false} FirstFailureStays(validate: Validate, inputs: seq<Input>, windows: seq<Span>, n: nat)
    requires n <= |windows| && FirstFailure(validate, inputs, windows, n).Some?
    ensures FirstFailure(validate, inputs, windows, |windows|) == FirstFailure(validate, inputs, windows, n)
    decreases |windows| - n
  {
    if n < |windows| {
      FirstFailureStays(validate, inputs, windows, n + 1);
    }
  }

  lemma NoTrades(w: Span)
    ensures OutTrades([], w) == [] && InTrades([], w) == []
  {
  }

  method PlainWalkForward(validate: Validate, inputs: seq<Input>, windows: seq<Span>) returns (r: Result<Summary>)
    requires QuietWhenEmpty(validate)
    ensures r == PlainOutcome(validate, inputs, windows)
  {
    hide OutTrades, InTrades, AllTrades, Net, Sum, Scoped;
    var records: seq<Record> := [];
    var outs: seq<Trade> := [];
    for k := 0 to |windows|
      invariant FirstFailure(validate, inputs, windows, k).None?
      invariant outs == OutSoFar(validate, inputs, windows, k)
      invariant |records| == k && forall i :: 0 <= i < k ==> records[i] == PlainRecord(validate, inputs, windows, i)
    {
      var w := windows[k];
      var found, inCount, failed := PlainWindow(validate, inputs, w);
      if failed.Some? {
        FirstFailureStays(validate, inputs, windows, k + 1);
        return Raised(failed.value);
      }
      outs := outs + found;
      records := records + [Record(w, inCount, |found|, Sum(Net(OutTrades(outs, w))))];
    }
    assert records == seq(|windows|, k requires 0 <= k < |windows| => PlainRecord(validate, inputs, windows, k));
    return Ok(Totals(records, outs));
  }

  // -------------------------------------------------------------- with checkpoints

  type Store = Option<ResearchCheckpointStore<seq<Trade>>>

  function Footprint(store: Store): set<object> {
    if store.Some? then {store.value.directory} else {}
  }

  function DiskOf(store: Store): Disk<seq<Trade>>
    reads Footprint(store)
  {
    if store.Some? then store.value.directory.Value() else Disk(map[], map[])
  }

  /** The unit of a window and a symbol. */
  type Naming = (nat, string) -> Unit

  ghost predicate Distinguishes(naming: Naming, inputs: seq<Input>) {
    && (forall i, j :: 0 <= i < j < |inputs| ==> inputs[i].symbol != inputs[j].symbol)
    && forall k: nat, s, k': nat, s' :: naming(k, s) == naming(k', s') ==> k == k' && s == s'
  }

  /** Every checkpoint of a unit holds what validating it gives. */
  ghost predicate StoreSound(store: Store, disk: Disk<seq<Trade>>, naming: Naming, validate: Validate,
                             inputs: seq<Input>, windows: seq<Span>)
  {
    store.Some? ==> forall k, i :: 0 <= k < |windows| && 0 <= i < |inputs| ==>
      UnitSound(Loaded(disk, store.value.identity, naming(k, inputs[i].symbol)), validate, inputs[i], windows[k])
  }

  predicate UnitSound(loaded: Option<seq<Trade>>, validate: Validate, input: Input, w: Span) {
    loaded.Some? ==> validate(Scoped(input.candles, w)) == Ok(loaded.value)
  }

  lemma SaveKeepsSound(store: Store, disk: Disk<seq<Trade>>, naming: Naming, validate: Validate,
                       inputs: seq<Input>, windows: seq<Span>, k: nat, i: nat)
    requires store.Some? && Distinguishes(naming, inputs) && k < |windows| && i < |inputs|
    requires StoreSound(store, disk, naming, validate, inputs, windows)
    requires validate(Scoped(inputs[i].candles, windows[k])).Ok?
    ensures var id, unit := store.value.identity, naming(k, inputs[i].symbol);
            var value := validate(Scoped(inputs[i].candles, windows[k])).value;
            StoreSound(store, WithManifest(WithPayload(disk, id, unit, value), id, unit), naming, validate, inputs, windows)
  {
    var id, unit := store.value.identity, naming(k, inputs[i].symbol);
    var value := validate(Scoped(inputs[i].candles, windows[k])).value;
    SaveIsLoaded(disk, id, unit, value);
    var after := WithManifest(WithPayload(disk, id, unit, value), id, unit);
    hide UnitSound, Loaded, Scoped;
    forall k', i' | 0 <= k' < |windows| && 0 <= i' < |inputs|
      ensures UnitSound(Loaded(after, id, naming(k', inputs[i'].symbol)), validate, inputs[i'], windows[k'])
    {
      if k' == k && i' == i {
        OwnUnitSound(validate, inputs[i], windows[k]);
      } else {
        assert inputs[i'].symbol == inputs[i].symbol ==> i' == i;
        assert naming(k', inputs[i'].symbol) != unit;
        assert NameFor(id, naming(k', inputs[i'].symbol)) != NameFor(id, unit);
      }
    }
  }

  lemma OwnUnitSound(validate: Validate, input: Input, w: Span)
    requires validate(Scoped(input.candles, w)).Ok?
    ensures UnitSound(Some(validate(Scoped(input.candles, w)).value), validate, input, w)
  {
  }

  /** One unit: loaded, or validated and saved; a failure is only noted. */
  method ResumableUnit(validate: Validate, inputs: seq<Input>, windows: seq<Span>, k: nat, i: nat, store: Store, naming: Naming)
      returns (r: Result<seq<Trade>>)
    requires Distinguishes(naming, inputs) && k < |windows| && i < |inputs|
    requires StoreSound(store, DiskOf(store), naming, validate, inputs, windows)
    modifies Footprint(store)
    ensures StoreSound(store, DiskOf(store), naming, validate, inputs, windows)
    ensures r == validate(Scoped(inputs[i].candles, windows[k]))
  {
    hide Scoped;
    var unit := naming(k, inputs[i].symbol);
    if store.Some? {
      var loaded := store.value.Load(unit);
      if loaded.Some? {
        assert UnitSound(Loaded(DiskOf(store), store.value.identity, unit), validate, inputs[i], windows[k]);
        return Ok(loaded.value);
      }
    }
    r := validate(Scoped(inputs[i].candles, windows[k]));
    if r.Ok? && store.Some? {
      SaveKeepsSound(store, DiskOf(store), naming, validate, inputs, windows, k, i);
      hide StoreSound;
      store.value.Save(unit, r.value);
    }
  }

  method ResumableWindow(validate: Validate, inputs: seq<Input>, windows: seq<Span>, k: nat, store: Store, naming: Naming)
      returns (outs: seq<Trade>, inCount: nat, errors: seq<string>)
    requires Distinguishes(naming, inputs) && k < |windows|
    requires StoreSound(store, DiskOf(store), naming, validate, inputs, windows)
    modifies Footprint(store)
    ensures StoreSound(store, DiskOf(store), naming, validate, inputs, windows)
    ensures outs == OutTrades(AllTrades(validate, inputs, windows[k]), windows[k])
    ensures inCount == |InTrades(AllTrades(validate, inputs, windows[k]), windows[k])|
    ensures forall i :: 0 <= i < |inputs| ==>
              (inputs[i].symbol in errors <==> validate(Scoped(inputs[i].candles, windows[k])).Raised?)
  {
    hide OutTrades, InTrades, Scoped, StoreSound;
    outs, inCount, errors := [], 0, [];
    var w := windows[k];
    NoTrades(w);
    for i := 0 to |inputs|
      invariant StoreSound(store, DiskOf(store), naming, validate, inputs, windows)
      invariant outs == OutTrades(WindowTrades(validate, inputs, w, i), w)
      invariant inCount == |InTrades(WindowTrades(validate, inputs, w, i), w)|
      invariant forall j :: 0 <= j < i ==> (inputs[j].symbol in errors <==> validate(Scoped(inputs[j].candles, w)).Raised?)
      invariant forall j :: i <= j < |inputs| ==> inputs[j].symbol !in errors
    {
      var result := ResumableUnit(validate, inputs, windows, k, i, store, naming);
      MoreTrades(WindowTrades(validate, inputs, w, i), if result.Ok? then result.value else [], w);
      if result.Raised? {
        errors := errors + [inputs[i].symbol];
      } else {
        var found, counted := Tally(result.value, w);
        outs, inCount := outs + found, inCount + counted;
      }
    }
  }

  /** Whatever a sound store already holds, the result is the same. */
  method ResumableWalkForward(validate: Validate, inputs: seq<Input>, windows: seq<Span>, store: Store, naming: Naming)
      returns (r: Summary, errors: seq<seq<string>>)
    requires Distinguishes(naming, inputs)
    requires StoreSound(store, DiskOf(store), naming, validate, inputs, windows)
    modifies Footprint(store)
    ensures r == Resumable(validate, inputs, windows)
    ensures StoreSound(store, DiskOf(store), naming, validate, inputs, windows)
    ensures |errors| == |windows|
    ensures forall k, i :: 0 <= k < |windows| && 0 <= i < |inputs| ==>
              (inputs[i].symbol in errors[k] <==> validate(Scoped(inputs[i].candles, windows[k])).Raised?)
  {
    hide OutTrades, InTrades, AllTrades, Net, Sum, Scoped, StoreSound, Distinguishes;
    var records: seq<Record> := [];
    var outs: seq<Trade> := [];
    errors := [];
    for k := 0 to |windows|
      invariant StoreSound(store, DiskOf(store), naming, validate, inputs, windows)
      invariant outs == OutSoFar(validate, inputs, windows, k)
      invariant |records| == k && forall i :: 0 <= i < k ==> records[i] == OwnRecord(validate, inputs, windows, i)
      invariant |errors| == k && forall j, i :: 0 <= j < k && 0 <= i < |inputs| ==>
        (inputs[i].symbol in errors[j] <==> validate(Scoped(inputs[i].candles, windows[j])).Raised?)
    {
      var w := windows[k];
      var found, inCount, failed := ResumableWindow(validate, inputs, windows, k, store, naming);
      outs := outs + found;
      errors := errors + [failed];
      records := records + [Record(w, inCount, |found|, Sum(Net(found)))];
    }
    assert records == seq(|windows|, k requires 0 <= k < |windows| => OwnRecord(validate, inputs, windows, k));
    r := Totals(records, outs);
  }

  // ------------------------------------------------------- when the two agree

  ghost predicate Disjoint(windows: seq<Span>) {
    forall j, k, t :: 0 <= j < k < |windows| ==> !(InOut(windows[j], t) && InOut(windows[k], t))
  }

  /** The validation of symbol `i` in window `k` raises. */
  predicate UnitRaises(validate: Validate, inputs: seq<Input>, windows: seq<Span>, k: nat, i: nat)
    requires k < |windows| && i < |inputs|
  {
    validate(Scoped(inputs[i].candles, windows[k])).Raised?
  }

  ghost predicate SomeUnitRaises(validate: Validate, inputs: seq<Input>, windows: seq<Span>) {
    exists k, i :: 0 <= k < |windows| && 0 <= i < |inputs| && UnitRaises(validate, inputs, windows, k, i)
  }

  /** The plain aggregation raises when a unit does, and otherwise gives the resumable summary. */
  ghost predicate Agree(validate: Validate, inputs: seq<Input>, windows: seq<Span>) {
    var plain := PlainOutcome(validate, inputs, windows);
    && (plain.Raised? <==> SomeUnitRaises(validate, inputs, windows))
    && (plain.Ok? ==> plain.value == Resumable(validate, inputs, windows))
  }

  ghost predicate AlwaysAgree(windows: seq<Span>) {
    forall validate: Validate, inputs: seq<Input> :: QuietWhenEmpty(validate) ==> Agree(validate, inputs, windows)
  }

  /** Among the first `n` symbols, `i` is the first to raise, with this error. */
  ghost predicate FirstToRaise(validate: Validate, inputs: seq<Input>, w: Span, n: nat, i: nat, error: string)
    requires n <= |inputs|
  {
    && i < n && validate(Scoped(inputs[i].candles, w)) == Raised(error)
    && forall j :: 0 <= j < i ==> validate(Scoped(inputs[j].candles, w)).Ok?
  }

  lemma {:induction false} WindowFailureMeans(validate: Validate, inputs: seq<Input>, w: Span, n: nat)
    requires QuietWhenEmpty(validate) && n <= |inputs|
    ensures var failure := WindowFailure(validate, inputs, w, n);
            && (failure.None? ==> forall i :: 0 <= i < n ==> validate(Scoped(inputs[i].candles, w)).Ok?)
            && (failure.Some? ==> exists i :: FirstToRaise(validate, inputs, w, n, i, failure.value))
  {
    hide Scoped;
    if n > 0 {
      WindowFailureMeans(validate, inputs, w, n - 1);
      var before, failure := WindowFailure(validate, inputs, w, n - 1), WindowFailure(validate, inputs, w, n);
      if before.Some? {
        var i :| FirstToRaise(validate, inputs, w, n - 1, i, before.value);
        assert FirstToRaise(validate, inputs, w, n, i, before.value);
      } else if failure.Some? {
        assert FirstToRaise(validate, inputs, w, n, n - 1, failure.value);
      }
    }
  }

  /** Unit (`k`, `i`) is the first of all to raise, window by window, with this error. */
  ghost predicate FirstOfAll(validate: Validate, inputs: seq<Input>, windows: seq<Span>, n: nat, k: nat, i: nat, error: string)
    requires n <= |windows|
  {
    && k < n && FirstToRaise(validate, inputs, windows[k], |inputs|, i, error)
    && forall k', i' :: 0 <= k' < k && 0 <= i' < |inputs| ==> !UnitRaises(validate, inputs, windows, k', i')
  }

  /** The plain aggregation fails exactly when some unit raises, with the error of the first one. */
  lemma {:induction false} FailureMeans(validate: Validate, inputs: seq<Input>, windows: seq<Span>, n: nat)
    requires QuietWhenEmpty(validate) && n <= |windows|
    ensures var failure := FirstFailure(validate, inputs, windows, n);
            && (failure.None? ==> forall k, i :: 0 <= k < n && 0 <= i < |inputs| ==> !UnitRaises(validate, inputs, windows, k, i))
            && (failure.Some? ==> exists k, i :: FirstOfAll(validate, inputs, windows, n, k, i, failure.value))
  {
    hide Scoped;
    if n > 0 {
      FailureMeans(validate, inputs, windows, n - 1);
      WindowFailureMeans(validate, inputs, windows[n - 1], |inputs|);
      hide WindowFailure, FirstToRaise;
      var before, failure := FirstFailure(validate, inputs, windows, n - 1), FirstFailure(validate, inputs, windows, n);
      if before.Some? {
        var k, i :| FirstOfAll(validate, inputs, windows, n - 1, k, i, before.value);
        assert FirstOfAll(validate, inputs, windows, n, k, i, before.value);
      } else if failure.Some? {
        var i :| FirstToRaise(validate, inputs, windows[n - 1], |inputs|, i, failure.value);
        assert FirstOfAll(validate, inputs, windows, n, n - 1, i, failure.value);
      }
    }
  }

  lemma FailureIff(validate: Validate, inputs: seq<Input>, windows: seq<Span>)
    requires QuietWhenEmpty(validate)
    ensures FirstFailure(validate, inputs, windows, |windows|).Some? <==> SomeUnitRaises(validate, inputs, windows)
  {
    FailureMeans(validate, inputs, windows, |windows|);
    hide FirstFailure, Scoped;
    var failure := FirstFailure(validate, inputs, windows, |windows|);
    if failure.Some? {
      var k, i :| FirstOfAll(validate, inputs, windows, |windows|, k, i, failure.value);
      assert UnitRaises(validate, inputs, windows, k, i);
    }
  }

  lemma {:induction false} CollectedInSome(validate: Validate, inputs: seq<Input>, windows: seq<Span>, n: nat, t: Trade)
    requires n <= |windows| && t in OutSoFar(validate, inputs, windows, n)
    ensures exists j :: 0 <= j < n && InOut(windows[j], t)
  {
    hide AllTrades;
    if t in OutTrades(AllTrades(validate, inputs, windows[n - 1]), windows[n - 1]) {
      assert InOut(windows[n - 1], t);
    } else {
      CollectedInSome(validate, inputs, windows, n - 1, t);
    }
  }

  lemma {:induction false} NoneIn(ts: seq<Trade>, w: Span)
    requires forall t <- ts :: !InOut(w, t)
    ensures OutTrades(ts, w) == []
  {
    if ts != [] {
      assert ts[0] in ts;
      NoneIn(ts[1..], w);
    }
  }

  lemma {:induction false} AllIn(ts: seq<Trade>, w: Span)
    requires forall t <- ts :: InOut(w, t)
    ensures OutTrades(ts, w) == ts
  {
    if ts != [] {
      assert ts[0] in ts;
      AllIn(ts[1..], w);
    }
  }

  lemma RecordsAgree(validate: Validate, inputs: seq<Input>, windows: seq<Span>, k: nat)
    requires Disjoint(windows) && k < |windows|
    ensures PlainRecord(validate, inputs, windows, k) == OwnRecord(validate, inputs, windows, k)
  {
    var w := windows[k];
    var before, own := OutSoFar(validate, inputs, windows, k), OutTrades(AllTrades(validate, inputs, w), w);
    forall t | t in before ensures !InOut(w, t) {
      CollectedInSome(validate, inputs, windows, k, t);
    }
    NoneIn(before, w);
    AllIn(own, w);
    MoreTrades(before, own, w);
    assert OutSoFar(validate, inputs, windows, k + 1) == before + own;
    assert OutTrades(before + own, w) == own;
    hide OutTrades, AllTrades, Net, Sum, InTrades;
  }

  /** A validation that reports one won trade at `time` whenever there are candles. */
  function OneTrade(time: int): Validate {
    cs => Ok(if cs == [] then [] else [Trade(time, Some(1.0))])
  }

  function CandleAt(time: int): Candle {
    CandleRecord(SeriesKey("", M15), time, time, 1.0, 1.0, 1.0, 1.0, 0.0, true)
  }

  lemma OneTradeSeen(time: int, w: Span)
    requires w.inStart <= w.outStart
    ensures var inputs := [Input("", [CandleAt(time)])];
            && (InOut(w, Trade(time, Some(1.0))) ==> AllTrades(OneTrade(time), inputs, w) == [Trade(time, Some(1.0))])
            && forall t <- AllTrades(OneTrade(time), inputs, w) :: t == Trade(time, Some(1.0))
  {
    var c := CandleAt(time);
    Sorting.FilterOne(c, (c: Candle) => InScope(w, c));
    assert Scoped([c], w) == if InScope(w, c) then [c] else [];
    var inputs := [Input("", [c])];
    assert WindowTrades(OneTrade(time), inputs, w, 0) == [];
    assert WindowTrades(OneTrade(time), inputs, w, 1) == if InScope(w, c) then [Trade(time, Some(1.0))] else [];
  }

  lemma {:induction false} SameTradeOnly(time: int, inputs: seq<Input>, windows: seq<Span>, n: nat, m: nat)
    requires inputs == [Input("", [CandleAt(time)])] && m <= n <= |windows|
    requires forall k :: 0 <= k < |windows| ==> windows[k].inStart <= windows[k].outStart
    ensures var outs := OutSoFar(OneTrade(time), inputs, windows, n);
            && (forall t <- outs :: t == Trade(time, Some(1.0)))
            && |outs| >= |OutSoFar(OneTrade(time), inputs, windows, m)|
  {
    hide AllTrades;
    if n > 0 {
      OneTradeSeen(time, windows[n - 1]);
      SameTradeOnly(time, inputs, windows, n - 1, if m < n then m else n - 1);
    }
  }

  lemma {:induction false} SumOfOnes(time: int, ts: seq<Trade>)
    requires forall t <- ts :: t == Trade(time, Some(1.0))
    ensures Sum(Net(ts)) == |ts| as real
  {
    if ts != [] {
      assert ts[0] in ts && forall t <- ts[1..] :: t in ts;
      SumOfOnes(time, ts[1..]);
      assert Net(ts) == [1.0] + Net(ts[1..]);
    }
  }

  /** A moment in two out-of-sample windows is counted twice by the plain record. */
  lemma CountedTwice(windows: seq<Span>, j: nat, k: nat, time: int)
    requires forall i :: 0 <= i < |windows| ==> windows[i].inStart <= windows[i].outStart
    requires j < k < |windows|
    requires InOut(windows[j], Trade(time, Some(1.0))) && InOut(windows[k], Trade(time, Some(1.0)))
    ensures var inputs := [Input("", [CandleAt(time)])];
            PlainRecord(OneTrade(time), inputs, windows, k) != OwnRecord(OneTrade(time), inputs, windows, k)
  {
    var inputs, trade := [Input("", [CandleAt(time)])], Trade(time, Some(1.0));
    var validate := OneTrade(time);
    hide AllTrades, OutTrades, InTrades, Scoped, Net, Sum, CandleAt, OneTrade;
    OneTradeSeen(time, windows[j]);
    OneTradeSeen(time, windows[k]);
    AllIn([trade], windows[j]);
    AllIn([trade], windows[k]);
    SameTradeOnly(time, inputs, windows, k, j + 1);
    SameTradeOnly(time, inputs, windows, k + 1, k + 1);
    var outs := OutSoFar(validate, inputs, windows, k + 1);
    assert |OutSoFar(validate, inputs, windows, j + 1)| >= 1;
    assert |outs| >= 2;
    AllIn(outs, windows[k]);
    SumOfOnes(time, outs);
    SumOfOnes(time, [trade]);
  }

  lemma OneTradeNeverRaises(time: int, inputs: seq<Input>, windows: seq<Span>)
    ensures QuietWhenEmpty(OneTrade(time))
    ensures PlainOutcome(OneTrade(time), inputs, windows) == Ok(Plain(OneTrade(time), inputs, windows))
  {
    FailureIff(OneTrade(time), inputs, windows);
    hide FirstFailure, Plain, Scoped;
  }

  lemma SummariesAgree(validate: Validate, inputs: seq<Input>, windows: seq<Span>)
    requires Disjoint(windows)
    ensures Plain(validate, inputs, windows) == Resumable(validate, inputs, windows)
  {
    hide PlainRecord, OwnRecord, OutSoFar, Disjoint;
    forall k | 0 <= k < |windows|
      ensures PlainRecord(validate, inputs, windows, k) == OwnRecord(validate, inputs, windows, k)
    {
      RecordsAgree(validate, inputs, windows, k);
    }
    assert Plain(validate, inputs, windows).records == Resumable(validate, inputs, windows).records;
  }

  /**
   For every validation, raising ones included, and every input the two aggregations
   agree if and only if no moment lies in two out-of-sample windows.
   */
  lemma AgreeExactlyWhenDisjoint(windows: seq<Span>)
    requires forall k :: 0 <= k < |windows| ==> windows[k].inStart <= windows[k].outStart
    ensures AlwaysAgree(windows) <==> Disjoint(windows)
  {
    hide PlainRecord, OwnRecord, OutSoFar, FirstFailure, Totals;
    if Disjoint(windows) {
      hide Plain, Resumable, Disjoint, UnitRaises;
      forall validate: Validate, inputs: seq<Input> | QuietWhenEmpty(validate) ensures Agree(validate, inputs, windows) {
        FailureIff(validate, inputs, windows);
        SummariesAgree(validate, inputs, windows);
      }
    } else {
      var j, k, t :| 0 <= j < k < |windows| && InOut(windows[j], t) && InOut(windows[k], t);
      hide InOut;
      DisagreeAt(windows, j, k, t.signalTime);
    }
  }

  lemma DisagreeAt(windows: seq<Span>, j: nat, k: nat, time: int)
    requires forall i :: 0 <= i < |windows| ==> windows[i].inStart <= windows[i].outStart
    requires j < k < |windows|
    requires InOut(windows[j], Trade(time, Some(1.0))) && InOut(windows[k], Trade(time, Some(1.0)))
    ensures !AlwaysAgree(windows)
  {
    var validate, inputs := OneTrade(time), [Input("", [CandleAt(time)])];
    CountedTwice(windows, j, k, time);
    OneTradeNeverRaises(time, inputs, windows);
    hide PlainRecord, OwnRecord, OutSoFar, PlainOutcome, QuietWhenEmpty;
    assert Plain(validate, inputs, windows).records[k] != Resumable(validate, inputs, windows).records[k];
    assert !Agree(validate, inputs, windows);
  }

  // ------------------------------------------------------ calendar windows

  /** A place for a date among the integers, in its order. */
  function Rank(d: Calendar.DateTime): int {
    (d.MonthIndex() * 31 + d.day) * Calendar.DAY_US + d.time
  }

  lemma RankKeepsOrder(a: Calendar.DateTime, b: Calendar.DateTime)
    ensures Rank(a) <= Rank(b) <==> Calendar.Leq(a, b)
  {
    var x, y := a.MonthIndex() * 31 + a.day, b.MonthIndex() * 31 + b.day;
    assert x < y ==> x * Calendar.DAY_US + Calendar.DAY_US <= y * Calendar.DAY_US;
    assert y < x ==> y * Calendar.DAY_US + Calendar.DAY_US <= x * Calendar.DAY_US;
  }

  function Spans(ws: seq<Calendar.Window>): (r: seq<Span>)
    ensures |r| == |ws|
  {
    seq(|ws|, k requires 0 <= k < |ws| =>
      Span(Rank(ws[k].inStart), Rank(ws[k].inEnd), Rank(ws[k].outStart), Rank(ws[k].outEnd)))
  }

  /** The boundaries of a window are in order, and the windows start in order. */
  lemma RollingInOrder(start: Calendar.DateTime, end: Calendar.DateTime, inMonths: nat, step: nat, j: nat, k: nat)
    requires step >= 1 && j <= k
    ensures var ws := Calendar.Rolling(start, end, inMonths, step, step);
            k < |ws| ==>
              && Rank(ws[k].inStart) <= Rank(ws[k].outStart) < Rank(ws[k].outEnd)
              && Rank(ws[j].outStart) <= Rank(ws[k].outStart)
  {
    if k < |Calendar.Rolling(start, end, inMonths, step, step)| {
      InOrder(start, end, inMonths, step, j, k);
    }
  }

  lemma InOrder(start: Calendar.DateTime, end: Calendar.DateTime, inMonths: nat, step: nat, j: nat, k: nat)
    requires step >= 1 && j <= k < |Calendar.Rolling(start, end, inMonths, step, step)|
    ensures var ws := Calendar.Rolling(start, end, inMonths, step, step);
            && Rank(ws[k].inStart) <= Rank(ws[k].outStart) < Rank(ws[k].outEnd)
            && Rank(ws[j].outStart) <= Rank(ws[k].outStart)
  {
    Calendar.RollingAt(start, end, inMonths, step, step, j);
    Calendar.RollingAt(start, end, inMonths, step, step, k);
    hide Calendar.Rolling, Rank;
    var ws := Calendar.Rolling(start, end, inMonths, step, step);
    WindowInOrder(Calendar.Cursor(start, step, k), inMonths, step);
    StartsInOrder(start, inMonths, step, j, k);
    RankKeepsOrder(ws[k].inStart, ws[k].outStart);
    RankKeepsOrder(ws[k].outEnd, ws[k].outStart);
    RankKeepsOrder(ws[j].outStart, ws[k].outStart);
  }

  lemma WindowInOrder(c: Calendar.DateTime, inMonths: nat, outMonths: nat)
    requires outMonths >= 1
    ensures var w := Calendar.WindowAt(c, inMonths, outMonths);
            Calendar.Leq(w.inStart, w.outStart) && !Calendar.Leq(w.outEnd, w.outStart)
  {
    if inMonths == 0 {
      Calendar.SameMonth(c, Calendar.AddMonths(c, 0));
    }
  }

  lemma StartsInOrder(start: Calendar.DateTime, inMonths: nat, step: nat, j: nat, k: nat)
    requires step >= 1 && j <= k
    ensures Calendar.Leq(Calendar.AddMonths(Calendar.Cursor(start, step, j), inMonths),
                         Calendar.AddMonths(Calendar.Cursor(start, step, k), inMonths))
  {
    if j < k {
      Calendar.StepsApart(step, j, k);
    }
  }

  lemma DisjointIffNoOverlap(start: Calendar.DateTime, end: Calendar.DateTime, inMonths: nat, step: nat)
    requires step >= 1
    ensures var ws := Calendar.Rolling(start, end, inMonths, step, step);
            Disjoint(Spans(ws)) <==> Calendar.NeverOverlaps(ws)
  {
    hide Calendar.Rolling, Rank;
    var ws := Calendar.Rolling(start, end, inMonths, step, step);
    forall j, k | 0 <= j < k < |ws|
      ensures Calendar.Leq(ws[j].outEnd, ws[k].outStart)
         <==> forall t :: !(InOut(Spans(ws)[j], t) && InOut(Spans(ws)[k], t))
    {
      RollingInOrder(start, end, inMonths, step, j, k);
      RankKeepsOrder(ws[j].outEnd, ws[k].outStart);
      var first := Trade(Rank(ws[k].outStart), None);
      assert InOut(Spans(ws)[k], first);
      assert InOut(Spans(ws)[j], first) <==> !Calendar.Leq(ws[j].outEnd, ws[k].outStart);
    }
  }

  lemma RollingAgreement(start: Calendar.DateTime, end: Calendar.DateTime, inMonths: nat, step: nat)
    requires step >= 1
    ensures var ws := Calendar.Rolling(start, end, inMonths, step, step);
            AlwaysAgree(Spans(ws)) <==> Calendar.NeverOverlaps(ws)
  {
    hide Calendar.Rolling, AlwaysAgree, Disjoint, Calendar.NeverOverlaps, Rank;
    var ws := Calendar.Rolling(start, end, inMonths, step, step);
    DisjointIffNoOverlap(start, end, inMonths, step);
    forall k | 0 <= k < |ws| ensures Spans(ws)[k].inStart <= Spans(ws)[k].outStart {
      RollingInOrder(start, end, inMonths, step, k, k);
    }
    AgreeExactlyWhenDisjoint(Spans(ws));
  }

  ghost predicate AlwaysAgreeFrom(start: Calendar.DateTime) {
    forall end: Calendar.DateTime, inMonths: nat, step: nat :: step >= 1 ==>
      AlwaysAgree(Spans(Calendar.Rolling(start, end, inMonths, step, step)))
  }

  /** On calendar windows as long as the step, the two agree if and only if the start is no later than the 28th. */
  lemma CalendarAgreement(start: Calendar.DateTime)
    ensures AlwaysAgreeFrom(start) <==> start.day <= 28
  {
    hide Calendar.Rolling, AlwaysAgree, Calendar.NeverOverlaps, Spans;
    forall end: Calendar.DateTime, inMonths: nat, step: nat | step >= 1
      ensures AlwaysAgree(Spans(Calendar.Rolling(start, end, inMonths, step, step)))
         <==> Calendar.NeverOverlaps(Calendar.Rolling(start, end, inMonths, step, step))
    {
      RollingAgreement(start, end, inMonths, step);
    }
    Calendar.NoDoubleCounting(start);
  }

  /** On windows of the default lengths they agree if and only if every second month has the day of the start. */
  lemma DefaultAgreement(start: Calendar.DateTime)
    ensures (forall end: Calendar.DateTime :: AlwaysAgree(Spans(Calendar.Default(start, end)))) <==> Calendar.KeepsDay(start)
  {
    hide Calendar.Rolling, AlwaysAgree, Calendar.NeverOverlaps, Spans;
    forall end: Calendar.DateTime
      ensures AlwaysAgree(Spans(Calendar.Default(start, end))) <==> Calendar.NeverOverlaps(Calendar.Default(start, end))
    {
      RollingAgreement(start, end, 6, 2);
    }
    Calendar.DefaultTiling(start);
  }
}
