/**
 Pivot detection with confirmation times (`app/structure/swings.py`) and the
 gated read path (`app/structure/swing_store.py`).
 */
module Swings {
  import opened Market
  import Sorting

  datatype SwingType = High | Low

  /** A `SwingPoint`; symbol, open time and price are those of its candle. */
  datatype SwingPoint = SwingPoint(kind: SwingType, candle: PricedCandle, confirmedTime: int) {
    function Price(): (p: real)
      ensures p > 0.0
    {
      if kind.High? then candle.high else candle.low
    }
  }

  predicate IsPivotHigh(cs: seq<PricedCandle>, left: nat, right: nat, i: int)
    requires left <= i && i + right < |cs|
  {
    forall k :: i - left <= k <= i + right && k != i ==> cs[k].high < cs[i].high
  }

  predicate IsPivotLow(cs: seq<PricedCandle>, left: nat, right: nat, i: int)
    requires left <= i && i + right < |cs|
  {
    forall k :: i - left <= k <= i + right && k != i ==> cs[i].low < cs[k].low
  }

  function ConfirmedAt(c: PricedCandle, right: nat): int {
    c.closeTime + c.key.timeframe.DurationMs() * right
  }

  /** The pivots at position `i`: a high, a low, both or none. */
  function PivotsAt(cs: seq<PricedCandle>, left: nat, right: nat, i: int): seq<SwingPoint>
    requires left <= i && i + right < |cs|
  {
    (if IsPivotHigh(cs, left, right, i) then [SwingPoint(High, cs[i], ConfirmedAt(cs[i], right))] else [])
    + (if IsPivotLow(cs, left, right, i) then [SwingPoint(Low, cs[i], ConfirmedAt(cs[i], right))] else [])
  }

  /** The pivots before position `end`, in time order. */
  function PivotsBefore(cs: seq<PricedCandle>, left: nat, right: nat, end: int): seq<SwingPoint>
    requires end + right <= |cs|
    decreases end
  {
    if end <= left then []
    else PivotsBefore(cs, left, right, end - 1) + PivotsAt(cs, left, right, end - 1)
  }

  /** Everything `detect` finds in an ordered series of closed candles. */
  function Detected(cs: seq<PricedCandle>, left: nat, right: nat): seq<SwingPoint> {
    PivotsBefore(cs, left, right, |cs| - right)
  }

  predicate ClosedPriced(c: PricedCandle) { c.isClosed }

  function PricedOpenTime(c: PricedCandle): real { c.openTime as real }

  function OrderedClosed(candles: seq<PricedCandle>): seq<PricedCandle> {
    Sorting.StableSort(Sorting.Filter(candles, ClosedPriced), PricedOpenTime)
  }

  class SwingDetector {
    const leftBars: nat
    const rightBars: nat

    constructor (leftBars: nat, rightBars: nat)
      requires leftBars >= 1 && rightBars >= 1
      ensures this.leftBars == leftBars && this.rightBars == rightBars
    {
      this.leftBars, this.rightBars := leftBars, rightBars;
    }

    method Detect(candles: seq<PricedCandle>) returns (swings: seq<SwingPoint>)
      ensures swings == Detected(OrderedClosed(candles), leftBars, rightBars)
    {
      hide PivotsAt, OrderedClosed;
      var ordered := OrderedClosed(candles);
      swings := [];
      var index := leftBars;
      while index < |ordered| - rightBars
        invariant leftBars <= index
        invariant index <= |ordered| - rightBars || (index == leftBars && swings == [])
        invariant index <= |ordered| - rightBars ==> swings == PivotsBefore(ordered, leftBars, rightBars, index)
      {
        var found := PivotsOf(ordered, index);
        swings := swings + found;
        index := index + 1;
      }
    }

    /** The body of the loop: compare the candidate with every neighbour. */
    method PivotsOf(ordered: seq<PricedCandle>, index: nat) returns (found: seq<SwingPoint>)
      requires leftBars <= index && index + rightBars < |ordered|
      ensures found == PivotsAt(ordered, leftBars, rightBars, index)
    {
      var candidate := ordered[index];
      var around := ordered[index - leftBars..index] + ordered[index + 1..index + rightBars + 1];
      AroundIsWindow(ordered, leftBars, rightBars, index);
      hide IsPivotHigh, IsPivotLow;
      found := [];
      if forall k :: 0 <= k < |around| ==> around[k].high < candidate.high {
        found := found + [SwingPoint(High, candidate, ConfirmedAt(candidate, rightBars))];
      }
      if forall k :: 0 <= k < |around| ==> candidate.low < around[k].low {
        found := found + [SwingPoint(Low, candidate, ConfirmedAt(candidate, rightBars))];
      }
    }
  }

  lemma AroundIsWindow(cs: seq<PricedCandle>, left: nat, right: nat, i: nat)
    requires left <= i && i + right < |cs|
    ensures var around := cs[i - left..i] + cs[i + 1..i + right + 1];
            && (IsPivotHigh(cs, left, right, i) <==> forall k :: 0 <= k < |around| ==> around[k].high < cs[i].high)
            && (IsPivotLow(cs, left, right, i) <==> forall k :: 0 <= k < |around| ==> cs[i].low < around[k].low)
  {
    var around := cs[i - left..i] + cs[i + 1..i + right + 1];
    forall k | i - left <= k <= i + right && k != i
      ensures cs[k] == around[if k < i then k - (i - left) else k - (i - left) - 1]
    {
    }
    forall k | 0 <= k < |around| ensures around[k] == cs[if k < left then k + i - left else k + i - left + 1] {
    }
  }

  // ---------------------------------------------------------- gated read path

  predicate ConfirmedBy(s: SwingPoint, asOf: int) { s.confirmedTime <= asOf }

  function Gate(swings: seq<SwingPoint>, asOf: int): seq<SwingPoint> {
    Sorting.Filter(swings, (s: SwingPoint) => ConfirmedBy(s, asOf))
  }

  class SwingStore {
    var swings: seq<SwingPoint>

    constructor ()
      ensures swings == []
    {
      swings := [];
    }

    method Replace(found: seq<SwingPoint>)
      modifies this
      ensures swings == found
    {
      swings := found;
    }

    function GetSwings(asOf: int): (r: seq<SwingPoint>)
      reads this
      ensures forall s :: s in r <==> s in swings && s.confirmedTime <= asOf
    {
      Gate(swings, asOf)
    }
  }

  // ---------------------------------------------- gating against truncation

  /** One series: closed bars that last one duration each and do not overlap. */
  ghost predicate Spaced(cs: seq<PricedCandle>) {
    && (forall i :: 0 <= i < |cs| ==> cs[i].key == cs[0].key && cs[i].isClosed)
    && (forall i :: 0 < i < |cs| ==> cs[i - 1].closeTime + cs[0].key.timeframe.DurationMs() <= cs[i].closeTime)
  }

  /** No bar is missing. */
  ghost predicate Contiguous(cs: seq<PricedCandle>) {
    && Spaced(cs)
    && forall i :: 0 < i < |cs| ==> cs[i].closeTime == cs[i - 1].closeTime + cs[0].key.timeframe.DurationMs()
  }

  lemma {:induction false} BarsApart(cs: seq<PricedCandle>, i: nat, n: nat)
    requires Spaced(cs) && i + n < |cs|
    ensures cs[i].closeTime + cs[0].key.timeframe.DurationMs() * n <= cs[i + n].closeTime
    ensures Contiguous(cs) ==> cs[i].closeTime + cs[0].key.timeframe.DurationMs() * n == cs[i + n].closeTime
  {
    var ms := cs[0].key.timeframe.DurationMs();
    if n > 0 {
      BarsApart(cs, i, n - 1);
      assert ms * n == ms * (n - 1) + ms;
    }
  }

  /** Windows that fit in a prefix see only the prefix. */
  lemma {:induction false} PrefixPivots(cs: seq<PricedCandle>, left: nat, right: nat, k: nat, end: int)
    requires k <= |cs| && end + right <= k
    ensures PivotsBefore(cs[..k], left, right, end) == PivotsBefore(cs, left, right, end)
    decreases end
  {
    if end > left {
      PrefixPivots(cs, left, right, k, end - 1);
      assert PivotsAt(cs[..k], left, right, end - 1) == PivotsAt(cs, left, right, end - 1);
    }
  }

  lemma GateAppend(a: seq<SwingPoint>, b: seq<SwingPoint>, asOf: int)
    ensures Gate(a + b, asOf) == Gate(a, asOf) + Gate(b, asOf)
  {
    Sorting.FilterAppend(a, b, (s: SwingPoint) => ConfirmedBy(s, asOf));
  }

  lemma GateOne(s: SwingPoint, asOf: int)
    ensures Gate([s], asOf) == if s.confirmedTime <= asOf then [s] else []
  {
    Sorting.FilterOne(s, (s: SwingPoint) => ConfirmedBy(s, asOf));
  }

  /** The pivots of one bar are confirmed together. */
  lemma PivotsConfirmed(cs: seq<PricedCandle>, left: nat, right: nat, i: int, asOf: int)
    requires left <= i && i + right < |cs|
    ensures Gate(PivotsAt(cs, left, right, i), asOf)
         == if ConfirmedAt(cs[i], right) <= asOf then PivotsAt(cs, left, right, i) else []
  {
    var at := ConfirmedAt(cs[i], right);
    var highs := if IsPivotHigh(cs, left, right, i) then [SwingPoint(High, cs[i], at)] else [];
    var lows := if IsPivotLow(cs, left, right, i) then [SwingPoint(Low, cs[i], at)] else [];
    GateOne(SwingPoint(High, cs[i], at), asOf);
    GateOne(SwingPoint(Low, cs[i], at), asOf);
    GateAppend(highs, lows, asOf);
    assert Gate([], asOf) == [];
    hide Gate, IsPivotHigh, IsPivotLow, ConfirmedAt;
  }

  /** On a spaced series a pivot is confirmed by any bar `right` or more places behind it. */
  lemma ConfirmedByBar(cs: seq<PricedCandle>, right: nat, i: nat, last: nat)
    requires Spaced(cs) && last < |cs| && i + right <= last
    ensures ConfirmedAt(cs[i], right) <= cs[last].closeTime
  {
    BarsApart(cs, i, right);
    BarsApart(cs, i + right, last - (i + right));
    assert cs[0].key.timeframe.DurationMs() * (last - (i + right)) >= 0;
  }

  /** On a contiguous series it is confirmed by no earlier bar. */
  lemma NotConfirmedEarlier(cs: seq<PricedCandle>, right: nat, i: nat, last: nat)
    requires Contiguous(cs) && i <= last < |cs| && last < i + right
    ensures ConfirmedAt(cs[i], right) > cs[last].closeTime
  {
    BarsApart(cs, i, last - i);
    var ms := cs[0].key.timeframe.DurationMs();
    assert ms * right == ms * (last - i) + ms * (right - (last - i));
    assert ms * (right - (last - i)) > 0;
  }

  /** Up to `end`, gating at a bar that is far enough behind drops nothing. */
  lemma {:induction false} AllConfirmed(cs: seq<PricedCandle>, left: nat, right: nat, end: int, last: nat)
    requires Spaced(cs) && last < |cs| && end + right <= last + 1
    ensures Gate(PivotsBefore(cs, left, right, end), cs[last].closeTime) == PivotsBefore(cs, left, right, end)
    decreases end
  {
    hide PivotsAt, Gate, ConfirmedAt;
    if end > left {
      AllConfirmed(cs, left, right, end - 1, last);
      GateAppend(PivotsBefore(cs, left, right, end - 1), PivotsAt(cs, left, right, end - 1), cs[last].closeTime);
      ConfirmedByBar(cs, right, end - 1, last);
      PivotsConfirmed(cs, left, right, end - 1, cs[last].closeTime);
    } else {
      EmptyGate(cs[last].closeTime);
    }
  }

  lemma EmptyGate(asOf: int)
    ensures Gate([], asOf) == []
  {
  }

  /** A pivot near the end of `cs[..last + 1]` whose confirmation time has already passed. */
  ghost predicate EarlyPivot(cs: seq<PricedCandle>, left: nat, right: nat, i: int, last: nat)
    requires last < |cs|
  {
    && left <= i && last < i + right < |cs|
    && PivotsAt(cs, left, right, i) != []
    && ConfirmedAt(cs[i], right) <= cs[last].closeTime
  }

  ghost predicate EarlyBefore(cs: seq<PricedCandle>, left: nat, right: nat, end: int, last: nat)
    requires last < |cs|
  {
    exists i :: i < end && EarlyPivot(cs, left, right, i, last)
  }

  lemma EarlyAnywhere(cs: seq<PricedCandle>, left: nat, right: nat, last: nat)
    requires last < |cs|
    ensures EarlyBefore(cs, left, right, |cs| - right, last) <==> exists i :: EarlyPivot(cs, left, right, i, last)
  {
    hide PivotsAt, ConfirmedAt;
    if i :| EarlyPivot(cs, left, right, i, last) {
      assert i < |cs| - right;
    }
  }

  /** Beyond bar `last` the gate adds exactly the pivots confirmed early. */
  lemma {:induction false} BeyondTruncation(cs: seq<PricedCandle>, left: nat, right: nat, end: int, last: nat)
    requires Spaced(cs) && last < |cs| && last + 1 <= end + right <= |cs|
    ensures var cut := PivotsBefore(cs, left, right, last + 1 - right);
            var gated := Gate(PivotsBefore(cs, left, right, end), cs[last].closeTime);
            && |cut| <= |gated| && gated[..|cut|] == cut
            && (gated == cut <==> !EarlyBefore(cs, left, right, end, last))
    decreases end
  {
    hide PivotsAt, Gate, ConfirmedAt;
    var asOf := cs[last].closeTime;
    if end + right == last + 1 {
      AllConfirmed(cs, left, right, end, last);
    } else if end <= left {
      EmptyGate(asOf);
    } else {
      BeyondTruncation(cs, left, right, end - 1, last);
      GateAppend(PivotsBefore(cs, left, right, end - 1), PivotsAt(cs, left, right, end - 1), asOf);
      PivotsConfirmed(cs, left, right, end - 1, asOf);
      assert EarlyBefore(cs, left, right, end, last)
        <==> EarlyBefore(cs, left, right, end - 1, last) || EarlyPivot(cs, left, right, end - 1, last);
    }
  }

  /** Later bars are confirmed later, so what is confirmed comes first. */
  lemma ConfirmedInOrder(cs: seq<PricedCandle>, right: nat, i: nat, j: nat)
    requires Spaced(cs) && i <= j < |cs|
    ensures ConfirmedAt(cs[i], right) <= ConfirmedAt(cs[j], right)
  {
    BarsApart(cs, i, j - i);
    assert cs[0].key.timeframe.DurationMs() * (j - i) >= 0;
  }

  lemma {:induction false} ConfirmedUpTo(cs: seq<PricedCandle>, left: nat, right: nat, end: int, j: nat, asOf: int)
    requires Spaced(cs) && end + right <= |cs| && end - 1 <= j < |cs| && ConfirmedAt(cs[j], right) <= asOf
    ensures Gate(PivotsBefore(cs, left, right, end), asOf) == PivotsBefore(cs, left, right, end)
    decreases end
  {
    hide PivotsAt, Gate, ConfirmedAt;
    if end > left {
      ConfirmedUpTo(cs, left, right, end - 1, j, asOf);
      ConfirmedInOrder(cs, right, end - 1, j);
      GateAppend(PivotsBefore(cs, left, right, end - 1), PivotsAt(cs, left, right, end - 1), asOf);
      PivotsConfirmed(cs, left, right, end - 1, asOf);
    } else {
      EmptyGate(asOf);
    }
  }

  /** The gate shows the pivots up to some bar and none behind it. */
  lemma {:induction false} GateCuts(cs: seq<PricedCandle>, left: nat, right: nat, end: int, asOf: int) returns (n: int)
    requires Spaced(cs) && end + right <= |cs|
    ensures n <= end && Gate(PivotsBefore(cs, left, right, end), asOf) == PivotsBefore(cs, left, right, n)
    decreases end
  {
    hide PivotsAt, Gate, ConfirmedAt;
    if end <= left {
      EmptyGate(asOf);
      n := end;
    } else if ConfirmedAt(cs[end - 1], right) <= asOf {
      ConfirmedUpTo(cs, left, right, end, end - 1, asOf);
      n := end;
    } else {
      n := GateCuts(cs, left, right, end - 1, asOf);
      GateAppend(PivotsBefore(cs, left, right, end - 1), PivotsAt(cs, left, right, end - 1), asOf);
      PivotsConfirmed(cs, left, right, end - 1, asOf);
    }
  }

  lemma {:induction false} EarlierPivotsFirst(cs: seq<PricedCandle>, left: nat, right: nat, n: int, end: int)
    requires n <= end && end + right <= |cs|
    ensures PivotsBefore(cs, left, right, n) <= PivotsBefore(cs, left, right, end)
    decreases end - n
  {
    hide PivotsAt;
    if n < end {
      EarlierPivotsFirst(cs, left, right, n, end - 1);
    }
  }

  /**
   Gating equals truncation: reading the full detection through the gate at bar
   `last` shows exactly the detection of the series cut at `last`, in the same
   order, if and only if no later-decided pivot claims to be confirmed already.
   */
  lemma GatingIsTruncation(cs: seq<PricedCandle>, left: nat, right: nat, last: nat)
    requires Spaced(cs) && last < |cs|
    ensures Gate(Detected(cs, left, right), cs[last].closeTime) == Detected(cs[..last + 1], left, right)
       <==> !exists i :: EarlyPivot(cs, left, right, i, last)
  {
    hide PivotsBefore, Gate, EarlyBefore, EarlyPivot;
    PrefixPivots(cs, left, right, last + 1, last + 1 - right);
    BeyondTruncation(cs, left, right, |cs| - right, last);
    EarlyAnywhere(cs, left, right, last);
  }

  /** Two series that differ in their prices at most. */
  ghost predicate SameTimes(cs: seq<PricedCandle>, ds: seq<PricedCandle>) {
    && |cs| == |ds|
    && forall i :: 0 <= i < |cs| ==>
         && ds[i].key == cs[i].key && ds[i].openTime == cs[i].openTime
         && ds[i].closeTime == cs[i].closeTime && ds[i].isClosed == cs[i].isClosed
  }

  ghost predicate GateTruncates(cs: seq<PricedCandle>, left: nat, right: nat, last: nat)
    requires last < |cs|
  {
    Gate(Detected(cs, left, right), cs[last].closeTime) == Detected(cs[..last + 1], left, right)
  }

  /** A place whose window reaches behind bar `last` although its confirmation time has passed by then. */
  ghost predicate EarlyPlace(cs: seq<PricedCandle>, left: nat, right: nat, i: int, last: nat)
    requires last < |cs|
  {
    left <= i && last < i + right < |cs| && ConfirmedAt(cs[i], right) <= cs[last].closeTime
  }

  /** The series at these times with one high at `i` and flat prices elsewhere. */
  function OnePeak(cs: seq<PricedCandle>, i: int): (ds: seq<PricedCandle>)
    ensures |ds| == |cs|
  {
    seq(|cs|, k requires 0 <= k < |cs| => Peaked(cs[k], if k == i then 2.0 else 1.0))
  }

  function Peaked(c: PricedCandle, high: real): PricedCandle
    requires high >= 1.0
  {
    CandleRecord(c.key, c.openTime, c.closeTime, 1.0, high, 1.0, 1.0, 0.0, c.isClosed)
  }

  /**
   On times alone: whatever the prices, gating equals truncation if and only if no
   place has its confirmation time before the bars it is decided by.
   */
  lemma TimesDecideGating(cs: seq<PricedCandle>, left: nat, right: nat, last: nat)
    requires Spaced(cs) && last < |cs|
    ensures (forall ds: seq<PricedCandle> :: SameTimes(cs, ds) ==> GateTruncates(ds, left, right, last))
       <==> !exists i :: EarlyPlace(cs, left, right, i, last)
  {
    hide PivotsBefore, Gate, Detected, IsPivotLow;
    if i :| EarlyPlace(cs, left, right, i, last) {
      var ds := OnePeak(cs, i);
      assert SameTimes(cs, ds) && Spaced(ds);
      assert IsPivotHigh(ds, left, right, i);
      assert EarlyPivot(ds, left, right, i, last);
      GatingIsTruncation(ds, left, right, last);
    } else {
      hide PivotsAt;
      forall ds: seq<PricedCandle> | SameTimes(cs, ds) ensures GateTruncates(ds, left, right, last) {
        assert Spaced(ds);
        GatingIsTruncation(ds, left, right, last);
        forall i ensures !EarlyPivot(ds, left, right, i, last) {
          assert !EarlyPlace(cs, left, right, i, last);
        }
      }
    }
  }

  function Bar(n: int, high: real): PricedCandle
    requires high >= 1.0
  {
    var close := M15.DurationMs() * n;
    CandleRecord(SeriesKey("", M15), close - 1, close, 1.0, high, 1.0, 1.0, 0.0, true)
  }

  /** A gap of one bar behind a pivot lets the gate show it one bar before it is decided. */
  lemma GapLetsPivotLeak()
    ensures var cs := [Bar(0, 1.0), Bar(1, 3.0), Bar(3, 2.0), Bar(4, 2.0)];
            && Spaced(cs)
            && Gate(Detected(cs, 1, 2), cs[2].closeTime) != Detected(cs[..3], 1, 2)
  {
    var cs := [Bar(0, 1.0), Bar(1, 3.0), Bar(3, 2.0), Bar(4, 2.0)];
    assert IsPivotHigh(cs, 1, 2, 1);
    assert EarlyPivot(cs, 1, 2, 1, 2);
    GatingIsTruncation(cs, 1, 2, 2);
  }

  /** Without gaps there is no such pivot, so the two always agree. */
  lemma ContiguousGatingIsTruncation(cs: seq<PricedCandle>, left: nat, right: nat, last: nat)
    requires Contiguous(cs) && last < |cs|
    ensures Gate(Detected(cs, left, right), cs[last].closeTime) == Detected(cs[..last + 1], left, right)
  {
    GatingIsTruncation(cs, left, right, last);
    if i :| EarlyPivot(cs, left, right, i, last) {
      if i <= last {
        NotConfirmedEarlier(cs, right, i, last);
      } else {
        LaterBarConfirmsLater(cs, right, i, last);
      }
    }
  }

  lemma LaterBarConfirmsLater(cs: seq<PricedCandle>, right: nat, i: nat, last: nat)
    requires Spaced(cs) && last < i < |cs|
    ensures ConfirmedAt(cs[i], right) > cs[last].closeTime
  {
    BarsApart(cs, last, i - last);
    var ms := cs[0].key.timeframe.DurationMs();
    assert ms * (i - last) > 0 && ms * right >= 0;
  }

  /** After an as-of read the gate removes nothing, gaps or not. */
  lemma GateAfterReadIsIdle(cs: seq<PricedCandle>, left: nat, right: nat)
    requires Spaced(cs) && cs != []
    ensures Gate(Detected(cs, left, right), cs[|cs| - 1].closeTime) == Detected(cs, left, right)
  {
    AllConfirmed(cs, left, right, |cs| - right, |cs| - 1);
  }
}
