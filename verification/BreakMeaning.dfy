/**
 What a break of structure is, in prices and times: which swing counts as a lower
 high or a higher low, which one is the newest, and which closes break it.
 */
module BreakMeaning {
  import opened Market
  import opened Swings
  import opened Structure
  import opened Csd
  import opened Strategy
  import EngineRetest
  import Retest
  import Sorting
  import Store = CandleStore

  // ------------------------------------------------------------ classification

  /** The nearest swing of the same type in front of place `i` stands at place `j`. */
  ghost predicate NearestBefore(swings: seq<SwingPoint>, i: nat, j: nat) {
    && j < i < |swings| && swings[j].kind == swings[i].kind
    && forall k :: j < k < i ==> swings[k].kind != swings[i].kind
  }

  lemma {:induction false} PreviousMeans(swings: seq<SwingPoint>, kind: SwingType, n: nat, j: nat)
    requires j < n <= |swings| && swings[j].kind == kind && forall k :: j < k < n ==> swings[k].kind != kind
    ensures Previous(swings, kind, n) == Some(swings[j])
  {
    if j < n - 1 {
      PreviousMeans(swings, kind, n - 1, j);
    }
  }

  lemma {:induction false} ClassifiedPlace(swings: seq<SwingPoint>, n: nat, i: nat)
    requires i < n <= |swings|
    ensures ClassifiedTo(swings, n)[i] == ClassifiedAt(swings, i)
  {
    hide ClassifiedAt;
    if i < n - 1 {
      ClassifiedPlace(swings, n - 1, i);
    }
  }

  /**
   A high is a higher or a lower high, a low a higher or a lower low, by its price
   against the nearest earlier swing of its type; equal prices count as lower.
   */
  lemma ClassificationMeans(swings: seq<SwingPoint>, i: nat)
    requires i < |swings|
    ensures var e := Classified(swings)[i];
            && e.swing == swings[i]
            && (e.kind == None <==> forall j: nat :: !NearestBefore(swings, i, j))
            && forall j: nat :: NearestBefore(swings, i, j) ==>
                 if swings[i].kind.High?
                 then e.kind == Some(if swings[i].candle.high > swings[j].candle.high then HH else LH)
                 else e.kind == Some(if swings[i].candle.low > swings[j].candle.low then HL else LL)
  {
    ClassifiedPlace(swings, |swings|, i);
    forall j: nat | NearestBefore(swings, i, j) ensures Previous(swings, swings[i].kind, i) == Some(swings[j]) {
      PreviousMeans(swings, swings[i].kind, i, j);
    }
    if Previous(swings, swings[i].kind, i).Some? {
      var j := LastOfKind(swings, swings[i].kind, i);
      assert NearestBefore(swings, i, j);
    }
  }

  lemma {:induction false} LastOfKind(swings: seq<SwingPoint>, kind: SwingType, n: nat) returns (j: nat)
    requires n <= |swings| && Previous(swings, kind, n).Some?
    ensures j < n && swings[j].kind == kind && forall k :: j < k < n ==> swings[k].kind != kind
  {
    if swings[n - 1].kind == kind {
      j := n - 1;
    } else {
      j := LastOfKind(swings, kind, n - 1);
    }
  }

  // ------------------------------------------------------------ the newest swing

  ghost predicate OfKind(e: StructureEvent, series: SeriesKey, swingType: SwingType, kind: StructureKind) {
    e.swing.candle.key == series && e.swing.kind == swingType && e.kind == Some(kind)
  }

  /** Place `i` holds the first of the newest swings of this type and classification. */
  ghost predicate NewestAt(events: seq<StructureEvent>, series: SeriesKey, swingType: SwingType, kind: StructureKind, i: int) {
    && 0 <= i < |events| && OfKind(events[i], series, swingType, kind)
    && forall j :: 0 <= j < |events| && OfKind(events[j], series, swingType, kind) ==>
         if j < i then events[j].swing.candle.openTime < events[i].swing.candle.openTime
         else events[j].swing.candle.openTime <= events[i].swing.candle.openTime
  }

  /** `s` is that swing. */
  ghost predicate Newest(events: seq<StructureEvent>, series: SeriesKey, swingType: SwingType, kind: StructureKind, s: SwingPoint) {
    exists i :: NewestAt(events, series, swingType, kind, i) && events[i].swing == s
  }

  lemma {:induction false} LatestPlace(events: seq<StructureEvent>, series: SeriesKey, swingType: SwingType, kind: StructureKind)
      returns (i: int)
    requires LatestSwing(events, series, swingType, kind).Some?
    ensures 0 <= i < |events| && NewestAt(events, series, swingType, kind, i)
    ensures events[i].swing == LatestSwing(events, series, swingType, kind).value
  {
    hide OfKind, NewestAt;
    var init, last := events[..|events| - 1], events[|events| - 1];
    var best := LatestSwing(init, series, swingType, kind);
    assert Matches(last, series, swingType, kind) <==> OfKind(last, series, swingType, kind) by { SameTest(last, series, swingType, kind); }
    hide Matches;
    if OfKind(last, series, swingType, kind) && (best.None? || best.value.candle.openTime < last.swing.candle.openTime) {
      i := |events| - 1;
      NewestIsLast(events, series, swingType, kind);
    } else {
      i := LatestPlace(init, series, swingType, kind);
      assert events[i] == init[i];
      NewestStays(events, series, swingType, kind, i);
    }
  }

  lemma SameTest(e: StructureEvent, series: SeriesKey, swingType: SwingType, kind: StructureKind)
    ensures Matches(e, series, swingType, kind) <==> OfKind(e, series, swingType, kind)
  {
  }

  lemma NewestIsLast(events: seq<StructureEvent>, series: SeriesKey, swingType: SwingType, kind: StructureKind)
    requires events != [] && OfKind(events[|events| - 1], series, swingType, kind)
    requires var best := LatestSwing(events[..|events| - 1], series, swingType, kind);
             best.None? || best.value.candle.openTime < events[|events| - 1].swing.candle.openTime
    ensures NewestAt(events, series, swingType, kind, |events| - 1)
  {
    var init, last := events[..|events| - 1], events[|events| - 1];
    forall j | 0 <= j < |init| && OfKind(events[j], series, swingType, kind)
      ensures events[j].swing.candle.openTime < last.swing.candle.openTime
    {
      assert init[j] in init && Matches(init[j], series, swingType, kind);
    }
  }

  lemma NewestStays(events: seq<StructureEvent>, series: SeriesKey, swingType: SwingType, kind: StructureKind, i: int)
    requires events != [] && NewestAt(events[..|events| - 1], series, swingType, kind, i)
    requires var last := events[|events| - 1];
             OfKind(last, series, swingType, kind) ==> last.swing.candle.openTime <= events[i].swing.candle.openTime
    ensures NewestAt(events, series, swingType, kind, i)
  {
    var init := events[..|events| - 1];
    assert forall j :: 0 <= j < |init| ==> events[j] == init[j];
    hide OfKind;
  }

  /** The swing a break is tested against is the newest one, if there is any. */
  lemma LatestIsNewest(events: seq<StructureEvent>, series: SeriesKey, swingType: SwingType, kind: StructureKind, s: SwingPoint)
    ensures LatestSwing(events, series, swingType, kind) == Some(s) <==> Newest(events, series, swingType, kind, s)
  {
    var latest := LatestSwing(events, series, swingType, kind);
    if latest.Some? {
      var i := LatestPlace(events, series, swingType, kind);
      if j :| NewestAt(events, series, swingType, kind, j) && events[j].swing == s {
        assert i == j;
      }
    } else {
      assert forall j :: 0 <= j < |events| ==> events[j] in events;
    }
  }

  // ----------------------------------------------------------------- the break

  /** The close is far enough from the swing's price: by percent of it, or by the average range, which must be there. */
  predicate Far(settings: CsdSettings, close: real, price: real, atr: Option<real>) {
    match settings.breakMethod
    case ByPercent => settings.minimumPercent * price <= Abs(close - price) * 100.0
    case ByAtr => atr.Some? && 0.0 < atr.value && settings.minimumAtr * atr.value <= Abs(close - price)
  }

  /** The candle closes beyond the newest lower high. */
  ghost predicate ClosesAbove(c: PricedCandle, events: seq<StructureEvent>, s: SwingPoint) {
    Newest(events, c.key, High, LH, s) && s.candle.high < c.close
  }

  /** The candle closes beyond the newest higher low. */
  ghost predicate ClosesBelow(c: PricedCandle, events: seq<StructureEvent>, s: SwingPoint) {
    Newest(events, c.key, Low, HL, s) && c.close < s.candle.low
  }

  /** What makes a closed candle emit a break: upward first, far enough, and not emitted before. */
  ghost predicate Breaks(settings: CsdSettings, emitted: set<BreakKey>, c: PricedCandle, events: seq<StructureEvent>,
                         atr: Option<real>, direction: Direction, s: SwingPoint)
  {
    && c.isClosed
    && (if direction.Bullish? then ClosesAbove(c, events, s)
        else ClosesBelow(c, events, s) && forall h :: !ClosesAbove(c, events, h))
    && Far(settings, c.close, if direction.Bullish? then s.candle.high else s.candle.low, atr)
    && BreakKey(c.key, direction, s.candle.openTime) !in emitted
  }

  lemma QuotientAtLeast(x: real, d: real, m: real)
    requires 0.0 < d
    ensures m <= x / d <==> m * d <= x
  {
    var q := x / d;
    assert q * d == x;
    assert m <= q ==> (q - m) * d >= 0.0;
    assert m > q ==> (m - q) * d > 0.0;
  }

  lemma PercentAtLeast(x: real, d: real, m: real)
    requires 0.0 < d
    ensures m <= x / d * 100.0 <==> m * d <= x * 100.0
  {
    QuotientAtLeast(x, d, m / 100.0);
    assert m / 100.0 * d == m * d / 100.0;
  }

  lemma FarMeans(settings: CsdSettings, c: PricedCandle, s: SwingPoint, atr: Option<real>)
    ensures FarEnough(settings, c, s, atr) <==> Far(settings, c.close, s.Price(), atr)
  {
    PercentAtLeast(Abs(c.close - s.Price()), s.Price(), settings.minimumPercent);
    if atr.Some? && atr.value > 0.0 {
      QuotientAtLeast(Abs(c.close - s.Price()), atr.value, settings.minimumAtr);
    }
  }

  lemma BrokenMeans(c: PricedCandle, events: seq<StructureEvent>, direction: Direction, s: SwingPoint)
    ensures Broken(c, events) == Some((s, direction))
       <==> c.isClosed
            && (if direction.Bullish? then ClosesAbove(c, events, s)
                else ClosesBelow(c, events, s) && forall h :: !ClosesAbove(c, events, h))
  {
    var high, low := LatestSwing(events, c.key, High, LH), LatestSwing(events, c.key, Low, HL);
    LatestIsNewest(events, c.key, High, LH, s);
    LatestIsNewest(events, c.key, Low, HL, s);
    forall h ensures ClosesAbove(c, events, h) <==> high == Some(h) && h.candle.high < c.close {
      LatestIsNewest(events, c.key, High, LH, h);
    }
    if high.Some? {
      LatestIsNewest(events, c.key, High, LH, high.value);
      NewestHasType(events, c.key, High, LH, high.value);
    }
    if low.Some? {
      LatestIsNewest(events, c.key, Low, HL, low.value);
      NewestHasType(events, c.key, Low, HL, low.value);
    }
    hide Newest, LatestSwing;
  }

  lemma NewestHasType(events: seq<StructureEvent>, series: SeriesKey, swingType: SwingType, kind: StructureKind, s: SwingPoint)
    requires Newest(events, series, swingType, kind, s)
    ensures s.kind == swingType && s.candle.key == series
  {
  }

  lemma DetectionMeans(settings: CsdSettings, emitted: set<BreakKey>, c: PricedCandle, events: seq<StructureEvent>,
                       atr: Option<real>, direction: Direction, s: SwingPoint)
    ensures var event := Detection(settings, emitted, c, events, atr).1;
            (event.Some? && event.value.direction == direction && event.value.swing == s
             <==> Broken(c, events) == Some((s, direction)) && FarEnough(settings, c, s, atr)
                  && BreakKey(c.key, direction, s.candle.openTime) !in emitted)
  {
    hide Broken, Distance, DistanceInAtr, FarEnough;
  }

  /** A candle emits a break of a swing in a direction if and only if it breaks that swing there. */
  lemma EmissionMeans(settings: CsdSettings, emitted: set<BreakKey>, c: PricedCandle, events: seq<StructureEvent>,
                      atr: Option<real>, direction: Direction, s: SwingPoint)
    ensures var event := Detection(settings, emitted, c, events, atr).1;
            (event.Some? && event.value.direction == direction && event.value.swing == s
             <==> Breaks(settings, emitted, c, events, atr, direction, s))
  {
    DetectionMeans(settings, emitted, c, events, atr, direction, s);
    BrokenMeans(c, events, direction, s);
    FarMeans(settings, c, s, atr);
    if direction.Bullish? && ClosesAbove(c, events, s) {
      NewestHasType(events, c.key, High, LH, s);
    }
    if direction.Bearish? && ClosesBelow(c, events, s) {
      NewestHasType(events, c.key, Low, HL, s);
    }
    hide Detection, Broken, FarEnough, Far, ClosesAbove, ClosesBelow;
  }

  /** The distances an emission reports, in percent of the swing's price and in average ranges. */
  lemma ReportedDistances(settings: CsdSettings, emitted: set<BreakKey>, c: PricedCandle, events: seq<StructureEvent>, atr: Option<real>)
    requires Detection(settings, emitted, c, events, atr).1.Some?
    ensures var e := Detection(settings, emitted, c, events, atr).1.value;
            && e.distancePercent * e.swing.Price() == Abs(c.close - e.swing.Price()) * 100.0
            && (e.distanceAtr.Some? <==> atr.Some? && 0.0 < atr.value)
            && (e.distanceAtr.Some? ==> e.distanceAtr.value * atr.value == Abs(c.close - e.swing.Price()))
  {
    hide Broken, Distance, DistanceInAtr, FarEnough;
    var e := Detection(settings, emitted, c, events, atr).1.value;
    assert e.distancePercent == Distance(c, e.swing) && e.distanceAtr == DistanceInAtr(c, e.swing, atr);
    hide Detection;
    DistanceMeans(c, e.swing);
    DistanceInAtrMeans(c, e.swing, atr);
  }

  lemma DistanceInAtrMeans(c: PricedCandle, s: SwingPoint, atr: Option<real>)
    ensures var distance := DistanceInAtr(c, s, atr);
            && (distance.Some? <==> atr.Some? && 0.0 < atr.value)
            && (distance.Some? ==> distance.value * atr.value == Abs(c.close - s.Price()))
  {
  }

  lemma DistanceMeans(c: PricedCandle, s: SwingPoint)
    ensures Distance(c, s) * s.Price() == Abs(c.close - s.Price()) * 100.0
  {
    var q := Abs(c.close - s.Price()) / s.Price();
    assert q * s.Price() == Abs(c.close - s.Price());
  }

  /** The engine, in any state: the structure is that of the last bars up to the candle, gated and classified. */
  lemma EngineBreakMeans<I>(s: Settings, an: Analytics<I>, st: State<I>, e: Event, direction: Direction, swing: SwingPoint)
    requires s.Valid()
    ensures var candles := Store.RecentAsOf(e.book, e.candle.key, LOOKBACK, e.candle.openTime);
            var break_ := EngineRetest.BreakBy(s, an, st, e);
            break_.Some? && break_.value.direction == direction && break_.value.swing == swing
            <==> e.candle.key.timeframe == s.primary
                 && Breaks(s.csd, st.emitted, e.candle, StructureAt(s, candles, e.candle.closeTime),
                           an.atr(an.indicators(candles)), direction, swing)
  {
    var candles := Store.RecentAsOf(e.book, e.candle.key, LOOKBACK, e.candle.openTime);
    EmissionMeans(s.csd, st.emitted, e.candle, StructureAt(s, candles, e.candle.closeTime),
                  an.atr(an.indicators(candles)), direction, swing);
    hide StructureAt, Store.RecentAsOf, Breaks, Detection;
  }

  /**
   What a candle reports at once: the setup of the break it emits, unless only retest
   entries are on.
   */
  lemma ImmediateMeans<I>(s: Settings, an: Analytics<I>, st: State<I>, e: Event)
    requires s.Valid()
    ensures var reports, break_ := OnCandle(s, an, e.book, st, e.candle).1, EngineRetest.BreakBy(s, an, st, e);
            && ((exists a <- reports :: a.trigger.Immediate?) <==> break_.Some? && !s.mode.RetestOnly?)
            && forall a <- reports :: a.trigger.Immediate? ==>
                 break_.Some? && a.setup == Retest.Started(s.breakout, break_.value) && a.candle == e.candle
  {
    hide StructureAt, Store.RecentAsOf, Detection, Retest.TrackedIn, Retest.Started;
    var c := e.candle;
    var candles := Store.RecentAsOf(e.book, c.key, LOOKBACK, c.openTime);
    var st1 := st.(indicators := st.indicators[c.key := an.indicators(candles)]);
    if c.key.timeframe == s.primary {
      var (st2, first) := RetestStage(s, an, st1, c);
      assert forall a <- first :: a.trigger.ViaRetest?;
      var (_, second) := BreakStage(s, an, st2, c, StructureAt(s, candles, c.closeTime));
      assert second != [] ==> second[0] in first + second;
      hide Assess;
    }
  }
}
