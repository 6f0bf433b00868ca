/** Break detection with one emission per broken swing (`app/structure/csd.py`). */
module Csd {
  import opened Market
  import opened Swings
  import opened Structure

  datatype BreakMethod = ByPercent | ByAtr

  datatype CsdSettings = CsdSettings(minimumPercent: real, breakMethod: BreakMethod, minimumAtr: real)

  datatype CsdEvent = CsdEvent(
    direction: Direction, candle: PricedCandle, swing: SwingPoint,
    distancePercent: real, distanceAtr: Option<real>)

  /** The identity of a broken swing. */
  datatype BreakKey = BreakKey(series: SeriesKey, direction: Direction, swingTime: int)

  predicate Matches(e: StructureEvent, series: SeriesKey, swingType: SwingType, kind: StructureKind) {
    e.swing.candle.key == series && e.swing.kind == swingType && e.kind == Some(kind)
  }

  /** The newest swing of the wanted type and classification. */
  function LatestSwing(events: seq<StructureEvent>, series: SeriesKey, swingType: SwingType, kind: StructureKind)
      : (r: Option<SwingPoint>)
    ensures r.None? <==> forall e <- events :: !Matches(e, series, swingType, kind)
    ensures r.Some? ==> exists e <- events :: Matches(e, series, swingType, kind) && e.swing == r.value
    ensures forall e <- events :: Matches(e, series, swingType, kind) ==>
      r.Some? && e.swing.candle.openTime <= r.value.candle.openTime
  {
    if events == [] then None
    else
      var init, e := events[..|events| - 1], events[|events| - 1];
      assert events == init + [e];
      var best := LatestSwing(init, series, swingType, kind);
      if Matches(e, series, swingType, kind)
         && (best.None? || best.value.candle.openTime < e.swing.candle.openTime)
      then Some(e.swing) else best
  }

  function BreakOf(c: PricedCandle, s: SwingPoint, direction: Direction): BreakKey {
    BreakKey(c.key, direction, s.candle.openTime)
  }

  function Distance(c: PricedCandle, s: SwingPoint): (percent: real)
    ensures 0.0 <= percent
  {
    assert Abs(c.close - s.Price()) / s.Price() >= 0.0;
    Abs(c.close - s.Price()) / s.Price() * 100.0
  }

  function DistanceInAtr(c: PricedCandle, s: SwingPoint, atr: Option<real>): Option<real> {
    if atr.Some? && atr.value > 0.0 then Some(Abs(c.close - s.Price()) / atr.value) else None
  }

  predicate FarEnough(settings: CsdSettings, c: PricedCandle, s: SwingPoint, atr: Option<real>) {
    match settings.breakMethod
    case ByPercent => Distance(c, s) >= settings.minimumPercent
    case ByAtr => DistanceInAtr(c, s, atr).Some? && DistanceInAtr(c, s, atr).value >= settings.minimumAtr
  }

  /** The swing a closed candle breaks, lower highs first. */
  function Broken(c: PricedCandle, structure: seq<StructureEvent>): Option<(SwingPoint, Direction)> {
    if !c.isClosed then None
    else
      var high := LatestSwing(structure, c.key, High, LH);
      if high.Some? && c.close > high.value.Price() then Some((high.value, Bullish))
      else
        var low := LatestSwing(structure, c.key, Low, HL);
        if low.Some? && c.close < low.value.Price() then Some((low.value, Bearish)) else None
  }

  /** The emission, and the set of breaks emitted afterwards. */
  function Detection(settings: CsdSettings, emitted: set<BreakKey>, c: PricedCandle,
                     structure: seq<StructureEvent>, atr: Option<real>): (r: (set<BreakKey>, Option<CsdEvent>))
    ensures r.1.None? ==> r.0 == emitted
    ensures r.1.Some? ==>
      && r.1.value.candle == c
      && 0.0 <= r.1.value.distancePercent
      && BreakOf(c, r.1.value.swing, r.1.value.direction) !in emitted
      && r.0 == emitted + {BreakOf(c, r.1.value.swing, r.1.value.direction)}
  {
    match Broken(c, structure)
    case None => (emitted, None)
    case Some((swing, direction)) =>
      if !FarEnough(settings, c, swing, atr) || BreakOf(c, swing, direction) in emitted then (emitted, None)
      else (emitted + {BreakOf(c, swing, direction)},
            Some(CsdEvent(direction, c, swing, Distance(c, swing), DistanceInAtr(c, swing, atr))))
  }

  class CSDEngine {
    const settings: CsdSettings
    var emittedBreaks: set<BreakKey>

    constructor (settings: CsdSettings)
      ensures this.settings == settings && emittedBreaks == {}
    {
      this.settings := settings;
      emittedBreaks := {};
    }

    method Evaluate(c: PricedCandle, structure: seq<StructureEvent>, atr: Option<real>) returns (r: Option<CsdEvent>)
      modifies this
      ensures (emittedBreaks, r) == Detection(settings, old(emittedBreaks), c, structure, atr)
    {
      if !c.isClosed {
        return None;
      }
      var bullish := LatestSwing(structure, c.key, High, LH);
      if bullish.Some? && c.close > bullish.value.Price() {
        r := Emit(c, bullish.value, Bullish, atr);
        return;
      }
      var bearish := LatestSwing(structure, c.key, Low, HL);
      if bearish.Some? && c.close < bearish.value.Price() {
        r := Emit(c, bearish.value, Bearish, atr);
        return;
      }
      return None;
    }

    method Emit(c: PricedCandle, swing: SwingPoint, direction: Direction, atr: Option<real>) returns (r: Option<CsdEvent>)
      modifies this
      ensures if !FarEnough(settings, c, swing, atr) || BreakOf(c, swing, direction) in old(emittedBreaks) then
                r.None? && emittedBreaks == old(emittedBreaks)
              else
                && r == Some(CsdEvent(direction, c, swing, Distance(c, swing), DistanceInAtr(c, swing, atr)))
                && emittedBreaks == old(emittedBreaks) + {BreakOf(c, swing, direction)}
    {
      var distance, distanceAtr := Distance(c, swing), DistanceInAtr(c, swing, atr);
      if settings.breakMethod.ByPercent? && distance < settings.minimumPercent {
        return None;
      }
      if settings.breakMethod.ByAtr? && (distanceAtr.None? || distanceAtr.value < settings.minimumAtr) {
        return None;
      }
      var key := BreakOf(c, swing, direction);
      if key in emittedBreaks {
        return None;
      }
      emittedBreaks := emittedBreaks + {key};
      return Some(CsdEvent(direction, c, swing, distance, distanceAtr));
    }
  }
}
