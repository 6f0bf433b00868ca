/** Entry, stop and targets of a setup (`app/strategy/risk.py`). */
module Risk {
  import opened Market
  import Exits
  import opened Retest

  datatype RiskAnalysis = RiskAnalysis(series: SeriesKey, prices: Exits.TradePlan, riskUnit: real, takeProfits: seq<real>)

  function Calculate(stopBufferPercent: real, setup: BreakoutSetup, c: PricedCandle): Result<RiskAnalysis> {
    var reference := (setup.zoneLower + setup.zoneUpper) / 2.0;
    var long := setup.direction.Bullish?;
    var anchor := if long then Min(c.low, setup.source.candle.low) else Max(c.high, setup.source.candle.high);
    var stop := if long then anchor * (1.0 - stopBufferPercent / 100.0) else anchor * (1.0 + stopBufferPercent / 100.0);
    var risk := if long then reference - stop else stop - reference;
    if risk <= 0.0 then Raised("Risk calculation requires a stop loss beyond the entry zone")
    else
      Ok(RiskAnalysis(
           setup.Series(), Exits.TradePlan(setup.direction, setup.zoneLower, setup.zoneUpper, reference, stop), risk,
           seq(3, i => if long then reference + risk * (i + 1) as real else reference - risk * (i + 1) as real)))
  }

  /** The prices of a setup that has been started. */
  ghost predicate Proper(setup: BreakoutSetup) {
    setup.level > 0.0 && setup.zoneLower <= setup.level <= setup.zoneUpper
    && setup.zoneLower + setup.zoneUpper == 2.0 * setup.level
  }

  /**
   What the exit engine and the cost model rely on: a plan that is not refused
   has its stop on the losing side, the zone of its setup, its entry inside at a
   positive price, and its targets at one, two and three risks.
   */
  lemma PlanIsTradable(stopBufferPercent: real, setup: BreakoutSetup, c: PricedCandle)
    requires Proper(setup) && Calculate(stopBufferPercent, setup, c).Ok?
    ensures var a := Calculate(stopBufferPercent, setup, c).value;
            && a.prices.WellPosed()
            && a.prices.referenceEntry == setup.level > 0.0
            && a.series == setup.Series() && a.prices.direction == setup.direction
            && a.prices.entryLow == setup.zoneLower <= a.prices.referenceEntry <= setup.zoneUpper == a.prices.entryHigh
            && a.riskUnit == Exits.Risk(a.prices, a.prices.referenceEntry) > 0.0
            && forall i :: 0 <= i < 3 ==>
                 a.takeProfits[i] == Exits.PriceAtR(a.prices, a.prices.referenceEntry, (i + 1) as real)
  {
  }

  /** No price of the candle reaches past the stop. */
  predicate StopBeyond(direction: Direction, stop: real, c: Candle) {
    if direction.Bullish? then stop <= c.low else c.high <= stop
  }

  predicate StopAt(direction: Direction, stop: real, c: Candle) {
    stop == if direction.Bullish? then c.low else c.high
  }

  /**
   The stop stands at or beyond both candles, exactly at the further one when
   there is no buffer.
   */
  lemma StopBeyondCandles(stopBufferPercent: real, setup: BreakoutSetup, c: PricedCandle)
    requires 0.0 <= stopBufferPercent && Calculate(stopBufferPercent, setup, c).Ok?
    ensures var stop := Calculate(stopBufferPercent, setup, c).value.prices.stopLoss;
            && StopBeyond(setup.direction, stop, c) && StopBeyond(setup.direction, stop, setup.source.candle)
            && (stopBufferPercent == 0.0 ==> StopAt(setup.direction, stop, c) || StopAt(setup.direction, stop, setup.source.candle))
  {
    BufferedAway(Min(c.low, setup.source.candle.low), stopBufferPercent);
    BufferedAway(Max(c.high, setup.source.candle.high), stopBufferPercent);
  }

  lemma BufferedAway(anchor: real, buffer: real)
    requires 0.0 < anchor && 0.0 <= buffer
    ensures anchor * (1.0 - buffer / 100.0) <= anchor <= anchor * (1.0 + buffer / 100.0)
    ensures buffer == 0.0 ==> anchor * (1.0 - buffer / 100.0) == anchor == anchor * (1.0 + buffer / 100.0)
  {
    assert anchor * (buffer / 100.0) >= 0.0;
  }

  /** Neither candle reaches beyond the level of the setup. */
  predicate NoRoom(setup: BreakoutSetup, c: PricedCandle) {
    if setup.direction.Bullish? then c.low >= setup.level && setup.source.candle.low >= setup.level
    else c.high <= setup.level && setup.source.candle.high <= setup.level
  }

  /** Without a buffer a plan is refused exactly when there is no room for its stop. */
  lemma RefusedWithoutBuffer(setup: BreakoutSetup, c: PricedCandle)
    requires Proper(setup)
    ensures Calculate(0.0, setup, c).Raised? <==> NoRoom(setup, c)
  {
    BufferedAway(Min(c.low, setup.source.candle.low), 0.0);
    BufferedAway(Max(c.high, setup.source.candle.high), 0.0);
  }

  /** The further extreme of both candles on the losing side. */
  function Extreme(setup: BreakoutSetup, c: PricedCandle): real {
    if setup.direction.Bullish? then (if c.low < setup.source.candle.low then c.low else setup.source.candle.low)
    else if c.high > setup.source.candle.high then c.high
    else setup.source.candle.high
  }

  /** The stop lies the buffer, in percent of it, behind that extreme; a plan is refused when that is not beyond the level. */
  lemma StopMeans(stopBufferPercent: real, setup: BreakoutSetup, c: PricedCandle, extreme: real)
    requires Proper(setup) && extreme == Extreme(setup, c)
    ensures var plan := Calculate(stopBufferPercent, setup, c);
            && (plan.Ok? ==>
                 plan.value.prices.stopLoss * 100.0
                 == extreme * if setup.direction.Bullish? then 100.0 - stopBufferPercent else 100.0 + stopBufferPercent)
            && (plan.Ok? <==> if setup.direction.Bullish? then extreme * (100.0 - stopBufferPercent) < setup.level * 100.0
                              else setup.level * 100.0 < extreme * (100.0 + stopBufferPercent))
  {
    Hundredths(extreme, stopBufferPercent);
  }

  lemma Hundredths(x: real, buffer: real)
    ensures x * (1.0 - buffer / 100.0) * 100.0 == x * (100.0 - buffer)
    ensures x * (1.0 + buffer / 100.0) * 100.0 == x * (100.0 + buffer)
  {
  }
}
