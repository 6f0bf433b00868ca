/** The smoothing loops of `app/indicators/engine.py`.  Bollinger bands, which need a square root, are left out. */
module Indicators {
  import opened Market
  import Sorting

  // ------------------------------------------------------- exponential average

  function Multiplier(period: nat): (m: real)
    requires period >= 1
    ensures 0.0 < m <= 1.0
  {
    2.0 / (period + 1) as real
  }

  function Ema(values: seq<real>, period: nat): real
    requires values != [] && period >= 1
    decreases |values|
  {
    if |values| == 1 then values[0]
    else
      var before := Ema(values[..|values| - 1], period);
      (values[|values| - 1] - before) * Multiplier(period) + before
  }

  lemma Distribute(x: real, y: real, m: real)
    ensures (x - y) * m == x * m - y * m
    ensures y * (1.0 - m) == y - y * m
  {
  }

  lemma NotNegative(a: real, b: real)
    requires 0.0 <= a && 0.0 <= b
    ensures 0.0 <= a * b
  {
  }

  /** What is above a limit on both sides is above it in between. */
  lemma MixAbove(x: real, y: real, m: real, low: real)
    requires 0.0 <= m <= 1.0 && low <= x && low <= y
    ensures low <= (x - y) * m + y
  {
    Distribute(x, y, m);
    Distribute(x, low, m);
    Distribute(y, low, 1.0 - m);
    Distribute(y, low, m);
    NotNegative(x - low, m);
    NotNegative(y - low, 1.0 - m);
    assert y * (1.0 - m) == y - y * m by { Distribute(y, y, m); }
  }

  lemma MixBetween(x: real, y: real, m: real, low: real, high: real)
    requires 0.0 <= m <= 1.0 && low <= x <= high && low <= y <= high
    ensures low <= (x - y) * m + y <= high
  {
    MixAbove(x, y, m, low);
    MixAbove(-x, -y, m, -high);
    assert (-x - -y) * m == -((x - y) * m);
  }

  /** An exponential average never leaves the range of its inputs. */
  lemma {:induction false} EmaBetween(values: seq<real>, period: nat, low: real, high: real)
    requires values != [] && period >= 1 && Between(values, low, high)
    ensures low <= Ema(values, period) <= high
    decreases |values|
  {
    if |values| > 1 {
      var init := values[..|values| - 1];
      EmaBetween(init, period, low, high);
      MixBetween(values[|values| - 1], Ema(init, period), Multiplier(period), low, high);
    }
  }

  method EmaLoop(values: seq<real>, period: nat) returns (value: real)
    requires values != [] && period >= 1
    ensures value == Ema(values, period)
  {
    value := values[0];
    assert values[..1] == [values[0]];
    for i := 1 to |values|
      invariant value == Ema(values[..i], period)
    {
      assert values[..i + 1][..i] == values[..i];
      value := (values[i] - value) * Multiplier(period) + value;
    }
    assert values[..|values|] == values;
  }

  /** The averages of all non-empty prefixes. */
  function EmaSeries(values: seq<real>, period: nat): (r: seq<real>)
    requires period >= 1
    ensures |r| == |values|
  {
    seq(|values|, i requires 0 <= i < |values| => Ema(values[..i + 1], period))
  }

  method EmaSeriesLoop(values: seq<real>, period: nat) returns (result: seq<real>)
    requires values != [] && period >= 1
    ensures result == EmaSeries(values, period)
  {
    var current := values[0];
    assert values[..1] == [values[0]];
    result := [current];
    for i := 1 to |values|
      invariant current == Ema(values[..i], period)
      invariant |result| == i && forall j :: 0 <= j < i ==> result[j] == Ema(values[..j + 1], period)
    {
      assert values[..i + 1][..i] == values[..i];
      current := (values[i] - current) * Multiplier(period) + current;
      result := result + [current];
    }
  }

  /** The series ends in the plain average. */
  lemma SeriesEndsInEma(values: seq<real>, period: nat)
    requires values != [] && period >= 1
    ensures EmaSeries(values, period)[|values| - 1] == Ema(values, period)
  {
    assert values[..|values| - 1 + 1] == values;
  }

  datatype Macd = Macd(line: real, signal: real, histogram: real)

  const MACD_FAST: nat := 12
  const MACD_SLOW: nat := 26
  const MACD_SIGNAL: nat := 9

  function Lines(values: seq<real>): (r: seq<real>)
    ensures |r| == |values|
  {
    var fast, slow := EmaSeries(values, MACD_FAST), EmaSeries(values, MACD_SLOW);
    seq(|values|, i requires 0 <= i < |values| => fast[i] - slow[i])
  }

  function MacdOf(values: seq<real>): Option<Macd> {
    if |values| < MACD_SLOW then None
    else
      var line := Ema(values, MACD_FAST) - Ema(values, MACD_SLOW);
      var signal := Ema(Lines(values), MACD_SIGNAL);
      Some(Macd(line, signal, line - signal))
  }

  method MacdLoop(values: seq<real>) returns (r: Option<Macd>)
    ensures r == MacdOf(values)
  {
    if |values| < MACD_SLOW {
      return None;
    }
    var fast := EmaSeriesLoop(values, MACD_FAST);
    var slow := EmaSeriesLoop(values, MACD_SLOW);
    var lines := seq(|values|, i requires 0 <= i < |values| => fast[i] - slow[i]);
    assert lines == Lines(values);
    var signals := EmaSeriesLoop(lines, MACD_SIGNAL);
    SeriesEndsInEma(values, MACD_FAST);
    SeriesEndsInEma(values, MACD_SLOW);
    SeriesEndsInEma(lines, MACD_SIGNAL);
    hide Ema, EmaSeries;
    var last := |values| - 1;
    return Some(Macd(lines[last], signals[last], lines[last] - signals[last]));
  }

  // ------------------------------------------------------------ Wilder smoothing

  function SmoothOne(value: real, x: real, period: nat): real
    requires period >= 1
  {
    (value * (period - 1) as real + x) / period as real
  }

  /** The mean of the first `period` values, then smoothed with each later one. */
  function Smoothed(xs: seq<real>, period: nat): real
    requires 1 <= period <= |xs|
    decreases |xs|
  {
    if |xs| == period then Sum(xs) / period as real
    else SmoothOne(Smoothed(xs[..|xs| - 1], period), xs[|xs| - 1], period)
  }

  method SmoothLoop(xs: seq<real>, period: nat) returns (value: real)
    requires 1 <= period <= |xs|
    ensures value == Smoothed(xs, period)
  {
    hide SmoothOne;
    value := Sum(xs[..period]) / period as real;
    for i := period to |xs|
      invariant value == Smoothed(xs[..i], period)
    {
      assert xs[..i + 1][..i] == xs[..i];
      value := SmoothOne(value, xs[i], period);
    }
    assert xs[..|xs|] == xs;
  }

  lemma {:induction false} SumNotNegative(xs: seq<real>)
    requires forall i :: 0 <= i < |xs| ==> 0.0 <= xs[i]
    ensures 0.0 <= Sum(xs)
    decreases |xs|
  {
    if xs != [] {
      SumNotNegative(xs[1..]);
    }
  }

  lemma SmoothStep(value: real, x: real, period: nat)
    requires period >= 1 && 0.0 <= value && 0.0 <= x
    ensures 0.0 <= SmoothOne(value, x, period)
  {
    assert value * (period - 1) as real >= 0.0;
  }

  lemma {:induction false} SmoothedNotNegative(xs: seq<real>, period: nat)
    requires 1 <= period <= |xs| && forall i :: 0 <= i < |xs| ==> 0.0 <= xs[i]
    ensures 0.0 <= Smoothed(xs, period)
    decreases |xs|
  {
    if |xs| == period {
      SumNotNegative(xs);
    } else {
      SmoothedNotNegative(xs[..|xs| - 1], period);
      SmoothStep(Smoothed(xs[..|xs| - 1], period), xs[|xs| - 1], period);
    }
  }

  const RSI_PERIOD: nat := 14
  const ATR_PERIOD: nat := 14
  const VOLUME_PERIOD: nat := 20

  function Gains(values: seq<real>): (r: seq<real>)
    requires values != []
    ensures |r| == |values| - 1 && forall i :: 0 <= i < |r| ==> 0.0 <= r[i]
  {
    seq(|values| - 1, i requires 0 <= i < |values| - 1 => Max(values[i + 1] - values[i], 0.0))
  }

  function Falls(values: seq<real>): (r: seq<real>)
    requires values != []
    ensures |r| == |values| - 1 && forall i :: 0 <= i < |r| ==> 0.0 <= r[i]
  {
    seq(|values| - 1, i requires 0 <= i < |values| - 1 => Max(-(values[i + 1] - values[i]), 0.0))
  }

  /** The index for two averages that are not negative. */
  function RsiFrom(gain: real, loss: real): (r: real)
    requires 0.0 <= gain && 0.0 <= loss
    ensures 0.0 <= r <= 100.0
    ensures r == 100.0 <==> gain > 0.0 && loss == 0.0
    ensures r == 0.0 <==> gain == 0.0 && loss > 0.0
  {
    if loss == 0.0 then (if gain > 0.0 then 100.0 else 50.0)
    else
      var strength := gain / loss;
      assert strength * loss == gain;
      assert 0.0 < 100.0 / (1.0 + strength) <= 100.0;
      100.0 - 100.0 / (1.0 + strength)
  }

  function Rsi(values: seq<real>): (r: Option<real>)
    ensures r.Some? ==> 0.0 <= r.value <= 100.0
  {
    if |values| <= RSI_PERIOD then None
    else
      SmoothedNotNegative(Gains(values), RSI_PERIOD);
      SmoothedNotNegative(Falls(values), RSI_PERIOD);
      Some(RsiFrom(Smoothed(Gains(values), RSI_PERIOD), Smoothed(Falls(values), RSI_PERIOD)))
  }

  /** Both averages in one loop. */
  method RsiLoop(values: seq<real>) returns (r: Option<real>)
    ensures r == Rsi(values)
  {
    if |values| <= RSI_PERIOD {
      return None;
    }
    var gains, losses := Gains(values), Falls(values);
    SmoothedNotNegative(gains, RSI_PERIOD);
    SmoothedNotNegative(losses, RSI_PERIOD);
    hide Gains, Falls, RsiFrom, SmoothOne, Sum;
    var period := RSI_PERIOD;
    var averageGain, averageLoss := Sum(gains[..period]) / period as real, Sum(losses[..period]) / period as real;
    for i := period to |gains|
      invariant averageGain == Smoothed(gains[..i], period) && averageLoss == Smoothed(losses[..i], period)
    {
      assert gains[..i + 1][..i] == gains[..i] && losses[..i + 1][..i] == losses[..i];
      averageGain := SmoothOne(averageGain, gains[i], period);
      averageLoss := SmoothOne(averageLoss, losses[i], period);
    }
    assert gains[..|gains|] == gains && losses[..|losses|] == losses;
    return Some(RsiFrom(averageGain, averageLoss));
  }

  function TrueRange(cs: seq<PricedCandle>, i: nat): (r: real)
    requires i < |cs|
    ensures 0.0 <= cs[i].high - cs[i].low <= r
  {
    var span := cs[i].high - cs[i].low;
    if i == 0 then span
    else Max(span, Max(Abs(cs[i].high - cs[i - 1].close), Abs(cs[i].low - cs[i - 1].close)))
  }

  function TrueRanges(cs: seq<PricedCandle>): (r: seq<real>)
    ensures |r| == |cs|
  {
    seq(|cs|, i requires 0 <= i < |cs| => TrueRange(cs, i))
  }

  function Atr(cs: seq<PricedCandle>): Option<real> {
    if |cs| < ATR_PERIOD then None else Some(Smoothed(TrueRanges(cs), ATR_PERIOD))
  }

  method AtrLoop(cs: seq<PricedCandle>) returns (r: Option<real>)
    ensures r == Atr(cs)
  {
    if |cs| < ATR_PERIOD {
      return None;
    }
    hide TrueRange, Smoothed;
    var ranges: seq<real> := [];
    var previousClose := None;
    for i := 0 to |cs|
      invariant previousClose == if i == 0 then None else Some(cs[i - 1].close)
      invariant |ranges| == i && forall j :: 0 <= j < i ==> ranges[j] == TrueRange(cs, j)
    {
      var range := RangeOf(cs, i, previousClose);
      ranges := ranges + [range];
      previousClose := Some(cs[i].close);
    }
    assert ranges == TrueRanges(cs);
    var value := SmoothLoop(ranges, ATR_PERIOD);
    return Some(value);
  }

  method RangeOf(cs: seq<PricedCandle>, i: nat, previousClose: Option<real>) returns (range: real)
    requires i < |cs| && previousClose == if i == 0 then None else Some(cs[i - 1].close)
    ensures range == TrueRange(cs, i)
  {
    range := cs[i].high - cs[i].low;
    if previousClose.Some? {
      range := Max(range, Max(Abs(cs[i].high - previousClose.value), Abs(cs[i].low - previousClose.value)));
    }
  }

  /** The average true range of a series is not negative. */
  lemma AtrNotNegative(cs: seq<PricedCandle>)
    ensures Atr(cs).Some? ==> 0.0 <= Atr(cs).value
  {
    if |cs| >= ATR_PERIOD {
      SmoothedNotNegative(TrueRanges(cs), ATR_PERIOD);
    }
  }

  // --------------------------------------------------------------- all together

  function Sma(values: seq<real>, period: nat): Option<real>
    requires period >= 1
  {
    if |values| < period then None else Some(Sum(values[|values| - period..]) / period as real)
  }

  datatype IndicatorValues = IndicatorValues(
    ema: map<int, real>, rsi: Option<real>, macd: Option<Macd>, volumeRatio: Option<real>, atr: Option<real>)

  function Closed(cs: seq<PricedCandle>): seq<PricedCandle> {
    Sorting.Filter(cs, (c: PricedCandle) => c.isClosed)
  }

  function Closes(cs: seq<PricedCandle>): (r: seq<real>)
    ensures |r| == |cs| && forall i :: 0 <= i < |r| ==> 0.0 < r[i]
  {
    seq(|cs|, i requires 0 <= i < |cs| => cs[i].close)
  }

  function Volumes(cs: seq<PricedCandle>): (r: seq<real>)
    ensures |r| == |cs| && forall i :: 0 <= i < |r| ==> 0.0 <= r[i]
  {
    seq(|cs|, i requires 0 <= i < |cs| => cs[i].volume)
  }

  function EmaTable(closes: seq<real>): map<int, real> {
    if closes == [] then map[] else map[10 := Ema(closes, 10), 50 := Ema(closes, 50), 200 := Ema(closes, 200)]
  }

  function VolumeRatio(volumes: seq<real>): Option<real> {
    if volumes == [] || Sma(volumes, VOLUME_PERIOD).None? || Sma(volumes, VOLUME_PERIOD).value == 0.0 then None
    else Some(volumes[|volumes| - 1] / Sma(volumes, VOLUME_PERIOD).value)
  }

  function Calculated(cs: seq<PricedCandle>): IndicatorValues {
    var closed := Closed(cs);
    IndicatorValues(EmaTable(Closes(closed)), Rsi(Closes(closed)), MacdOf(Closes(closed)),
                    VolumeRatio(Volumes(closed)), Atr(closed))
  }

  method Calculate(cs: seq<PricedCandle>) returns (r: IndicatorValues)
    ensures r == Calculated(cs)
  {
    hide Ema, Rsi, MacdOf, Atr, VolumeRatio;
    var closed := Closed(cs);
    var closes := Closes(closed);
    var table: map<int, real> := map[];
    if closes != [] {
      var ema10 := EmaLoop(closes, 10);
      var ema50 := EmaLoop(closes, 50);
      var ema200 := EmaLoop(closes, 200);
      table := map[10 := ema10, 50 := ema50, 200 := ema200];
    }
    var rsi := RsiLoop(closes);
    var macd := MacdLoop(closes);
    var atr := AtrLoop(closed);
    r := IndicatorValues(table, rsi, macd, VolumeRatio(Volumes(closed)), atr);
  }

  /** On positive prices every average is positive and the index stays in its range. */
  ghost predicate Sane(v: IndicatorValues) {
    && (forall period <- v.ema :: 0.0 < v.ema[period])
    && (v.rsi.Some? ==> 0.0 <= v.rsi.value <= 100.0)
    && (v.volumeRatio.Some? ==> 0.0 <= v.volumeRatio.value)
    && (v.atr.Some? ==> 0.0 <= v.atr.value)
  }

  lemma CalculatedIsSane(cs: seq<PricedCandle>)
    ensures Sane(Calculated(cs))
  {
    var closed := Closed(cs);
    var closes, volumes := Closes(closed), Volumes(closed);
    if closes != [] {
      EmaPositive(closes, 10);
      EmaPositive(closes, 50);
      EmaPositive(closes, 200);
    }
    AtrNotNegative(closed);
    VolumeRatioNotNegative(volumes);
    hide Ema, Rsi, MacdOf, Atr, VolumeRatio, Closes, Volumes, Closed;
  }

  lemma VolumeRatioNotNegative(volumes: seq<real>)
    requires forall i :: 0 <= i < |volumes| ==> 0.0 <= volumes[i]
    ensures VolumeRatio(volumes).Some? ==> 0.0 <= VolumeRatio(volumes).value
  {
    if VolumeRatio(volumes).Some? {
      SumNotNegative(volumes[|volumes| - VOLUME_PERIOD..]);
    }
  }

  lemma {:induction false} EmaPositive(values: seq<real>, period: nat)
    requires values != [] && period >= 1 && forall i :: 0 <= i < |values| ==> 0.0 < values[i]
    ensures 0.0 < Ema(values, period)
  {
    var low, high := Limits(values);
    EmaBetween(values, period, low, high);
  }

  lemma {:induction false} Limits(values: seq<real>) returns (low: real, high: real)
    requires values != []
    ensures Between(values, low, high) && low in values && high in values
  {
    low, high := values[0], values[0];
    for i := 1 to |values|
      invariant forall j :: 0 <= j < i ==> low <= values[j] <= high
      invariant low in values && high in values
    {
      low, high := Min(low, values[i]), Max(high, values[i]);
    }
  }
}
