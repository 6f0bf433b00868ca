/**
 What the indicators are, in closes, ranges and volumes of the closed candles: the
 smoothing laws, the share of gains, the ranges that include gaps, and exactly when
 each value is there.
 */
module IndicatorMeaning {
  import opened Market
  import opened Indicators

  // ------------------------------------------------------------------ averages

  /** The exponential average starts at the first value and moves by 2 / (period + 1) of each distance. */
  lemma EmaMeans(values: seq<real>, x: real, period: nat)
    requires period >= 1
    ensures Ema([x], period) == x
    ensures values != [] ==>
      (period + 1) as real * Ema(values + [x], period) == 2.0 * x + (period - 1) as real * Ema(values, period)
  {
    if values != [] {
      assert (values + [x])[..|values + [x]| - 1] == values;
      Weigh(Multiplier(period), x, Ema(values, period), period);
    }
  }

  lemma Weigh(m: real, x: real, before: real, period: nat)
    requires period >= 1 && m == 2.0 / (period + 1) as real
    ensures (period + 1) as real * ((x - before) * m + before) == 2.0 * x + (period - 1) as real * before
  {
    var n := (period + 1) as real;
    assert n * m == 2.0;
    assert n * ((x - before) * m + before) == (n * m) * (x - before) + n * before;
  }

  /** Wilder's average starts at the mean of the first values and moves by 1 / period of each distance. */
  lemma SmoothedMeans(xs: seq<real>, x: real, period: nat)
    requires 1 <= period <= |xs|
    ensures |xs| == period ==> period as real * Smoothed(xs, period) == Sum(xs)
    ensures period as real * Smoothed(xs + [x], period) == (period - 1) as real * Smoothed(xs, period) + x
  {
    assert (xs + [x])[..|xs + [x]| - 1] == xs;
    Quotient((Smoothed(xs, period) * (period - 1) as real + x), period as real);
    Quotient(Sum(xs), period as real);
  }

  lemma Quotient(x: real, d: real)
    requires d != 0.0
    ensures d * (x / d) == x
  {
  }

  // ------------------------------------------------------------ relative strength

  /** A rise is a gain and a fall a loss, each by its size, and never both. */
  lemma MovesMean(closes: seq<real>, i: nat)
    requires i + 1 < |closes|
    ensures var gain, loss := Gains(closes)[i], Falls(closes)[i];
            && gain - loss == closes[i + 1] - closes[i]
            && (gain == 0.0 || loss == 0.0) && 0.0 <= gain && 0.0 <= loss
  {
  }

  /** The index is the share of the average gain in both averages, in percent, and 50 when nothing moved. */
  lemma RsiMeans(closes: seq<real>)
    ensures var rsi := Rsi(closes);
            && (rsi.Some? <==> |closes| > 14)
            && (rsi.Some? ==>
                 var gain, loss := Smoothed(Gains(closes), 14), Smoothed(Falls(closes), 14);
                 if gain + loss == 0.0 then rsi.value == 50.0 else rsi.value * (gain + loss) == 100.0 * gain)
  {
    hide Smoothed, RsiFrom, Gains, Falls;
    if |closes| > 14 {
      var gain, loss := Smoothed(Gains(closes), 14), Smoothed(Falls(closes), 14);
      SmoothedNotNegative(Gains(closes), 14);
      SmoothedNotNegative(Falls(closes), 14);
      ShareOfGains(gain, loss);
      assert Rsi(closes) == Some(RsiFrom(gain, loss));
      hide Rsi;
    }
  }

  lemma ShareOfGains(gain: real, loss: real)
    requires 0.0 <= gain && 0.0 <= loss
    ensures gain + loss == 0.0 ==> RsiFrom(gain, loss) == 50.0
    ensures gain + loss > 0.0 ==> RsiFrom(gain, loss) * (gain + loss) == 100.0 * gain
  {
    if loss > 0.0 {
      var strength := gain / loss;
      assert strength * loss == gain;
      var q := 100.0 / (1.0 + strength);
      assert q * (1.0 + strength) == 100.0;
      assert q * (gain + loss) == q * (1.0 + strength) * loss;
    }
  }

  // --------------------------------------------------------------- true ranges

  /** The true range spans the candle and the close before it. */
  lemma TrueRangeMeans(cs: seq<PricedCandle>, i: nat)
    requires i < |cs|
    ensures TrueRange(cs, i)
         == if i == 0 then cs[i].high - cs[i].low
            else Max(cs[i].high, cs[i - 1].close) - Min(cs[i].low, cs[i - 1].close)
  {
  }

  // ------------------------------------------------------------- all together

  /** Divergence of the 12 and 26 averages, its own average over 9, and their distance. */
  lemma MacdMeans(closes: seq<real>)
    ensures var macd := MacdOf(closes);
            && (macd.Some? <==> |closes| >= 26)
            && (macd.Some? ==>
                 && macd.value.line == Ema(closes, 12) - Ema(closes, 26)
                 && macd.value.histogram + macd.value.signal == macd.value.line
                 && exists lines: seq<real> :: |lines| == |closes| && macd.value.signal == Ema(lines, 9)
                      && forall i :: 0 <= i < |lines| ==> lines[i] == Ema(closes[..i + 1], 12) - Ema(closes[..i + 1], 26))
  {
    var lines := Lines(closes);
    hide Ema;
    assert forall i :: 0 <= i < |lines| ==> lines[i] == Ema(closes[..i + 1], 12) - Ema(closes[..i + 1], 26);
  }

  /** The last volume over the mean of the last twenty. */
  lemma VolumeMeans(volumes: seq<real>)
    ensures var ratio := VolumeRatio(volumes);
            && (ratio.Some? <==> |volumes| >= 20 && Sum(volumes[|volumes| - 20..]) != 0.0)
            && (ratio.Some? ==> ratio.value * Sum(volumes[|volumes| - 20..]) == 20.0 * volumes[|volumes| - 1])
  {
    if |volumes| >= 20 {
      var total := Sum(volumes[|volumes| - 20..]);
      hide Sum;
      assert Sma(volumes, 20) == Some(total / 20.0);
      if total != 0.0 {
        MeanRatio(volumes[|volumes| - 1], total);
      }
    }
  }

  lemma MeanRatio(last: real, total: real)
    requires total != 0.0
    ensures total / 20.0 != 0.0 && last / (total / 20.0) * total == 20.0 * last
  {
    var mean := total / 20.0;
    assert mean * 20.0 == total;
    var q := last / mean;
    assert q * mean == last;
  }

  /** Indicators see the closed candles only, and each is there exactly when there are enough of them. */
  lemma IndicatorsMean(cs: seq<PricedCandle>)
    ensures var closed, v := Closed(cs), Calculated(cs);
            && (forall c :: c in closed <==> c in cs && c.isClosed)
            && v.ema.Keys == (if closed == [] then {} else {10, 50, 200})
            && (forall period <- v.ema :: period > 0 && v.ema[period] == Ema(Closes(closed), period))
            && v.rsi == Rsi(Closes(closed)) && v.macd == MacdOf(Closes(closed)) && v.volumeRatio == VolumeRatio(Volumes(closed))
            && (v.atr.Some? <==> |closed| >= 14)
            && (v.atr.Some? ==> v.atr.value == Smoothed(TrueRanges(closed), 14))
            && forall i :: 0 <= i < |closed| ==> Closes(closed)[i] == closed[i].close && Volumes(closed)[i] == closed[i].volume
  {
    hide Ema, Smoothed, Rsi, MacdOf, VolumeRatio, TrueRanges;
  }
}
