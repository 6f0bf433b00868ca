/**
 What the confirmation qualities and the score are, in averages, percentages and
 points, and what makes a setup eligible.
 */
module ScoringMeaning {
  import opened Market
  import opened Indicators
  import opened Scoring
  import RetestMeaning
  import Sorting
  import Strategy

  /** `q` grades `x` in percent of `base`: 1 from the saturation on, its share of the saturation below. */
  predicate Grades(q: real, x: real, base: real, saturation: real) {
    && (q == 1.0 <==> saturation * base <= x * 100.0)
    && (q == 1.0 || q * saturation * base == x * 100.0)
  }

  lemma SaturatedGrades(x: real, base: real, saturation: real)
    requires 0.0 <= x && 0.0 < base && 0.0 < saturation
    ensures Grades(Saturated(x, base, saturation), x, base, saturation)
  {
    RetestMeaning.BreakGrade(x, base, saturation);
    hide Min;
  }

  /** The averages over 10 and 50 are there and strictly in the order of the direction. */
  predicate InTrend(direction: Direction, v: IndicatorValues) {
    10 in v.ema && 50 in v.ema && if direction.Bullish? then v.ema[50] < v.ema[10] else v.ema[10] < v.ema[50]
  }

  lemma EmaMeans(s: ConfirmationSettings, direction: Direction, v: IndicatorValues, higher: seq<Option<IndicatorValues>>)
    requires s.Valid() && Sane(v)
    ensures var q := Evaluate(s, direction, v, higher).ema;
            if InTrend(direction, v) then Grades(q, Abs(v.ema[10] - v.ema[50]), v.ema[50], s.emaSaturation) else q == 0.0
  {
    if InTrend(direction, v) {
      SaturatedGrades(Abs(v.ema[10] - v.ema[50]), v.ema[50], s.emaSaturation);
    }
    hide Saturated, Grades, RsiSupports, MacdSupports, VolumeQuality, Agreeing, MacdQuality;
  }

  /** Beyond the threshold of the direction the strength counts by its distance from 50. */
  lemma RsiMeans(s: ConfirmationSettings, direction: Direction, v: IndicatorValues, higher: seq<Option<IndicatorValues>>)
    requires s.Valid()
    ensures var q := Evaluate(s, direction, v, higher).rsi;
            if v.rsi.Some? && (if direction.Bullish? then s.rsiBullishMinimum <= v.rsi.value else v.rsi.value <= s.rsiBearishMaximum)
            then q * 50.0 == Abs(v.rsi.value - 50.0)
            else q == 0.0
  {
    hide Aligned, MacdSupports, VolumeQuality, Agreeing, MacdQuality, EmaQuality;
  }

  /** A histogram that is not against the direction counts in percent of the 50 average. */
  lemma MacdMeans(s: ConfirmationSettings, direction: Direction, v: IndicatorValues, higher: seq<Option<IndicatorValues>>)
    requires s.Valid() && Sane(v)
    ensures var q := Evaluate(s, direction, v, higher).macd;
            if v.macd.Some? && 50 in v.ema
               && (if direction.Bullish? then 0.0 <= v.macd.value.histogram else v.macd.value.histogram <= 0.0)
            then Grades(q, Abs(v.macd.value.histogram), v.ema[50], s.macdSaturation)
            else q == 0.0
  {
    if v.macd.Some? && 50 in v.ema {
      SaturatedGrades(Abs(v.macd.value.histogram), v.ema[50], s.macdSaturation);
    }
    hide Saturated, Grades, RsiSupports, Aligned, VolumeQuality, Agreeing, EmaQuality;
  }

  /** From the threshold on the volume counts by its excess over the average, in thresholds; without one it counts in full. */
  lemma VolumeMeans(s: ConfirmationSettings, direction: Direction, v: IndicatorValues, higher: seq<Option<IndicatorValues>>)
    requires s.Valid()
    ensures var q, minimum := Evaluate(s, direction, v, higher).volume, s.volumeRatioMinimum;
            if v.volumeRatio.None? || v.volumeRatio.value < minimum then q == 0.0
            else if minimum == 0.0 then q == 1.0
            else (q == 1.0 <==> minimum <= v.volumeRatio.value - 1.0)
                 && (q == 1.0 || q * minimum == v.volumeRatio.value - 1.0)
  {
    var minimum := s.volumeRatioMinimum;
    if v.volumeRatio.Some? && minimum > 0.0 {
      var excess := v.volumeRatio.value - 1.0;
      var q := excess / minimum;
      assert q * minimum == excess;
      assert q >= 1.0 ==> (q - 1.0) * minimum >= 0.0;
      assert q < 1.0 ==> (1.0 - q) * minimum > 0.0;
    }
    hide Aligned, RsiSupports, MacdSupports, Agreeing, MacdQuality, EmaQuality;
  }

  function Agrees(direction: Direction): Option<IndicatorValues> -> bool {
    (v: Option<IndicatorValues>) =>
      v.Some? && 10 in v.value.ema && 50 in v.value.ema
      && if direction.Bullish? then v.value.ema[50] <= v.value.ema[10] else v.value.ema[10] <= v.value.ema[50]
  }

  lemma {:induction false} AgreeingCounts(direction: Direction, higher: seq<Option<IndicatorValues>>)
    ensures Agreeing(direction, higher) == |Sorting.Filter(higher, Agrees(direction))|
  {
    if higher != [] {
      AgreeingCounts(direction, higher[1..]);
    }
  }

  /** The share of the higher timeframes whose averages are known and not against the direction. */
  lemma HigherMeans(s: ConfirmationSettings, direction: Direction, v: IndicatorValues, higher: seq<Option<IndicatorValues>>)
    requires s.Valid()
    ensures var q := Evaluate(s, direction, v, higher).htf;
            && (higher == [] ==> q == 0.0)
            && (higher != [] ==> q * |higher| as real == |Sorting.Filter(higher, Agrees(direction))| as real)
  {
    AgreeingCounts(direction, higher);
    hide Aligned, RsiSupports, MacdSupports, Agreeing, MacdQuality, EmaQuality, VolumeQuality, Sorting.Filter;
  }

  /** Ten twelfths of the weighted qualities. */
  function Points(w: Weights, q: Qualities, csd: real, breakout: real, retest: real): real {
    csd * w.csd + breakout * w.breakout + retest * w.retest
    + q.ema * w.ema + q.rsi * w.rsi + q.macd * w.macd + q.volume * w.volume + q.htf * w.htf
  }

  lemma TotalMeans(w: Weights, q: Qualities, csd: real, breakout: real, retest: real)
    ensures WeightedTotal(w, q, csd, breakout, retest) * 12.0 == Points(w, q, csd, breakout, retest) * 10.0
  {
  }

  /** A score is given in bands that start at 3, 5 and 7.5 points. */
  lemma ScoreMeans(w: Weights, q: Qualities, csd: real, breakout: real, retest: real)
    requires ScoreOf(w, q, csd, breakout, retest).Ok?
    ensures var score := ScoreOf(w, q, csd, breakout, retest).value;
            && score.total * 12.0 == Points(w, q, csd, breakout, retest) * 10.0
            && (score.classification.NoTrade? <==> score.total < 3.0)
            && (score.classification.Watch? <==> 3.0 <= score.total < 5.0)
            && (score.classification.GoodSignal? <==> 5.0 <= score.total < 7.5)
            && (score.classification.StrongSignal? <==> 7.5 <= score.total)
  {
    TotalMeans(w, q, csd, breakout, retest);
    hide WeightedTotal, Points;
  }

  /** A setup is eligible when its qualities can be scored and reach five points. */
  lemma EligibleMeans(s: ConfirmationSettings, w: Weights, direction: Direction, v: IndicatorValues,
                      higher: seq<Option<IndicatorValues>>, csd: real, breakout: real, retest: real)
    requires s.Valid()
    ensures StrategyAnalytics(s, w).eligible(direction, v, higher, csd, breakout, retest)
       <==> var q := Evaluate(s, direction, v, higher);
            && 0.0 <= csd <= 1.0 && 0.0 <= breakout <= 1.0 && 0.0 <= retest <= 1.0
            && 0.0 <= q.ema <= 1.0 && 0.0 <= q.rsi <= 1.0 && 0.0 <= q.macd <= 1.0 && 0.0 <= q.volume <= 1.0 && 0.0 <= q.htf <= 1.0
            && 60.0 <= Points(w, q, csd, breakout, retest) * 10.0
  {
    var q := Evaluate(s, direction, v, higher);
    TotalMeans(w, q, csd, breakout, retest);
    hide WeightedTotal, Points, Evaluate;
  }

  /** What the engine runs with: the indicators of the candles, the average range among them, and eligibility by score. */
  lemma AnalyticsMean(s: ConfirmationSettings, w: Weights, cs: seq<PricedCandle>, v: IndicatorValues)
    requires s.Valid()
    ensures StrategyAnalytics(s, w).indicators(cs) == Calculated(cs) && StrategyAnalytics(s, w).atr(v) == v.atr
  {
    hide Calculated;
  }
}
