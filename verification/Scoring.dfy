/**
 Confirmation qualities and the confidence score (`app/strategy/confirmation.py`,
 `app/strategy/scoring.py`): when scoring can raise, and the range of the total.
 */
module Scoring {
  import opened Market
  import opened Indicators
  import Sorting
  import Strategy

  datatype ConfirmationSettings = ConfirmationSettings(
    volumeRatioMinimum: real, rsiBullishMinimum: real, rsiBearishMaximum: real,
    emaSaturation: real, macdSaturation: real)
  {
    /** The engine refuses bad thresholds, `load_settings` refuses saturations that are not positive. */
    predicate Valid() {
      && 0.0 <= volumeRatioMinimum
      && 0.0 <= rsiBullishMinimum <= 100.0 && 0.0 <= rsiBearishMaximum <= 100.0
      && 0.0 < emaSaturation && 0.0 < macdSaturation
    }
  }

  /** The five graded parts of a confirmation. */
  datatype Qualities = Qualities(ema: real, rsi: real, macd: real, volume: real, htf: real)

  function EmaOf(v: IndicatorValues, period: int): real {
    if period in v.ema then v.ema[period] else 0.0
  }

  predicate Aligned(direction: Direction, v: IndicatorValues) {
    10 in v.ema && 50 in v.ema
    && (if direction.Bullish? then v.ema[10] > v.ema[50] else v.ema[10] < v.ema[50])
  }

  predicate NotStronglyOpposed(direction: Direction, v: Option<IndicatorValues>) {
    v.Some? && 10 in v.value.ema && 50 in v.value.ema
    && (if direction.Bullish? then v.value.ema[10] >= v.value.ema[50] else v.value.ema[10] <= v.value.ema[50])
  }

  predicate RsiSupports(s: ConfirmationSettings, direction: Direction, rsi: Option<real>) {
    rsi.Some? && (if direction.Bullish? then rsi.value >= s.rsiBullishMinimum else rsi.value <= s.rsiBearishMaximum)
  }

  predicate MacdSupports(direction: Direction, v: IndicatorValues) {
    v.macd.Some? && (if direction.Bullish? then v.macd.value.histogram >= 0.0 else v.macd.value.histogram <= 0.0)
  }

  function Saturated(distance: real, base: real, saturation: real): real
    requires base != 0.0 && saturation != 0.0
  {
    Min(distance / base * 100.0 / saturation, 1.0)
  }

  function EmaQuality(s: ConfirmationSettings, v: IndicatorValues): real
    requires s.Valid()
  {
    var slow := EmaOf(v, 50);
    if slow == 0.0 then 0.0 else Saturated(Abs(EmaOf(v, 10) - slow), slow, s.emaSaturation)
  }

  function MacdQuality(s: ConfirmationSettings, v: IndicatorValues): real
    requires s.Valid()
  {
    if v.macd.None? || EmaOf(v, 50) == 0.0 then 0.0
    else Saturated(Abs(v.macd.value.histogram), EmaOf(v, 50), s.macdSaturation)
  }

  function VolumeQuality(s: ConfirmationSettings, ratio: Option<real>): real {
    if ratio.None? || ratio.value < s.volumeRatioMinimum then 0.0
    else if s.volumeRatioMinimum != 0.0 then Min((ratio.value - 1.0) / s.volumeRatioMinimum, 1.0)
    else 1.0
  }

  function Agreeing(direction: Direction, higher: seq<Option<IndicatorValues>>): (n: nat)
    ensures n <= |higher|
  {
    if higher == [] then 0
    else (if NotStronglyOpposed(direction, higher[0]) then 1 else 0) + Agreeing(direction, higher[1..])
  }

  function Evaluate(s: ConfirmationSettings, direction: Direction, v: IndicatorValues, higher: seq<Option<IndicatorValues>>): Qualities
    requires s.Valid()
  {
    Qualities(
      if Aligned(direction, v) then EmaQuality(s, v) else 0.0,
      if RsiSupports(s, direction, v.rsi) then Abs(v.rsi.value - 50.0) / 50.0 else 0.0,
      if MacdSupports(direction, v) then MacdQuality(s, v) else 0.0,
      VolumeQuality(s, v.volumeRatio),
      if higher == [] then 0.0 else Agreeing(direction, higher) as real / |higher| as real)
  }

  // -------------------------------------------------------------------- the score

  datatype Weights = Weights(csd: real, breakout: real, retest: real, ema: real, rsi: real, macd: real, volume: real, htf: real)
  {
    /** `load_settings` refuses weights that are not positive. */
    predicate Valid() {
      0.0 < csd && 0.0 < breakout && 0.0 < retest && 0.0 < ema && 0.0 < rsi && 0.0 < macd && 0.0 < volume && 0.0 < htf
    }

    function Total(): real { csd + breakout + retest + ema + rsi + macd + volume + htf }
  }

  datatype Classification = NoTrade | Watch | GoodSignal | StrongSignal

  datatype Score = Score(total: real, classification: Classification)

  const MAX_WEIGHTED_TOTAL := 12.0

  predicate Unit(q: real) { 0.0 <= q <= 1.0 }

  function Component(quality: real, weight: real): real { quality * weight * 10.0 / MAX_WEIGHTED_TOTAL }

  function WeightedTotal(w: Weights, q: Qualities, csd: real, breakout: real, retest: real): real {
    Component(csd, w.csd) + Component(breakout, w.breakout) + Component(retest, w.retest)
    + Component(q.ema, w.ema) + Component(q.rsi, w.rsi) + Component(q.macd, w.macd)
    + Component(q.volume, w.volume) + Component(q.htf, w.htf)
  }

  predicate AllUnit(q: Qualities) {
    Unit(q.ema) && Unit(q.rsi) && Unit(q.macd) && Unit(q.volume) && Unit(q.htf)
  }

  function Classify(total: real): Classification {
    if total < 3.0 then NoTrade else if total < 5.0 then Watch else if total < 7.5 then GoodSignal else StrongSignal
  }

  function ScoreOf(w: Weights, q: Qualities, csd: real, breakout: real, retest: real): Result<Score> {
    if !(Unit(csd) && Unit(breakout) && Unit(retest) && AllUnit(q)) then Raised("quality values must be in [0, 1]")
    else
      var total := WeightedTotal(w, q, csd, breakout, retest);
      Ok(Score(total, Classify(total)))
  }

  // ------------------------------------------------------ qualities in range

  lemma SaturatedIsUnit(distance: real, base: real, saturation: real)
    requires 0.0 <= distance && 0.0 < base && 0.0 < saturation
    ensures Unit(Saturated(distance, base, saturation))
  {
    assert distance / base >= 0.0;
    var percent := distance / base * 100.0;
    assert percent / saturation >= 0.0;
  }

  lemma ShareIsUnit(k: nat, n: nat)
    requires k <= n && n > 0
    ensures Unit(k as real / n as real)
  {
  }

  /** Of sane indicators every quality but the volume is in range. */
  lemma OthersAreUnit(s: ConfirmationSettings, direction: Direction, v: IndicatorValues, higher: seq<Option<IndicatorValues>>)
    requires s.Valid() && Sane(v)
    ensures var q := Evaluate(s, direction, v, higher);
            Unit(q.ema) && Unit(q.rsi) && Unit(q.macd) && Unit(q.htf)
  {
    var slow := EmaOf(v, 50);
    if slow != 0.0 {
      SaturatedIsUnit(Abs(EmaOf(v, 10) - slow), slow, s.emaSaturation);
      if v.macd.Some? {
        SaturatedIsUnit(Abs(v.macd.value.histogram), slow, s.macdSaturation);
      }
    }
    if higher != [] {
      ShareIsUnit(Agreeing(direction, higher), |higher|);
    }
    hide Saturated, Agreeing;
  }

  lemma VolumeIsUnit(s: ConfirmationSettings, ratio: Option<real>)
    requires s.Valid()
    ensures Unit(VolumeQuality(s, ratio))
       <==> !(ratio.Some? && 0.0 < s.volumeRatioMinimum <= ratio.value < 1.0)
  {
    if ratio.Some? && s.volumeRatioMinimum > 0.0 {
      var q := (ratio.value - 1.0) / s.volumeRatioMinimum;
      assert q * s.volumeRatioMinimum == ratio.value - 1.0;
      assert q >= 0.0 <==> ratio.value >= 1.0;
    }
  }

  /** Exactly when one set of sane indicators can be scored. */
  lemma ScoredWhen(s: ConfirmationSettings, w: Weights, direction: Direction, v: IndicatorValues,
                   higher: seq<Option<IndicatorValues>>, csd: real, breakout: real, retest: real)
    requires s.Valid() && Sane(v) && Unit(csd) && Unit(breakout) && Unit(retest)
    ensures ScoreOf(w, Evaluate(s, direction, v, higher), csd, breakout, retest).Ok?
       <==> !(v.volumeRatio.Some? && 0.0 < s.volumeRatioMinimum <= v.volumeRatio.value < 1.0)
  {
    OthersAreUnit(s, direction, v, higher);
    VolumeIsUnit(s, v.volumeRatio);
    hide VolumeQuality, EmaQuality, MacdQuality, WeightedTotal;
  }

  /** No candle history of positive prices makes scoring raise. */
  ghost predicate NeverRaises(s: ConfirmationSettings, w: Weights)
    requires s.Valid()
  {
    forall direction: Direction, cs: seq<PricedCandle>, higher: seq<Option<IndicatorValues>>, csd, breakout, retest ::
      Unit(csd) && Unit(breakout) && Unit(retest) ==>
        ScoreOf(w, Evaluate(s, direction, Calculated(cs), higher), csd, breakout, retest).Ok?
  }

  // A history whose last volume is the given share of its twenty-bar average.

  function QuietCandle(n: int, volume: real): PricedCandle
    requires 0.0 <= volume
  {
    CandleRecord(SeriesKey("", M15), n, n, 1.0, 1.0, 1.0, 1.0, volume, true)
  }

  function QuietHistory(ratio: real): (cs: seq<PricedCandle>)
    requires 0.0 < ratio < 1.0
    ensures |cs| == VOLUME_PERIOD
  {
    RatioArithmetic(ratio);
    seq(19, i requires 0 <= i < 19 => QuietCandle(i, 1.0)) + [QuietCandle(19, 19.0 * ratio / (20.0 - ratio))]
  }

  lemma {:induction false} SumOfOnes(xs: seq<real>, last: real)
    requires forall i :: 0 <= i < |xs| ==> xs[i] == 1.0
    ensures Sum(xs + [last]) == |xs| as real + last
  {
    if xs == [] {
      assert [last][1..] == [];
    } else {
      assert (xs + [last])[1..] == xs[1..] + [last];
      SumOfOnes(xs[1..], last);
    }
  }

  lemma {:induction false} AllClosed(cs: seq<PricedCandle>)
    requires forall i :: 0 <= i < |cs| ==> cs[i].isClosed
    ensures Closed(cs) == cs
  {
    if cs != [] {
      AllClosed(cs[1..]);
    }
  }

  lemma PositiveQuotient(x: real, y: real)
    requires 0.0 < x && 0.0 < y
    ensures 0.0 < x / y
  {
  }

  lemma RatioArithmetic(ratio: real)
    requires 0.0 < ratio < 1.0
    ensures var last := 19.0 * ratio / (20.0 - ratio);
            0.0 < last && last / ((19.0 + last) / 20.0) == ratio
  {
    var last := 19.0 * ratio / (20.0 - ratio);
    assert last * (20.0 - ratio) == 19.0 * ratio;
    PositiveQuotient(19.0 * ratio, 20.0 - ratio);
    assert 20.0 * last == ratio * (19.0 + last);
    var mean := (19.0 + last) / 20.0;
    assert last == ratio * mean;
  }

  lemma QuietRatio(ratio: real)
    requires 0.0 < ratio < 1.0
    ensures Calculated(QuietHistory(ratio)).volumeRatio == Some(ratio)
  {
    RatioArithmetic(ratio);
    var last := 19.0 * ratio / (20.0 - ratio);
    var cs := QuietHistory(ratio);
    AllClosed(cs);
    var volumes := Volumes(cs);
    assert volumes == seq(19, i => 1.0) + [last];
    SumOfOnes(seq(19, i => 1.0), last);
    assert volumes[0..] == volumes;
    assert Sum(volumes) == 19.0 + last;
    hide Calculated, QuietHistory, Sum;
    assert Sma(volumes, VOLUME_PERIOD) == Some((19.0 + last) / 20.0);
    assert VolumeRatio(volumes) == Some(ratio);
    CalculatedVolume(cs);
  }

  lemma CalculatedVolume(cs: seq<PricedCandle>)
    ensures Calculated(cs).volumeRatio == VolumeRatio(Volumes(Closed(cs)))
  {
  }

  /** Scoring never raises if and only if the volume threshold is off or at least one. */
  lemma ScoringNeverRaises(s: ConfirmationSettings, w: Weights)
    requires s.Valid()
    ensures NeverRaises(s, w) <==> s.volumeRatioMinimum == 0.0 || 1.0 <= s.volumeRatioMinimum
  {
    hide Evaluate, ScoreOf, Calculated;
    if s.volumeRatioMinimum == 0.0 || 1.0 <= s.volumeRatioMinimum {
      forall direction: Direction, cs: seq<PricedCandle>, higher: seq<Option<IndicatorValues>>, csd, breakout, retest
        | Unit(csd) && Unit(breakout) && Unit(retest)
        ensures ScoreOf(w, Evaluate(s, direction, Calculated(cs), higher), csd, breakout, retest).Ok?
      {
        CalculatedIsSane(cs);
        ScoredWhen(s, w, direction, Calculated(cs), higher, csd, breakout, retest);
      }
    } else {
      var cs := QuietHistory(s.volumeRatioMinimum);
      QuietRatio(s.volumeRatioMinimum);
      CalculatedIsSane(cs);
      ScoredWhen(s, w, Bullish, Calculated(cs), [], 0.0, 0.0, 0.0);
      assert !ScoreOf(w, Evaluate(s, Bullish, Calculated(cs), []), 0.0, 0.0, 0.0).Ok?;
    }
  }

  // ------------------------------------------------------------- total in range

  lemma ComponentLimits(quality: real, weight: real)
    requires Unit(quality) && 0.0 < weight
    ensures 0.0 <= Component(quality, weight) <= Component(1.0, weight)
  {
    assert quality * weight >= 0.0 && (1.0 - quality) * weight >= 0.0;
  }

  /** The largest total a set of weights can give. */
  lemma TotalLimits(w: Weights, q: Qualities, csd: real, breakout: real, retest: real)
    requires w.Valid() && Unit(csd) && Unit(breakout) && Unit(retest) && AllUnit(q)
    ensures 0.0 <= WeightedTotal(w, q, csd, breakout, retest) <= w.Total() * 10.0 / MAX_WEIGHTED_TOTAL
  {
    ComponentLimits(csd, w.csd);
    ComponentLimits(breakout, w.breakout);
    ComponentLimits(retest, w.retest);
    ComponentLimits(q.ema, w.ema);
    ComponentLimits(q.rsi, w.rsi);
    ComponentLimits(q.macd, w.macd);
    ComponentLimits(q.volume, w.volume);
    ComponentLimits(q.htf, w.htf);
    FullMarks(w);
    hide Component;
  }

  lemma FullMarks(w: Weights)
    ensures WeightedTotal(w, Qualities(1.0, 1.0, 1.0, 1.0, 1.0), 1.0, 1.0, 1.0) == w.Total() * 10.0 / MAX_WEIGHTED_TOTAL
  {
  }

  ghost predicate NeverAboveTen(w: Weights) {
    forall q: Qualities, csd, breakout, retest ::
      ScoreOf(w, q, csd, breakout, retest).Ok? ==> 0.0 <= ScoreOf(w, q, csd, breakout, retest).value.total <= 10.0
  }

  /** Totals stay in the ten-point scale if and only if the weights add up to at most twelve. */
  lemma TotalInScale(w: Weights)
    requires w.Valid()
    ensures NeverAboveTen(w) <==> w.Total() <= MAX_WEIGHTED_TOTAL
  {
    hide WeightedTotal;
    if w.Total() <= MAX_WEIGHTED_TOTAL {
      forall q: Qualities, csd, breakout, retest | ScoreOf(w, q, csd, breakout, retest).Ok?
        ensures 0.0 <= ScoreOf(w, q, csd, breakout, retest).value.total <= 10.0
      {
        TotalLimits(w, q, csd, breakout, retest);
      }
    } else {
      FullMarks(w);
      var full := Qualities(1.0, 1.0, 1.0, 1.0, 1.0);
      assert ScoreOf(w, full, 1.0, 1.0, 1.0).Ok? && ScoreOf(w, full, 1.0, 1.0, 1.0).value.total > 10.0;
    }
  }

  // ----------------------------------------------- the analytics of the strategy

  /** The analytics the strategy engine runs with: a setup is eligible when it scores as a signal. */
  function StrategyAnalytics(s: ConfirmationSettings, w: Weights): Strategy.Analytics<IndicatorValues>
    requires s.Valid()
  {
    Strategy.Analytics(
      cs => Calculated(cs),
      (v: IndicatorValues) => v.atr,
      (direction, v, higher, csd, breakout, retest) =>
        var score := ScoreOf(w, Evaluate(s, direction, v, higher), csd, breakout, retest);
        score.Ok? && (score.value.classification.GoodSignal? || score.value.classification.StrongSignal?))
  }
}
