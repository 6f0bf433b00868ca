/**
 What becomes of a break, in the prices of the candles that follow it: a retest
 touches the zone around the broken level and closes beyond it, a failure closes
 back on the wrong side.
 */
module RetestMeaning {
  import opened Market
  import opened Csd
  import opened Retest
  import opened Strategy
  import opened EngineRetest

  /** The broken price. */
  function Level(e: CsdEvent): real {
    if e.swing.kind.High? then e.swing.candle.high else e.swing.candle.low
  }

  /** The candle overlaps the zone, so many percent of the level on both sides, and closes strictly beyond the level. */
  predicate Retests(zonePercent: real, e: CsdEvent, c: PricedCandle) {
    && c.low <= Level(e) * (1.0 + zonePercent / 100.0)
    && Level(e) * (1.0 - zonePercent / 100.0) <= c.high
    && (if e.direction.Bullish? then Level(e) < c.close else c.close < Level(e))
  }

  /** The candle closes strictly on the wrong side of the level. */
  predicate Fails(e: CsdEvent, c: PricedCandle) {
    if e.direction.Bullish? then c.close < Level(e) else Level(e) < c.close
  }

  /** Among the first `n` candles none retests and none fails. */
  predicate Undecided(zonePercent: real, e: CsdEvent, cs: seq<PricedCandle>, n: nat)
    requires n <= |cs|
  {
    forall i :: 0 <= i < n ==> !Retests(zonePercent, e, cs[i]) && !Fails(e, cs[i])
  }

  lemma CandlesMean(settings: BreakoutSettings, e: CsdEvent, c: PricedCandle)
    requires settings.Valid()
    ensures Qualifies(Started(settings, e), c) <==> Retests(settings.zonePercent, e, c)
    ensures InvalidClose(Started(settings, e), c) <==> Fails(e, c)
  {
    SetupMeans(settings, e);
    hide Started, Level;
  }

  lemma Shares(level: real, zone: real)
    ensures level * (1.0 + zone / 100.0) == level + level * zone / 100.0
    ensures level * (1.0 - zone / 100.0) == level - level * zone / 100.0
  {
  }

  lemma SetupMeans(settings: BreakoutSettings, e: CsdEvent)
    requires settings.Valid()
    ensures var s := Started(settings, e);
            && s.direction == e.direction && s.level == Level(e)
            && s.zoneUpper == Level(e) * (1.0 + settings.zonePercent / 100.0)
            && s.zoneLower == Level(e) * (1.0 - settings.zonePercent / 100.0)
  {
    Shares(Level(e), settings.zonePercent);
  }

  lemma QuietMeans(settings: BreakoutSettings, e: CsdEvent, cs: seq<PricedCandle>, n: nat)
    requires settings.Valid() && n <= |cs|
    ensures Quiet(Started(settings, e), cs, n) <==> Undecided(settings.zonePercent, e, cs, n)
  {
    forall i | 0 <= i < n
      ensures Qualifies(Started(settings, e), cs[i]) <==> Retests(settings.zonePercent, e, cs[i])
      ensures InvalidClose(Started(settings, e), cs[i]) <==> Fails(e, cs[i])
    {
      CandlesMean(settings, e, cs[i]);
    }
    hide Started, Qualifies, Retests, Fails, InvalidClose;
  }

  /** Candle `j`, counted from 1, is the first to decide, and comes within the window. */
  predicate FirstToDecide(settings: BreakoutSettings, e: CsdEvent, cs: seq<PricedCandle>, j: nat) {
    1 <= j <= |cs| && j <= settings.maximumBars && Undecided(settings.zonePercent, e, cs, j - 1)
  }

  /**
   On which candle a fresh setup resolves, and how: retested or failed by the first
   candle to decide, expired by the one behind the window.
   */
  lemma DecisionMeans(settings: BreakoutSettings, e: CsdEvent, cs: seq<PricedCandle>, j: nat)
    requires settings.Valid() && 1 <= j <= |cs| && forall c <- cs :: c.isClosed
    ensures var before, after := After(settings, Started(settings, e), cs[..j - 1]), After(settings, Started(settings, e), cs[..j]);
            var resolves := before.status.PendingRetest?;
            && (resolves && after.status.RetestDetected?
                <==> FirstToDecide(settings, e, cs, j) && Retests(settings.zonePercent, e, cs[j - 1]))
            && (resolves && after.status.Invalidated? <==> FirstToDecide(settings, e, cs, j) && Fails(e, cs[j - 1]))
            && (resolves && after.status.Expired?
                <==> j == settings.maximumBars + 1 && Undecided(settings.zonePercent, e, cs, j - 1))
            && (resolves && after.status.Invalidated?
                ==> after.reason == Some(if j == 1 then ImmediateReversal else FailedCloseThrough))
            && (resolves && after.status.Expired? ==> after.reason == Some(WindowExpired))
  {
    var s := Started(settings, e);
    ResolvedAt(settings, s, cs, j);
    QuietMeans(settings, e, cs, j - 1);
    CandlesMean(settings, e, cs[j - 1]);
    ExpiryReason(settings, s, cs, j);
    hide Started, After, Qualifies, InvalidClose, Retests, Fails, Quiet, Undecided;
  }

  lemma ExpiryReason(settings: BreakoutSettings, s: BreakoutSetup, cs: seq<PricedCandle>, j: nat)
    requires 1 <= j <= |cs|
    ensures After(settings, s, cs[..j - 1]).status.PendingRetest? && After(settings, s, cs[..j]).status.Expired?
            ==> After(settings, s, cs[..j]).reason == Some(WindowExpired)
  {
    assert cs[..j][..j - 1] == cs[..j - 1];
  }

  /** The four statuses after any run of a fresh setup, in prices. */
  lemma StatusMeans(settings: BreakoutSettings, e: CsdEvent, cs: seq<PricedCandle>)
    requires settings.Valid() && forall c <- cs :: c.isClosed
    ensures var t := After(settings, Started(settings, e), cs);
            && (t.status.RetestDetected?
                <==> exists j :: FirstToDecide(settings, e, cs, j) && Retests(settings.zonePercent, e, cs[j - 1]))
            && (t.status.Invalidated? <==> exists j :: FirstToDecide(settings, e, cs, j) && Fails(e, cs[j - 1]))
            && (t.status.Expired?
                <==> |cs| > settings.maximumBars && Undecided(settings.zonePercent, e, cs, settings.maximumBars))
            && (t.status.PendingRetest?
                <==> |cs| <= settings.maximumBars && Undecided(settings.zonePercent, e, cs, |cs|))
  {
    var s := Started(settings, e);
    RetestMachineMeaning(settings, s, cs);
    forall j: nat | 1 <= j <= |cs|
      ensures DecidedAt(settings, s, cs, j) && Qualifies(s, cs[j - 1])
         <==> FirstToDecide(settings, e, cs, j) && Retests(settings.zonePercent, e, cs[j - 1])
      ensures DecidedAt(settings, s, cs, j) && InvalidClose(s, cs[j - 1])
         <==> FirstToDecide(settings, e, cs, j) && Fails(e, cs[j - 1])
    {
      QuietMeans(settings, e, cs, j - 1);
      CandlesMean(settings, e, cs[j - 1]);
      hide Started, Qualifies, InvalidClose, Retests, Fails, Quiet, Undecided;
    }
    QuietMeans(settings, e, cs, |cs|);
    if |cs| > settings.maximumBars {
      QuietMeans(settings, e, cs, settings.maximumBars);
    }
    hide Started, After, Qualifies, InvalidClose, Retests, Fails, Quiet, Undecided;
  }

  /**
   In a whole run an emitted break that no newer break replaces is reported as
   retested exactly when retest entries are on and the first candle of its series to
   decide, within the window, touches the zone and closes beyond the broken price.
   */
  lemma RetestReportMeans<I>(s: Settings, an: Analytics<I>, before: seq<Event>, e: Event, later: seq<Event>)
    requires s.Valid() && BreakBy(s, an, Run(s, an, before).0, e).Some?
    requires NoBreak(s, an, Run(s, an, before + [e]).0, later, e.candle.key)
    requires forall c <- Own(later, e.candle.key) :: c.isClosed
    ensures var break_ := BreakBy(s, an, Run(s, an, before).0, e).value;
            var own := Own(later, e.candle.key);
            (exists a <- Run(s, an, before + [e] + later).1 ::
               RetestOfBreak(a, BreakKey(e.candle.key, break_.direction, break_.swing.candle.openTime)))
            <==> !s.mode.ImmediateOnly?
                 && exists j :: FirstToDecide(s.breakout, break_, own, j) && Retests(s.breakout.zonePercent, break_, own[j - 1])
  {
    hide Run, NoBreak, BreakBy, Own, After, Retests, Fails, Undecided, Qualifies, InvalidClose, DecidedAt, RetestOfBreak;
    var break_ := BreakBy(s, an, Run(s, an, before).0, e).value;
    var setup := Started(s.breakout, break_);
    BreakIsRetested(s, an, before, e, later);
    RetestMachineMeaning(s.breakout, setup, Own(later, e.candle.key));
    StatusMeans(s.breakout, break_, Own(later, e.candle.key));
    assert setup.Break() == BreakKey(e.candle.key, break_.direction, break_.swing.candle.openTime);
    hide Started, FirstToDecide;
  }

  /** How far the break closed beyond the level, in percent of it over the saturation, at most 1. */
  lemma BreakGradeMeans(settings: BreakoutSettings, e: CsdEvent, level: real)
    requires settings.Valid() && level == Level(e)
    ensures var q, x := Started(settings, e).quality, Abs(e.candle.close - level);
            && (q == 1.0 || q * settings.saturationPercent * level == x * 100.0)
            && (settings.saturationPercent * level <= x * 100.0 <==> q == 1.0)
  {
    assert e.swing.Price() == level;
    var x := Abs(e.candle.close - level);
    BreakGrade(x, level, settings.saturationPercent);
    var q := Min(x / level * 100.0 / settings.saturationPercent, 1.0);
    assert Started(settings, e).quality == q by { QualityIs(settings, e, level); }
    hide Started, Min, Level, Abs;
  }

  lemma QualityIs(settings: BreakoutSettings, e: CsdEvent, level: real)
    requires settings.Valid() && level == e.swing.Price()
    ensures Started(settings, e).quality == Min(Abs(e.candle.close - level) / level * 100.0 / settings.saturationPercent, 1.0)
  {
  }

  lemma BreakGrade(x: real, level: real, saturation: real)
    requires 0.0 <= x && 0.0 < level && 0.0 < saturation
    ensures var q := Min(x / level * 100.0 / saturation, 1.0);
            && (q == 1.0 || q * saturation * level == x * 100.0)
            && (saturation * level <= x * 100.0 <==> q == 1.0)
  {
    var percent := x / level * 100.0;
    var q := percent / saturation;
    assert q * saturation == percent;
    assert percent * level == x * 100.0 by {
      assert x / level * level == x;
    }
    assert q * saturation * level == x * 100.0;
    assert q >= 1.0 ==> (q - 1.0) * saturation >= 0.0;
    assert q < 1.0 ==> (1.0 - q) * saturation > 0.0;
    GradeSign(percent, saturation, level);
  }

  lemma GradeSign(percent: real, saturation: real, level: real)
    requires 0.0 < level
    ensures saturation <= percent <==> saturation * level <= percent * level
  {
    assert saturation <= percent ==> (percent - saturation) * level >= 0.0;
    assert saturation > percent ==> (saturation - percent) * level > 0.0;
  }

  lemma UnitQuotient(part: real, span: real)
    requires 0.0 <= part <= span && 0.0 < span
    ensures part / span * span == part && 0.0 <= part / span <= 1.0
  {
    var q := part / span;
    assert q * span == part;
    assert q > 1.0 ==> (q - 1.0) * span > 0.0;
    assert q < 0.0 ==> q * span < 0.0;
  }

  /** Where in its range the candle closed, from the side the break came from; no range, no quality. */
  lemma RejectionMeans(setup: BreakoutSetup, c: PricedCandle)
    ensures RejectionQuality(setup, c) * (c.high - c.low) == if setup.direction.Bullish? then c.close - c.low else c.high - c.close
    ensures c.high == c.low ==> RejectionQuality(setup, c) == 0.0
  {
    var span := c.high - c.low;
    if span > 0.0 {
      UnitQuotient(if setup.direction.Bullish? then c.close - c.low else c.high - c.close, span);
    }
  }
}
