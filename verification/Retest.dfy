/**
 Breakout setups (`app/strategy/breakout.py`) and the retest machine that
 advances them (`app/strategy/retest.py`).
 */
module Retest {
  import opened Market
  import opened Csd

  datatype BreakoutStatus = PendingRetest | RetestDetected | Invalidated | Expired

  datatype Invalidation = ImmediateReversal | FailedCloseThrough | WindowExpired

  datatype BreakoutSetup = BreakoutSetup(
    source: CsdEvent, direction: Direction, level: real, zoneLower: real, zoneUpper: real,
    status: BreakoutStatus, bars: nat, quality: real, reason: Option<Invalidation>)
  {
    function Series(): SeriesKey { source.candle.key }

    function Break(): BreakKey { BreakOf(source.candle, source.swing, direction) }
  }

  datatype BreakoutSettings = BreakoutSettings(zonePercent: real, maximumBars: nat, saturationPercent: real) {
    predicate Valid() { 0.0 <= zonePercent && 0.0 < saturationPercent }
  }

  type Setups = map<SeriesKey, BreakoutSetup>

  datatype RetestEvent = RetestEvent(
    candle: PricedCandle, status: BreakoutStatus, setup: BreakoutSetup, quality: real, reason: Option<Invalidation>)

  function Started(settings: BreakoutSettings, e: CsdEvent): (s: BreakoutSetup)
    requires settings.Valid()
    ensures s.zoneLower <= s.level <= s.zoneUpper && s.level > 0.0
    ensures s.zoneLower + s.zoneUpper == 2.0 * s.level
    ensures 0.0 <= s.quality <= 1.0
    ensures s.status.PendingRetest? && s.bars == 0 && s.Series() == e.candle.key && s.source == e
  {
    var level := e.swing.Price();
    var offset := level * settings.zonePercent / 100.0;
    assert level * settings.zonePercent >= 0.0;
    var distance := Abs(e.candle.close - level) / level * 100.0;
    assert Abs(e.candle.close - level) / level >= 0.0;
    assert distance / settings.saturationPercent >= 0.0;
    BreakoutSetup(e, e.direction, level, level - offset, level + offset, PendingRetest, 0,
                  Min(distance / settings.saturationPercent, 1.0), None)
  }

  predicate TouchesZone(s: BreakoutSetup, c: PricedCandle) {
    c.low <= s.zoneUpper && s.zoneLower <= c.high
  }

  predicate ValidClose(s: BreakoutSetup, c: PricedCandle) {
    if s.direction.Bullish? then c.close > s.level else c.close < s.level
  }

  predicate InvalidClose(s: BreakoutSetup, c: PricedCandle) {
    if s.direction.Bullish? then c.close < s.level else c.close > s.level
  }

  /** How cleanly the candle closed back beyond the level. */
  function RejectionQuality(s: BreakoutSetup, c: PricedCandle): (q: real)
    ensures 0.0 <= q <= 1.0
  {
    var span := c.high - c.low;
    var q := if span > 0.0 then (if s.direction.Bullish? then (c.close - c.low) / span else (c.high - c.close) / span)
             else 0.0;
    Min(Max(q, 0.0), 1.0)
  }

  /** One candle against one setup: the setup afterwards. */
  function Tracked(settings: BreakoutSettings, s: BreakoutSetup, c: PricedCandle): (r: BreakoutSetup)
    ensures r.source == s.source && r.direction == s.direction && r.level == s.level
    ensures r.zoneLower == s.zoneLower && r.zoneUpper == s.zoneUpper && r.quality == s.quality
    ensures !s.status.PendingRetest? ==> r == s
  {
    if !c.isClosed || !s.status.PendingRetest? then s
    else
      var t := s.(bars := s.bars + 1);
      if t.bars > settings.maximumBars then t.(status := Expired, reason := Some(WindowExpired))
      else if InvalidClose(t, c) then
        t.(status := Invalidated, reason := Some(if t.bars <= 1 then ImmediateReversal else FailedCloseThrough))
      else if TouchesZone(t, c) && ValidClose(t, c) then t.(status := RetestDetected, reason := None)
      else t
  }

  /** The event of that candle, if the setup was resolved by it. */
  function EventOf(s: BreakoutSetup, r: BreakoutSetup, c: PricedCandle): Option<RetestEvent> {
    if !s.status.PendingRetest? || r.status.PendingRetest? then None
    else Some(RetestEvent(c, r.status, r, if r.status.RetestDetected? then RejectionQuality(r, c) else 0.0, r.reason))
  }

  function TrackedIn(settings: BreakoutSettings, setups: Setups, c: PricedCandle): (r: (Setups, Option<RetestEvent>)) {
    if c.key !in setups then (setups, None)
    else
      var r := Tracked(settings, setups[c.key], c);
      (setups[c.key := r], EventOf(setups[c.key], r, c))
  }

  class BreakoutEngine {
    const settings: BreakoutSettings
    var setups: Setups

    constructor (settings: BreakoutSettings)
      requires settings.Valid()
      ensures this.settings == settings && setups == map[]
    {
      this.settings := settings;
      setups := map[];
    }

    method Start(e: CsdEvent) returns (s: BreakoutSetup)
      requires settings.Valid()
      modifies this
      ensures s == Started(settings, e) && setups == old(setups)[e.candle.key := s]
    {
      s := Started(settings, e);
      setups := setups[e.candle.key := s];
    }

    method Resolve(key: SeriesKey, status: BreakoutStatus, reason: Option<Invalidation>) returns (r: Option<BreakoutSetup>)
      modifies this
      ensures if key in old(setups) then
                && r == Some(old(setups)[key].(status := status, reason := reason))
                && setups == old(setups)[key := r.value]
              else r.None? && setups == old(setups)
    {
      if key !in setups {
        return None;
      }
      var resolved := setups[key].(status := status, reason := reason);
      setups := setups[key := resolved];
      return Some(resolved);
    }

    /** One more bar for a pending setup; past the window it expires. */
    method Advance(key: SeriesKey) returns (r: Option<BreakoutSetup>)
      modifies this
      ensures if key !in old(setups) then r.None? && setups == old(setups)
              else if !old(setups)[key].status.PendingRetest? then
                r == Some(old(setups)[key]) && setups == old(setups)
              else
                var t := old(setups)[key].(bars := old(setups)[key].bars + 1);
                && r == Some(if t.bars > settings.maximumBars then t.(status := Expired, reason := Some(WindowExpired)) else t)
                && setups == old(setups)[key := r.value]
    {
      if key !in setups {
        return None;
      }
      var current := setups[key];
      if !current.status.PendingRetest? {
        return Some(current);
      }
      var advanced := current.(bars := current.bars + 1);
      if advanced.bars > settings.maximumBars {
        advanced := advanced.(status := Expired, reason := Some(WindowExpired));
      }
      setups := setups[key := advanced];
      return Some(advanced);
    }
  }

  class RetestEngine {
    const breakouts: BreakoutEngine

    constructor (breakouts: BreakoutEngine)
      ensures this.breakouts == breakouts
    {
      this.breakouts := breakouts;
    }

    method Evaluate(c: PricedCandle) returns (r: Option<RetestEvent>)
      modifies breakouts
      ensures (breakouts.setups, r) == TrackedIn(breakouts.settings, old(breakouts.setups), c)
    {
      if !c.isClosed {
        assert c.key in breakouts.setups ==> breakouts.setups == breakouts.setups[c.key := breakouts.setups[c.key]];
        return None;
      }
      if c.key !in breakouts.setups || !breakouts.setups[c.key].status.PendingRetest? {
        assert c.key in breakouts.setups ==> breakouts.setups == breakouts.setups[c.key := breakouts.setups[c.key]];
        return None;
      }
      ghost var start := breakouts.setups[c.key];
      var advanced := breakouts.Advance(c.key);
      var setup := advanced.value;
      if setup.status.Expired? {
        return Some(RetestEvent(c, Expired, setup, 0.0, Some(WindowExpired)));
      }
      if InvalidClose(setup, c) {
        var reason := Some(if setup.bars <= 1 then ImmediateReversal else FailedCloseThrough);
        var resolved := breakouts.Resolve(c.key, Invalidated, reason);
        assert breakouts.setups == old(breakouts.setups)[c.key := resolved.value];
        return Some(RetestEvent(c, Invalidated, resolved.value, 0.0, reason));
      }
      if TouchesZone(setup, c) && ValidClose(setup, c) {
        var resolved := breakouts.Resolve(c.key, RetestDetected, None);
        assert breakouts.setups == old(breakouts.setups)[c.key := resolved.value];
        return Some(RetestEvent(c, RetestDetected, resolved.value, RejectionQuality(setup, c), None));
      }
      return None;
    }
  }

  // ------------------------------------------ what a run of candles decides

  /** The setup after the closed candles `cs` of its series, no new break replacing it. */
  function After(settings: BreakoutSettings, s: BreakoutSetup, cs: seq<PricedCandle>): BreakoutSetup
    decreases |cs|
  {
    if cs == [] then s else Tracked(settings, After(settings, s, cs[..|cs| - 1]), cs[|cs| - 1])
  }

  predicate Qualifies(s: BreakoutSetup, c: PricedCandle) {
    TouchesZone(s, c) && ValidClose(s, c)
  }

  /** Neither a close on the wrong side nor a qualifying retest among the first `n` candles. */
  predicate Quiet(s: BreakoutSetup, cs: seq<PricedCandle>, n: nat)
    requires n <= |cs|
  {
    forall i :: 0 <= i < n ==> !InvalidClose(s, cs[i]) && !Qualifies(s, cs[i])
  }

  /** The first candle that decides the setup, counted from 1, if there is one in the window. */
  ghost predicate DecidedAt(settings: BreakoutSettings, s: BreakoutSetup, cs: seq<PricedCandle>, j: nat) {
    && 1 <= j <= |cs| && j <= settings.maximumBars
    && Quiet(s, cs, j - 1) && (InvalidClose(s, cs[j - 1]) || Qualifies(s, cs[j - 1]))
  }

  lemma {:induction false} StillPending(settings: BreakoutSettings, s: BreakoutSetup, cs: seq<PricedCandle>)
    requires s.status.PendingRetest? && s.bars == 0 && forall c <- cs :: c.isClosed
    ensures After(settings, s, cs).status.PendingRetest? <==> |cs| <= settings.maximumBars && Quiet(s, cs, |cs|)
    ensures After(settings, s, cs).status.PendingRetest? ==> After(settings, s, cs) == s.(bars := |cs|)
    decreases |cs|
  {
    if cs != [] {
      StillPending(settings, s, cs[..|cs| - 1]);
      assert cs[|cs| - 1] in cs;
    }
  }

  /** A decided setup never changes again. */
  lemma {:induction false} DecisionIsFinal(settings: BreakoutSettings, s: BreakoutSetup, cs: seq<PricedCandle>, j: nat)
    requires j <= |cs| && !After(settings, s, cs[..j]).status.PendingRetest?
    ensures After(settings, s, cs) == After(settings, s, cs[..j])
    decreases |cs|
  {
    if j < |cs| {
      assert cs[..|cs| - 1][..j] == cs[..j];
      DecisionIsFinal(settings, s, cs[..|cs| - 1], j);
    } else {
      assert cs[..j] == cs;
    }
  }

  /** Exactly when candle `j` resolves the setup, and how. */
  lemma ResolvedAt(settings: BreakoutSettings, s: BreakoutSetup, cs: seq<PricedCandle>, j: nat)
    requires s.status.PendingRetest? && s.bars == 0 && 1 <= j <= |cs| && forall c <- cs :: c.isClosed
    ensures var before, after := After(settings, s, cs[..j - 1]), After(settings, s, cs[..j]);
            var resolves := before.status.PendingRetest? && !after.status.PendingRetest?;
            && (resolves && after.status.RetestDetected?
                <==> DecidedAt(settings, s, cs, j) && Qualifies(s, cs[j - 1]))
            && (resolves && after.status.Invalidated?
                <==> DecidedAt(settings, s, cs, j) && InvalidClose(s, cs[j - 1]))
            && (resolves && after.status.Expired? <==> j == settings.maximumBars + 1 && Quiet(s, cs, j - 1))
            && (resolves && after.status.Invalidated?
                ==> after.reason == Some(if j == 1 then ImmediateReversal else FailedCloseThrough))
  {
    assert cs[..j][..j - 1] == cs[..j - 1];
    assert forall c <- cs[..j - 1] :: c in cs;
    StillPending(settings, s, cs[..j - 1]);
    assert Quiet(s, cs[..j - 1], j - 1) <==> Quiet(s, cs, j - 1);
    assert cs[j - 1] in cs;
  }

  /** The state after any run: which candle, if any, has decided the setup. */
  lemma RetestMachineMeaning(settings: BreakoutSettings, s: BreakoutSetup, cs: seq<PricedCandle>)
    requires s.status.PendingRetest? && s.bars == 0 && forall c <- cs :: c.isClosed
    ensures var t := After(settings, s, cs);
            && (t.status.RetestDetected? <==> exists j :: DecidedAt(settings, s, cs, j) && Qualifies(s, cs[j - 1]))
            && (t.status.Invalidated? <==> exists j :: DecidedAt(settings, s, cs, j) && InvalidClose(s, cs[j - 1]))
            && (t.status.Expired? <==> |cs| > settings.maximumBars && Quiet(s, cs, settings.maximumBars))
            && (t.status.PendingRetest? <==> |cs| <= settings.maximumBars && Quiet(s, cs, |cs|))
  {
    hide After, InvalidClose, Qualifies;
    StillPending(settings, s, cs);
    if j :| DecidedAt(settings, s, cs, j) {
      ResolvedAt(settings, s, cs, j);
      DecisionIsFinal(settings, s, cs, j);
      NoSecondDecision(settings, s, cs, j);
    } else {
      assert forall n :: 0 <= n <= |cs| && n <= settings.maximumBars ==> Quiet(s, cs, n) by {
        NeverDecided(settings, s, cs);
      }
      if |cs| > settings.maximumBars {
        ResolvedAt(settings, s, cs, settings.maximumBars + 1);
        DecisionIsFinal(settings, s, cs, settings.maximumBars + 1);
      }
    }
  }

  lemma NoSecondDecision(settings: BreakoutSettings, s: BreakoutSetup, cs: seq<PricedCandle>, j: nat)
    requires DecidedAt(settings, s, cs, j)
    ensures forall k :: DecidedAt(settings, s, cs, k) ==> k == j
    ensures forall n :: j <= n <= |cs| ==> !Quiet(s, cs, n)
  {
  }

  lemma NeverDecided(settings: BreakoutSettings, s: BreakoutSetup, cs: seq<PricedCandle>)
    requires forall j :: !DecidedAt(settings, s, cs, j)
    ensures forall n :: 0 <= n <= |cs| && n <= settings.maximumBars ==> Quiet(s, cs, n)
  {
    var n := 0;
    while n < |cs| && n < settings.maximumBars
      invariant n <= |cs| && n <= settings.maximumBars && Quiet(s, cs, n)
    {
      assert !DecidedAt(settings, s, cs, n + 1);
      n := n + 1;
    }
  }
}
