/**
 The exit simulator does not know where zero is, how long a tick is, or which
 way is up: an affine change of prices p -> a * p + b with a != 0 (which turns
 the market over when a < 0) commutes with every step.  So each well-posed trade
 is one machine in R coordinates: entry at 0, stop at -1, long.
 */
module ExitSymmetry {
  import opened Market
  import opened Exits

  function MapPrice(a: real, b: real, p: real): real { a * p + b }

  function MapDirection(a: real, d: Direction): Direction {
    if a > 0.0 then d else if d.Bullish? then Bearish else Bullish
  }

  function MapCandle(a: real, b: real, c: Candle): (r: Candle)
    requires a != 0.0
    ensures r.low == MapPrice(a, b, if a > 0.0 then c.low else c.high)
    ensures r.high == MapPrice(a, b, if a > 0.0 then c.high else c.low)
    ensures r.closeTime == c.closeTime && r.close == MapPrice(a, b, c.close)
  {
    var high, low := if a > 0.0 then c.high else c.low, if a > 0.0 then c.low else c.high;
    assert MapPrice(a, b, low) <= MapPrice(a, b, c.open) <= MapPrice(a, b, high) by {
      Ordered(a, b, c.low, c.open);
      Ordered(a, b, c.open, c.high);
    }
    assert MapPrice(a, b, low) <= MapPrice(a, b, c.close) <= MapPrice(a, b, high) by {
      Ordered(a, b, c.low, c.close);
      Ordered(a, b, c.close, c.high);
    }
    c.(open := MapPrice(a, b, c.open), high := MapPrice(a, b, high),
       low := MapPrice(a, b, low), close := MapPrice(a, b, c.close))
  }

  function MapPlan(a: real, b: real, plan: TradePlan): TradePlan {
    TradePlan(MapDirection(a, plan.direction),
              MapPrice(a, b, if a > 0.0 then plan.entryLow else plan.entryHigh),
              MapPrice(a, b, if a > 0.0 then plan.entryHigh else plan.entryLow),
              MapPrice(a, b, plan.referenceEntry), MapPrice(a, b, plan.stopLoss))
  }

  function MapQuote(a: real, b: real, p: Option<real>): Option<real> {
    if p.Some? then Some(MapPrice(a, b, p.value)) else None
  }

  /** Prices move with the map; state, bars, fills, excursions and reasons do not. */
  function MapTrade(a: real, b: real, t: Trade): Trade {
    t.(plan := MapPlan(a, b, t.plan), currentStop := MapPrice(a, b, t.currentStop),
       entryFill := MapQuote(a, b, t.entryFill), exitPrice := MapQuote(a, b, t.exitPrice))
  }

  function MapCandles(a: real, b: real, cs: seq<Candle>): (r: seq<Candle>)
    requires a != 0.0
    ensures |r| == |cs|
  {
    seq(|cs|, i requires 0 <= i < |cs| => MapCandle(a, b, cs[i]))
  }

  // ---------------------------------------------------------------- arithmetic

  lemma Ordered(a: real, b: real, x: real, y: real)
    requires a != 0.0
    ensures a > 0.0 ==> (x <= y <==> MapPrice(a, b, x) <= MapPrice(a, b, y))
    ensures a < 0.0 ==> (x <= y <==> MapPrice(a, b, y) <= MapPrice(a, b, x))
  {
    assert MapPrice(a, b, y) - MapPrice(a, b, x) == a * (y - x);
    ProductSign(a, y - x);
  }

  lemma ProductSign(a: real, d: real)
    requires a != 0.0
    ensures a > 0.0 ==> (d >= 0.0 <==> a * d >= 0.0)
    ensures a < 0.0 ==> (d >= 0.0 <==> a * d <= 0.0)
  {
    if d > 0.0 {
      if a > 0.0 { assert a * d > 0.0; } else { assert (-a) * d > 0.0; }
    } else if d < 0.0 {
      if a > 0.0 { assert a * (-d) > 0.0; } else { assert (-a) * (-d) > 0.0; }
    }
  }

  lemma SameQuotient(k: real, x: real, r: real, x': real, r': real)
    requires k != 0.0 && r != 0.0 && r' != 0.0
    requires x' == k * x && r' == k * r
    ensures x' / r' == x / r
  {
    var q := x / r;
    assert q * r == x;
    assert q * r' == k * (q * r);
  }

  // ----------------------------------------------------- each piece of a step

  lemma RiskScales(a: real, b: real, plan: TradePlan, entry: real)
    requires a != 0.0
    ensures Risk(MapPlan(a, b, plan), MapPrice(a, b, entry)) == Abs(a) * Risk(plan, entry)
    ensures Risk(plan, entry) >= 0.0 && Risk(MapPlan(a, b, plan), MapPrice(a, b, entry)) >= 0.0
    ensures Risk(plan, entry) > 0.0 <==> Risk(MapPlan(a, b, plan), MapPrice(a, b, entry)) > 0.0
  {
    var d := entry - plan.stopLoss;
    assert MapPrice(a, b, entry) - MapPrice(a, b, plan.stopLoss) == a * d;
    ProductSign(a, d);
    ProductSign(Abs(a), Abs(d));
    ProductSign(Abs(a), -Abs(d));
  }

  lemma TargetMoves(a: real, b: real, plan: TradePlan, entry: real, r: real)
    requires a != 0.0
    ensures PriceAtR(MapPlan(a, b, plan), MapPrice(a, b, entry), r) == MapPrice(a, b, PriceAtR(plan, entry, r))
  {
    hide Risk;
    RiskScales(a, b, plan, entry);
    MoveAway(a, b, entry, Risk(plan, entry), r);
  }

  lemma MoveAway(a: real, b: real, entry: real, risk: real, r: real)
    ensures MapPrice(a, b, entry + risk * r) == MapPrice(a, b, entry) + (a * risk) * r
    ensures MapPrice(a, b, entry - risk * r) == MapPrice(a, b, entry) - (a * risk) * r
    ensures MapPrice(a, b, entry + risk * r) == MapPrice(a, b, entry) - ((-a) * risk) * r
    ensures MapPrice(a, b, entry - risk * r) == MapPrice(a, b, entry) + ((-a) * risk) * r
  {
    var k := risk * r;
    assert (a * risk) * r == a * k;
    assert a * (entry + k) == a * entry + a * k;
    assert a * (entry - k) == a * entry - a * k;
    assert ((-a) * risk) * r == -(a * k);
  }

  /** A distance from the entry, in units of risk, survives the map. */
  lemma DistanceInR(a: real, b: real, plan: TradePlan, entry: real, p: real)
    requires a != 0.0 && Risk(plan, entry) > 0.0
    ensures Risk(MapPlan(a, b, plan), MapPrice(a, b, entry)) > 0.0
    ensures InR(MapPlan(a, b, plan), MapPrice(a, b, entry), MapPrice(a, b, p)) == InR(plan, entry, p)
  {
    RiskScales(a, b, plan, entry);
    var plan', entry', p' := MapPlan(a, b, plan), MapPrice(a, b, entry), MapPrice(a, b, p);
    ScaledDifference(a, b, p, entry);
    ScaledDifference(a, b, entry, p);
    hide MapPrice, Risk;
    var up := if plan.direction.Bullish? then p - entry else entry - p;
    var up' := if plan'.direction.Bullish? then p' - entry' else entry' - p';
    assert up' == Abs(a) * up;
    SameQuotient(Abs(a), up, Risk(plan, entry), up', Risk(plan', entry'));
  }

  lemma ScaledDifference(a: real, b: real, x: real, y: real)
    ensures a > 0.0 ==> MapPrice(a, b, x) - MapPrice(a, b, y) == Abs(a) * (x - y)
    ensures a < 0.0 ==> MapPrice(a, b, x) - MapPrice(a, b, y) == Abs(a) * (y - x)
  {
  }

  lemma TouchesMoves(a: real, b: real, t: Trade, c: Candle)
    requires a != 0.0
    ensures TouchesEntry(MapTrade(a, b, t), MapCandle(a, b, c)) <==> TouchesEntry(t, c)
  {
    Ordered(a, b, c.low, t.plan.entryHigh);
    Ordered(a, b, t.plan.entryLow, c.high);
  }

  lemma StopMoves(a: real, b: real, t: Trade, c: Candle)
    requires a != 0.0
    ensures StopHit(MapTrade(a, b, t), MapCandle(a, b, c)) <==> StopHit(t, c)
  {
    Ordered(a, b, c.low, t.currentStop);
    Ordered(a, b, t.currentStop, c.high);
  }

  lemma HitsMove(a: real, b: real, t: Trade, c: Candle)
    requires a != 0.0 && t.entryFill.Some?
    ensures TargetsHit(MapTrade(a, b, t), MapCandle(a, b, c)) == TargetsHit(t, c)
  {
    forall i | 0 <= i < |t.legs|
      ensures LegHit(MapTrade(a, b, t), i, MapCandle(a, b, c)) <==> LegHit(t, i, c)
    {
      var target := PriceAtR(t.plan, t.entryFill.value, t.legs[i].targetR);
      TargetMoves(a, b, t.plan, t.entryFill.value, t.legs[i].targetR);
      Ordered(a, b, target, c.high);
      Ordered(a, b, c.low, target);
    }
  }

  lemma ExcursionInR(t: Trade, c: Candle)
    requires t.entryFill.Some? && Risk(t.plan, t.entryFill.value) > 0.0
    ensures var best, worst := if t.plan.direction.Bullish? then c.high else c.low,
                               if t.plan.direction.Bullish? then c.low else c.high;
            Excurse(t, c) == t.(barsSinceEntry := t.barsSinceEntry + 1,
                                mfeR := Max(t.mfeR, InR(t.plan, t.entryFill.value, best)),
                                maeR := Min(t.maeR, InR(t.plan, t.entryFill.value, worst)))
  {
  }

  lemma ExcursionMoves(a: real, b: real, t: Trade, c: Candle)
    requires a != 0.0 && t.entryFill.Some?
    ensures Excurse(MapTrade(a, b, t), MapCandle(a, b, c)) == MapTrade(a, b, Excurse(t, c))
  {
    var entry := t.entryFill.value;
    RiskScales(a, b, t.plan, entry);
    if Risk(t.plan, entry) > 0.0 {
      DistanceInR(a, b, t.plan, entry, c.high);
      DistanceInR(a, b, t.plan, entry, c.low);
      ExcursionInR(t, c);
      ExcursionInR(MapTrade(a, b, t), MapCandle(a, b, c));
    }
  }

  lemma FillsMove(a: real, b: real, policy: ExitPolicy, t: Trade, hit: seq<bool>)
    requires a != 0.0 && t.entryFill.Some? && |hit| == |t.legs|
    ensures FillTargets(policy, MapTrade(a, b, t), hit) == MapTrade(a, b, FillTargets(policy, t, hit))
  {
    TargetMoves(a, b, t.plan, t.entryFill.value, policy.breakevenOffsetR);
  }

  lemma ResolutionMoves(a: real, b: real, policy: ExitPolicy, t: Trade, c: Candle)
    requires a != 0.0 && t.entryFill.Some? && t.legs != []
    ensures Resolve(policy, MapTrade(a, b, t), MapCandle(a, b, c)) == MapTrade(a, b, Resolve(policy, t, c))
  {
    TargetMoves(a, b, t.plan, t.entryFill.value, t.legs[|t.legs| - 1].targetR);
  }

  lemma ManageMoves(a: real, b: real, policy: ExitPolicy, t: Trade, c: Candle)
    requires a != 0.0 && t.entryFill.Some? && t.legs != []
    ensures Manage(policy, MapTrade(a, b, t), MapCandle(a, b, c)) == MapTrade(a, b, Manage(policy, t, c))
  {
    hide Excurse, StopHit, TargetsHit, FillTargets, Resolve;
    ExcursionMoves(a, b, t, c);
    var t1 := Excurse(t, c);
    StopMoves(a, b, t1, c);
    HitsMove(a, b, t1, c);
    if !StopHit(t1, c) {
      FillsMove(a, b, policy, t1, TargetsHit(t1, c));
      ResolutionMoves(a, b, policy, FillTargets(policy, t1, TargetsHit(t1, c)), c);
    }
  }

  // ------------------------------------------------------------- main results

  /** One candle: step and map commute, for every policy and every trade state. */
  lemma StepMoves(a: real, b: real, policy: ExitPolicy, t: Trade, c: Candle)
    requires a != 0.0 && t.EntryKnown() && t.legs != []
    ensures Step(policy, MapTrade(a, b, t), MapCandle(a, b, c)) == MapTrade(a, b, Step(policy, t, c))
  {
    hide Manage;
    var t1 := t.(barsSinceSignal := t.barsSinceSignal + 1);
    TouchesMoves(a, b, t1, c);
    if !t.Terminal() {
      if t.state.Open? {
        ManageMoves(a, b, policy, t1, c);
      } else if TouchesEntry(t1, c) {
        ManageMoves(a, b, policy, Enter(t1, c), c);
      }
    }
  }

  /** Whole runs: replaying the mapped market gives the mapped trade. */
  lemma {:induction false} ReplayMoves(a: real, b: real, policy: ExitPolicy, t: Trade, cs: seq<Candle>)
    requires a != 0.0 && t.EntryKnown() && t.legs != []
    ensures Replayed(policy, MapTrade(a, b, t), MapCandles(a, b, cs)) == MapTrade(a, b, Replayed(policy, t, cs))
    decreases |cs|
  {
    hide Step;
    if cs != [] {
      var init := cs[..|cs| - 1];
      assert MapCandles(a, b, cs)[..|cs| - 1] == MapCandles(a, b, init);
      ReplayMoves(a, b, policy, t, init);
      StepMoves(a, b, policy, Replayed(policy, t, init), cs[|cs| - 1]);
    }
  }

  lemma EndMoves(a: real, b: real, t: Trade, last: Candle)
    requires a != 0.0
    ensures CloseAtEnd(MapTrade(a, b, t), MapCandle(a, b, last)) == MapTrade(a, b, CloseAtEnd(t, last))
  {
  }

  /** `gross_r` of any trade, and whether it raises, does not depend on the price scale or side. */
  lemma GrossMoves(a: real, b: real, t: Trade)
    requires a != 0.0
    ensures GrossR(MapTrade(a, b, t)) == GrossR(t)
  {
    if t.entryFill.Some? {
      RiskScales(a, b, t.plan, t.entryFill.value);
      if Risk(t.plan, t.entryFill.value) > 0.0 && t.exitPrice.Some? {
        DistanceInR(a, b, t.plan, t.entryFill.value, t.exitPrice.value);
      }
    }
  }
}
