/**
 What a finished trade can earn, on every candle sequence.

 The proofs run in R coordinates (entry 0, stop -1, long), where prices are R
 values, and reach every well-posed trade through `ExitSymmetry`.
 */
module ExitBounds {
  import opened Market
  import opened Exits
  import opened ExitSymmetry

  // ------------------------------------------------------ runs and R coordinates

  /** A trade run over `cs` and closed at the last candle if it is still open. */
  function Settled(policy: ExitPolicy, plan: TradePlan, cs: seq<Candle>): Trade
    requires policy.legs != [] && cs != []
  {
    CloseAtEnd(Replayed(policy, OpenTrade(policy, plan), cs), cs[|cs| - 1])
  }

  predicate InRCoordinates(plan: TradePlan) {
    plan.direction.Bullish? && plan.referenceEntry == 0.0 && plan.stopLoss == -1.0
  }

  lemma ScaleOfPlan(plan: TradePlan) returns (a: real, b: real)
    requires plan.WellPosed()
    ensures a != 0.0 && InRCoordinates(MapPlan(a, b, plan))
  {
    var d := plan.referenceEntry - plan.stopLoss;
    a := 1.0 / d;
    assert a * d == 1.0;
    ProductSign(a, d);
    b := -(a * plan.referenceEntry);
    assert a * plan.stopLoss == a * plan.referenceEntry - a * d;
  }

  /** Every well-posed run is a run in R coordinates with the same R results. */
  lemma Normalise(policy: ExitPolicy, plan: TradePlan, cs: seq<Candle>)
      returns (rPlan: TradePlan, rs: seq<Candle>)
    requires policy.legs != [] && plan.WellPosed() && cs != []
    ensures InRCoordinates(rPlan) && rs != []
    ensures var t, r := Settled(policy, plan, cs), Settled(policy, rPlan, rs);
            && r.state == t.state && r.mfeR == t.mfeR && r.maeR == t.maeR
            && GrossR(r) == GrossR(t)
  {
    var a, b := ScaleOfPlan(plan);
    rPlan, rs := MapPlan(a, b, plan), MapCandles(a, b, cs);
    var t := Replayed(policy, OpenTrade(policy, plan), cs);
    assert MapTrade(a, b, OpenTrade(policy, plan)) == OpenTrade(policy, rPlan);
    ReplayMoves(a, b, policy, OpenTrade(policy, plan), cs);
    EndMoves(a, b, t, cs[|cs| - 1]);
    GrossMoves(a, b, CloseAtEnd(t, cs[|cs| - 1]));
  }

  // -------------------------------------------------- the policy at a price level

  /** The legs as they stand once the best price seen is `h` risks. */
  function LegsAt(policy: ExitPolicy, h: real): (legs: seq<LegFill>)
    ensures |legs| == |policy.legs|
  {
    seq(|policy.legs|, i requires 0 <= i < |policy.legs| =>
      LegFill(policy.legs[i].targetR, policy.legs[i].sizePercent, policy.legs[i].targetR <= h, None))
  }

  /** By level `h` some filled leg has moved the stop. */
  predicate MovedAt(policy: ExitPolicy, h: real) {
    exists i :: 0 <= i < |policy.legs| && policy.legs[i].targetR <= h && MovesStop(policy, FreshLegs(policy), i)
  }

  /** At level `h` a part of the position is still open behind the moved stop. */
  predicate Exposed(policy: ExitPolicy, h: real) {
    MovedAt(policy, h) && !AllFilled(LegsAt(policy, h))
  }

  /** R earned when level `h` is followed by the moved stop. */
  function StopOutR(policy: ExitPolicy, h: real): real {
    TotalR(FilledR(LegsAt(policy, h)), policy.breakevenOffsetR, 100.0 - FilledSize(LegsAt(policy, h)))
  }

  /** R earned when every leg fills. */
  function AllTargetsR(legs: seq<ExitLeg>): real {
    if legs == [] then 0.0 else legs[0].targetR * legs[0].sizePercent / 100.0 + AllTargetsR(legs[1..])
  }

  // ------------------------------------------------------------ weighted sums

  /** `legs` carry the targets and sizes of the policy. */
  ghost predicate Configured(legs: seq<LegFill>, config: seq<ExitLeg>) {
    && |legs| == |config|
    && forall i :: 0 <= i < |legs| ==>
         legs[i].targetR == config[i].targetR && legs[i].sizePercent == config[i].sizePercent && legs[i].sizePercent > 0.0
  }

  lemma {:induction false} SizesAddUp(legs: seq<LegFill>, config: seq<ExitLeg>)
    requires Configured(legs, config)
    ensures 0.0 <= FilledSize(legs) <= TotalSize(config)
    ensures AllFilled(legs) ==> FilledSize(legs) == TotalSize(config) && FilledR(legs) == AllTargetsR(config)
    ensures !AllFilled(legs) ==> FilledSize(legs) < TotalSize(config)
  {
    if legs != [] {
      SizesAddUp(legs[1..], config[1..]);
      if AllFilled(legs) {
        assert AllFilled(legs[1..]);
      } else if legs[0].filled {
        assert exists i :: 0 <= i < |legs[1..]| && !legs[1..][i].filled by {
          var i :| 0 <= i < |legs| && !legs[i].filled;
          assert !legs[1..][i - 1].filled;
        }
      }
    }
  }

  lemma {:induction false} FilledAtLeast(legs: seq<LegFill>, lo: real)
    requires forall i :: 0 <= i < |legs| ==> legs[i].sizePercent > 0.0 && (legs[i].filled ==> lo <= legs[i].targetR)
    ensures lo * FilledSize(legs) / 100.0 <= FilledR(legs)
  {
    if legs != [] {
      FilledAtLeast(legs[1..], lo);
      if legs[0].filled {
        Weighted(lo, legs[0].targetR, legs[0].sizePercent, 0.0);
        Weighted(lo, lo, legs[0].sizePercent, FilledSize(legs[1..]));
      }
    }
  }

  lemma {:induction false} FilledAtMost(legs: seq<LegFill>, hi: real)
    requires forall i :: 0 <= i < |legs| ==> legs[i].sizePercent > 0.0 && (legs[i].filled ==> legs[i].targetR <= hi)
    ensures FilledR(legs) <= hi * FilledSize(legs) / 100.0
  {
    if legs != [] {
      FilledAtMost(legs[1..], hi);
      if legs[0].filled {
        Weighted(legs[0].targetR, hi, legs[0].sizePercent, 0.0);
        Weighted(hi, hi, legs[0].sizePercent, FilledSize(legs[1..]));
      }
    }
  }

  /** Closing the open legs at `x` earns no more than their targets would. */
  lemma {:induction false} OpenLegsAtMost(legs: seq<LegFill>, config: seq<ExitLeg>, x: real)
    requires Configured(legs, config)
    requires forall i :: 0 <= i < |legs| && !legs[i].filled ==> x <= legs[i].targetR
    ensures TotalR(FilledR(legs), x, TotalSize(config) - FilledSize(legs)) <= AllTargetsR(config)
  {
    if legs != [] {
      OpenLegsAtMost(legs[1..], config[1..], x);
      var rest := TotalSize(config[1..]) - FilledSize(legs[1..]);
      if legs[0].filled {
        assert TotalSize(config) - FilledSize(legs) == rest;
      } else {
        assert TotalSize(config) - FilledSize(legs) == legs[0].sizePercent + rest;
        OneMoreOpenLeg(FilledR(legs[1..]), x, rest, legs[0].targetR, legs[0].sizePercent);
      }
    }
  }

  lemma OneMoreOpenLeg(filledR: real, x: real, rest: real, target: real, size: real)
    requires x <= target && size > 0.0
    ensures TotalR(filledR, x, size + rest) <= target * size / 100.0 + TotalR(filledR, x, rest)
  {
    Weighted(x, target, size, rest);
  }

  lemma Weighted(x: real, y: real, size: real, rest: real)
    requires x <= y && size > 0.0
    ensures x * (size + rest) == x * size + x * rest
    ensures x * size / 100.0 <= y * size / 100.0
  {
    assert (y - x) * size >= 0.0;
  }

  /** Close prices order the results: the open part has a non-negative weight. */
  lemma TotalMonotone(filledR: real, x: real, y: real, remaining: real)
    requires x <= y && 0.0 <= remaining
    ensures TotalR(filledR, x, remaining) <= TotalR(filledR, y, remaining)
  {
    assert (y - x) * remaining >= 0.0;
  }

  lemma ConvexAtLeast(lo: real, x: real, filledR: real, size: real)
    requires lo <= x && 0.0 <= size <= 100.0 && lo * size / 100.0 <= filledR
    ensures lo <= TotalR(filledR, x, 100.0 - size)
  {
    assert (x - lo) * (100.0 - size) >= 0.0;
  }

  lemma ConvexAtMost(hi: real, x: real, filledR: real, size: real)
    requires x <= hi && 0.0 <= size <= 100.0 && filledR <= hi * size / 100.0
    ensures TotalR(filledR, x, 100.0 - size) <= hi
  {
    assert (hi - x) * (100.0 - size) >= 0.0;
  }

  /** A mix of results that are all at least `lo` is at least `lo`. */
  lemma MixAtLeast(legs: seq<LegFill>, config: seq<ExitLeg>, lo: real, x: real)
    requires Configured(legs, config) && TotalSize(config) == 100.0 && lo <= x
    requires forall i :: 0 <= i < |legs| && legs[i].filled ==> lo <= legs[i].targetR
    ensures lo <= TotalR(FilledR(legs), x, 100.0 - FilledSize(legs))
  {
    SizesAddUp(legs, config);
    FilledAtLeast(legs, lo);
    ConvexAtLeast(lo, x, FilledR(legs), FilledSize(legs));
  }

  lemma MixAtMost(legs: seq<LegFill>, config: seq<ExitLeg>, hi: real, x: real)
    requires Configured(legs, config) && TotalSize(config) == 100.0 && x <= hi
    requires forall i :: 0 <= i < |legs| && legs[i].filled ==> legs[i].targetR <= hi
    ensures TotalR(FilledR(legs), x, 100.0 - FilledSize(legs)) <= hi
  {
    SizesAddUp(legs, config);
    FilledAtMost(legs, hi);
    ConvexAtMost(hi, x, FilledR(legs), FilledSize(legs));
  }

  lemma {:induction false} SameFills(a: seq<LegFill>, b: seq<LegFill>)
    requires |a| == |b|
    requires forall i :: 0 <= i < |a| ==>
      a[i].targetR == b[i].targetR && a[i].sizePercent == b[i].sizePercent && a[i].filled == b[i].filled
    ensures FilledR(a) == FilledR(b) && FilledSize(a) == FilledSize(b)
  {
    if a != [] {
      SameFills(a[1..], b[1..]);
    }
  }
}
