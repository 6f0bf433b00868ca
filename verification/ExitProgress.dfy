/**
 What every reachable trade keeps, and when every trade is resolved.
 */
module ExitProgress {
  import opened Market
  import opened Exits
  import opened ExitSymmetry
  import opened ExitBounds
  import opened ExitLimits

  /** The prices of a well-posed run, in R coordinates, and the trade they lead to. */
  lemma NormaliseRun(policy: ExitPolicy, plan: TradePlan, cs: seq<Candle>)
      returns (a: real, b: real, rPlan: TradePlan, rs: seq<Candle>)
    requires policy.legs != [] && plan.WellPosed()
    ensures a != 0.0 && rPlan == MapPlan(a, b, plan) && InRCoordinates(rPlan) && |rs| == |cs|
    ensures Replayed(policy, OpenTrade(policy, rPlan), rs)
         == MapTrade(a, b, Replayed(policy, OpenTrade(policy, plan), cs))
  {
    a, b := ScaleOfPlan(plan);
    rPlan, rs := MapPlan(a, b, plan), MapCandles(a, b, cs);
    assert MapTrade(a, b, OpenTrade(policy, plan)) == OpenTrade(policy, rPlan);
    ReplayMoves(a, b, policy, OpenTrade(policy, plan), cs);
  }

  /**
   After any run an open trade is determined by its best excursion: exactly the
   legs at or below it are filled, their sizes and the remaining size make 100,
   some leg is still open, and the stop has one of two values.
   */
  lemma OpenTradeIsItsLevel(policy: ExitPolicy, plan: TradePlan, cs: seq<Candle>)
    requires policy.Valid() && plan.WellPosed()
    ensures var t := Replayed(policy, OpenTrade(policy, plan), cs);
            t.state.Open? ==>
              && t.entryFill == Some(plan.referenceEntry)
              && Risk(plan, plan.referenceEntry) > 0.0
              && InR(plan, plan.referenceEntry, t.currentStop) == StopAt(policy, t.mfeR)
              && FilledUpTo(t.legs, t.mfeR)
              && t.remaining + FilledSize(t.legs) == 100.0 && t.remaining > 0.0
  {
    hide Replayed, StopAt, MovedAt;
    var t := Replayed(policy, OpenTrade(policy, plan), cs);
    if t.state.Open? {
      var a, b, rPlan, rs := NormaliseRun(policy, plan, cs);
      var h, x := RunShape(policy, rPlan, rs);
      var r := MapTrade(a, b, t);
      assert Live(policy, r);
      SizesAddUp(r.legs, policy.legs);
      EntryAtReference(policy, plan, cs);
      DistanceInR(a, b, plan, plan.referenceEntry, t.currentStop);
      assert InR(rPlan, 0.0, r.currentStop) == r.currentStop by {
        assert Risk(rPlan, 0.0) == 1.0;
      }
    }
  }

  /** Filled and remaining sizes make 100, whatever state the trade is in. */
  ghost predicate Balanced(policy: ExitPolicy, t: Trade) {
    Configured(t.legs, policy.legs) && t.remaining + FilledSize(t.legs) == 100.0
  }

  lemma ManageBalanced(policy: ExitPolicy, t: Trade, c: Candle)
    requires Balanced(policy, t) && t.entryFill.Some? && t.legs != []
    ensures Balanced(policy, Manage(policy, t, c))
  {
    var t1 := Excurse(t, c);
    assert t1.legs == t.legs && t1.remaining == t.remaining;
    hide Excurse;
    var hit := TargetsHit(t1, c);
    var t2 := FillTargets(policy, t1, hit);
    assert Balanced(policy, t2) by {
      hide FilledSize, HitMovesStop, PriceAtR, TargetsHit;
    }
    hide FillTargets, FillHits, TargetsHit, FilledSize, StopHit, PriceAtR;
    var t3 := Resolve(policy, t2, c);
    assert t3.legs == t2.legs && t3.remaining == t2.remaining;
    hide Resolve;
  }

  lemma StepBalanced(policy: ExitPolicy, t: Trade, c: Candle)
    requires Balanced(policy, t) && t.EntryKnown() && t.legs != []
    ensures Balanced(policy, Step(policy, t, c))
  {
    var t1 := t.(barsSinceSignal := t.barsSinceSignal + 1);
    hide Manage, FilledSize;
    if t.state.Open? {
      ManageBalanced(policy, t1, c);
    } else if !t.Terminal() && TouchesEntry(t1, c) {
      ManageBalanced(policy, Enter(t1, c), c);
    }
  }

  /** In every reachable state the sizes make 100, and nothing remains exactly when every leg is filled. */
  lemma {:induction false} SizeIsConserved(policy: ExitPolicy, plan: TradePlan, cs: seq<Candle>)
    requires policy.Valid()
    ensures var t := Replayed(policy, OpenTrade(policy, plan), cs);
            && t.remaining + FilledSize(t.legs) == 100.0
            && 0.0 <= t.remaining <= 100.0
            && (t.remaining == 0.0 <==> AllFilled(t.legs))
  {
    BalancedAfter(policy, plan, cs);
    SizesAddUp(Replayed(policy, OpenTrade(policy, plan), cs).legs, policy.legs);
    hide Replayed, AllFilled, FilledSize;
  }

  lemma {:induction false} BalancedAfter(policy: ExitPolicy, plan: TradePlan, cs: seq<Candle>)
    requires policy.Valid()
    ensures Balanced(policy, Replayed(policy, OpenTrade(policy, plan), cs))
    decreases |cs|
  {
    hide Step;
    if cs == [] {
      NothingFilled(FreshLegs(policy));
    } else {
      BalancedAfter(policy, plan, cs[..|cs| - 1]);
      StepBalanced(policy, Replayed(policy, OpenTrade(policy, plan), cs[..|cs| - 1]), cs[|cs| - 1]);
    }
  }

  /** From an unresolved trade to an open one behind one more candle the stop stays or comes closer. */
  ghost predicate Tightens(policy: ExitPolicy, plan: TradePlan, cs: seq<Candle>, c: Candle)
    requires policy.legs != []
  {
    var t, t' := Replayed(policy, OpenTrade(policy, plan), cs), Step(policy, Replayed(policy, OpenTrade(policy, plan), cs), c);
    !t.Terminal() && t'.state.Open? ==>
      && Risk(plan, plan.referenceEntry) > 0.0
      && InR(plan, plan.referenceEntry, t.currentStop) <= InR(plan, plan.referenceEntry, t'.currentStop)
  }

  ghost predicate NeverLoosens(policy: ExitPolicy)
    requires policy.legs != []
  {
    forall plan: TradePlan, cs: seq<Candle>, c: Candle :: plan.WellPosed() ==> Tightens(policy, plan, cs, c)
  }

  /** The moved stop is no worse than the initial one, or never stands behind an open trade. */
  predicate StopMovesUp(policy: ExitPolicy) {
    -1.0 <= policy.breakevenOffsetR || policy.timeStopBars == Some(1)
    || forall j :: 0 <= j < |policy.legs| ==> !Exposed(policy, policy.legs[j].targetR)
  }

  lemma InitialStopInR(plan: TradePlan)
    requires plan.WellPosed()
    ensures Risk(plan, plan.referenceEntry) > 0.0 && InR(plan, plan.referenceEntry, plan.stopLoss) == -1.0
  {
    var d := plan.referenceEntry - plan.stopLoss;
    assert d > 0.0 ==> (-d) / d == -1.0;
    assert d < 0.0 ==> d / (-d) == -1.0;
  }

  /** Behind an open trade stands the initial stop or one that is no worse. */
  lemma OpenStopMovesUp(policy: ExitPolicy, plan: TradePlan, cs: seq<Candle>)
    requires policy.Valid() && plan.WellPosed() && StopMovesUp(policy)
    requires Replayed(policy, OpenTrade(policy, plan), cs).state.Open?
    ensures var h := Replayed(policy, OpenTrade(policy, plan), cs).mfeR;
            -1.0 <= policy.breakevenOffsetR || !MovedAt(policy, h)
  {
    hide Replayed, MovesStop, Exposed, MovedAt;
    var h := Replayed(policy, OpenTrade(policy, plan), cs).mfeR;
    OpenTradeIsItsLevel(policy, plan, cs);
    if MovedAt(policy, h) && policy.timeStopBars != Some(1) && policy.breakevenOffsetR < -1.0 {
      SomeLegOpen(policy, plan, cs);
      var j := TopLeg(policy, h);
      ExposedAt(policy, policy.legs[j].targetR, h);
    }
    if policy.timeStopBars == Some(1) {
      BarsAreCounted(policy, plan, cs);
      assert false;
    }
  }

  lemma ExposedAt(policy: ExitPolicy, target: real, h: real)
    requires LegsAt(policy, target) == LegsAt(policy, h) && MovedAt(policy, target) && !AllFilled(LegsAt(policy, h))
    ensures Exposed(policy, target)
  {
  }

  /** An open trade has a leg above its best excursion. */
  lemma SomeLegOpen(policy: ExitPolicy, plan: TradePlan, cs: seq<Candle>)
    requires policy.Valid() && plan.WellPosed() && Replayed(policy, OpenTrade(policy, plan), cs).state.Open?
    ensures !AllFilled(LegsAt(policy, Replayed(policy, OpenTrade(policy, plan), cs).mfeR))
  {
    OpenTradeIsItsLevel(policy, plan, cs);
    BalancedAfter(policy, plan, cs);
    var t := Replayed(policy, OpenTrade(policy, plan), cs);
    SizesAddUp(t.legs, policy.legs);
    hide Replayed, FilledSize, StopAt, InR, Risk;
    var i :| 0 <= i < |t.legs| && !t.legs[i].filled;
    assert !LegsAt(policy, t.mfeR)[i].filled;
  }

  lemma StopTightens(policy: ExitPolicy, plan: TradePlan, cs: seq<Candle>, c: Candle)
    requires policy.Valid() && plan.WellPosed() && StopMovesUp(policy)
    ensures Tightens(policy, plan, cs, c)
  {
    InitialStopInR(plan);
    var t, t' := Replayed(policy, OpenTrade(policy, plan), cs), Replayed(policy, OpenTrade(policy, plan), cs + [c]);
    assert t' == Step(policy, t, c) by {
      assert (cs + [c])[..|cs|] == cs;
    }
    hide Replayed, MovesStop, Step, StopMovesUp, InR;
    if !t.Terminal() && t'.state.Open? {
      OpenTradeIsItsLevel(policy, plan, cs);
      OpenTradeIsItsLevel(policy, plan, cs + [c]);
      OpenStopMovesUp(policy, plan, cs + [c]);
      EntryAtReference(policy, plan, cs);
      if t.state.Open? {
        BestOnlyGrows(policy, t, c);
        assert MovedAt(policy, t.mfeR) ==> MovedAt(policy, t'.mfeR);
      }
    }
  }

  /** The entry candle reaches a leg that pulls the stop away from the price. */
  lemma LoosenedAtEntry(policy: ExitPolicy, j: nat)
    requires policy.Valid() && policy.breakevenOffsetR < -1.0 && policy.timeStopBars != Some(1)
    requires j < |policy.legs| && Exposed(policy, policy.legs[j].targetR)
    ensures !NeverLoosens(policy)
  {
    hide Manage;
    var top := policy.legs[j].targetR;
    var up: Candle := CandleRecord(SeriesKey("", M15), 0, 0, 0.0, top, 0.0, 0.0, 0.0, true);
    var waiting := OpenTrade(policy, QUIET_PLAN);
    var entered := Enter(waiting.(barsSinceSignal := 1), up);
    EntryIsLive(policy, entered);
    FirstFill(policy, entered, up, j);
    assert Replayed(policy, waiting, []) == waiting;
    assert Step(policy, waiting, up) == Manage(policy, entered, up);
    InitialStopInR(QUIET_PLAN);
    assert !Tightens(policy, QUIET_PLAN, [], up);
  }

  /** The stop never loosens, on any run, if and only if no open trade stands behind a stop worse than the initial one. */
  lemma StopNeverLoosens(policy: ExitPolicy)
    requires policy.Valid()
    ensures NeverLoosens(policy) <==> StopMovesUp(policy)
  {
    hide Tightens, Exposed;
    if StopMovesUp(policy) {
      forall plan: TradePlan, cs: seq<Candle>, c: Candle | plan.WellPosed()
        ensures Tightens(policy, plan, cs, c)
      {
        StopTightens(policy, plan, cs, c);
      }
    } else {
      var j :| 0 <= j < |policy.legs| && Exposed(policy, policy.legs[j].targetR);
      LoosenedAtEntry(policy, j);
    }
  }

  lemma BestOnlyGrows(policy: ExitPolicy, t: Trade, c: Candle)
    requires t.state.Open? && t.EntryKnown() && t.legs != []
    ensures t.mfeR <= Step(policy, t, c).mfeR
  {
    hide TargetsHit, StopHit, FillHits, PriceAtR;
  }

  lemma {:induction false} EntryAtReference(policy: ExitPolicy, plan: TradePlan, cs: seq<Candle>)
    requires policy.legs != []
    ensures var t := Replayed(policy, OpenTrade(policy, plan), cs);
            && (t.state.AwaitingEntry? ==> t == OpenTrade(policy, plan).(barsSinceSignal := |cs|))
            && (t.entryFill.Some? ==> t.entryFill == Some(plan.referenceEntry))
    decreases |cs|
  {
    hide Step;
    if cs != [] {
      EntryAtReference(policy, plan, cs[..|cs| - 1]);
      StepEntersAtReference(policy, Replayed(policy, OpenTrade(policy, plan), cs[..|cs| - 1]), cs[|cs| - 1]);
    }
  }

  lemma StepEntersAtReference(policy: ExitPolicy, t: Trade, c: Candle)
    requires t.EntryKnown() && t.legs != []
    ensures var r := Step(policy, t, c);
            && (r.state.AwaitingEntry? ==> t.state.AwaitingEntry? && r == t.(barsSinceSignal := t.barsSinceSignal + 1))
            && (r.entryFill == t.entryFill || r.entryFill == Some(t.plan.referenceEntry))
  {
    hide Manage;
    if !t.Terminal() {
      var t1 := t.(barsSinceSignal := t.barsSinceSignal + 1);
      if t.state.Open? {
        ManagedIsEntered(policy, t1, c);
      } else if TouchesEntry(t1, c) {
        ManagedIsEntered(policy, Enter(t1, c), c);
      }
    }
  }

  lemma ManagedIsEntered(policy: ExitPolicy, t: Trade, c: Candle)
    requires t.entryFill.Some? && t.legs != [] && t.state.Open?
    ensures Manage(policy, t, c).state.Open? || Manage(policy, t, c).state.Closed?
  {
    hide Excurse, TargetsHit, FillHits, PriceAtR, StopHit;
  }

  /** A finished trade stays as it is, whatever candles follow. */
  lemma {:induction false} TerminalIsAbsorbing(policy: ExitPolicy, t: Trade, cs: seq<Candle>)
    requires t.EntryKnown() && t.legs != [] && t.Terminal()
    ensures Replayed(policy, t, cs) == t
    decreases |cs|
  {
    if cs != [] {
      TerminalIsAbsorbing(policy, t, cs[..|cs| - 1]);
    }
  }

  lemma {:induction false} ReplayAppend(policy: ExitPolicy, t: Trade, xs: seq<Candle>, ys: seq<Candle>)
    requires t.EntryKnown() && t.legs != []
    ensures Replayed(policy, t, xs + ys) == Replayed(policy, Replayed(policy, t, xs), ys)
    decreases |ys|
  {
    if ys == [] {
      assert xs + ys == xs;
    } else {
      assert (xs + ys)[..|xs + ys| - 1] == xs + ys[..|ys| - 1];
      ReplayAppend(policy, t, xs, ys[..|ys| - 1]);
    }
  }

  // ----------------------------------------------------------- time to resolve

  /** While a trade is unresolved its waiting bars and its open bars are both limited. */
  lemma {:induction false} BarsAreCounted(policy: ExitPolicy, plan: TradePlan, cs: seq<Candle>)
    requires policy.Valid() && policy.timeStopBars.Some?
    ensures var t := Replayed(policy, OpenTrade(policy, plan), cs);
            var limit := policy.timeStopBars.value;
            !t.Terminal() ==>
              && t.barsSinceSignal == |cs|
              && (t.state.AwaitingEntry? ==> |cs| <= limit && t.barsSinceEntry == 0)
              && (t.state.Open? ==> 1 <= t.barsSinceEntry < limit && |cs| <= limit + t.barsSinceEntry)
    decreases |cs|
  {
    hide Manage;
    if cs != [] {
      BarsAreCounted(policy, plan, cs[..|cs| - 1]);
      var t := Replayed(policy, OpenTrade(policy, plan), cs[..|cs| - 1]);
      var t1 := t.(barsSinceSignal := t.barsSinceSignal + 1);
      if t.state.Open? {
        OpenMeansBarsLeft(policy, t1, cs[|cs| - 1]);
      } else if t.state.AwaitingEntry? {
        OpenMeansBarsLeft(policy, Enter(t1, cs[|cs| - 1]), cs[|cs| - 1]);
      }
    }
  }

  lemma OpenMeansBarsLeft(policy: ExitPolicy, t: Trade, c: Candle)
    requires t.entryFill.Some? && t.legs != [] && t.state.Open? && policy.timeStopBars.Some?
    ensures var r := Manage(policy, t, c);
            r.Terminal() || (r.state.Open? && r.barsSinceEntry < policy.timeStopBars.value)
  {
    hide Excurse, TargetsHit, FillHits, PriceAtR;
  }

  function Flat(price: real, n: nat): (cs: seq<Candle>)
    ensures |cs| == n
  {
    seq(n, i => CandleRecord(SeriesKey("", M15), i, i, price, price, price, price, 0.0, true))
  }

  const QUIET_PLAN := TradePlan(Bullish, 0.0, 0.0, 0.0, -1.0)

  lemma {:induction false} Waiting(policy: ExitPolicy, n: nat)
    requires policy.Valid() && (policy.timeStopBars.Some? ==> n <= policy.timeStopBars.value)
    ensures Replayed(policy, OpenTrade(policy, QUIET_PLAN), Flat(1.0, n))
         == OpenTrade(policy, QUIET_PLAN).(barsSinceSignal := n)
  {
    hide Manage;
    if n > 0 {
      Waiting(policy, n - 1);
      var cs, t := Flat(1.0, n), OpenTrade(policy, QUIET_PLAN);
      assert cs[..n - 1] == Flat(1.0, n - 1);
      LastStep(policy, t, cs);
      hide Replayed, OpenTrade;
      assert Step(policy, t.(barsSinceSignal := n - 1), cs[n - 1]) == t.(barsSinceSignal := n);
    }
  }

  lemma LastStep(policy: ExitPolicy, t: Trade, cs: seq<Candle>)
    requires t.EntryKnown() && t.legs != [] && cs != []
    ensures Replayed(policy, t, cs) == Step(policy, Replayed(policy, t, cs[..|cs| - 1]), cs[|cs| - 1])
  {
  }

  /** A bar at the entry price fills nothing and hits nothing. */
  lemma RestingBar(policy: ExitPolicy, t: Trade, c: Candle)
    requires policy.Valid() && Live(policy, t) && t.mfeR == 0.0 && c.low == c.high == 0.0
    requires policy.timeStopBars.Some? ==> t.barsSinceEntry + 1 < policy.timeStopBars.value
    ensures Live(policy, Manage(policy, t, c)) && Manage(policy, t, c).mfeR == 0.0
  {
    assert !MovedAt(policy, 0.0);
    StaysOpen(policy, t, c, 0);
    TradingBar(policy, t, c);
  }

  lemma FirstRest(policy: ExitPolicy, t: Trade, c: Candle)
    requires policy.Valid() && t == OpenTrade(policy, QUIET_PLAN).(barsSinceSignal := t.barsSinceSignal)
    requires policy.timeStopBars.Some? ==> 1 < policy.timeStopBars.value
    requires c.low == c.high == 0.0
    ensures var r := Step(policy, t, c);
            Live(policy, r) && r.mfeR == 0.0 && r.barsSinceEntry == 1
  {
    hide Manage, Live;
    var entered := Enter(t.(barsSinceSignal := t.barsSinceSignal + 1), c);
    EntryIsLive(policy, entered);
    RestingBar(policy, entered, c);
  }

  lemma NextRest(policy: ExitPolicy, t: Trade, c: Candle)
    requires policy.Valid() && Live(policy, t) && t.mfeR == 0.0 && t.legs != []
    requires policy.timeStopBars.Some? ==> t.barsSinceEntry + 1 < policy.timeStopBars.value
    requires c.low == c.high == 0.0
    ensures var r := Step(policy, t, c);
            Live(policy, r) && r.mfeR == 0.0 && r.barsSinceEntry == t.barsSinceEntry + 1
  {
    hide Manage;
    RestingBar(policy, t.(barsSinceSignal := t.barsSinceSignal + 1), c);
  }

  /** `m` bars at the entry price leave a trade open with nothing filled. */
  lemma {:induction false} Resting(policy: ExitPolicy, t: Trade, m: nat)
    requires policy.Valid() && t == OpenTrade(policy, QUIET_PLAN).(barsSinceSignal := t.barsSinceSignal)
    requires policy.timeStopBars.Some? ==> m < policy.timeStopBars.value
    ensures var r := Replayed(policy, t, Flat(0.0, m));
            if m == 0 then r == t else Live(policy, r) && r.mfeR == 0.0 && r.barsSinceEntry == m
  {
    hide Step, Live;
    if m > 0 {
      Resting(policy, t, m - 1);
      assert Flat(0.0, m)[..m - 1] == Flat(0.0, m - 1);
      LastStep(policy, t, Flat(0.0, m));
      if m == 1 {
        FirstRest(policy, t, Flat(0.0, m)[0]);
      } else {
        NextRest(policy, Replayed(policy, t, Flat(0.0, m - 1)), Flat(0.0, m)[m - 1]);
      }
    }
  }

  ghost predicate AlwaysResolvedBy(policy: ExitPolicy, k: nat)
    requires policy.legs != []
  {
    forall plan: TradePlan, cs: seq<Candle> :: plan.WellPosed() && |cs| >= k
      ==> Replayed(policy, OpenTrade(policy, plan), cs).Terminal()
  }

  /**
   Every trade is closed or expired after `k` candles if and only if there is a
   time stop N and k >= 2 * N.  (Candle N + 1 may still fill the entry: the
   source tests expiry only on candles that miss the zone.)
   */
  lemma ResolutionBound(policy: ExitPolicy, k: nat)
    requires policy.Valid()
    ensures AlwaysResolvedBy(policy, k)
       <==> policy.timeStopBars.Some? && 2 * policy.timeStopBars.value <= k
  {
    hide Replayed;
    if policy.timeStopBars.Some? && 2 * policy.timeStopBars.value <= k {
      forall plan: TradePlan, cs: seq<Candle> | plan.WellPosed() && |cs| >= k
        ensures Replayed(policy, OpenTrade(policy, plan), cs).Terminal()
      {
        BarsAreCounted(policy, plan, cs);
      }
    } else {
      var cs := UnresolvedRun(policy, k);
    }
  }

  lemma UnresolvedRun(policy: ExitPolicy, k: nat) returns (cs: seq<Candle>)
    requires policy.Valid() && (policy.timeStopBars.Some? ==> k < 2 * policy.timeStopBars.value)
    ensures |cs| == k && !Replayed(policy, OpenTrade(policy, QUIET_PLAN), cs).Terminal()
  {
    hide Replayed;
    var waiting := if policy.timeStopBars.Some? && policy.timeStopBars.value < k then policy.timeStopBars.value else k;
    cs := Flat(1.0, waiting) + Flat(0.0, k - waiting);
    Waiting(policy, waiting);
    Resting(policy, OpenTrade(policy, QUIET_PLAN).(barsSinceSignal := waiting), k - waiting);
    ReplayAppend(policy, OpenTrade(policy, QUIET_PLAN), Flat(1.0, waiting), Flat(0.0, k - waiting));
  }
}
