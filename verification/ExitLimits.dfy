/**
 Exact limits on the result of a finished trade.

 For every valid policy the result is at least the worst excursion.  Whether it
 also stays at or above -1 R, at or below the sum of all targets, and at or below
 the best excursion depends on the moved stop, whose offset nothing validates:
 each law is shown to hold on all runs if and only if a condition on the policy
 holds.
 */
module ExitLimits {
  import opened Market
  import opened Exits
  import opened ExitSymmetry
  import opened ExitBounds

  /** Where the stop stands once the best price seen is `h` risks. */
  function StopAt(policy: ExitPolicy, h: real): real {
    if MovedAt(policy, h) then policy.breakevenOffsetR else -1.0
  }

  /** Legs with one target fill on one bar. */
  ghost predicate FilledTogether(legs: seq<LegFill>) {
    forall i, j :: 0 <= i < |legs| && 0 <= j < |legs| && legs[i].targetR == legs[j].targetR
      ==> legs[i].filledAt == legs[j].filledAt
  }

  ghost predicate FilledUpTo(legs: seq<LegFill>, h: real) {
    forall i :: 0 <= i < |legs| ==> (legs[i].filled <==> legs[i].targetR <= h)
  }

  /** What holds of every open trade between two candles, in R coordinates. */
  ghost predicate Live(policy: ExitPolicy, t: Trade) {
    && InRCoordinates(t.plan) && t.state.Open? && t.entryFill == Some(0.0)
    && Configured(t.legs, policy.legs)
    && FilledUpTo(t.legs, t.mfeR) && FilledTogether(t.legs) && !AllFilled(t.legs)
    && t.maeR <= 0.0 <= t.mfeR
    && t.remaining == 100.0 - FilledSize(t.legs)
    && t.currentStop == StopAt(policy, t.mfeR)
    && 0 <= t.barsSinceEntry && (t.mfeR > 0.0 ==> t.barsSinceEntry > 0)
    && (policy.timeStopBars.Some? ==> t.barsSinceEntry < policy.timeStopBars.value)
  }

  // ---------------------------------------------------------------- one bar

  lemma FirstMatchAcross(a: seq<LegFill>, b: seq<LegFill>, i: nat)
    requires |a| == |b| && i < |a|
    requires forall k :: 0 <= k < |a| ==> (a[k] == a[i] <==> b[k] == b[i])
    ensures LegIndex(a, a[i]) == LegIndex(b, b[i])
  {
    assert b[LegIndex(a, a[i])] == b[i];
    assert a[LegIndex(b, b[i])] == a[i];
  }

  /** `legs.index(leg)` finds the configured position of the leg. */
  lemma PositionIsConfigured(policy: ExitPolicy, legs: seq<LegFill>, h: real, i: nat)
    requires Configured(legs, policy.legs) && FilledUpTo(legs, h) && FilledTogether(legs) && i < |legs|
    ensures MovesStop(policy, legs, i) <==> MovesStop(policy, FreshLegs(policy), i)
  {
    var fresh_ := FreshLegs(policy);
    forall k | 0 <= k < |legs| ensures legs[k] == legs[i] <==> fresh_[k] == fresh_[i] {
    }
    FirstMatchAcross(legs, fresh_, i);
  }

  lemma BarInR(policy: ExitPolicy, t: Trade, c: Candle)
    requires Live(policy, t)
    ensures var t1 := Excurse(t, c);
            && t1 == t.(barsSinceEntry := t.barsSinceEntry + 1,
                        mfeR := Max(t.mfeR, c.high), maeR := Min(t.maeR, c.low))
            && (StopHit(t1, c) <==> c.low <= StopAt(policy, t.mfeR))
            && forall i :: 0 <= i < |t.legs| ==>
                 (TargetsHit(t1, c)[i] <==> !t.legs[i].filled && t.legs[i].targetR <= c.high)
  {
    assert Risk(t.plan, 0.0) == 1.0;
    forall i | 0 <= i < |t.legs| ensures PriceAtR(t.plan, 0.0, t.legs[i].targetR) == t.legs[i].targetR {
    }
  }

  lemma FillsReachLevel(policy: ExitPolicy, t: Trade, c: Candle)
    requires Live(policy, t)
    requires t.barsSinceEntry >= 0
    ensures var t1 := Excurse(t, c);
            var r := FillTargets(policy, t1, TargetsHit(t1, c));
            && Configured(r.legs, policy.legs) && FilledUpTo(r.legs, r.mfeR) && FilledTogether(r.legs)
            && r.mfeR == Max(t.mfeR, c.high)
            && r.remaining == 100.0 - FilledSize(r.legs)
            && r.currentStop == StopAt(policy, r.mfeR)
  {
    BarInR(policy, t, c);
    var t1 := Excurse(t, c);
    var hit := TargetsHit(t1, c);
    var legs := FillHits(t1.legs, hit, t1.barsSinceEntry);
    assert FilledUpTo(legs, t1.mfeR) && FilledTogether(legs);
    MoveFollowsLevel(policy, t, legs, hit, t1.mfeR);
    assert PriceAtR(t.plan, 0.0, policy.breakevenOffsetR) == policy.breakevenOffsetR;
  }

  lemma MoveFollowsLevel(policy: ExitPolicy, t: Trade, legs: seq<LegFill>, hit: seq<bool>, h: real)
    requires Live(policy, t) && |hit| == |legs| == |t.legs| && t.mfeR <= h
    requires Configured(legs, policy.legs) && FilledUpTo(legs, h) && FilledTogether(legs)
    requires forall i :: 0 <= i < |legs| ==> (legs[i].filled <==> t.legs[i].filled || hit[i])
    ensures MovedAt(policy, h) <==> MovedAt(policy, t.mfeR) || HitMovesStop(policy, legs, hit)
  {
    forall i | 0 <= i < |legs| ensures MovesStop(policy, legs, i) <==> MovesStop(policy, FreshLegs(policy), i) {
      PositionIsConfigured(policy, legs, h, i);
    }
  }

  // ------------------------------------------------------- shape of the result

  /**
   A closed trade filled its legs up to some level `h` and closed the rest at
   `x`.  A price below -1, or above the level, is the moved stop.
   */
  ghost predicate Shaped(policy: ExitPolicy, t: Trade, h: real, x: real) {
    && GrossR(t) == Ok(TotalR(FilledR(LegsAt(policy, h)), x, 100.0 - FilledSize(LegsAt(policy, h))))
    && 0.0 <= h <= t.mfeR && t.maeR <= 0.0 && t.maeR <= x
    && (-1.0 <= x || (MovedAt(policy, h) && policy.breakevenOffsetR <= x && policy.timeStopBars != Some(1)))
    && (x <= h || (MovedAt(policy, h) && policy.breakevenOffsetR == x && policy.timeStopBars != Some(1)))
  }

  /** The last bar of an open trade closed above the stop that was set before it. */
  ghost predicate LastBar(policy: ExitPolicy, t: Trade, c: Candle) {
    && t.maeR <= c.low && c.high <= t.mfeR
    && (-1.0 <= c.low || (MovedAt(policy, t.mfeR) && policy.breakevenOffsetR <= c.low && policy.timeStopBars != Some(1)))
  }

  lemma GrossOfClosed(policy: ExitPolicy, t: Trade, h: real, x: real)
    requires policy.Valid() && InRCoordinates(t.plan) && t.state.Closed? && t.entryFill == Some(0.0) && t.exitPrice.Some?
    requires Configured(t.legs, policy.legs) && FilledUpTo(t.legs, h)
    requires t.remaining == 100.0 - FilledSize(t.legs)
    requires t.exitPrice == Some(x) || AllFilled(t.legs)
    ensures GrossR(t) == Ok(TotalR(FilledR(LegsAt(policy, h)), x, 100.0 - FilledSize(LegsAt(policy, h))))
  {
    SameFills(t.legs, LegsAt(policy, h));
    SizesAddUp(t.legs, policy.legs);
    assert Risk(t.plan, 0.0) == 1.0;
    assert InR(t.plan, 0.0, t.exitPrice.value) == t.exitPrice.value;
  }

  lemma MovedNeedsTwoBars(policy: ExitPolicy, t: Trade)
    requires policy.Valid() && Live(policy, t) && MovedAt(policy, t.mfeR)
    ensures policy.timeStopBars != Some(1)
  {
    var i :| 0 <= i < |policy.legs| && policy.legs[i].targetR <= t.mfeR;
    assert policy.legs[i].targetR > 0.0;
  }

  lemma MovedStaysMoved(policy: ExitPolicy, h: real, h': real)
    requires h <= h' && MovedAt(policy, h)
    ensures MovedAt(policy, h')
  {
  }

  lemma StopBar(policy: ExitPolicy, t: Trade, c: Candle)
    requires policy.Valid() && Live(policy, t) && c.low <= StopAt(policy, t.mfeR)
    ensures var r := Manage(policy, t, c);
            r.state.Closed? && Shaped(policy, r, t.mfeR, t.currentStop)
  {
    BarInR(policy, t, c);
    if MovedAt(policy, t.mfeR) {
      MovedNeedsTwoBars(policy, t);
    }
    var r := Manage(policy, t, c);
    assert r.legs == t.legs && r.remaining == t.remaining && r.exitPrice == Some(t.currentStop);
    GrossOfClosed(policy, r, t.mfeR, t.currentStop);
  }

  lemma TradingBar(policy: ExitPolicy, t: Trade, c: Candle)
    requires policy.Valid() && Live(policy, t) && c.low > StopAt(policy, t.mfeR)
    ensures var r := Manage(policy, t, c);
            && LastBar(policy, r, c)
            && (if r.state.Open? then Live(policy, r)
                else r.state.Closed? && Shaped(policy, r, r.mfeR, c.close))
  {
    hide Excurse, TargetsHit, FillHits, HitMovesStop, LegsAt, MovedAt, FilledR, FilledSize, TotalR;
    BarInR(policy, t, c);
    FillsReachLevel(policy, t, c);
    var t1 := Excurse(t, c);
    var t2 := FillTargets(policy, t1, TargetsHit(t1, c));
    var r := Resolve(policy, t2, c);
    assert r == Manage(policy, t, c);
    if MovedAt(policy, t.mfeR) {
      MovedNeedsTwoBars(policy, t);
      MovedStaysMoved(policy, t.mfeR, t2.mfeR);
    }
    if r.state.Closed? {
      GrossOfClosed(policy, r, r.mfeR, c.close);
    }
  }

  /** What a run has produced so far; `h` and `x` describe a closed trade. */
  ghost predicate RunFacts(policy: ExitPolicy, plan: TradePlan, cs: seq<Candle>, t: Trade, h: real, x: real)
    requires policy.legs != []
  {
    match t.state
    case AwaitingEntry => t == OpenTrade(policy, plan).(barsSinceSignal := |cs|)
    case Open => cs != [] && Live(policy, t) && LastBar(policy, t, cs[|cs| - 1])
    case Closed => Shaped(policy, t, h, x)
    case ExpiredUnfilled => true
  }

  lemma BarFromLive(policy: ExitPolicy, plan: TradePlan, cs: seq<Candle>, t: Trade) returns (h: real, x: real)
    requires policy.Valid() && cs != [] && Live(policy, t)
    ensures RunFacts(policy, plan, cs, Manage(policy, t, cs[|cs| - 1]), h, x)
  {
    var c := cs[|cs| - 1];
    if c.low <= StopAt(policy, t.mfeR) {
      StopBar(policy, t, c);
      h, x := t.mfeR, t.currentStop;
    } else {
      TradingBar(policy, t, c);
      h, x := Manage(policy, t, c).mfeR, c.close;
    }
  }

  lemma StepShape(policy: ExitPolicy, plan: TradePlan, cs: seq<Candle>, t: Trade, h0: real, x0: real)
      returns (h: real, x: real)
    requires policy.Valid() && InRCoordinates(plan) && cs != [] && t.EntryKnown() && t.legs != []
    requires RunFacts(policy, plan, cs[..|cs| - 1], t, h0, x0)
    ensures RunFacts(policy, plan, cs, Step(policy, t, cs[|cs| - 1]), h, x)
  {
    h, x := h0, x0;
    var t1 := t.(barsSinceSignal := t.barsSinceSignal + 1);
    if t.state.Open? {
      assert Live(policy, t1);
      h, x := BarFromLive(policy, plan, cs, t1);
    } else if t.state.AwaitingEntry? && TouchesEntry(t1, cs[|cs| - 1]) {
      EntryIsLive(policy, Enter(t1, cs[|cs| - 1]));
      h, x := BarFromLive(policy, plan, cs, Enter(t1, cs[|cs| - 1]));
    }
  }

  lemma {:induction false} RunShape(policy: ExitPolicy, plan: TradePlan, cs: seq<Candle>) returns (h: real, x: real)
    requires policy.Valid() && InRCoordinates(plan)
    ensures RunFacts(policy, plan, cs, Replayed(policy, OpenTrade(policy, plan), cs), h, x)
    decreases |cs|
  {
    h, x := 0.0, 0.0;
    if cs != [] {
      h, x := RunShape(policy, plan, cs[..|cs| - 1]);
      h, x := StepShape(policy, plan, cs, Replayed(policy, OpenTrade(policy, plan), cs[..|cs| - 1]), h, x);
    }
  }

  lemma EntryIsLive(policy: ExitPolicy, t: Trade)
    requires policy.Valid() && InRCoordinates(t.plan) && t.state.Open? && t.entryFill == Some(0.0)
    requires t.legs == FreshLegs(policy) && t.currentStop == -1.0 && t.remaining == 100.0
    requires t.mfeR == t.maeR == 0.0 && t.barsSinceEntry == 0
    ensures Live(policy, t)
  {
    NothingFilled(t.legs);
    assert !t.legs[0].filled;
  }

  lemma {:induction false} NothingFilled(legs: seq<LegFill>)
    requires forall i :: 0 <= i < |legs| ==> !legs[i].filled
    ensures FilledSize(legs) == 0.0
  {
    if legs != [] {
      NothingFilled(legs[1..]);
    }
  }

  lemma SettledShape(policy: ExitPolicy, plan: TradePlan, cs: seq<Candle>) returns (h: real, x: real)
    requires policy.Valid() && InRCoordinates(plan) && cs != []
    ensures var t := Settled(policy, plan, cs);
            t.state.Closed? ==> Shaped(policy, t, h, x)
  {
    hide LegsAt, MovedAt, FilledR, FilledSize, TotalR, Replayed;
    h, x := RunShape(policy, plan, cs);
    var t := Replayed(policy, OpenTrade(policy, plan), cs);
    if t.state.Open? {
      h, x := t.mfeR, cs[|cs| - 1].close;
      GrossOfClosed(policy, CloseAtEnd(t, cs[|cs| - 1]), h, x);
    }
  }

  // ------------------------------------------------ conditions on the policy

  /** After any fill that leaves a part behind the moved stop, that stop gives back at most 1 R in all. */
  predicate KeepsInitialRisk(policy: ExitPolicy) {
    policy.timeStopBars == Some(1)
    || forall j :: 0 <= j < |policy.legs| && Exposed(policy, policy.legs[j].targetR) ==>
         -1.0 <= StopOutR(policy, policy.legs[j].targetR)
  }

  /** The moved stop never pays more than the open targets would. */
  predicate StopBelowTargets(policy: ExitPolicy) {
    policy.timeStopBars == Some(1)
    || forall j :: 0 <= j < |policy.legs| && Exposed(policy, policy.legs[j].targetR) ==>
         StopOutR(policy, policy.legs[j].targetR) <= AllTargetsR(policy.legs)
  }

  /** The moved stop never pays more than the price that moved it. */
  predicate StopBelowFills(policy: ExitPolicy) {
    policy.timeStopBars == Some(1)
    || forall j :: 0 <= j < |policy.legs| && Exposed(policy, policy.legs[j].targetR) ==>
         StopOutR(policy, policy.legs[j].targetR) <= policy.legs[j].targetR
  }

  /** The highest leg at or below `h` marks the same level as `h`. */
  lemma TopLeg(policy: ExitPolicy, h: real) returns (j: nat)
    requires MovedAt(policy, h)
    ensures j < |policy.legs| && policy.legs[j].targetR <= h
    ensures LegsAt(policy, policy.legs[j].targetR) == LegsAt(policy, h)
    ensures MovedAt(policy, policy.legs[j].targetR)
  {
    j :| 0 <= j < |policy.legs| && policy.legs[j].targetR <= h;
    for n := 0 to |policy.legs|
      invariant j < |policy.legs| && policy.legs[j].targetR <= h
      invariant forall i :: 0 <= i < n && policy.legs[i].targetR <= h ==> policy.legs[i].targetR <= policy.legs[j].targetR
    {
      if policy.legs[n].targetR <= h && policy.legs[j].targetR < policy.legs[n].targetR {
        j := n;
      }
    }
  }

  lemma ShapeAtLeast(policy: ExitPolicy, t: Trade, h: real, x: real)
    requires policy.Valid() && Shaped(policy, t, h, x)
    ensures t.maeR <= GrossR(t).value
    ensures KeepsInitialRisk(policy) ==> -1.0 <= GrossR(t).value
  {
    hide MovedAt, FilledR, FilledSize, TotalR, TotalSize, AllTargetsR;
    var legs := LegsAt(policy, h);
    MixAtLeast(legs, policy.legs, t.maeR, x);
    if -1.0 <= x {
      MixAtLeast(legs, policy.legs, -1.0, x);
    } else if AllFilled(legs) {
      NothingLeft(policy, h, x, 0.0);
      MixAtLeast(legs, policy.legs, 0.0, 0.0);
    } else {
      var j := TopLeg(policy, h);
      SizesAddUp(legs, policy.legs);
      TotalMonotone(FilledR(legs), policy.breakevenOffsetR, x, 100.0 - FilledSize(legs));
    }
  }

  lemma ShapeBelowTargets(policy: ExitPolicy, t: Trade, h: real, x: real)
    requires policy.Valid() && Shaped(policy, t, h, x) && StopBelowTargets(policy)
    ensures GrossR(t).value <= AllTargetsR(policy.legs)
  {
    hide MovedAt, FilledR, FilledSize, TotalR, TotalSize, AllTargetsR;
    var legs := LegsAt(policy, h);
    if x <= h {
      OpenLegsAtMost(legs, policy.legs, x);
    } else if AllFilled(legs) {
      NothingLeft(policy, h, x, h);
      OpenLegsAtMost(legs, policy.legs, h);
    } else {
      var j := TopLeg(policy, h);
    }
  }

  lemma ShapeBelowBest(policy: ExitPolicy, t: Trade, h: real, x: real)
    requires policy.Valid() && Shaped(policy, t, h, x) && StopBelowFills(policy)
    ensures GrossR(t).value <= t.mfeR
  {
    hide MovedAt, FilledR, FilledSize, TotalR, TotalSize, AllTargetsR;
    var legs := LegsAt(policy, h);
    if x <= h {
      MixAtMost(legs, policy.legs, t.mfeR, x);
    } else if AllFilled(legs) {
      NothingLeft(policy, h, x, h);
      MixAtMost(legs, policy.legs, t.mfeR, h);
    } else {
      var j := TopLeg(policy, h);
    }
  }

  /** Once all legs are filled the close price carries no weight. */
  lemma NothingLeft(policy: ExitPolicy, h: real, x: real, y: real)
    requires policy.Valid() && AllFilled(LegsAt(policy, h))
    ensures var legs := LegsAt(policy, h);
            TotalR(FilledR(legs), x, 100.0 - FilledSize(legs)) == TotalR(FilledR(legs), y, 100.0 - FilledSize(legs))
  {
    SizesAddUp(LegsAt(policy, h), policy.legs);
  }

  lemma SettledLimits(policy: ExitPolicy, plan: TradePlan, cs: seq<Candle>)
    requires policy.Valid() && plan.WellPosed() && cs != [] && Settled(policy, plan, cs).state.Closed?
    ensures var t := Settled(policy, plan, cs);
            && GrossR(t).Ok? && t.maeR <= GrossR(t).value
            && (KeepsInitialRisk(policy) ==> -1.0 <= GrossR(t).value)
            && (StopBelowTargets(policy) ==> GrossR(t).value <= AllTargetsR(policy.legs))
            && (StopBelowFills(policy) ==> GrossR(t).value <= t.mfeR)
  {
    var rPlan, rs := Normalise(policy, plan, cs);
    var h, x := SettledShape(policy, rPlan, rs);
    ShapeAtLeast(policy, Settled(policy, rPlan, rs), h, x);
    if StopBelowTargets(policy) {
      ShapeBelowTargets(policy, Settled(policy, rPlan, rs), h, x);
    }
    if StopBelowFills(policy) {
      ShapeBelowBest(policy, Settled(policy, rPlan, rs), h, x);
    }
  }

  // -------------------------------------------------------- runs that break a law

  /** The price runs to leg `j` and falls back through the moved stop. */
  lemma StopOutRun(policy: ExitPolicy, j: nat) returns (plan: TradePlan, cs: seq<Candle>)
    requires policy.Valid() && policy.timeStopBars != Some(1)
    requires j < |policy.legs| && Exposed(policy, policy.legs[j].targetR)
    ensures plan.WellPosed() && cs != []
    ensures var t := Settled(policy, plan, cs);
            && t.state.Closed? && t.mfeR == policy.legs[j].targetR
            && GrossR(t) == Ok(StopOutR(policy, policy.legs[j].targetR))
  {
    hide Manage, GrossR, StopOutR, Replayed;
    var top := policy.legs[j].targetR;
    var low := Min(policy.breakevenOffsetR, top);
    plan := TradePlan(Bullish, 0.0, 0.0, 0.0, -1.0);
    var up: Candle := CandleRecord(SeriesKey("", M15), 0, 0, 0.0, top, 0.0, 0.0, 0.0, true);
    var down: Candle := CandleRecord(SeriesKey("", M15), 1, 1, low, low, low, low, 0.0, true);
    cs := [up, down];
    ReplayTwo(policy, OpenTrade(policy, plan), up, down);
    var entered := Enter(OpenTrade(policy, plan).(barsSinceSignal := 1), up);
    EntryIsLive(policy, entered);
    FirstFill(policy, entered, up, j);
    var t1 := Step(policy, OpenTrade(policy, plan), up);
    assert t1 == Manage(policy, entered, up);
    FallBack(policy, t1.(barsSinceSignal := t1.barsSinceSignal + 1), down, j);
  }

  lemma ReplayTwo(policy: ExitPolicy, t: Trade, a: Candle, b: Candle)
    requires t.EntryKnown() && t.legs != []
    ensures Replayed(policy, t, [a, b]) == Step(policy, Step(policy, t, a), b)
  {
    assert [a, b][..1] == [a] && [a][..0] == [];
    assert Replayed(policy, t, [a]) == Step(policy, Replayed(policy, t, []), a);
  }

  /** The second bar: everything still open leaves at the moved stop. */
  lemma FallBack(policy: ExitPolicy, t: Trade, down: Candle, j: nat)
    requires policy.Valid() && Live(policy, t)
    requires j < |policy.legs| && t.mfeR == policy.legs[j].targetR && MovedAt(policy, t.mfeR)
    requires down.low <= policy.breakevenOffsetR && down.high <= t.mfeR
    ensures var r := Manage(policy, t, down);
            r.state.Closed? && r.mfeR == t.mfeR && GrossR(r) == Ok(StopOutR(policy, t.mfeR))
  {
    StopBar(policy, t, down);
    BarInR(policy, t, down);
  }

  lemma FirstFill(policy: ExitPolicy, t: Trade, up: Candle, j: nat)
    requires policy.Valid() && policy.timeStopBars != Some(1)
    requires j < |policy.legs| && !AllFilled(LegsAt(policy, policy.legs[j].targetR))
    requires Live(policy, t) && t.mfeR == 0.0 && t.barsSinceEntry == 0
    requires up.low == 0.0 && up.high == policy.legs[j].targetR
    ensures Live(policy, Manage(policy, t, up)) && Manage(policy, t, up).mfeR == policy.legs[j].targetR
  {
    assert !MovedAt(policy, 0.0);
    var legs := LegsAt(policy, policy.legs[j].targetR);
    var i :| 0 <= i < |legs| && !legs[i].filled;
    StaysOpen(policy, t, up, i);
    TradingBar(policy, t, up);
  }

  /** Above the stop, with a leg out of reach and bars left, the trade stays open. */
  lemma StaysOpen(policy: ExitPolicy, t: Trade, c: Candle, i: nat)
    requires policy.Valid() && Live(policy, t) && c.low > StopAt(policy, t.mfeR)
    requires i < |policy.legs| && policy.legs[i].targetR > Max(t.mfeR, c.high)
    requires policy.timeStopBars.Some? ==> t.barsSinceEntry + 1 < policy.timeStopBars.value
    ensures Manage(policy, t, c).state.Open? && Manage(policy, t, c).mfeR == Max(t.mfeR, c.high)
  {
    BarInR(policy, t, c);
    FillsReachLevel(policy, t, c);
    assert !FillTargets(policy, Excurse(t, c), TargetsHit(Excurse(t, c), c)).legs[i].filled;
  }

  // ------------------------------------------------------------- main results

  ghost predicate NeverBelowInitialRisk(policy: ExitPolicy)
    requires policy.legs != []
  {
    forall plan: TradePlan, cs: seq<Candle> :: plan.WellPosed() && cs != [] && Settled(policy, plan, cs).state.Closed?
      ==> GrossR(Settled(policy, plan, cs)).Ok? && -1.0 <= GrossR(Settled(policy, plan, cs)).value
  }

  ghost predicate NeverAboveAllTargets(policy: ExitPolicy)
    requires policy.legs != []
  {
    forall plan: TradePlan, cs: seq<Candle> :: plan.WellPosed() && cs != [] && Settled(policy, plan, cs).state.Closed?
      ==> GrossR(Settled(policy, plan, cs)).Ok? && GrossR(Settled(policy, plan, cs)).value <= AllTargetsR(policy.legs)
  }

  ghost predicate NeverAboveBestExcursion(policy: ExitPolicy)
    requires policy.legs != []
  {
    forall plan: TradePlan, cs: seq<Candle> :: plan.WellPosed() && cs != [] && Settled(policy, plan, cs).state.Closed?
      ==> GrossR(Settled(policy, plan, cs)).Ok? && GrossR(Settled(policy, plan, cs)).value <= Settled(policy, plan, cs).mfeR
  }

  /** No valid policy ever reports less than the worst excursion of the trade. */
  lemma GrossAtLeastWorstExcursion(policy: ExitPolicy, plan: TradePlan, cs: seq<Candle>)
    requires policy.Valid() && plan.WellPosed() && cs != [] && Settled(policy, plan, cs).state.Closed?
    ensures GrossR(Settled(policy, plan, cs)).Ok?
    ensures Settled(policy, plan, cs).maeR <= GrossR(Settled(policy, plan, cs)).value
  {
    SettledLimits(policy, plan, cs);
  }

  lemma InitialRiskLaw(policy: ExitPolicy)
    requires policy.Valid()
    ensures NeverBelowInitialRisk(policy) <==> KeepsInitialRisk(policy)
  {
    if KeepsInitialRisk(policy) {
      forall plan: TradePlan, cs: seq<Candle> | plan.WellPosed() && cs != [] && Settled(policy, plan, cs).state.Closed?
        ensures GrossR(Settled(policy, plan, cs)).Ok? && -1.0 <= GrossR(Settled(policy, plan, cs)).value
      {
        SettledLimits(policy, plan, cs);
      }
    } else {
      var j :| 0 <= j < |policy.legs| && Exposed(policy, policy.legs[j].targetR)
        && StopOutR(policy, policy.legs[j].targetR) < -1.0;
      var plan, cs := StopOutRun(policy, j);
    }
  }

  lemma AllTargetsLaw(policy: ExitPolicy)
    requires policy.Valid()
    ensures NeverAboveAllTargets(policy) <==> StopBelowTargets(policy)
  {
    if StopBelowTargets(policy) {
      forall plan: TradePlan, cs: seq<Candle> | plan.WellPosed() && cs != [] && Settled(policy, plan, cs).state.Closed?
        ensures GrossR(Settled(policy, plan, cs)).Ok? && GrossR(Settled(policy, plan, cs)).value <= AllTargetsR(policy.legs)
      {
        SettledLimits(policy, plan, cs);
      }
    } else {
      var j :| 0 <= j < |policy.legs| && Exposed(policy, policy.legs[j].targetR)
        && StopOutR(policy, policy.legs[j].targetR) > AllTargetsR(policy.legs);
      var plan, cs := StopOutRun(policy, j);
    }
  }

  lemma BestExcursionLaw(policy: ExitPolicy)
    requires policy.Valid()
    ensures NeverAboveBestExcursion(policy) <==> StopBelowFills(policy)
  {
    if StopBelowFills(policy) {
      forall plan: TradePlan, cs: seq<Candle> | plan.WellPosed() && cs != [] && Settled(policy, plan, cs).state.Closed?
        ensures GrossR(Settled(policy, plan, cs)).Ok?
             && GrossR(Settled(policy, plan, cs)).value <= Settled(policy, plan, cs).mfeR
      {
        SettledLimits(policy, plan, cs);
      }
    } else {
      var j :| 0 <= j < |policy.legs| && Exposed(policy, policy.legs[j].targetR)
        && StopOutR(policy, policy.legs[j].targetR) > policy.legs[j].targetR;
      var plan, cs := StopOutRun(policy, j);
    }
  }

  /** An offset between -1 and the smallest target keeps all three laws, as the shipped 0.1 does. */
  lemma ModestOffsetIsSafe(policy: ExitPolicy)
    requires policy.Valid() && -1.0 <= policy.breakevenOffsetR
    requires forall i :: 0 <= i < |policy.legs| ==> policy.breakevenOffsetR <= policy.legs[i].targetR
    ensures NeverBelowInitialRisk(policy) && NeverAboveAllTargets(policy) && NeverAboveBestExcursion(policy)
  {
    forall j | 0 <= j < |policy.legs|
      ensures var top := policy.legs[j].targetR;
              -1.0 <= StopOutR(policy, top) <= AllTargetsR(policy.legs) && StopOutR(policy, top) <= top
    {
      var legs := LegsAt(policy, policy.legs[j].targetR);
      MixAtLeast(legs, policy.legs, -1.0, policy.breakevenOffsetR);
      MixAtMost(legs, policy.legs, policy.legs[j].targetR, policy.breakevenOffsetR);
      OpenLegsAtMost(legs, policy.legs, policy.breakevenOffsetR);
    }
    InitialRiskLaw(policy);
    AllTargetsLaw(policy);
    BestExcursionLaw(policy);
  }
}
