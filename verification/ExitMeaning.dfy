/**
 What a run of the exit simulator means in the fields of its candles and its plan:
 which candle fills the entry, how far the price went, and which candle closes the
 trade, how and at what price.
 */
module ExitMeaning {
  import opened Market
  import opened Exits
  import opened ExitSymmetry
  import opened ExitBounds
  import opened ExitLimits
  import opened ExitProgress
  import opened ExitPessimism
  import Backtest

  // ----------------------------------------------------------------- the entry

  /** Candle `e` is the first to overlap the entry zone, while the trade still waits for it. */
  ghost predicate EntersAt(policy: ExitPolicy, plan: TradePlan, cs: seq<Candle>, e: nat) {
    && e < |cs| && (policy.timeStopBars.Some? ==> e <= policy.timeStopBars.value)
    && cs[e].low <= plan.entryHigh && plan.entryLow <= cs[e].high
    && forall i :: 0 <= i < e ==> plan.entryHigh < cs[i].low || cs[i].high < plan.entryLow
  }

  ghost predicate NeverEnters(policy: ExitPolicy, plan: TradePlan, cs: seq<Candle>) {
    forall e: nat :: !EntersAt(policy, plan, cs, e)
  }

  lemma StepKeepsEntry(policy: ExitPolicy, t: Trade, c: Candle)
    requires Backtest.Sound(t) && t.legs != [] && (t.state.Open? || t.state.Closed?)
    ensures var r := Step(policy, t, c);
            r.enteredAt == t.enteredAt && r.entryFill == t.entryFill && (r.state.Open? || r.state.Closed?)
  {
    hide Manage;
    if t.state.Open? {
      Backtest.ManageSound(policy, t.(barsSinceSignal := t.barsSinceSignal + 1), c);
      ManagedIsEntered(policy, t.(barsSinceSignal := t.barsSinceSignal + 1), c);
    }
  }

  lemma StepEnters(policy: ExitPolicy, t: Trade, c: Candle)
    requires t.state.AwaitingEntry? && t.legs != []
    ensures var r := Step(policy, t, c);
            if c.low <= t.plan.entryHigh && t.plan.entryLow <= c.high then
              r.enteredAt == Some(c.closeTime) && r.entryFill == Some(t.plan.referenceEntry) && (r.state.Open? || r.state.Closed?)
            else
              r.state == (if policy.timeStopBars.Some? && t.barsSinceSignal >= policy.timeStopBars.value then ExpiredUnfilled
                          else AwaitingEntry)
  {
    hide Manage;
    var t1 := t.(barsSinceSignal := t.barsSinceSignal + 1);
    if TouchesEntry(t1, c) {
      Backtest.ManageSound(policy, Enter(t1, c), c);
      ManagedIsEntered(policy, Enter(t1, c), c);
    }
  }

  /**
   A trade enters if and only if some candle it waits for overlaps its zone: the
   first such candle fills it, at the reference price.  Otherwise it waits, or has
   expired if and only if more candles than the time stop have passed.
   */
  lemma {:induction false} EntryMeaning(policy: ExitPolicy, plan: TradePlan, cs: seq<Candle>)
    requires policy.Valid()
    ensures Placed(policy, plan, cs, Replayed(policy, OpenTrade(policy, plan), cs))
    decreases |cs|
  {
    hide Step, Placed;
    if cs == [] {
      NothingYet(policy, plan);
    } else {
      var init, last := cs[..|cs| - 1], cs[|cs| - 1];
      EntryMeaning(policy, plan, init);
      var t := Replayed(policy, OpenTrade(policy, plan), init);
      Backtest.ReplaySound(policy, plan, init);
      EntryAtReference(policy, plan, init);
      PlacedNext(policy, plan, cs, t);
    }
  }

  /** Where the entry condition of the candles leaves a trade. */
  ghost predicate Placed(policy: ExitPolicy, plan: TradePlan, cs: seq<Candle>, t: Trade) {
    && (t.state.AwaitingEntry? || t.state.ExpiredUnfilled? <==> NeverEnters(policy, plan, cs))
    && (t.state.ExpiredUnfilled? <==>
         NeverEnters(policy, plan, cs) && policy.timeStopBars.Some? && |cs| > policy.timeStopBars.value)
    && forall e: nat :: EntersAt(policy, plan, cs, e) ==>
         t.enteredAt == Some(cs[e].closeTime) && t.entryFill == Some(plan.referenceEntry)
  }

  lemma NothingYet(policy: ExitPolicy, plan: TradePlan)
    requires policy.Valid()
    ensures Placed(policy, plan, [], Replayed(policy, OpenTrade(policy, plan), []))
  {
  }

  lemma PlacedNext(policy: ExitPolicy, plan: TradePlan, cs: seq<Candle>, t: Trade)
    requires policy.Valid() && cs != [] && t.plan == plan && t.legs != [] && Backtest.Sound(t)
    requires Placed(policy, plan, cs[..|cs| - 1], t)
    requires t.state.AwaitingEntry? ==> t.barsSinceSignal == |cs| - 1
    ensures Placed(policy, plan, cs, Step(policy, t, cs[|cs| - 1]))
  {
    hide Step, EntersAt;
    var init, last := cs[..|cs| - 1], cs[|cs| - 1];
    OneMoreCandle(policy, plan, cs);
    if t.state.AwaitingEntry? {
      StepEnters(policy, t, last);
    } else if t.state.ExpiredUnfilled? {
      ReplayLast(policy, t, last);
    } else {
      var e: nat :| EntersAt(policy, plan, init, e);
      StepKeepsEntry(policy, t, last);
    }
  }

  lemma ReplayLast(policy: ExitPolicy, t: Trade, c: Candle)
    requires t.EntryKnown() && t.legs != [] && t.Terminal()
    ensures Step(policy, t, c) == t
  {
  }

  /** A candle that the trade waits for and that overlaps has a first one among its predecessors and itself. */
  lemma {:induction false} FirstOverlap(policy: ExitPolicy, plan: TradePlan, cs: seq<Candle>, i: nat)
    requires NeverEnters(policy, plan, cs) && i <= |cs|
    requires policy.timeStopBars.Some? ==> i <= policy.timeStopBars.value + 1
    ensures forall k :: 0 <= k < i ==> plan.entryHigh < cs[k].low || cs[k].high < plan.entryLow
  {
    if i > 0 {
      FirstOverlap(policy, plan, cs, i - 1);
      assert !EntersAt(policy, plan, cs, i - 1);
    }
  }

  /** One more candle adds at most itself as an entry. */
  lemma OneMoreCandle(policy: ExitPolicy, plan: TradePlan, cs: seq<Candle>)
    requires cs != []
    ensures var init, n := cs[..|cs| - 1], |cs| - 1;
            && (forall e: nat :: EntersAt(policy, plan, cs, e) && e != n ==> EntersAt(policy, plan, init, e) && init[e] == cs[e])
            && (forall e: nat :: EntersAt(policy, plan, init, e) ==> EntersAt(policy, plan, cs, e) && !EntersAt(policy, plan, cs, n))
            && (EntersAt(policy, plan, cs, n) ==> cs[n].low <= plan.entryHigh && plan.entryLow <= cs[n].high)
            && (policy.timeStopBars.Some? && n > policy.timeStopBars.value ==> !EntersAt(policy, plan, cs, n))
            && (NeverEnters(policy, plan, init) ==>
                 && (policy.timeStopBars.Some? ==> n <= policy.timeStopBars.value)
                 && cs[n].low <= plan.entryHigh && plan.entryLow <= cs[n].high
                 ==> EntersAt(policy, plan, cs, n))
  {
    var init, n := cs[..|cs| - 1], |cs| - 1;
    if NeverEnters(policy, plan, init) && (policy.timeStopBars.Some? ==> n <= policy.timeStopBars.value) {
      FirstOverlap(policy, plan, init, n);
    }
  }

  // ------------------------------------------------------------- the excursion

  /** The best price of a candle for the plan, in initial risks from the entry. */
  function Best(plan: TradePlan, c: Candle): real
    requires plan.WellPosed()
  {
    if plan.direction.Bullish? then (c.high - plan.referenceEntry) / (plan.referenceEntry - plan.stopLoss)
    else (plan.referenceEntry - c.low) / (plan.stopLoss - plan.referenceEntry)
  }

  /** The worst price of a candle for the plan, in initial risks from the entry. */
  function Worst(plan: TradePlan, c: Candle): real
    requires plan.WellPosed()
  {
    if plan.direction.Bullish? then (c.low - plan.referenceEntry) / (plan.referenceEntry - plan.stopLoss)
    else (plan.referenceEntry - c.high) / (plan.stopLoss - plan.referenceEntry)
  }

  /** `best` and `worst` are the extremes over the `n` candles from `e` on, and over the entry itself. */
  ghost predicate Extremes(plan: TradePlan, cs: seq<Candle>, e: nat, n: nat, best: real, worst: real)
    requires plan.WellPosed() && e + n <= |cs|
  {
    && worst <= 0.0 <= best
    && (forall i :: e <= i < e + n ==> Best(plan, cs[i]) <= best && worst <= Worst(plan, cs[i]))
    && (best == 0.0 || exists i :: e <= i < e + n && Best(plan, cs[i]) == best)
    && (worst == 0.0 || exists i :: e <= i < e + n && Worst(plan, cs[i]) == worst)
  }

  /** The trade has been open on the candles from `e` on: on all of them, or up to the one that closed it. */
  ghost predicate OpenSince(plan: TradePlan, cs: seq<Candle>, e: nat, t: Trade)
    requires plan.WellPosed()
  {
    && 1 <= t.barsSinceEntry && e + t.barsSinceEntry <= |cs|
    && (t.state.Open? || t.state.Closed?)
    && (t.state.Open? ==> e + t.barsSinceEntry == |cs|)
    && (t.state.Closed? ==> t.closedAt == Some(cs[e + t.barsSinceEntry - 1].closeTime))
    && Extremes(plan, cs, e, t.barsSinceEntry, t.mfeR, t.maeR)
  }

  /** A managed candle counts once, moves the extremes, and dates the end. */
  lemma ManagedCandle(policy: ExitPolicy, t: Trade, c: Candle)
    requires t.plan.WellPosed() && t.entryFill == Some(t.plan.referenceEntry) && t.legs != [] && t.state.Open?
    ensures var r := Manage(policy, t, c);
            && r.barsSinceEntry == t.barsSinceEntry + 1 && (r.state.Open? || r.state.Closed?)
            && r.mfeR == Max(t.mfeR, Best(t.plan, c)) && r.maeR == Min(t.maeR, Worst(t.plan, c))
            && (r.state.Closed? ==> r.closedAt == Some(c.closeTime))
  {
    InitialStopInR(t.plan);
    ExcursionInR(t, c);
    assert Excurse(t, c).mfeR == Max(t.mfeR, Best(t.plan, c)) && Excurse(t, c).maeR == Min(t.maeR, Worst(t.plan, c));
    hide Excurse, TargetsHit, FillHits, PriceAtR, StopHit, Best, Worst, InR, Risk;
  }

  lemma OneMoreExtreme(plan: TradePlan, cs: seq<Candle>, e: nat, n: nat, best: real, worst: real)
    requires plan.WellPosed() && e + n + 1 == |cs| && Extremes(plan, cs[..|cs| - 1], e, n, best, worst)
    ensures Extremes(plan, cs, e, n + 1, Max(best, Best(plan, cs[e + n])), Min(worst, Worst(plan, cs[e + n])))
  {
    hide Best, Worst;
    var init, last := cs[..|cs| - 1], cs[e + n];
    if best != 0.0 && Best(plan, last) <= best {
      var i :| e <= i < e + n && Best(plan, init[i]) == best;
      assert Best(plan, cs[i]) == best;
    }
    if worst != 0.0 && worst <= Worst(plan, last) {
      var i :| e <= i < e + n && Worst(plan, init[i]) == worst;
      assert Worst(plan, cs[i]) == worst;
    }
  }

  /**
   From its entry on a trade counts every candle until it closes: the excursions are
   the extremes over exactly those candles, and the closing time is that of the last.
   */
  lemma {:induction false} ExcursionMeaning(policy: ExitPolicy, plan: TradePlan, cs: seq<Candle>, e: nat)
    requires policy.Valid() && plan.WellPosed() && EntersAt(policy, plan, cs, e)
    ensures OpenSince(plan, cs, e, Replayed(policy, OpenTrade(policy, plan), cs))
    decreases |cs|
  {
    assert e < |cs|;
    hide Step, Extremes, EntersAt;
    var init, last := cs[..|cs| - 1], cs[|cs| - 1];
    var t := Replayed(policy, OpenTrade(policy, plan), init);
    EntryMeaning(policy, plan, init);
    EntryAtReference(policy, plan, init);
    OneMoreCandle(policy, plan, cs);
    if EntersAt(policy, plan, init, e) {
      ExcursionMeaning(policy, plan, init, e);
      assert t.entryFill == Some(plan.referenceEntry);
      OpenSinceNext(policy, plan, cs, e, t);
    } else {
      assert e == |cs| - 1;
      OpenSinceEntry(policy, plan, cs, t);
    }
  }

  lemma OpenSinceNext(policy: ExitPolicy, plan: TradePlan, cs: seq<Candle>, e: nat, t: Trade)
    requires plan.WellPosed() && cs != [] && OpenSince(plan, cs[..|cs| - 1], e, t)
    requires t.plan == plan && t.entryFill == Some(plan.referenceEntry) && t.legs != []
    ensures OpenSince(plan, cs, e, Step(policy, t, cs[|cs| - 1]))
  {
    hide Manage, Best, Worst;
    var init, last := cs[..|cs| - 1], cs[|cs| - 1];
    if t.state.Open? {
      ManagedCandle(policy, t.(barsSinceSignal := t.barsSinceSignal + 1), last);
      OneMoreExtreme(plan, cs, e, t.barsSinceEntry, t.mfeR, t.maeR);
      hide Extremes;
    } else {
      assert forall i :: 0 <= i < |init| ==> init[i] == cs[i];
    }
  }

  lemma OpenSinceEntry(policy: ExitPolicy, plan: TradePlan, cs: seq<Candle>, t: Trade)
    requires plan.WellPosed() && cs != [] && policy.legs != [] && EntersAt(policy, plan, cs, |cs| - 1)
    requires t == OpenTrade(policy, plan).(barsSinceSignal := t.barsSinceSignal)
    ensures OpenSince(plan, cs, |cs| - 1, Step(policy, t, cs[|cs| - 1]))
  {
    hide Manage, Best, Worst;
    var last := cs[|cs| - 1];
    ManagedCandle(policy, Enter(t.(barsSinceSignal := t.barsSinceSignal + 1), last), last);
    assert Extremes(plan, cs[..|cs| - 1], |cs| - 1, 0, 0.0, 0.0);
    OneMoreExtreme(plan, cs, |cs| - 1, 0, 0.0, 0.0);
    hide Extremes;
  }

  // --------------------------------------------------------------- one candle

  /** Some leg at or below `h` differs from all legs listed before the one that moves the stop. */
  ghost predicate StopHasMoved(policy: ExitPolicy, h: real) {
    && policy.moveStopAfterLeg.Some?
    && exists i :: 0 <= i < |policy.legs| && policy.legs[i].targetR <= h
         && forall k :: 0 <= k < |policy.legs| && k < policy.moveStopAfterLeg.value - 1 ==> policy.legs[k] != policy.legs[i]
  }

  /** Behind a best excursion of `h` the stop stands at the entry plus the offset once it has moved, else at the initial stop. */
  ghost function StopInR(policy: ExitPolicy, h: real): real {
    if StopHasMoved(policy, h) then policy.breakevenOffsetR else -1.0
  }

  lemma MovesStopMeans(policy: ExitPolicy, i: nat)
    requires i < |policy.legs|
    ensures MovesStop(policy, FreshLegs(policy), i)
       <==> policy.moveStopAfterLeg.Some?
            && forall k :: 0 <= k < |policy.legs| && k < policy.moveStopAfterLeg.value - 1 ==> policy.legs[k] != policy.legs[i]
  {
    var fresh_ := FreshLegs(policy);
    forall k | 0 <= k < |fresh_| ensures fresh_[k] == fresh_[i] <==> policy.legs[k] == policy.legs[i] {
    }
    var first := LegIndex(fresh_, fresh_[i]);
    assert policy.legs[first] == policy.legs[i];
  }

  lemma StopMeans(policy: ExitPolicy, h: real)
    ensures StopAt(policy, h) == StopInR(policy, h)
  {
    forall i | 0 <= i < |policy.legs|
      ensures MovesStop(policy, FreshLegs(policy), i)
         <==> policy.moveStopAfterLeg.Some?
              && forall k :: 0 <= k < |policy.legs| && k < policy.moveStopAfterLeg.value - 1 ==> policy.legs[k] != policy.legs[i]
    {
      MovesStopMeans(policy, i);
    }
    hide MovesStop;
  }

  /**
   What a candle makes of an open trade whose best excursion was `h`, `bars` candles
   into it: the stop goes first, then the targets, then the time stop.  `best` and
   `worst` are the candle's extremes and `exit` is the exit price, all in risks.
   */
  ghost predicate CandleOutcome(policy: ExitPolicy, h: real, bars: int, best: real, worst: real, close: real, r: Trade, exit: real)
    requires policy.legs != []
  {
    if worst <= StopInR(policy, h) then
      && r.state.Closed? && exit == StopInR(policy, h) && FilledUpTo(r.legs, h)
      && r.exitReason == Some(if exists i :: 0 <= i < |policy.legs| && policy.legs[i].targetR <= h then StopAfterPartialTp
                              else StopLoss)
      && r.resolution == Some(if exists i :: 0 <= i < |policy.legs| && h < policy.legs[i].targetR <= best then SameCandle
                              else StopOnly)
    else if forall i :: 0 <= i < |policy.legs| ==> policy.legs[i].targetR <= Max(h, best) then
      && r.state.Closed? && exit == policy.legs[|policy.legs| - 1].targetR && FilledUpTo(r.legs, Max(h, best))
      && r.exitReason == Some(LastLeg(|policy.legs|)) && r.resolution == Some(TargetOnly)
    else if policy.timeStopBars.Some? && policy.timeStopBars.value <= bars then
      && r.state.Closed? && exit == close && FilledUpTo(r.legs, Max(h, best))
      && r.exitReason == Some(TimeStop) && r.resolution == Some(AtTimeStop)
    else r.state.Open? && FilledUpTo(r.legs, Max(h, best))
  }

  function ExitOf(t: Trade): real { if t.exitPrice.Some? then t.exitPrice.value else 0.0 }

  lemma StoppedOutcome(policy: ExitPolicy, t: Trade, c: Candle)
    requires policy.Valid() && Live(policy, t) && c.low <= StopAt(policy, t.mfeR)
    ensures var r := Manage(policy, t, c);
            r.exitPrice.Some? && CandleOutcome(policy, t.mfeR, r.barsSinceEntry, c.high, c.low, c.close, r, ExitOf(r))
  {
    BarInR(policy, t, c);
    StopMeans(policy, t.mfeR);
    hide StopAt, StopInR, StopHit, Excurse;
    var t1 := Excurse(t, c);
    var hit := TargetsHit(t1, c);
    assert AnyFilled(t.legs) <==> exists i :: 0 <= i < |policy.legs| && policy.legs[i].targetR <= t.mfeR;
    assert (exists i :: 0 <= i < |hit| && hit[i]) <==> true in hit;
    assert forall i :: 0 <= i < |hit| ==> (hit[i] <==> t.mfeR < policy.legs[i].targetR <= c.high);
  }

  lemma TradedOutcome(policy: ExitPolicy, t: Trade, c: Candle)
    requires policy.Valid() && Live(policy, t) && c.low > StopAt(policy, t.mfeR)
    ensures var r := Manage(policy, t, c);
            && (r.state.Closed? ==> r.exitPrice.Some?)
            && CandleOutcome(policy, t.mfeR, r.barsSinceEntry, c.high, c.low, c.close, r, ExitOf(r))
  {
    BarInR(policy, t, c);
    FillsReachLevel(policy, t, c);
    StopMeans(policy, t.mfeR);
    hide StopAt, StopInR, StopHit, Excurse, FilledTogether, Resolve, CandleOutcome, FilledSize, TotalSize;
    var t1 := Excurse(t, c);
    var t2 := FillTargets(policy, t1, TargetsHit(t1, c));
    assert t2.barsSinceEntry == t.barsSinceEntry + 1 && t2.plan == t.plan && t2.entryFill == Some(0.0) && t2.state.Open?;
    assert Manage(policy, t, c) == Resolve(policy, t2, c);
    hide FillTargets, TargetsHit, Manage, Live;
    ResolvedOutcome(policy, t2, t.mfeR, c);
  }

  lemma ResolvedOutcome(policy: ExitPolicy, t: Trade, h: real, c: Candle)
    requires policy.legs != [] && t.state.Open? && InRCoordinates(t.plan) && t.entryFill == Some(0.0)
    requires Configured(t.legs, policy.legs) && FilledUpTo(t.legs, Max(h, c.high)) && StopInR(policy, h) < c.low
    ensures var r := Resolve(policy, t, c);
            && (r.state.Closed? ==> r.exitPrice.Some?)
            && CandleOutcome(policy, h, r.barsSinceEntry, c.high, c.low, c.close, r, ExitOf(r))
  {
    hide StopInR;
    assert AllFilled(t.legs) <==> forall i :: 0 <= i < |policy.legs| ==> policy.legs[i].targetR <= Max(h, c.high);
    assert Risk(t.plan, 0.0) == 1.0;
    assert PriceAtR(t.plan, 0.0, t.legs[|t.legs| - 1].targetR) == policy.legs[|policy.legs| - 1].targetR;
  }

  lemma InROfMap(a: real, b: real, plan: TradePlan, p: real)
    requires a != 0.0 && plan.WellPosed() && InRCoordinates(MapPlan(a, b, plan))
    ensures Risk(plan, plan.referenceEntry) > 0.0 && MapPrice(a, b, p) == InR(plan, plan.referenceEntry, p)
  {
    InitialStopInR(plan);
    DistanceInR(a, b, plan, plan.referenceEntry, p);
    PriceIsR(MapPlan(a, b, plan), MapPrice(a, b, p));
    hide InR, Risk;
  }

  /** The map to R coordinates takes the extremes of a candle to its best and worst in risks. */
  lemma CandleInR(a: real, b: real, plan: TradePlan, c: Candle)
    requires a != 0.0 && plan.WellPosed() && InRCoordinates(MapPlan(a, b, plan))
    ensures MapCandle(a, b, c).high == Best(plan, c) && MapCandle(a, b, c).low == Worst(plan, c)
    ensures MapCandle(a, b, c).close == InR(plan, plan.referenceEntry, c.close)
  {
    InROfMap(a, b, plan, c.high);
    InROfMap(a, b, plan, c.low);
    InROfMap(a, b, plan, c.close);
    hide MapPrice;
  }

  lemma LiveOutcome(policy: ExitPolicy, t: Trade, c: Candle)
    requires policy.Valid() && Live(policy, t)
    ensures var r := Manage(policy, t, c);
            && (r.state.Closed? ==> r.exitPrice.Some?)
            && CandleOutcome(policy, t.mfeR, r.barsSinceEntry, c.high, c.low, c.close, r, ExitOf(r))
  {
    if c.low <= StopAt(policy, t.mfeR) {
      StoppedOutcome(policy, t, c);
    } else {
      TradedOutcome(policy, t, c);
    }
  }

  /** The exit price of a closed trade, in initial risks from the entry. */
  function ExitInR(t: Trade): real {
    if t.exitPrice.Some? && Risk(t.plan, t.plan.referenceEntry) > 0.0
    then InR(t.plan, t.plan.referenceEntry, t.exitPrice.value) else 0.0
  }

  /**
   After any run, what the next candle makes of a trade that is open, or that it
   enters: stopped, at its last target, at the time stop, or still open, by the
   extremes of the candle and the best excursion so far alone.
   */
  lemma CandleMeaning(policy: ExitPolicy, plan: TradePlan, cs: seq<Candle>, c: Candle)
    requires policy.Valid() && plan.WellPosed()
    ensures var t := Replayed(policy, OpenTrade(policy, plan), cs);
            var r := Step(policy, t, c);
            var enters := t.state.AwaitingEntry? && c.low <= plan.entryHigh && plan.entryLow <= c.high;
            t.state.Open? || enters ==>
              && Risk(plan, plan.referenceEntry) > 0.0
              && (r.state.Closed? ==> r.exitPrice.Some?)
              && CandleOutcome(policy, if enters then 0.0 else t.mfeR, r.barsSinceEntry, Best(plan, c), Worst(plan, c),
                               InR(plan, plan.referenceEntry, c.close), r, ExitInR(r))
  {
    var t := Replayed(policy, OpenTrade(policy, plan), cs);
    var a, b, rPlan, rs := NormaliseRun(policy, plan, cs);
    EntryAtReference(policy, plan, cs);
    ManagedMoves(a, b, t, c);
    ManagedIsLive(policy, rPlan, rs, MapCandle(a, b, c));
    InitialStopInR(plan);
    CandleInR(a, b, plan, c);
    hide Replayed, Live, Manage, Best, Worst, InR, MapCandle, CandleOutcome, Risk;
    if Managed(t, c).Some? {
      var m := Managed(t, c).value;
      assert m.mfeR == if t.state.Open? then t.mfeR else 0.0;
      var r := Manage(policy, m, c);
      assert Step(policy, t, c) == r;
      ManageMoves(a, b, policy, m, c);
      LiveOutcome(policy, MapTrade(a, b, m), MapCandle(a, b, c));
      SameOutcome(a, b, plan, policy, m.mfeR, r, c);
    }
  }

  /** An outcome speaks of prices only through their distance from the entry. */
  lemma SameOutcome(a: real, b: real, plan: TradePlan, policy: ExitPolicy, h: real, r: Trade, c: Candle)
    requires a != 0.0 && plan.WellPosed() && InRCoordinates(MapPlan(a, b, plan)) && r.plan == plan && policy.legs != []
    requires var r', c' := MapTrade(a, b, r), MapCandle(a, b, c);
             && (r'.state.Closed? ==> r'.exitPrice.Some?)
             && CandleOutcome(policy, h, r'.barsSinceEntry, c'.high, c'.low, c'.close, r', ExitOf(r'))
    ensures r.state.Closed? ==> r.exitPrice.Some?
    ensures Risk(plan, plan.referenceEntry) > 0.0
    ensures CandleOutcome(policy, h, r.barsSinceEntry, Best(plan, c), Worst(plan, c),
                          InR(plan, plan.referenceEntry, c.close), r, ExitInR(r))
  {
    InitialStopInR(plan);
    CandleInR(a, b, plan, c);
    if r.exitPrice.Some? {
      InROfMap(a, b, plan, r.exitPrice.value);
    }
    hide InR, Best, Worst, MapCandle, StopInR, Risk, MapPrice;
    assert r.exitPrice.Some? ==> ExitOf(MapTrade(a, b, r)) == ExitInR(r);
  }

  // -------------------------------------------------------- when the legs filled

  /** Bar number `bars` left a leg alone, or filled it because it was the first to reach its target. */
  ghost predicate LegStep(before: LegFill, after: LegFill, h: real, best: real, bars: int) {
    after == before
    || (!before.filled && after == before.(filled := true, filledAt := Some(bars)) && h < before.targetR <= best)
  }

  lemma LiveLegs(policy: ExitPolicy, t: Trade, c: Candle)
    requires policy.Valid() && Live(policy, t)
    ensures var r := Manage(policy, t, c);
            forall i :: 0 <= i < |t.legs| ==> LegStep(t.legs[i], r.legs[i], t.mfeR, c.high, r.barsSinceEntry)
  {
    BarInR(policy, t, c);
    hide StopHit, StopAt, HitMovesStop, PriceAtR, FilledSize, TargetsHit, Excurse;
    var t1 := Excurse(t, c);
    var hit := TargetsHit(t1, c);
    assert forall i :: 0 <= i < |hit| && hit[i] ==> t.mfeR < t.legs[i].targetR <= c.high;
  }

  lemma CandleFills(policy: ExitPolicy, plan: TradePlan, cs: seq<Candle>, c: Candle)
    requires policy.Valid() && plan.WellPosed()
    ensures var t := Replayed(policy, OpenTrade(policy, plan), cs);
            var r := Step(policy, t, c);
            Managed(t, c).Some? ==>
              forall i :: 0 <= i < |t.legs| ==>
                LegStep(t.legs[i], r.legs[i], Managed(t, c).value.mfeR, Best(plan, c), r.barsSinceEntry)
  {
    var t := Replayed(policy, OpenTrade(policy, plan), cs);
    var a, b, rPlan, rs := NormaliseRun(policy, plan, cs);
    EntryAtReference(policy, plan, cs);
    ManagedMoves(a, b, t, c);
    ManagedIsLive(policy, rPlan, rs, MapCandle(a, b, c));
    CandleInR(a, b, plan, c);
    hide Replayed, Live, Manage, Best, Worst, InR, MapCandle, Risk;
    if Managed(t, c).Some? {
      var m := Managed(t, c).value;
      assert Step(policy, t, c) == Manage(policy, m, c);
      ManageMoves(a, b, policy, m, c);
      LiveLegs(policy, MapTrade(a, b, m), MapCandle(a, b, c));
      hide LegStep;
    }
  }

  /** Each filled leg names the bar, counted from 1, that first reached its target. */
  ghost predicate FilledWhen(plan: TradePlan, cs: seq<Candle>, e: nat, t: Trade)
    requires plan.WellPosed()
  {
    forall i :: 0 <= i < |t.legs| ==>
      if t.legs[i].filled then
        && t.legs[i].filledAt.Some?
        && 1 <= t.legs[i].filledAt.value <= t.barsSinceEntry && e + t.barsSinceEntry <= |cs|
        && t.legs[i].targetR <= Best(plan, cs[e + t.legs[i].filledAt.value - 1])
        && forall k :: e <= k < e + t.legs[i].filledAt.value - 1 ==> Best(plan, cs[k]) < t.legs[i].targetR
      else t.legs[i].filledAt.None?
  }

  lemma {:induction false} FillMeaning(policy: ExitPolicy, plan: TradePlan, cs: seq<Candle>, e: nat)
    requires policy.Valid() && plan.WellPosed() && EntersAt(policy, plan, cs, e)
    ensures FilledWhen(plan, cs, e, Replayed(policy, OpenTrade(policy, plan), cs))
    decreases |cs|
  {
    assert e < |cs|;
    hide Step, EntersAt, LegStep, FilledWhen, Extremes, Risk;
    var init, last := cs[..|cs| - 1], cs[|cs| - 1];
    var t := Replayed(policy, OpenTrade(policy, plan), init);
    EntryMeaning(policy, plan, init);
    EntryAtReference(policy, plan, init);
    OneMoreCandle(policy, plan, cs);
    CandleFills(policy, plan, init, last);
    if EntersAt(policy, plan, init, e) {
      ExcursionMeaning(policy, plan, init, e);
      FillMeaning(policy, plan, init, e);
      if t.state.Closed? {
        ReplayLast(policy, t, last);
        FilledEarlier(plan, cs, e, t);
      } else {
        BarsGoUp(policy, t, last);
        FilledNext(plan, cs, e, t, Step(policy, t, last), t.mfeR);
      }
    } else {
      FirstBar(policy, t, last);
      NothingFilledYet(policy, plan, cs, e, t);
      FilledNext(plan, cs, e, t, Step(policy, t, last), 0.0);
    }
  }

  lemma FilledEarlier(plan: TradePlan, cs: seq<Candle>, e: nat, t: Trade)
    requires plan.WellPosed() && cs != [] && FilledWhen(plan, cs[..|cs| - 1], e, t)
    ensures FilledWhen(plan, cs, e, t)
  {
    hide Best;
  }

  lemma NothingFilledYet(policy: ExitPolicy, plan: TradePlan, cs: seq<Candle>, e: nat, t: Trade)
    requires policy.legs != [] && plan.WellPosed() && cs != []
    requires t == OpenTrade(policy, plan).(barsSinceSignal := t.barsSinceSignal)
    ensures FilledWhen(plan, cs[..|cs| - 1], e, t)
  {
  }

  lemma FilledNext(plan: TradePlan, cs: seq<Candle>, e: nat, t: Trade, r: Trade, h: real)
    requires plan.WellPosed() && cs != [] && FilledWhen(plan, cs[..|cs| - 1], e, t)
    requires 0 <= t.barsSinceEntry && e + t.barsSinceEntry + 1 == |cs| && r.barsSinceEntry == t.barsSinceEntry + 1
    requires |r.legs| == |t.legs|
    requires forall i :: 0 <= i < |t.legs| ==> LegStep(t.legs[i], r.legs[i], h, Best(plan, cs[|cs| - 1]), r.barsSinceEntry)
    requires forall k :: e <= k < |cs| - 1 ==> Best(plan, cs[k]) <= h
    ensures FilledWhen(plan, cs, e, r)
  {
    hide Best;
    var init := cs[..|cs| - 1];
    assert forall k :: 0 <= k < |init| ==> init[k] == cs[k];
  }

  // -------------------------------------------------------------- a closed trade

  ghost predicate Highest(plan: TradePlan, cs: seq<Candle>, e: nat, n: nat, best: real)
    requires plan.WellPosed() && e + n <= |cs|
  {
    exists worst :: Extremes(plan, cs, e, n, best, worst)
  }

  /** `h` is the best excursion over the candles of an entered trade but its last, which ends it as told. */
  ghost predicate EndedBy(policy: ExitPolicy, plan: TradePlan, cs: seq<Candle>, e: nat, t: Trade, h: real)
    requires policy.legs != [] && plan.WellPosed() && Risk(plan, plan.referenceEntry) > 0.0
    requires 1 <= t.barsSinceEntry && e + t.barsSinceEntry <= |cs|
  {
    var c := cs[e + t.barsSinceEntry - 1];
    && Highest(plan, cs, e, t.barsSinceEntry - 1, h)
    && t.exitPrice.Some?
    && CandleOutcome(policy, h, t.barsSinceEntry, Best(plan, c), Worst(plan, c), InR(plan, plan.referenceEntry, c.close), t, ExitInR(t))
  }

  lemma HighestLonger(plan: TradePlan, cs: seq<Candle>, k: nat, e: nat, n: nat, best: real)
    requires plan.WellPosed() && k <= |cs| && e + n <= k && Highest(plan, cs[..k], e, n, best)
    ensures Highest(plan, cs, e, n, best)
  {
    var worst :| Extremes(plan, cs[..k], e, n, best, worst);
    hide Best, Worst;
    assert forall i :: 0 <= i < k ==> cs[..k][i] == cs[i];
    assert Extremes(plan, cs, e, n, best, worst);
  }

  lemma HighestOf(plan: TradePlan, cs: seq<Candle>, e: nat, t: Trade)
    requires plan.WellPosed() && OpenSince(plan, cs, e, t)
    ensures Highest(plan, cs, e, t.barsSinceEntry, t.mfeR)
  {
    hide Extremes;
  }

  lemma EndedBefore(policy: ExitPolicy, plan: TradePlan, cs: seq<Candle>, k: nat, e: nat, t: Trade, h: real)
    requires policy.legs != [] && plan.WellPosed() && Risk(plan, plan.referenceEntry) > 0.0
    requires k <= |cs| && 1 <= t.barsSinceEntry && e + t.barsSinceEntry <= k && EndedBy(policy, plan, cs[..k], e, t, h)
    ensures EndedBy(policy, plan, cs, e, t, h)
  {
    HighestLonger(plan, cs, k, e, t.barsSinceEntry - 1, h);
    hide Highest, CandleOutcome, Best, Worst, InR, Risk, ExitInR;
  }

  /** An open trade closed by the last candle. */
  lemma EndedNow(policy: ExitPolicy, plan: TradePlan, cs: seq<Candle>, e: nat, t: Trade)
    requires policy.Valid() && plan.WellPosed() && cs != []
    requires t == Replayed(policy, OpenTrade(policy, plan), cs[..|cs| - 1]) && t.state.Open?
    requires OpenSince(plan, cs[..|cs| - 1], e, t) && Step(policy, t, cs[|cs| - 1]).state.Closed?
    ensures var r := Step(policy, t, cs[|cs| - 1]);
            && Risk(plan, plan.referenceEntry) > 0.0 && 1 <= r.barsSinceEntry && e + r.barsSinceEntry == |cs|
            && EndedBy(policy, plan, cs, e, r, t.mfeR)
  {
    hide Replayed, Step, Extremes, Highest, CandleOutcome, Best, Worst, InR, Risk, ExitInR;
    var k := |cs| - 1;
    var init, last := cs[..k], cs[k];
    CandleMeaning(policy, plan, init, last);
    BarsGoUp(policy, t, last);
    assert Highest(plan, init, e, t.barsSinceEntry, t.mfeR) by { HighestOf(plan, init, e, t); }
    HighestLonger(plan, cs, k, e, t.barsSinceEntry, t.mfeR);
  }

  /** A trade entered and closed by one candle. */
  lemma EndedAtOnce(policy: ExitPolicy, plan: TradePlan, cs: seq<Candle>, t: Trade)
    requires policy.Valid() && plan.WellPosed() && cs != [] && EntersAt(policy, plan, cs, |cs| - 1)
    requires t == Replayed(policy, OpenTrade(policy, plan), cs[..|cs| - 1]) && t.state.AwaitingEntry?
    requires t.barsSinceEntry == 0 && Step(policy, t, cs[|cs| - 1]).state.Closed?
    ensures var r := Step(policy, t, cs[|cs| - 1]);
            && Risk(plan, plan.referenceEntry) > 0.0 && r.barsSinceEntry == 1
            && EndedBy(policy, plan, cs, |cs| - 1, r, 0.0)
  {
    CandleMeaning(policy, plan, cs[..|cs| - 1], cs[|cs| - 1]);
    FirstBar(policy, t, cs[|cs| - 1]);
    hide Replayed, Step, CandleOutcome, Best, Worst, InR, Risk, ExitInR;
    assert Extremes(plan, cs, |cs| - 1, 0, 0.0, 0.0);
    assert Highest(plan, cs, |cs| - 1, 0, 0.0);
  }

  /**
   Every closed trade was ended by the last candle it counts, in the way that candle
   and the best excursion before it demand.
   */
  lemma {:induction false} ClosingMeaning(policy: ExitPolicy, plan: TradePlan, cs: seq<Candle>, e: nat) returns (h: real)
    requires policy.Valid() && plan.WellPosed() && EntersAt(policy, plan, cs, e)
    requires Replayed(policy, OpenTrade(policy, plan), cs).state.Closed?
    ensures var t := Replayed(policy, OpenTrade(policy, plan), cs);
            && Risk(plan, plan.referenceEntry) > 0.0
            && OpenSince(plan, cs, e, t) && EndedBy(policy, plan, cs, e, t, h)
    decreases |cs|
  {
    InitialStopInR(plan);
    ExcursionMeaning(policy, plan, cs, e);
    BeforeLast(policy, plan, cs, e);
    hide Step, EntersAt, EndedBy, Risk, OpenSince, Extremes, Placed;
    var k := |cs| - 1;
    var init, last := cs[..k], cs[k];
    var t := Replayed(policy, OpenTrade(policy, plan), init);
    if t.state.Closed? {
      ReplayLast(policy, t, last);
      h := ClosingMeaning(policy, plan, init, e);
      BarsWithin(plan, init, e, t);
      EndedBefore(policy, plan, cs, k, e, t, h);
    } else if t.state.Open? {
      h := t.mfeR;
      EndedNow(policy, plan, cs, e, t);
    } else {
      h := 0.0;
      EndedAtOnce(policy, plan, cs, t);
    }
  }

  lemma BarsWithin(plan: TradePlan, cs: seq<Candle>, e: nat, t: Trade)
    requires plan.WellPosed() && OpenSince(plan, cs, e, t)
    ensures 1 <= t.barsSinceEntry && e + t.barsSinceEntry <= |cs|
  {
    hide Extremes;
  }

  /** One candle earlier an entered trade had entered too, or was still waiting for that candle. */
  lemma BeforeLast(policy: ExitPolicy, plan: TradePlan, cs: seq<Candle>, e: nat)
    requires policy.Valid() && plan.WellPosed() && EntersAt(policy, plan, cs, e)
    ensures var init := cs[..|cs| - 1];
            var t := Replayed(policy, OpenTrade(policy, plan), init);
            if t.state.Open? || t.state.Closed? then EntersAt(policy, plan, init, e) && OpenSince(plan, init, e, t)
            else e == |cs| - 1 && t.state.AwaitingEntry? && t.barsSinceEntry == 0
  {
    assert e < |cs|;
    hide EntersAt, Replayed, OpenSince;
    var init := cs[..|cs| - 1];
    EntryMeaning(policy, plan, init);
    EntryAtReference(policy, plan, init);
    OneMoreCandle(policy, plan, cs);
    if EntersAt(policy, plan, init, e) {
      ExcursionMeaning(policy, plan, init, e);
    } else if policy.timeStopBars.Some? && |cs| - 1 > policy.timeStopBars.value {
      assert false;
    }
  }

  lemma BarsGoUp(policy: ExitPolicy, t: Trade, c: Candle)
    requires t.EntryKnown() && t.legs != [] && t.state.Open?
    ensures Step(policy, t, c).barsSinceEntry == t.barsSinceEntry + 1
  {
  }

  lemma FirstBar(policy: ExitPolicy, t: Trade, c: Candle)
    requires t.legs != [] && t.state.AwaitingEntry? && TouchesEntry(t, c) && t.barsSinceEntry == 0
    ensures Step(policy, t, c).barsSinceEntry == 1
  {
  }

  // --------------------------------------------------------------- the result

  /** R banked by the legs at or below a level. */
  function Banked(legs: seq<ExitLeg>, level: real): real {
    if legs == [] then 0.0
    else (if legs[0].targetR <= level then legs[0].targetR * legs[0].sizePercent / 100.0 else 0.0) + Banked(legs[1..], level)
  }

  /** The size of the legs above a level, in percent. */
  function Above(legs: seq<ExitLeg>, level: real): real {
    if legs == [] then 0.0
    else (if legs[0].targetR <= level then 0.0 else legs[0].sizePercent) + Above(legs[1..], level)
  }

  lemma {:induction false} BooksMean(legs: seq<LegFill>, config: seq<ExitLeg>, level: real)
    requires Configured(legs, config) && FilledUpTo(legs, level)
    ensures FilledR(legs) == Banked(config, level) && FilledSize(legs) + Above(config, level) == TotalSize(config)
  {
    if legs != [] {
      BooksMean(legs[1..], config[1..], level);
    }
  }

  /**
   The R of a closed trade: the targets at or below some level pay their share, and
   the rest leaves at the exit price.
   */
  lemma ResultMeaning(policy: ExitPolicy, plan: TradePlan, cs: seq<Candle>, level: real)
    requires policy.Valid() && plan.WellPosed() && cs != []
    requires Settled(policy, plan, cs).state.Closed? && FilledUpTo(Settled(policy, plan, cs).legs, level)
    ensures var t := Settled(policy, plan, cs);
            && t.exitPrice.Some?
            && GrossR(t) == Ok(TotalR(Banked(policy.legs, level), ExitInR(t), Above(policy.legs, level)))
  {
    hide Replayed, FilledR, FilledSize, Banked, Above, Placed, TotalSize, ExitInR, GrossR;
    var t := Replayed(policy, OpenTrade(policy, plan), cs);
    BalancedAfter(policy, plan, cs);
    EnteredWhenClosed(policy, plan, cs);
    InitialStopInR(plan);
    BooksMean(t.legs, policy.legs, level);
    var closed := Settled(policy, plan, cs);
    assert closed.legs == t.legs && closed.remaining == t.remaining;
    assert closed.remaining == Above(policy.legs, level);
    ClosedGross(closed);
    hide TotalR;
  }

  lemma EnteredWhenClosed(policy: ExitPolicy, plan: TradePlan, cs: seq<Candle>)
    requires policy.Valid() && cs != [] && Settled(policy, plan, cs).state.Closed?
    ensures var t := Settled(policy, plan, cs);
            t.entryFill == Some(plan.referenceEntry) && t.exitPrice.Some? && t.plan == plan
  {
    EntryAtReference(policy, plan, cs);
    Backtest.ReplaySound(policy, plan, cs);
    hide Replayed;
  }

  lemma ClosedGross(t: Trade)
    requires t.state.Closed? && t.entryFill == Some(t.plan.referenceEntry) && t.exitPrice.Some?
    requires Risk(t.plan, t.plan.referenceEntry) > 0.0
    ensures GrossR(t) == Ok(TotalR(FilledR(t.legs), ExitInR(t), t.remaining))
  {
    NothingOver(FilledR(t.legs), ExitInR(t));
    hide InR, Risk, FilledR, TotalR;
  }
}
