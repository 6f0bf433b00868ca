/**
 The stop-first rule: a candle that reaches both the stop and some target is booked
 as if the stop came first.  When the other order can never pay less is shown to be
 a finite condition on the policy.
 */
module ExitPessimism {
  import opened Market
  import opened Exits
  import opened ExitSymmetry
  import opened ExitBounds
  import opened ExitLimits
  import opened ExitProgress

  /** The same bar booked in the other order: the targets fill, then the rest closes at the stop. */
  function TargetsFirst(policy: ExitPolicy, t: Trade, c: Candle): Trade
    requires t.entryFill.Some?
  {
    CloseAtStop(FillTargets(policy, t, TargetsHit(t, c)), c, SameCandle)
  }

  /** The open trade that a candle manages: an open one, or a waiting one that the candle enters. */
  function Managed(t: Trade, c: Candle): (m: Option<Trade>)
    requires t.EntryKnown()
    ensures m.Some? ==> m.value.entryFill.Some?
  {
    var t1 := t.(barsSinceSignal := t.barsSinceSignal + 1);
    if t.state.Open? then Some(t1)
    else if t.state.AwaitingEntry? && TouchesEntry(t1, c) then Some(Enter(t1, c))
    else None
  }

  /** The candle reaches the stop and a target: the source books it as `SameCandle`. */
  predicate Ambiguous(t: Trade, c: Candle)
    requires t.entryFill.Some?
  {
    StopHit(Excurse(t, c), c) && true in TargetsHit(Excurse(t, c), c)
  }

  /** A step books an ambiguous candle at the stop. */
  lemma StopIsFirst(policy: ExitPolicy, t: Trade, c: Candle)
    requires t.EntryKnown() && t.legs != [] && Managed(t, c).Some? && Ambiguous(Managed(t, c).value, c)
    ensures var r := Step(policy, t, c);
            && GrossR(r) == GrossR(CloseAtStop(Excurse(Managed(t, c).value, c), c, SameCandle))
            && r.state.Closed? && r.resolution == Some(SameCandle)
  {
    hide Excurse, TargetsHit, StopHit, TouchesEntry;
  }

  /** Booking the candle at the stop pays no more than the other order. */
  predicate PaysNoMore(policy: ExitPolicy, t: Trade, c: Candle)
    requires t.entryFill.Some?
  {
    var t1 := Excurse(t, c);
    var stopped, other := GrossR(CloseAtStop(t1, c, SameCandle)), GrossR(TargetsFirst(policy, t1, c));
    stopped.Ok? && other.Ok? && stopped.value <= other.value
  }

  ghost predicate AlwaysPessimistic(policy: ExitPolicy)
    requires policy.legs != []
  {
    forall plan: TradePlan, cs: seq<Candle>, c: Candle :: plan.WellPosed() ==>
      var m := Managed(Replayed(policy, OpenTrade(policy, plan), cs), c);
      m.Some? && Ambiguous(m.value, c) ==> PaysNoMore(policy, m.value, c)
  }

  // ------------------------------------------------ the condition on the policy

  /** The price levels at which the books change: the entry and every target. */
  function Levels(policy: ExitPolicy): (hs: seq<real>)
    ensures |hs| == |policy.legs| + 1
  {
    [0.0] + seq(|policy.legs|, i requires 0 <= i < |policy.legs| => policy.legs[i].targetR)
  }

  /** R booked when the rest leaves at the stop that stands once level `h` has been seen. */
  function BookedAt(policy: ExitPolicy, h: real): real {
    TotalR(FilledR(LegsAt(policy, h)), StopAt(policy, h), 100.0 - FilledSize(LegsAt(policy, h)))
  }

  /** Some trade is open behind level `h`. */
  predicate OpenAt(policy: ExitPolicy, h: real) {
    !AllFilled(LegsAt(policy, h)) && (h == 0.0 || policy.timeStopBars != Some(1))
  }

  /** Seeing a higher level before the stop never books less. */
  predicate HigherBooksMore(policy: ExitPolicy) {
    forall i, j :: 0 <= i < |Levels(policy)| && 0 <= j < |Levels(policy)| ==>
      var a, b := Levels(policy)[i], Levels(policy)[j];
      a <= b && OpenAt(policy, a) ==> BookedAt(policy, a) <= BookedAt(policy, b)
  }

  lemma HighestBelow(hs: seq<real>, h: real) returns (i: nat)
    requires hs != [] && hs[0] <= h
    ensures i < |hs| && hs[i] <= h
    ensures forall k :: 0 <= k < |hs| && hs[k] <= h ==> hs[k] <= hs[i]
  {
    i := 0;
    for n := 1 to |hs|
      invariant i < |hs| && hs[i] <= h
      invariant forall k :: 0 <= k < n && hs[k] <= h ==> hs[k] <= hs[i]
    {
      if hs[n] <= h && hs[i] < hs[n] {
        i := n;
      }
    }
  }

  lemma SameTargetsBelow(policy: ExitPolicy, a: real, h: real)
    requires forall k :: 0 <= k < |policy.legs| ==> (policy.legs[k].targetR <= a <==> policy.legs[k].targetR <= h)
    ensures LegsAt(policy, a) == LegsAt(policy, h) && BookedAt(policy, a) == BookedAt(policy, h)
  {
    assert LegsAt(policy, a) == LegsAt(policy, h);
    hide MovesStop, FilledR, FilledSize, LegsAt, TotalR;
    assert MovedAt(policy, a) <==> MovedAt(policy, h);
  }

  /** Between two levels the books are those of the lower one. */
  lemma TopLevel(policy: ExitPolicy, h: real) returns (i: nat)
    requires 0.0 <= h
    ensures i < |Levels(policy)| && Levels(policy)[i] <= h
    ensures forall k :: 0 <= k < |Levels(policy)| && Levels(policy)[k] <= h ==> Levels(policy)[k] <= Levels(policy)[i]
    ensures LegsAt(policy, Levels(policy)[i]) == LegsAt(policy, h)
    ensures BookedAt(policy, Levels(policy)[i]) == BookedAt(policy, h)
  {
    hide LegsAt, BookedAt;
    var hs := Levels(policy);
    i := HighestBelow(hs, h);
    forall k | 0 <= k < |policy.legs| ensures policy.legs[k].targetR <= hs[i] <==> policy.legs[k].targetR <= h {
      assert hs[k + 1] == policy.legs[k].targetR;
    }
    SameTargetsBelow(policy, hs[i], h);
  }

  // --------------------------------------------------------- one bar in levels

  lemma BooksOfTrade(policy: ExitPolicy, t: Trade, c: Candle, h: real)
    requires InRCoordinates(t.plan) && t.entryFill == Some(0.0)
    requires Configured(t.legs, policy.legs) && FilledUpTo(t.legs, h)
    requires t.remaining == 100.0 - FilledSize(t.legs) && t.currentStop == StopAt(policy, h)
    ensures GrossR(CloseAtStop(t, c, SameCandle)) == Ok(BookedAt(policy, h))
  {
    GrossAt(t, c);
    SameFills(t.legs, LegsAt(policy, h));
    hide GrossR, CloseAtStop;
  }

  /** Both orders book what stands at a level: the old one, or the one the candle reaches. */
  lemma BarBooks(policy: ExitPolicy, t: Trade, c: Candle)
    requires policy.Valid() && Live(policy, t)
    ensures var t1 := Excurse(t, c);
            && GrossR(CloseAtStop(t1, c, SameCandle)) == Ok(BookedAt(policy, t.mfeR))
            && GrossR(TargetsFirst(policy, t1, c)) == Ok(BookedAt(policy, Max(t.mfeR, c.high)))
  {
    BarInR(policy, t, c);
    FillsReachLevel(policy, t, c);
    var t1 := Excurse(t, c);
    assert t1.legs == t.legs && t1.remaining == t.remaining && t1.currentStop == t.currentStop;
    var r := FillTargets(policy, t1, TargetsHit(t1, c));
    assert r.plan == t.plan;
    hide Excurse, FillTargets, TargetsHit, GrossR, CloseAtStop, BookedAt, FilledUpTo, Configured, StopAt;
    BooksOfTrade(policy, t1, c, t.mfeR);
    BooksOfTrade(policy, r, c, Max(t.mfeR, c.high));
  }

  lemma LiveIsOpenAt(policy: ExitPolicy, t: Trade, a: real)
    requires policy.Valid() && Live(policy, t) && 0.0 <= a <= t.mfeR && LegsAt(policy, a) == LegsAt(policy, t.mfeR)
    ensures OpenAt(policy, a)
  {
    var i :| 0 <= i < |t.legs| && !t.legs[i].filled;
    assert !LegsAt(policy, t.mfeR)[i].filled;
  }

  lemma LivePaysNoMore(policy: ExitPolicy, t: Trade, c: Candle)
    requires policy.Valid() && Live(policy, t) && HigherBooksMore(policy)
    ensures PaysNoMore(policy, t, c)
  {
    BarBooks(policy, t, c);
    var h, h' := t.mfeR, Max(t.mfeR, c.high);
    var i := TopLevel(policy, h);
    var j := TopLevel(policy, h');
    assert Levels(policy)[i] <= Levels(policy)[j];
    LiveIsOpenAt(policy, t, Levels(policy)[i]);
    hide LegsAt, BookedAt, OpenAt, GrossR, CloseAtStop, TargetsFirst, Levels, Live;
  }

  /** Closing at the stop in R coordinates books the stop itself for what remains. */
  lemma GrossAt(t: Trade, c: Candle)
    requires InRCoordinates(t.plan) && t.entryFill == Some(0.0)
    ensures GrossR(CloseAtStop(t, c, SameCandle)) == Ok(TotalR(FilledR(t.legs), t.currentStop, t.remaining))
  {
    assert Risk(t.plan, 0.0) == 1.0;
    var closed := CloseAtStop(t, c, SameCandle);
    PriceIsR(t.plan, t.currentStop);
    NothingOver(FilledR(t.legs), t.currentStop);
    hide InR, TotalR, FilledR, Risk, InRCoordinates;
  }

  lemma PriceIsR(plan: TradePlan, price: real)
    requires InRCoordinates(plan)
    ensures Risk(plan, 0.0) == 1.0 && InR(plan, 0.0, price) == price
  {
    assert Risk(plan, 0.0) == 1.0;
  }

  lemma NothingOver(filledR: real, x: real)
    ensures TotalR(filledR, x, 0.0) == filledR
  {
  }

  // ------------------------------------------------------------- every candle

  /** Managing a candle commutes with the change of coordinates. */
  lemma ManagedMoves(a: real, b: real, t: Trade, c: Candle)
    requires a != 0.0 && t.EntryKnown()
    ensures var m, r := Managed(t, c), Managed(MapTrade(a, b, t), MapCandle(a, b, c));
            && (m.Some? <==> r.Some?) && (m.Some? ==> r.value == MapTrade(a, b, m.value))
  {
    TouchesMoves(a, b, t.(barsSinceSignal := t.barsSinceSignal + 1), c);
    hide TouchesEntry;
  }

  /** In R coordinates the managed trade of any run is live. */
  lemma ManagedIsLive(policy: ExitPolicy, plan: TradePlan, cs: seq<Candle>, c: Candle)
    requires policy.Valid() && InRCoordinates(plan)
    ensures var m := Managed(Replayed(policy, OpenTrade(policy, plan), cs), c);
            m.Some? ==> Live(policy, m.value)
  {
    var t := Replayed(policy, OpenTrade(policy, plan), cs);
    var h, x := RunShape(policy, plan, cs);
    EntryAtReference(policy, plan, cs);
    hide Replayed;
    if t.state.AwaitingEntry? && Managed(t, c).Some? {
      EntryIsLive(policy, Managed(t, c).value);
    }
  }

  /** Under the condition, on any candle after any run, the stop-first booking pays no more. */
  lemma StopFirstIsPessimistic(policy: ExitPolicy, plan: TradePlan, cs: seq<Candle>, c: Candle)
    requires policy.Valid() && plan.WellPosed() && HigherBooksMore(policy)
    ensures var m := Managed(Replayed(policy, OpenTrade(policy, plan), cs), c);
            m.Some? ==> PaysNoMore(policy, m.value, c)
  {
    var t := Replayed(policy, OpenTrade(policy, plan), cs);
    var a, b, rPlan, rs := NormaliseRun(policy, plan, cs);
    ManagedMoves(a, b, t, c);
    ManagedIsLive(policy, rPlan, rs, MapCandle(a, b, c));
    hide Replayed, Managed, Live, HigherBooksMore;
    if Managed(t, c).Some? {
      var m := Managed(t, c).value;
      LivePaysNoMore(policy, MapTrade(a, b, m), MapCandle(a, b, c));
      BookingsMove(a, b, policy, m, c);
    }
  }

  /** Both bookings commute with the change of coordinates. */
  lemma BookingsMove(a: real, b: real, policy: ExitPolicy, t: Trade, c: Candle)
    requires a != 0.0 && t.entryFill.Some?
    ensures var t1, r1 := Excurse(t, c), Excurse(MapTrade(a, b, t), MapCandle(a, b, c));
            && GrossR(CloseAtStop(r1, MapCandle(a, b, c), SameCandle)) == GrossR(CloseAtStop(t1, c, SameCandle))
            && GrossR(TargetsFirst(policy, r1, MapCandle(a, b, c))) == GrossR(TargetsFirst(policy, t1, c))
  {
    ExcursionMoves(a, b, t, c);
    var t1 := Excurse(t, c);
    var hit := TargetsHit(t1, c);
    HitsMove(a, b, t1, c);
    FillsMove(a, b, policy, t1, hit);
    hide Excurse, TargetsHit, FillTargets;
    StopBookingMoves(a, b, t1, c);
    StopBookingMoves(a, b, FillTargets(policy, t1, hit), c);
  }

  lemma StopBookingMoves(a: real, b: real, t: Trade, c: Candle)
    requires a != 0.0
    ensures GrossR(CloseAtStop(MapTrade(a, b, t), MapCandle(a, b, c), SameCandle)) == GrossR(CloseAtStop(t, c, SameCandle))
  {
    GrossMoves(a, b, CloseAtStop(t, c, SameCandle));
    assert CloseAtStop(MapTrade(a, b, t), MapCandle(a, b, c), SameCandle) == MapTrade(a, b, CloseAtStop(t, c, SameCandle));
    hide GrossR;
  }

  // ------------------------------------------------- runs that break the rule

  /** A candle from the stop, or below it, up to `top`. */
  function Swing(stop: real, top: real): Candle {
    var low := Min(stop, top);
    CandleRecord(SeriesKey("", M15), 1, 1, low, top, low, low, 0.0, true)
  }

  /** The candle reaches the stop and the leg at `top`, so the two orders book two levels. */
  lemma SwingBooks(policy: ExitPolicy, t: Trade, top: real, j: nat)
    requires policy.Valid() && Live(policy, t) && t.mfeR < top
    requires j < |policy.legs| && policy.legs[j].targetR == top
    requires BookedAt(policy, t.mfeR) > BookedAt(policy, top)
    ensures var c := Swing(StopAt(policy, t.mfeR), top);
            Ambiguous(t, c) && !PaysNoMore(policy, t, c)
  {
    var c := Swing(StopAt(policy, t.mfeR), top);
    BarInR(policy, t, c);
    BarBooks(policy, t, c);
    hide Excurse, TargetsHit, GrossR, CloseAtStop, BookedAt, StopAt, TargetsFirst, LegsAt;
    var hit := TargetsHit(Excurse(t, c), c);
    assert hit[j];
    assert true in hit;
  }

  lemma BrokenAtEntry(policy: ExitPolicy, j: nat)
    requires policy.Valid() && j < |policy.legs|
    requires BookedAt(policy, 0.0) > BookedAt(policy, policy.legs[j].targetR)
    ensures !AlwaysPessimistic(policy)
  {
    var waiting, top := OpenTrade(policy, QUIET_PLAN), policy.legs[j].targetR;
    var c := Swing(StopAt(policy, 0.0), top);
    var entered := Enter(waiting.(barsSinceSignal := 1), c);
    assert !MovedAt(policy, 0.0);
    EntryIsLive(policy, entered);
    SwingBooks(policy, entered, top, j);
    assert Replayed(policy, waiting, []) == waiting;
    assert Managed(waiting, c) == Some(entered);
    hide Replayed, Managed, Ambiguous, PaysNoMore, OpenTrade, Enter;
  }

  /** One candle from the entry up to leg `i` leaves a trade open at that level. */
  lemma OpenAtLevel(policy: ExitPolicy, i: nat) returns (t: Trade, up: Candle)
    requires policy.Valid() && i < |policy.legs| && OpenAt(policy, policy.legs[i].targetR)
    ensures t == Replayed(policy, OpenTrade(policy, QUIET_PLAN), [up])
    ensures Live(policy, t) && t.mfeR == policy.legs[i].targetR
  {
    hide Manage, LegsAt;
    var waiting, first := OpenTrade(policy, QUIET_PLAN), policy.legs[i].targetR;
    up := CandleRecord(SeriesKey("", M15), 0, 0, 0.0, first, 0.0, 0.0, 0.0, true);
    var entered := Enter(waiting.(barsSinceSignal := 1), up);
    EntryIsLive(policy, entered);
    FirstFill(policy, entered, up, i);
    assert Step(policy, waiting, up) == Manage(policy, entered, up);
    t := Replayed(policy, waiting, [up]);
    ReplayOne(policy, waiting, up);
  }

  lemma BrokenLater(policy: ExitPolicy, i: nat, j: nat)
    requires policy.Valid() && i < |policy.legs| && j < |policy.legs|
    requires policy.legs[i].targetR < policy.legs[j].targetR && OpenAt(policy, policy.legs[i].targetR)
    requires BookedAt(policy, policy.legs[i].targetR) > BookedAt(policy, policy.legs[j].targetR)
    ensures !AlwaysPessimistic(policy)
  {
    hide BookedAt, Replayed, Ambiguous, PaysNoMore, OpenAt, StopAt;
    var t, up := OpenAtLevel(policy, i);
    var c := Swing(StopAt(policy, t.mfeR), policy.legs[j].targetR);
    var m := t.(barsSinceSignal := t.barsSinceSignal + 1);
    assert Live(policy, m);
    SwingBooks(policy, m, policy.legs[j].targetR, j);
    hide Live;
    assert Managed(Replayed(policy, OpenTrade(policy, QUIET_PLAN), [up]), c) == Some(m);
  }

  lemma BrokenBetween(policy: ExitPolicy, i: nat, j: nat)
    requires policy.Valid() && i < |Levels(policy)| && j < |Levels(policy)|
    requires Levels(policy)[i] <= Levels(policy)[j] && OpenAt(policy, Levels(policy)[i])
    requires BookedAt(policy, Levels(policy)[i]) > BookedAt(policy, Levels(policy)[j])
    ensures !AlwaysPessimistic(policy)
  {
    hide BookedAt, OpenAt, AlwaysPessimistic;
    var hs := Levels(policy);
    assert hs[i] < hs[j];
    assert forall k :: 1 <= k < |hs| ==> hs[k] == policy.legs[k - 1].targetR > 0.0;
    if i == 0 {
      BrokenAtEntry(policy, j - 1);
    } else {
      BrokenLater(policy, i - 1, j - 1);
    }
  }

  lemma ReplayOne(policy: ExitPolicy, t: Trade, c: Candle)
    requires t.EntryKnown() && t.legs != []
    ensures Replayed(policy, t, [c]) == Step(policy, t, c)
  {
    assert [c][..0] == [];
    assert Replayed(policy, t, []) == t;
  }

  /**
   On every run the stop-first booking of an ambiguous candle pays no more than the
   other order if and only if no level books more than a higher one.
   */
  lemma StopFirstLaw(policy: ExitPolicy)
    requires policy.Valid()
    ensures AlwaysPessimistic(policy) <==> HigherBooksMore(policy)
  {
    hide PaysNoMore, Ambiguous, BookedAt, Managed, Replayed;
    if HigherBooksMore(policy) {
      forall plan: TradePlan, cs: seq<Candle>, c: Candle | plan.WellPosed()
        ensures var m := Managed(Replayed(policy, OpenTrade(policy, plan), cs), c);
                m.Some? && Ambiguous(m.value, c) ==> PaysNoMore(policy, m.value, c)
      {
        StopFirstIsPessimistic(policy, plan, cs, c);
      }
    } else {
      hide OpenAt, AlwaysPessimistic, Levels;
      var hs := Levels(policy);
      var i, j :| 0 <= i < |hs| && 0 <= j < |hs| && hs[i] <= hs[j] && OpenAt(policy, hs[i])
        && BookedAt(policy, hs[i]) > BookedAt(policy, hs[j]);
      BrokenBetween(policy, i, j);
    }
  }

  // --------------------------------------------------- a range of safe offsets

  /** What `size` percent pays at `x` risks. */
  function Worth(x: real, size: real): real { x * size / 100.0 }

  /** What a leg pays when it fills. */
  function LegR(leg: LegFill): real { leg.targetR * leg.sizePercent / 100.0 }

  lemma BankOf(legs: seq<LegFill>)
    requires legs != []
    ensures FilledR(legs) == (if legs[0].filled then LegR(legs[0]) else 0.0) + FilledR(legs[1..])
  {
  }

  lemma SizeOf(legs: seq<LegFill>)
    requires legs != []
    ensures FilledSize(legs) == (if legs[0].filled then legs[0].sizePercent else 0.0) + FilledSize(legs[1..])
  {
  }

  /** Legs that fill at targets at or above `x` bank at least what `x` pays for their sizes. */
  lemma {:induction false} FillsBankMore(before: seq<LegFill>, later: seq<LegFill>, config: seq<ExitLeg>, x: real)
    requires Configured(before, config) && Configured(later, config)
    requires forall i :: 0 <= i < |before| && before[i].filled ==> later[i].filled
    requires forall i :: 0 <= i < |before| && later[i].filled && !before[i].filled ==> x <= later[i].targetR
    ensures Worth(x, FilledSize(later) - FilledSize(before)) <= FilledR(later) - FilledR(before)
  {
    if before == [] {
      NothingMore(x);
    } else {
      BankOf(before);
      BankOf(later);
      SizeOf(before);
      SizeOf(later);
      FillsBankMore(before[1..], later[1..], config[1..], x);
      assert LegR(before[0]) == LegR(later[0]);
      hide FilledSize, FilledR, LegR, Worth;
      var size, banked := FilledSize(later[1..]) - FilledSize(before[1..]), FilledR(later[1..]) - FilledR(before[1..]);
      if later[0].filled && !before[0].filled {
        OneFillBanksMore(x, later[0], size, banked);
      }
    }
  }

  lemma NothingMore(x: real)
    ensures Worth(x, 0.0) == 0.0
  {
  }

  lemma OneFillBanksMore(x: real, leg: LegFill, restSize: real, restBanked: real)
    requires x <= leg.targetR && 0.0 < leg.sizePercent && Worth(x, restSize) <= restBanked
    ensures Worth(x, leg.sizePercent + restSize) <= LegR(leg) + restBanked
  {
    var gap, size := leg.targetR - x, leg.sizePercent;
    assert gap * size >= 0.0;
    assert leg.targetR * size == x * size + gap * size;
    assert x * (size + restSize) == x * size + x * restSize;
  }

  lemma RestBooked(filledR: real, filledR': real, x: real, x': real, remaining: real, size: real)
    requires Worth(x, size) <= filledR' - filledR && x <= x' && 0.0 <= remaining - size
    ensures TotalR(filledR, x, remaining) <= TotalR(filledR', x', remaining - size)
  {
    var left := remaining - size;
    assert (x' - x) * left >= 0.0;
    assert x * remaining == x * size + x * left;
    assert x' * left == x * left + (x' - x) * left;
  }

  /** An offset between -1 and the smallest target satisfies the condition. */
  lemma ModestOffsetBooksMore(policy: ExitPolicy)
    requires policy.Valid() && -1.0 <= policy.breakevenOffsetR
    requires forall i :: 0 <= i < |policy.legs| ==> policy.breakevenOffsetR <= policy.legs[i].targetR
    ensures HigherBooksMore(policy)
  {
    hide BookedAt;
    var hs := Levels(policy);
    forall i, j | 0 <= i < |hs| && 0 <= j < |hs| && hs[i] <= hs[j]
      ensures BookedAt(policy, hs[i]) <= BookedAt(policy, hs[j])
    {
      LevelsBookMore(policy, hs[i], hs[j]);
    }
  }

  lemma LevelsBookMore(policy: ExitPolicy, a: real, b: real)
    requires policy.Valid() && -1.0 <= policy.breakevenOffsetR && a <= b
    requires forall i :: 0 <= i < |policy.legs| ==> policy.breakevenOffsetR <= policy.legs[i].targetR
    ensures BookedAt(policy, a) <= BookedAt(policy, b)
  {
    var before, later := LegsAt(policy, a), LegsAt(policy, b);
    hide MovesStop, Worth;
    FillsBankMore(before, later, policy.legs, StopAt(policy, a));
    SizesAddUp(later, policy.legs);
    hide LegsAt, FilledSize, FilledR, TotalR;
    assert MovedAt(policy, a) ==> MovedAt(policy, b);
    RestBooked(FilledR(before), FilledR(later), StopAt(policy, a), StopAt(policy, b), 100.0 - FilledSize(before),
               FilledSize(later) - FilledSize(before));
  }
}
