/**
 The exit engine of `app/backtest/exits.py` as it runs: it updates the fields of a
 trade and loops over the hit legs in target order.  It is proved to compute the
 loop-free `Step`.
 */
module ExitEngine {
  import opened Market
  import opened Exits
  import Sorting

  class SimulatedTrade {
    const plan: TradePlan
    var legs: seq<LegFill>
    var state: TradeState
    var currentStop: real
    var entryFill: Option<real>
    var enteredAt: Option<int>
    var closedAt: Option<int>
    var exitPrice: Option<real>
    var barsSinceEntry: int
    var barsSinceSignal: int
    var exitReason: Option<ExitReason>
    var resolution: Option<Resolution>
    var ambiguous: nat
    var remaining: real
    var mfeR: real
    var maeR: real

    constructor (plan: TradePlan, legs: seq<LegFill>)
      ensures Value() == Trade(plan, legs, AwaitingEntry, plan.stopLoss,
                               None, None, None, None, 0, 0, None, None, 0, 100.0, 0.0, 0.0)
    {
      this.plan, this.legs := plan, legs;
      state, currentStop := AwaitingEntry, plan.stopLoss;
      entryFill, enteredAt, closedAt, exitPrice := None, None, None, None;
      barsSinceEntry, barsSinceSignal := 0, 0;
      exitReason, resolution := None, None;
      ambiguous, remaining, mfeR, maeR := 0, 100.0, 0.0, 0.0;
    }

    function Value(): Trade
      reads this
    {
      Trade(plan, legs, state, currentStop, entryFill, enteredAt, closedAt, exitPrice,
            barsSinceEntry, barsSinceSignal, exitReason, resolution, ambiguous, remaining, mfeR, maeR)
    }
  }

  /** A hit leg: its position in the list and its target, the sort key. */
  datatype Hit = Hit(index: nat, targetR: real)

  function TargetOf(h: Hit): real { h.targetR }

  /** The legs of `hit` among the first `n`, in list order. */
  function HitsUpTo(legs: seq<LegFill>, hit: seq<bool>, n: nat): (hits: seq<Hit>)
    requires |hit| == |legs| && n <= |legs|
    ensures forall h :: h in hits ==> h.index < n && hit[h.index] && h.targetR == legs[h.index].targetR
    ensures forall k, l :: 0 <= k < l < |hits| ==> hits[k].index < hits[l].index
  {
    if n == 0 then []
    else HitsUpTo(legs, hit, n - 1) + if hit[n - 1] then [Hit(n - 1, legs[n - 1].targetR)] else []
  }

  // ------------------------------------------ the loop over sorted hits

  /** Sorted by target; legs with equal targets keep their list order. */
  ghost predicate InFillOrder(order: seq<Hit>) {
    forall a, b :: 0 <= a < b < |order| ==> FillsBefore(order[a], order[b])
  }

  predicate FillsBefore(h: Hit, g: Hit) {
    h.targetR < g.targetR || (h.targetR == g.targetR && h.index < g.index)
  }

  lemma {:induction false} InsertInFillOrder(x: Hit, ys: seq<Hit>)
    requires InFillOrder(ys)
    requires forall y :: y in ys ==> x.index < y.index
    ensures InFillOrder(Sorting.Insert(x, ys, TargetOf))
  {
    if ys == [] {
    } else if TargetOf(x) <= TargetOf(ys[0]) {
      forall y | y in ys ensures FillsBefore(x, y) {
        assert y == ys[0] || FillsBefore(ys[0], y);
      }
    } else {
      InsertInFillOrder(x, ys[1..]);
      var r := Sorting.Insert(x, ys[1..], TargetOf);
      forall y | y in r ensures FillsBefore(ys[0], y) {
        assert y in multiset(r);
        assert y == x || y in ys[1..];
      }
    }
  }

  lemma {:induction false} SortGivesFillOrder(hits: seq<Hit>)
    requires forall k, l :: 0 <= k < l < |hits| ==> hits[k].index < hits[l].index
    ensures InFillOrder(Sorting.StableSort(hits, TargetOf))
  {
    if hits != [] {
      SortGivesFillOrder(hits[1..]);
      Sorting.SameElements(hits[1..], Sorting.StableSort(hits[1..], TargetOf));
      InsertInFillOrder(hits[0], Sorting.StableSort(hits[1..], TargetOf));
    }
  }

  lemma {:induction false} FillingOneLeg(legs: seq<LegFill>, i: nat, bar: int)
    requires i < |legs| && !legs[i].filled
    ensures FilledSize(legs[i := FilledLeg(legs[i], bar)]) == FilledSize(legs) + legs[i].sizePercent
  {
    var after := legs[i := FilledLeg(legs[i], bar)];
    if i == 0 {
      assert after[1..] == legs[1..];
    } else {
      assert after[1..] == legs[1..][i - 1 := FilledLeg(legs[i], bar)];
      FillingOneLeg(legs[1..], i - 1, bar);
    }
  }

  lemma {:induction false} HitsComplete(legs: seq<LegFill>, hit: seq<bool>, n: nat, i: nat)
    requires |hit| == |legs| && i < n <= |legs| && hit[i]
    ensures Hit(i, legs[i].targetR) in HitsUpTo(legs, hit, n)
  {
    if i < n - 1 {
      HitsComplete(legs, hit, n - 1, i);
    }
  }

  /** The hit legs in the order the loop takes them. */
  ghost predicate IsFillOrder(legs: seq<LegFill>, hit: seq<bool>, order: seq<Hit>) {
    && |hit| == |legs|
    && InFillOrder(order)
    && (forall m :: 0 <= m < |order| ==>
          order[m].index < |legs| && hit[order[m].index] && order[m].targetR == legs[order[m].index].targetR)
    && (forall i :: 0 <= i < |legs| && hit[i] ==> Hit(i, legs[i].targetR) in order)
  }

  function FillOrder(legs: seq<LegFill>, hit: seq<bool>): seq<Hit>
    requires |hit| == |legs|
  {
    Sorting.StableSort(HitsUpTo(legs, hit, |legs|), TargetOf)
  }

  lemma SortedHitsAreFillOrder(legs: seq<LegFill>, hit: seq<bool>)
    requires |hit| == |legs|
    ensures IsFillOrder(legs, hit, FillOrder(legs, hit))
  {
    var hits := HitsUpTo(legs, hit, |legs|);
    var order := FillOrder(legs, hit);
    SortGivesFillOrder(hits);
    Sorting.SameElements(hits, order);
    forall m | 0 <= m < |order|
      ensures order[m].index < |legs| && hit[order[m].index] && order[m].targetR == legs[order[m].index].targetR
    {
      assert order[m] in hits;
    }
    forall i | 0 <= i < |legs| && hit[i] ensures Hit(i, legs[i].targetR) in order {
      HitsComplete(legs, hit, |legs|, i);
    }
  }

  /** The legs once the hits in `done` have been filled. */
  ghost function PartlyFilled(legs: seq<LegFill>, done: seq<Hit>, bar: int): (filled: seq<LegFill>)
    ensures |filled| == |legs|
  {
    seq(|legs|, i requires 0 <= i < |legs| =>
      if exists m :: 0 <= m < |done| && done[m].index == i then FilledLeg(legs[i], bar) else legs[i])
  }

  lemma FirstMatch(a: seq<LegFill>, b: seq<LegFill>, j: nat)
    requires |a| == |b| && j < |a| && a[j] == b[j]
    requires forall i :: 0 <= i < j ==> (a[i] == b[j] <==> b[i] == b[j])
    ensures LegIndex(a, a[j]) == LegIndex(b, b[j])
  {
    assert LegIndex(a, a[j]) <= j && LegIndex(b, b[j]) <= j;
  }

  /**
   `trade.legs.index(leg)` compares field values in the middle of the loop.  It
   still finds the position it would find once every hit leg is filled.
   */
  lemma IndexInsideTheLoop(legs: seq<LegFill>, hit: seq<bool>, order: seq<Hit>, k: nat, bar: int)
    requires IsFillOrder(legs, hit, order) && k < |order|
    ensures var some, all := PartlyFilled(legs, order[..k + 1], bar), FillHits(legs, hit, bar);
            LegIndex(some, some[order[k].index]) == LegIndex(all, all[order[k].index])
  {
    var j := order[k].index;
    var a, b := PartlyFilled(legs, order[..k + 1], bar), FillHits(legs, hit, bar);
    assert order[..k + 1][k].index == j;
    forall i | 0 <= i < j ensures a[i] == b[j] <==> b[i] == b[j] {
      if hit[i] {
        var m :| 0 <= m < |order| && order[m] == Hit(i, legs[i].targetR);
        if b[i] == b[j] {
          assert !FillsBefore(order[k], order[m]);
          assert order[..k + 1][m].index == i;
        }
      }
    }
    FirstMatch(a, b, j);
  }

  lemma ExtendPartlyFilled(legs: seq<LegFill>, hit: seq<bool>, order: seq<Hit>, k: nat, bar: int)
    requires IsFillOrder(legs, hit, order) && k < |order|
    ensures var i := order[k].index;
            && PartlyFilled(legs, order[..k], bar)[i] == legs[i]
            && PartlyFilled(legs, order[..k + 1], bar)
               == PartlyFilled(legs, order[..k], bar)[i := FilledLeg(legs[i], bar)]
  {
    var i := order[k].index;
    var a, b := PartlyFilled(legs, order[..k], bar), PartlyFilled(legs, order[..k + 1], bar);
    forall m | 0 <= m < k ensures order[m].index != i {
      assert FillsBefore(order[m], order[k]);
    }
    forall x | 0 <= x < |legs| && x != i ensures a[x] == b[x] {
      if m :| 0 <= m < k && order[m].index == x {
        assert order[..k][m].index == x && order[..k + 1][m].index == x;
      }
    }
    assert order[..k + 1][k].index == i;
  }

  /** Some hit among the first `n` of `order` moves the stop. */
  ghost predicate MovedWithin(policy: ExitPolicy, all: seq<LegFill>, order: seq<Hit>, n: int) {
    exists m :: 0 <= m < n && m < |order| && order[m].index < |all| && MovesStop(policy, all, order[m].index)
  }

  lemma OneMoreLeg(policy: ExitPolicy, legs: seq<LegFill>, hit: seq<bool>, k: nat, bar: int)
    requires |hit| == |legs| && k < |FillOrder(legs, hit)|
    requires forall i :: 0 <= i < |hit| && hit[i] ==> !legs[i].filled
    ensures var order, all := FillOrder(legs, hit), FillHits(legs, hit, bar);
            var i := order[k].index;
            && i < |legs|
            && !PartlyFilled(legs, order[..k], bar)[i].filled
            && PartlyFilled(legs, order[..k + 1], bar)
               == PartlyFilled(legs, order[..k], bar)[i := FilledLeg(PartlyFilled(legs, order[..k], bar)[i], bar)]
            && (MovesStop(policy, PartlyFilled(legs, order[..k + 1], bar), i) <==> MovesStop(policy, all, i))
            && (MovedWithin(policy, all, order, k + 1)
                <==> MovedWithin(policy, all, order, k) || MovesStop(policy, all, i))
  {
    SortedHitsAreFillOrder(legs, hit);
    ExtendPartlyFilled(legs, hit, FillOrder(legs, hit), k, bar);
    IndexInsideTheLoop(legs, hit, FillOrder(legs, hit), k, bar);
  }

  lemma AllHitsFilled(policy: ExitPolicy, legs: seq<LegFill>, hit: seq<bool>, bar: int)
    requires |hit| == |legs|
    ensures PartlyFilled(legs, FillOrder(legs, hit), bar) == FillHits(legs, hit, bar)
    ensures HitMovesStop(policy, FillHits(legs, hit, bar), hit)
       <==> MovedWithin(policy, FillHits(legs, hit, bar), FillOrder(legs, hit), |FillOrder(legs, hit)|)
  {
    var order := FillOrder(legs, hit);
    SortedHitsAreFillOrder(legs, hit);
    forall i | 0 <= i < |legs| && hit[i]
      ensures exists m :: 0 <= m < |order| && order[m].index == i
    {
      var m :| 0 <= m < |order| && order[m] == Hit(i, legs[i].targetR);
    }
  }

  class ExitPolicyEngine {
    const settings: ExitPolicy

    constructor (settings: ExitPolicy)
      ensures this.settings == settings
    {
      this.settings := settings;
    }

    method OpenNew(plan: TradePlan) returns (trade: SimulatedTrade)
      ensures fresh(trade) && trade.Value() == OpenTrade(settings, plan)
    {
      trade := new SimulatedTrade(plan, FreshLegs(settings));
    }

    /** The body of that loop, for the leg at position `i`. */
    method FillLeg(trade: SimulatedTrade, i: nat)
      requires trade.entryFill.Some? && i < |trade.legs| && !trade.legs[i].filled
      modifies trade`legs, trade`remaining, trade`currentStop
      ensures trade.legs == old(trade.legs)[i := FilledLeg(old(trade.legs)[i], trade.barsSinceEntry)]
      ensures trade.remaining == old(trade.remaining) - (FilledSize(trade.legs) - FilledSize(old(trade.legs)))
      ensures trade.currentStop
           == if MovesStop(settings, trade.legs, i)
              then PriceAtR(trade.plan, trade.entryFill.value, settings.breakevenOffsetR)
              else old(trade.currentStop)
    {
      FillingOneLeg(trade.legs, i, trade.barsSinceEntry);
      trade.legs := trade.legs[i := FilledLeg(trade.legs[i], trade.barsSinceEntry)];
      trade.remaining := trade.remaining - trade.legs[i].sizePercent;
      var legIndex := LegIndex(trade.legs, trade.legs[i]) + 1;
      if settings.moveStopAfterLeg.Some? && legIndex >= settings.moveStopAfterLeg.value {
        trade.currentStop := PriceAtR(trade.plan, trade.entryFill.value, settings.breakevenOffsetR);
      }
    }

    /** The loop over `sorted(targets_hit, key=target_r)`. */
    method FillInOrder(trade: SimulatedTrade, hit: seq<bool>)
      requires trade.entryFill.Some? && |hit| == |trade.legs|
      requires forall i :: 0 <= i < |hit| && hit[i] ==> !trade.legs[i].filled
      modifies trade`legs, trade`remaining, trade`currentStop
      ensures trade.legs == FillHits(old(trade.legs), hit, trade.barsSinceEntry)
      ensures trade.remaining == old(trade.remaining) - (FilledSize(trade.legs) - FilledSize(old(trade.legs)))
      ensures trade.currentStop
           == if HitMovesStop(settings, trade.legs, hit)
              then PriceAtR(trade.plan, trade.entryFill.value, settings.breakevenOffsetR)
              else old(trade.currentStop)
    {
      ghost var legs, bar := trade.legs, trade.barsSinceEntry;
      ghost var all := FillHits(legs, hit, bar);
      ghost var moved := false;
      var order := FillOrder(trade.legs, hit);
      assert trade.legs == PartlyFilled(legs, order[..0], bar);
      for k := 0 to |order|
        invariant trade.legs == PartlyFilled(legs, order[..k], bar)
        invariant trade.remaining == old(trade.remaining) - (FilledSize(trade.legs) - FilledSize(legs))
        invariant moved == MovedWithin(settings, all, order, k)
        invariant trade.currentStop
               == if moved then PriceAtR(trade.plan, trade.entryFill.value, settings.breakevenOffsetR)
                  else old(trade.currentStop)
      {
        OneMoreLeg(settings, legs, hit, k, bar);
        moved := moved || MovesStop(settings, all, order[k].index);
        FillLeg(trade, order[k].index);
      }
      assert order[..|order|] == order;
      AllHitsFilled(settings, legs, hit, bar);
    }

    method Advance(trade: SimulatedTrade, c: Candle)
      requires trade.Value().EntryKnown() && trade.legs != []
      modifies trade
      ensures trade.Value() == Step(settings, old(trade.Value()), c)
    {
      hide Manage;
      if trade.state.Closed? || trade.state.ExpiredUnfilled? {
        return;
      }
      trade.barsSinceSignal := trade.barsSinceSignal + 1;
      if trade.state.AwaitingEntry? {
        if !(c.low <= trade.plan.entryHigh && c.high >= trade.plan.entryLow) {
          if settings.timeStopBars.Some? && trade.barsSinceSignal > settings.timeStopBars.value {
            trade.state := ExpiredUnfilled;
          }
          return;
        }
        trade.entryFill := Some(trade.plan.referenceEntry);
        trade.enteredAt := Some(c.closeTime);
        trade.state := Open;
      }
      ManageBar(trade, c);
    }

    method RecordExcursion(trade: SimulatedTrade, c: Candle)
      requires trade.entryFill.Some?
      modifies trade`barsSinceEntry, trade`mfeR, trade`maeR
      ensures trade.Value() == Excurse(old(trade.Value()), c)
    {
      trade.barsSinceEntry := trade.barsSinceEntry + 1;
      var entry := trade.entryFill.value;
      var risk := Abs(entry - trade.plan.stopLoss);
      if risk > 0.0 {
        if trade.plan.direction.Bullish? {
          trade.mfeR := Max(trade.mfeR, (c.high - entry) / risk);
          trade.maeR := Min(trade.maeR, (c.low - entry) / risk);
        } else {
          trade.mfeR := Max(trade.mfeR, (entry - c.low) / risk);
          trade.maeR := Min(trade.maeR, (entry - c.high) / risk);
        }
      }
    }

    method ManageBar(trade: SimulatedTrade, c: Candle)
      requires trade.entryFill.Some? && trade.legs != [] && trade.state.Open?
      modifies trade
      ensures trade.Value() == Manage(settings, old(trade.Value()), c)
    {
      hide Excurse, StopHit, TargetsHit, CloseAtStop, FillHits, HitMovesStop, PriceAtR, FilledSize, Resolve;
      RecordExcursion(trade, c);
      var stopHit := StopHit(trade.Value(), c);
      var targetsHit := TargetsHit(trade.Value(), c);
      if stopHit && true in targetsHit {
        trade.ambiguous := trade.ambiguous + 1;
        StopOut(trade, c, SameCandle);
        return;
      }
      if stopHit {
        StopOut(trade, c, StopOnly);
        return;
      }
      FillInOrder(trade, targetsHit);
      ResolveBar(trade, c);
    }

    method ResolveBar(trade: SimulatedTrade, c: Candle)
      requires trade.entryFill.Some? && trade.legs != []
      modifies trade
      ensures trade.Value() == Resolve(settings, old(trade.Value()), c)
    {
      hide AllFilled, PriceAtR;
      if AllFilled(trade.legs) {
        trade.state := Closed;
        trade.exitReason := Some(LastLeg(|trade.legs|));
        trade.resolution := Some(TargetOnly);
        trade.exitPrice := Some(PriceAtR(trade.plan, trade.entryFill.value, trade.legs[|trade.legs| - 1].targetR));
        trade.closedAt := Some(c.closeTime);
        return;
      }
      if settings.timeStopBars.Some? && trade.barsSinceEntry >= settings.timeStopBars.value {
        trade.state := Closed;
        trade.exitReason := Some(TimeStop);
        trade.resolution := Some(AtTimeStop);
        trade.exitPrice := Some(c.close);
        trade.closedAt := Some(c.closeTime);
      }
    }

    method CloseAtEndOfData(trade: SimulatedTrade, last: Candle)
      modifies trade
      ensures trade.Value() == CloseAtEnd(old(trade.Value()), last)
    {
      if trade.state.Open? {
        trade.state := Closed;
        trade.exitReason := Some(EndOfData);
        trade.resolution := Some(AtEndOfData);
        trade.exitPrice := Some(last.close);
        trade.closedAt := Some(last.closeTime);
      }
    }

    method StopOut(trade: SimulatedTrade, c: Candle, how: Resolution)
      modifies trade
      ensures trade.Value() == CloseAtStop(old(trade.Value()), c, how)
    {
      trade.state := Closed;
      trade.exitReason := Some(if AnyFilled(trade.legs) then StopAfterPartialTp else StopLoss);
      trade.resolution := Some(how);
      trade.exitPrice := Some(trade.currentStop);
      trade.closedAt := Some(c.closeTime);
    }
  }
}
