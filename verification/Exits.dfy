/**
 The exit simulator of `app/backtest/exits.py`: a trade waits in its entry zone,
 fills profit legs, may move its stop, and closes at a stop, at its last target,
 at the time stop or at the end of the data.

 `Step` says what one closed candle does to a trade.  It is written without the
 loops of the source: all legs hit by a candle fill together.
 */
module Exits {
  import opened Market

  // ------------------------------------------------------------------ settings

  datatype ExitLeg = ExitLeg(targetR: real, sizePercent: real)

  function TotalSize(legs: seq<ExitLeg>): real {
    if legs == [] then 0.0 else legs[0].sizePercent + TotalSize(legs[1..])
  }

  datatype ExitPolicy = ExitPolicy(
    legs: seq<ExitLeg>, moveStopAfterLeg: Option<int>,
    breakevenOffsetR: real, timeStopBars: Option<int>)
  {
    /** What `load_settings` checks.  Nothing orders the legs or bounds the offset. */
    predicate Valid() {
      && legs != []
      && (forall i :: 0 <= i < |legs| ==> legs[i].targetR > 0.0 && legs[i].sizePercent > 0.0)
      && TotalSize(legs) == 100.0
      && (moveStopAfterLeg.Some? ==> 1 <= moveStopAfterLeg.value <= |legs|)
      && (timeStopBars.Some? ==> timeStopBars.value > 0)
    }
  }

  // --------------------------------------------------------------------- trade

  datatype TradeState = AwaitingEntry | Open | Closed | ExpiredUnfilled

  datatype ExitReason = StopLoss | StopAfterPartialTp | LastLeg(legs: nat) | TimeStop | EndOfData

  datatype Resolution = SameCandle | StopOnly | TargetOnly | AtTimeStop | AtEndOfData

  datatype LegFill = LegFill(targetR: real, sizePercent: real, filled: bool, filledAt: Option<int>)

  /** The prices a caller hands to `open_trade`. */
  datatype TradePlan = TradePlan(
    direction: Direction, entryLow: real, entryHigh: real, referenceEntry: real, stopLoss: real)
  {
    /** The stop lies on the losing side of the reference entry. */
    predicate WellPosed() {
      if direction.Bullish? then stopLoss < referenceEntry else referenceEntry < stopLoss
    }
  }

  /** The field values of a `SimulatedTrade`. */
  datatype Trade = Trade(
    plan: TradePlan, legs: seq<LegFill>, state: TradeState, currentStop: real,
    entryFill: Option<real>, enteredAt: Option<int>, closedAt: Option<int>, exitPrice: Option<real>,
    barsSinceEntry: int, barsSinceSignal: int,
    exitReason: Option<ExitReason>, resolution: Option<Resolution>,
    ambiguous: nat, remaining: real, mfeR: real, maeR: real)
  {
    predicate Terminal() { state.Closed? || state.ExpiredUnfilled? }

    /** An open trade knows its fill price. */
    predicate EntryKnown() { state.Open? ==> entryFill.Some? }
  }

  function FreshLegs(policy: ExitPolicy): seq<LegFill> {
    seq(|policy.legs|, i requires 0 <= i < |policy.legs| =>
      LegFill(policy.legs[i].targetR, policy.legs[i].sizePercent, false, None))
  }

  function OpenTrade(policy: ExitPolicy, plan: TradePlan): Trade {
    Trade(plan, FreshLegs(policy), AwaitingEntry, plan.stopLoss,
          None, None, None, None, 0, 0, None, None, 0, 100.0, 0.0, 0.0)
  }

  // ------------------------------------------------------------- one candle

  /** Initial risk per unit once the trade is entered at `entry`. */
  function Risk(plan: TradePlan, entry: real): real {
    Abs(entry - plan.stopLoss)
  }

  /** The price `r` risks beyond the entry, on the winning side. */
  function PriceAtR(plan: TradePlan, entry: real, r: real): real {
    if plan.direction.Bullish? then entry + Risk(plan, entry) * r else entry - Risk(plan, entry) * r
  }

  predicate TouchesEntry(t: Trade, c: Candle) {
    c.low <= t.plan.entryHigh && t.plan.entryLow <= c.high
  }

  predicate StopHit(t: Trade, c: Candle) {
    if t.plan.direction.Bullish? then c.low <= t.currentStop else t.currentStop <= c.high
  }

  predicate TargetHit(t: Trade, leg: LegFill, c: Candle)
    requires t.entryFill.Some?
  {
    var target := PriceAtR(t.plan, t.entryFill.value, leg.targetR);
    if t.plan.direction.Bullish? then target <= c.high else c.low <= target
  }

  predicate LegHit(t: Trade, i: int, c: Candle)
    requires t.entryFill.Some? && 0 <= i < |t.legs|
  {
    !t.legs[i].filled && TargetHit(t, t.legs[i], c)
  }

  /** Which legs the candle reaches: the source's `targets_hit`. */
  function TargetsHit(t: Trade, c: Candle): (hit: seq<bool>)
    requires t.entryFill.Some?
    ensures |hit| == |t.legs|
    ensures forall i :: 0 <= i < |hit| && hit[i] ==> !t.legs[i].filled
  {
    seq(|t.legs|, i requires 0 <= i < |t.legs| => LegHit(t, i, c))
  }

  /** Enters at the reference price of the first candle that touches the zone. */
  function Enter(t: Trade, c: Candle): Trade {
    t.(entryFill := Some(t.plan.referenceEntry), enteredAt := Some(c.closeTime), state := Open)
  }

  /** One more bar in the trade: best and worst excursion so far, in risks. */
  function Excurse(t: Trade, c: Candle): (r: Trade)
    requires t.entryFill.Some?
    ensures r.entryFill == t.entryFill && r.plan == t.plan && |r.legs| == |t.legs|
    ensures r.state == t.state && r.barsSinceEntry == t.barsSinceEntry + 1
  {
    var t1 := t.(barsSinceEntry := t.barsSinceEntry + 1);
    var entry, risk := t.entryFill.value, Risk(t.plan, t.entryFill.value);
    if risk <= 0.0 then t1
    else if t.plan.direction.Bullish? then
      t1.(mfeR := Max(t.mfeR, (c.high - entry) / risk), maeR := Min(t.maeR, (c.low - entry) / risk))
    else
      t1.(mfeR := Max(t.mfeR, (entry - c.low) / risk), maeR := Min(t.maeR, (entry - c.high) / risk))
  }

  predicate AnyFilled(legs: seq<LegFill>) {
    exists i :: 0 <= i < |legs| && legs[i].filled
  }

  predicate AllFilled(legs: seq<LegFill>) {
    forall i :: 0 <= i < |legs| ==> legs[i].filled
  }

  function CloseAtStop(t: Trade, c: Candle, method_: Resolution): Trade {
    t.(state := Closed,
       exitReason := Some(if AnyFilled(t.legs) then StopAfterPartialTp else StopLoss),
       resolution := Some(method_), exitPrice := Some(t.currentStop), closedAt := Some(c.closeTime))
  }

  /** Python's `list.index`: the first element that compares equal. */
  function LegIndex(legs: seq<LegFill>, leg: LegFill): (i: nat)
    requires leg in legs
    ensures i < |legs| && legs[i] == leg
    ensures forall k :: 0 <= k < i ==> legs[k] != leg
  {
    if legs[0] == leg then 0 else 1 + LegIndex(legs[1..], leg)
  }

  function FilledLeg(leg: LegFill, bar: int): LegFill {
    leg.(filled := true, filledAt := Some(bar))
  }

  /** The legs in `hit`, filled at once. */
  function FillHits(legs: seq<LegFill>, hit: seq<bool>, bar: int): (filled: seq<LegFill>)
    requires |hit| == |legs|
    ensures |filled| == |legs|
  {
    seq(|legs|, i requires 0 <= i < |legs| => if hit[i] then FilledLeg(legs[i], bar) else legs[i])
  }

  function FilledSize(legs: seq<LegFill>): real {
    if legs == [] then 0.0
    else (if legs[0].filled then legs[0].sizePercent else 0.0) + FilledSize(legs[1..])
  }

  /** Filling leg `i` moves the stop: its position in the list is late enough. */
  predicate MovesStop(policy: ExitPolicy, legs: seq<LegFill>, i: int)
    requires 0 <= i < |legs|
  {
    policy.moveStopAfterLeg.Some? && LegIndex(legs, legs[i]) + 1 >= policy.moveStopAfterLeg.value
  }

  predicate HitMovesStop(policy: ExitPolicy, filled: seq<LegFill>, hit: seq<bool>)
    requires |hit| == |filled|
  {
    exists i :: 0 <= i < |filled| && hit[i] && MovesStop(policy, filled, i)
  }

  function FillTargets(policy: ExitPolicy, t: Trade, hit: seq<bool>): (r: Trade)
    requires t.entryFill.Some? && |hit| == |t.legs|
    ensures r.entryFill == t.entryFill && r.plan == t.plan && |r.legs| == |t.legs|
  {
    var filled := FillHits(t.legs, hit, t.barsSinceEntry);
    t.(legs := filled,
       remaining := t.remaining - (FilledSize(filled) - FilledSize(t.legs)),
       currentStop := if HitMovesStop(policy, filled, hit)
                      then PriceAtR(t.plan, t.entryFill.value, policy.breakevenOffsetR) else t.currentStop)
  }

  /** After the fills: closed at the last target, at the time stop, or still open. */
  function Resolve(policy: ExitPolicy, t: Trade, c: Candle): (r: Trade)
    requires t.entryFill.Some? && t.legs != []
    ensures r.entryFill == t.entryFill && r.plan == t.plan && |r.legs| == |t.legs|
  {
    if AllFilled(t.legs) then
      t.(state := Closed, exitReason := Some(LastLeg(|t.legs|)), resolution := Some(TargetOnly),
         exitPrice := Some(PriceAtR(t.plan, t.entryFill.value, t.legs[|t.legs| - 1].targetR)), closedAt := Some(c.closeTime))
    else if policy.timeStopBars.Some? && t.barsSinceEntry >= policy.timeStopBars.value then
      t.(state := Closed, exitReason := Some(TimeStop), resolution := Some(AtTimeStop),
         exitPrice := Some(c.close), closedAt := Some(c.closeTime))
    else t
  }

  /** A bar of an open trade.  A candle that reaches both sides counts as a stop. */
  function Manage(policy: ExitPolicy, t: Trade, c: Candle): (r: Trade)
    requires t.entryFill.Some? && t.legs != []
    ensures r.entryFill == t.entryFill && r.plan == t.plan && |r.legs| == |t.legs|
    ensures r.barsSinceEntry == t.barsSinceEntry + 1 && r.barsSinceSignal == t.barsSinceSignal
  {
    var t1 := Excurse(t, c);
    if StopHit(t1, c) then
      if true in TargetsHit(t1, c) then CloseAtStop(t1.(ambiguous := t1.ambiguous + 1), c, SameCandle)
      else CloseAtStop(t1, c, StopOnly)
    else Resolve(policy, FillTargets(policy, t1, TargetsHit(t1, c)), c)
  }

  function Step(policy: ExitPolicy, t: Trade, c: Candle): (r: Trade)
    requires t.EntryKnown() && t.legs != []
    ensures r.EntryKnown() && r.legs != [] && r.plan == t.plan
  {
    if t.Terminal() then t
    else
      var t1 := t.(barsSinceSignal := t.barsSinceSignal + 1);
      if t.state.Open? then Manage(policy, t1, c)
      else if TouchesEntry(t1, c) then Manage(policy, Enter(t1, c), c)
      else if policy.timeStopBars.Some? && t1.barsSinceSignal > policy.timeStopBars.value then
        t1.(state := ExpiredUnfilled)
      else t1
  }

  function CloseAtEnd(t: Trade, last: Candle): Trade {
    if t.state.Open? then
      t.(state := Closed, exitReason := Some(EndOfData), resolution := Some(AtEndOfData),
         exitPrice := Some(last.close), closedAt := Some(last.closeTime))
    else t
  }

  /** Every candle of `cs` in turn. */
  function Replayed(policy: ExitPolicy, t: Trade, cs: seq<Candle>): (r: Trade)
    requires t.EntryKnown() && t.legs != []
    ensures r.EntryKnown() && r.legs != [] && r.plan == t.plan
  {
    if cs == [] then t else Step(policy, Replayed(policy, t, cs[..|cs| - 1]), cs[|cs| - 1])
  }

  // -------------------------------------------------------------- accounting

  /** R banked by the filled legs. */
  function FilledR(legs: seq<LegFill>): real {
    if legs == [] then 0.0
    else (if legs[0].filled then legs[0].targetR * legs[0].sizePercent / 100.0 else 0.0) + FilledR(legs[1..])
  }

  /** `price` in units of initial risk, positive on the winning side. */
  function InR(plan: TradePlan, entry: real, price: real): real
    requires Risk(plan, entry) > 0.0
  {
    if plan.direction.Bullish? then (price - entry) / Risk(plan, entry)
    else (entry - price) / Risk(plan, entry)
  }

  /** Banked R plus the rest of the position closed at `closeR`. */
  function TotalR(filledR: real, closeR: real, remaining: real): real {
    filledR + closeR * remaining / 100.0
  }

  function GrossR(t: Trade): Result<real> {
    if !t.state.Closed? || t.entryFill.None? || t.exitPrice.None? then Raised("gross_r requires a closed, filled trade")
    else if t.remaining == 0.0 then Ok(FilledR(t.legs))
    else if Risk(t.plan, t.entryFill.value) == 0.0 then Raised("gross_r requires positive risk")
    else Ok(TotalR(FilledR(t.legs), InR(t.plan, t.entryFill.value, t.exitPrice.value), t.remaining))
  }
}
