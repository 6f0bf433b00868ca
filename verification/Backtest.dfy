/**
 Two drivers of the exit simulator: the online runner, which replays all candles
 once and carries every pending trade along (`app/backtest_runner.py`), and the
 offline simulator, which replays one plan over the later candles of its series
 (`app/backtest/phase9.py`).  This module says what each computes.
 */
module Backtest {
  import opened Market
  import opened Exits
  import Costs
  import Sorting
  import Bisect

  /** What the strategy hands over: a series and the prices of the risk analysis. */
  datatype Plan = Plan(key: SeriesKey, prices: TradePlan)

  datatype Setup = Setup(policy: ExitPolicy, costs: Costs.CostSettings)

  /** The result columns of a `TradeAudit`. */
  datatype Audit = Audit(
    plan: Plan, signalTime: int, enteredAt: int, exitTime: int, exitPrice: real, exitReason: ExitReason,
    grossR: real, costsR: real, netR: real, resolution: Resolution, ambiguous: bool,
    bars: int, mfeR: real, maeR: real)

  predicate IsStopExit(reason: ExitReason) { reason.StopLoss? || reason.StopAfterPartialTp? }

  /** A closed trade has every field an audit reads. */
  predicate Complete(t: Trade) {
    && t.state.Closed? && t.entryFill.Some? && t.enteredAt.Some? && t.closedAt.Some? && t.exitPrice.Some?
    && t.exitReason.Some? && t.resolution.Some?
  }

  function AuditOf(setup: Setup, plan: Plan, signal: Candle, t: Trade): Result<Audit>
    requires Complete(t)
  {
    match Costs.Breakdown(setup.costs, t.entryFill.value, t.plan.stopLoss, IsStopExit(t.exitReason.value),
                          t.enteredAt.value, t.closedAt.value)
    case Raised(e) => Raised(e)
    case Ok(cost) =>
      match GrossR(t)
      case Raised(e) => Raised(e)
      case Ok(gross) =>
        Ok(Audit(plan, signal.closeTime, t.enteredAt.value, t.closedAt.value, t.exitPrice.value, t.exitReason.value,
                 gross, cost.totalR, gross - cost.totalR, t.resolution.value, t.ambiguous > 0,
                 t.barsSinceEntry, t.mfeR, t.maeR))
  }

  /** The run so far has either no exit data or all of it. */
  predicate Sound(t: Trade) {
    && (t.state.Open? ==> t.entryFill.Some? && t.enteredAt.Some?)
    && (t.state.Closed? ==> Complete(t))
  }

  lemma ManageSound(policy: ExitPolicy, t: Trade, c: Candle)
    requires t.entryFill.Some? && t.enteredAt.Some? && t.legs != [] && t.state.Open?
    ensures Sound(Manage(policy, t, c))
    ensures Manage(policy, t, c).enteredAt == t.enteredAt
  {
    hide TargetsHit, FillHits, PriceAtR, StopHit, Risk;
  }

  lemma StepSound(policy: ExitPolicy, t: Trade, c: Candle)
    requires Sound(t) && t.legs != []
    ensures Sound(Step(policy, t, c))
  {
    hide Manage;
    var t1 := t.(barsSinceSignal := t.barsSinceSignal + 1);
    if t.state.Open? {
      ManageSound(policy, t1, c);
    } else if !t.Terminal() && TouchesEntry(t1, c) {
      ManageSound(policy, Enter(t1, c), c);
    }
  }

  lemma {:induction false} ReplaySound(policy: ExitPolicy, plan: TradePlan, cs: seq<Candle>)
    requires policy.legs != []
    ensures Sound(Replayed(policy, OpenTrade(policy, plan), cs))
    decreases |cs|
  {
    if cs != [] {
      hide Step;
      ReplaySound(policy, plan, cs[..|cs| - 1]);
      StepSound(policy, Replayed(policy, OpenTrade(policy, plan), cs[..|cs| - 1]), cs[|cs| - 1]);
    }
  }

  // ------------------------------------------------------------- offline

  function OfKey(key: SeriesKey): Candle -> bool { (c: Candle) => c.key == key }

  /** The closed candles of one series, in the order given. */
  function Series(candles: seq<Candle>, key: SeriesKey): seq<Candle> {
    Sorting.Filter(Sorting.Filter(candles, ClosedCandle), OfKey(key))
  }

  function OpenTimes(cs: seq<Candle>): (ts: seq<int>)
    ensures |ts| == |cs|
  {
    seq(|cs|, i requires 0 <= i < |cs| => cs[i].openTime)
  }

  /** The part of a series that opens after `time`. */
  function After(series: seq<Candle>, time: int): seq<Candle> {
    series[Bisect.BisectRight(OpenTimes(series), time)..]
  }

  /** What becomes of one plan over the candles that follow its signal. */
  function Outcome(setup: Setup, plan: Plan, signal: Candle, later: seq<Candle>): Option<Result<Audit>>
    requires setup.policy.legs != []
  {
    if later == [] then None
    else
      ReplaySound(setup.policy, plan.prices, later);
      var t := CloseAtEnd(Replayed(setup.policy, OpenTrade(setup.policy, plan.prices), later), later[|later| - 1]);
      if t.state.Closed? then Some(AuditOf(setup, plan, signal, t)) else None
  }

  /** The offline result of one plan against a whole candle history. */
  function Simulated(setup: Setup, plan: Plan, signal: Candle, candles: seq<Candle>): Option<Result<Audit>>
    requires setup.policy.legs != []
  {
    Outcome(setup, plan, signal,
            After(Sorting.StableSort(Series(candles, plan.key), OpenTimeOf), signal.openTime))
  }

  // -------------------------------------------------------------- online

  /** Names a plan: the index of its signal candle and its rank among the plans of that candle. */
  datatype PlanId = PlanId(candle: nat, rank: nat)

  datatype Pending = Pending(id: PlanId, plan: Plan, signal: Candle, trade: Trade)

  datatype Saved = Saved(id: PlanId, audit: Result<Audit>)

  datatype RunState = RunState(pending: seq<Pending>, saved: seq<Saved>)

  function NewPending(setup: Setup, c: Candle, n: nat, plans: seq<Plan>): (r: seq<Pending>)
    requires setup.policy.legs != []
    ensures |r| == |plans| && AllReady(r)
  {
    seq(|plans|, j requires 0 <= j < |plans| =>
      Pending(PlanId(n, j), plans[j], c, OpenTrade(setup.policy, plans[j].prices)))
  }

  /** Candle number `n` moves this trade: it follows the signal and belongs to the series. */
  predicate Eligible(p: Pending, c: Candle, n: nat) {
    p.id.candle < n && p.plan.key == c.key
  }

  ghost predicate Ready(p: Pending) {
    Sound(p.trade) && p.trade.legs != []
  }

  function Advanced(setup: Setup, p: Pending, c: Candle): (r: Pending)
    requires Ready(p)
    ensures Ready(r) && r.id == p.id && r.plan == p.plan && r.signal == p.signal
  {
    StepSound(setup.policy, p.trade, c);
    p.(trade := Step(setup.policy, p.trade, c))
  }

  ghost predicate AllReady(ps: seq<Pending>) {
    forall i :: 0 <= i < |ps| ==> Ready(ps[i])
  }

  /** The pending trades one candle leaves behind. */
  function Survivors(setup: Setup, ps: seq<Pending>, c: Candle, n: nat): (r: seq<Pending>)
    requires AllReady(ps)
    ensures AllReady(r)
  {
    if ps == [] then []
    else
      var rest := Survivors(setup, ps[1..], c, n);
      if !Eligible(ps[0], c, n) then [ps[0]] + rest
      else
        var p := Advanced(setup, ps[0], c);
        if p.trade.Terminal() then rest else [p] + rest
  }

  function SavedRecord(setup: Setup, p: Pending): Saved
    requires Complete(p.trade)
  {
    Saved(p.id, AuditOf(setup, p.plan, p.signal, p.trade))
  }

  /** The trades one candle closes, in list order. */
  function ClosedNow(setup: Setup, ps: seq<Pending>, c: Candle, n: nat): seq<Saved>
    requires AllReady(ps)
  {
    if ps == [] then []
    else
      var rest := ClosedNow(setup, ps[1..], c, n);
      if !Eligible(ps[0], c, n) then rest
      else
        var p := Advanced(setup, ps[0], c);
        if p.trade.state.Closed? then [SavedRecord(setup, p)] + rest else rest
  }

  /** A strategy turns the history up to a candle into the plans that candle triggers. */
  type Strategy = seq<Candle> -> seq<Plan>

  /** The plans triggered by candle number `n`. */
  function PlansAt(strategy: Strategy, ordered: seq<Candle>, n: nat): seq<Plan>
    requires n < |ordered|
  {
    strategy(ordered[..n + 1])
  }

  function OnCandle(setup: Setup, st: RunState, c: Candle, n: nat, plans: seq<Plan>): (r: RunState)
    requires setup.policy.legs != [] && AllReady(st.pending)
    ensures AllReady(r.pending)
  {
    var ps := st.pending + NewPending(setup, c, n, plans);
    RunState(Survivors(setup, ps, c, n), st.saved + ClosedNow(setup, ps, c, n))
  }

  function RunTo(setup: Setup, strategy: Strategy, ordered: seq<Candle>, n: nat): (r: RunState)
    requires setup.policy.legs != [] && n <= |ordered|
    ensures AllReady(r.pending)
  {
    if n == 0 then RunState([], [])
    else OnCandle(setup, RunTo(setup, strategy, ordered, n - 1), ordered[n - 1], n - 1, PlansAt(strategy, ordered, n - 1))
  }

  /** Open trades left at the end close at the last candle of their series. */
  function EndOfRun(setup: Setup, ps: seq<Pending>, ordered: seq<Candle>): seq<Saved>
    requires AllReady(ps)
  {
    if ps == [] then []
    else
      var rest := EndOfRun(setup, ps[1..], ordered);
      var series := Sorting.Filter(ordered, OfKey(ps[0].plan.key));
      if ps[0].trade.state.Open? && series != [] then
        [SavedRecord(setup, ps[0].(trade := CloseAtEnd(ps[0].trade, series[|series| - 1])))] + rest
      else rest
  }

  function Ordered(candles: seq<Candle>): seq<Candle> {
    Sorting.StableSort(Sorting.Filter(candles, ClosedCandle), OpenTimeOf)
  }

  /** Everything the online runner prices, in order, a trade that cannot be priced as its error. */
  function Online(setup: Setup, strategy: Strategy, candles: seq<Candle>): seq<Saved>
    requires setup.policy.legs != []
  {
    var ordered := Ordered(candles);
    var st := RunTo(setup, strategy, ordered, |ordered|);
    st.saved + EndOfRun(setup, st.pending, ordered)
  }

  // ------------------------------------------- a trade that cannot be priced

  /** The error that ends a run with this log, if there is one. */
  function FailureOf(log: seq<Saved>): Option<string> {
    if log == [] then None
    else if log[0].audit.Raised? then Some(log[0].audit.error)
    else FailureOf(log[1..])
  }

  /** What is persisted of a log: everything in front of the first error. */
  function Kept(log: seq<Saved>): (r: seq<Saved>)
    ensures r <= log && forall s <- r :: s.audit.Ok?
  {
    if log == [] || log[0].audit.Raised? then [] else [log[0]] + Kept(log[1..])
  }

  lemma {:induction false} KeptAppend(a: seq<Saved>, b: seq<Saved>)
    ensures FailureOf(a + b) == if FailureOf(a).Some? then FailureOf(a) else FailureOf(b)
    ensures Kept(a + b) == if FailureOf(a).Some? then Kept(a) else a + Kept(b)
    ensures FailureOf(a).None? ==> Kept(a) == a
  {
    if a == [] {
      assert a + b == b;
    } else {
      assert (a + b)[1..] == a[1..] + b;
      KeptAppend(a[1..], b);
    }
  }

  /** Working off `log` from the stored `base` on ends with `saved`, and with the error if there is one. */
  ghost predicate Books(base: seq<Saved>, log: seq<Saved>, saved: seq<Saved>, failed: Option<string>) {
    saved == base + Kept(log) && failed == FailureOf(log)
  }

  lemma BooksMore(base: seq<Saved>, a: seq<Saved>, b: seq<Saved>, middle: seq<Saved>, saved: seq<Saved>, failed: Option<string>)
    requires Books(base, a, middle, None) && Books(middle, b, saved, failed)
    ensures Books(base, a + b, saved, failed)
  {
    KeptAppend(a, b);
    hide Kept, FailureOf;
    JoinedTwice(base, a, Kept(b));
  }

  lemma JoinedTwice(a: seq<Saved>, b: seq<Saved>, c: seq<Saved>)
    ensures (a + b) + c == a + (b + c)
  {
  }

  lemma BooksNoMore(base: seq<Saved>, a: seq<Saved>, b: seq<Saved>, saved: seq<Saved>, failed: Option<string>)
    requires Books(base, a, saved, failed) && failed.Some?
    ensures Books(base, a + b, saved, failed)
  {
    KeptAppend(a, b);
  }
}
