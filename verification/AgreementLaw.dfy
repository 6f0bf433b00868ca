/**
 The exact condition for the online runner and the offline simulator to agree on
 every setup, strategy and plan: no two closed candles of one series open together.
 */
module AgreementLaw {
  import opened Market
  import opened Exits
  import opened Backtest
  import opened BacktestAgreement
  import Bisect
  import Costs
  import Sorting

  /** Settings that load, and a strategy whose plans belong to their series and are well posed. */
  ghost predicate Admissible(setup: Setup, strategy: Strategy, ordered: seq<Candle>) {
    && setup.policy.Valid() && setup.costs.Valid()
    && OwnSeries(strategy, ordered)
    && forall n :: 0 <= n < |ordered| ==>
         forall p <- PlansAt(strategy, ordered, n) :: p.prices.WellPosed() && 0.0 < p.prices.referenceEntry
  }

  ghost predicate Agrees(setup: Setup, strategy: Strategy, candles: seq<Candle>, id: PlanId)
    requires setup.policy.legs != [] && Issued(strategy, Ordered(candles), id)
  {
    var ordered := Ordered(candles);
    Lookup(Online(setup, strategy, candles), id)
    == Listed(Simulated(setup, PlansAt(strategy, ordered, id.candle)[id.rank], ordered[id.candle], candles))
  }

  ghost predicate AlwaysAgree(candles: seq<Candle>) {
    forall setup: Setup, strategy: Strategy, id: PlanId ::
      Admissible(setup, strategy, Ordered(candles)) && Issued(strategy, Ordered(candles), id)
      ==> Agrees(setup, strategy, candles, id)
  }

  // ---------------------------------------------------- a trade that only waits

  /** A price level beyond every candle on both sides. */
  function Beyond(cs: seq<Candle>): (m: real)
    ensures 1.0 <= m && forall c <- cs :: -m < c.low && c.high < m
  {
    if cs == [] then 1.0
    else
      assert forall c <- cs :: c == cs[0] || c in cs[1..];
      Max(Beyond(cs[1..]), Max(1.0 - cs[0].low, 1.0 + cs[0].high))
  }

  predicate Inside(cs: seq<Candle>, m: real) {
    forall i :: 0 <= i < |cs| ==> -m < cs[i].low && cs[i].high < m
  }

  const ONE_LEG := ExitPolicy([ExitLeg(1.0, 100.0)], None, 0.0, None)

  const NO_COSTS := Costs.CostSettings(0.0, 0.0, Costs.Taker, Costs.Taker, 0.0, 0.0, 0.0, Costs.Disabled)

  const COUNTING := Setup(ONE_LEG, NO_COSTS)

  /** Enters on the first candle and reaches neither its stop nor its target. */
  function WaitingPlan(m: real): TradePlan {
    TradePlan(Bullish, -m, m, m, -m)
  }

  ghost predicate Held(m: real, t: Trade, bars: int) {
    && t.plan == WaitingPlan(m) && t.legs == FreshLegs(ONE_LEG) && t.state.Open? && t.currentStop == -m
    && t.entryFill == Some(m) && t.enteredAt.Some? && t.remaining == 100.0 && t.barsSinceEntry == bars
  }

  lemma HeldBar(m: real, t: Trade, c: Candle, bars: int)
    requires 1.0 <= m && -m < c.low && c.high < m && Held(m, t, bars)
    ensures Held(m, Manage(ONE_LEG, t, c), bars + 1)
  {
    var t1 := Excurse(t, c);
    assert Risk(t.plan, m) == 2.0 * m;
    assert PriceAtR(t.plan, m, 1.0) == 3.0 * m;
    var hit := TargetsHit(t1, c);
    assert hit == [false];
    assert FillHits(t1.legs, hit, t1.barsSinceEntry) == t1.legs;
    assert !StopHit(t1, c);
  }

  lemma {:induction false} HeldThrough(m: real, cs: seq<Candle>)
    requires 1.0 <= m && cs != [] && Inside(cs, m)
    ensures Held(m, Replayed(ONE_LEG, OpenTrade(ONE_LEG, WaitingPlan(m)), cs), |cs|)
    decreases |cs|
  {
    hide Manage;
    var init, c := cs[..|cs| - 1], cs[|cs| - 1];
    var t := Replayed(ONE_LEG, OpenTrade(ONE_LEG, WaitingPlan(m)), init);
    var t1 := t.(barsSinceSignal := t.barsSinceSignal + 1);
    if init == [] {
      HeldBar(m, Enter(t1, c), c, 0);
    } else {
      HeldThrough(m, init);
      HeldBar(m, t1, c, |init|);
    }
  }

  lemma HeldCloses(m: real, key: SeriesKey, signal: Candle, t: Trade, bars: int, last: Candle)
    requires 1.0 <= m && Held(m, t, bars) && Sound(t)
    ensures var closed := CloseAtEnd(t, last);
            && Complete(closed)
            && AuditOf(COUNTING, Plan(key, WaitingPlan(m)), signal, closed).Ok?
            && AuditOf(COUNTING, Plan(key, WaitingPlan(m)), signal, closed).value.bars == bars
  {
    var closed := CloseAtEnd(t, last);
    HeldIsWorth(m, closed);
    Costs.BreakdownDefined(NO_COSTS, m, -m, IsStopExit(closed.exitReason.value), closed.enteredAt.value, closed.closedAt.value);
    hide Costs.Breakdown, GrossR, IsStopExit;
  }

  lemma HeldIsWorth(m: real, closed: Trade)
    requires 1.0 <= m && closed.state.Closed? && closed.exitPrice.Some?
    requires closed.plan == WaitingPlan(m) && closed.entryFill == Some(m) && closed.remaining == 100.0
    ensures GrossR(closed).Ok?
  {
    assert Risk(closed.plan, m) == 2.0 * m;
    hide Risk;
  }

  /** Its audit counts the candles it was fed. */
  lemma WaitingCounts(m: real, key: SeriesKey, signal: Candle, later: seq<Candle>)
    requires 1.0 <= m && Inside(later, m)
    ensures var r := Outcome(COUNTING, Plan(key, WaitingPlan(m)), signal, later);
            if later == [] then r == None else r.Some? && r.value.Ok? && r.value.value.bars == |later|
  {
    hide Replayed, AuditOf, Held;
    if later != [] {
      HeldThrough(m, later);
      ReplaySound(ONE_LEG, WaitingPlan(m), later);
      HeldCloses(m, key, signal, Replayed(ONE_LEG, OpenTrade(ONE_LEG, WaitingPlan(m)), later), |later|, later[|later| - 1]);
    }
  }

  // ------------------------------------------------------------ finding twins

  lemma {:induction false} KeptTwice(xs: seq<Candle>, keep: Candle -> bool, i: nat, j: nat)
    requires i < j < |xs| && keep(xs[i]) && keep(xs[j])
    ensures |Sorting.Filter<Candle>(xs, keep)| >= 2
  {
    if i > 0 {
      KeptTwice(xs[1..], keep, i - 1, j - 1);
    } else {
      assert xs[1..][j - 1] == xs[j];
      assert xs[j] in Sorting.Filter<Candle>(xs[1..], keep);
    }
  }

  lemma {:induction false} TwoKept(xs: seq<Candle>, keep: Candle -> bool) returns (i: nat, j: nat)
    requires |Sorting.Filter<Candle>(xs, keep)| >= 2
    ensures i < j < |xs| && keep(xs[i]) && keep(xs[j])
  {
    if keep(xs[0]) {
      var rest := Sorting.Filter<Candle>(xs[1..], keep);
      assert rest[0] in rest;
      var k :| 0 <= k < |xs[1..]| && xs[1..][k] == rest[0];
      i, j := 0, k + 1;
    } else {
      i, j := TwoKept(xs[1..], keep);
      i, j := i + 1, j + 1;
    }
  }

  function OpensAt(key: SeriesKey, time: int): Candle -> bool {
    (c: Candle) => c.key == key && c.openTime == time
  }

  /** Twins of the history are twins of the ordered list. */
  lemma TwinsInOrder(candles: seq<Candle>) returns (a: nat, b: nat)
    requires !UniqueTimes(candles)
    ensures var ordered := Ordered(candles);
            a < b < |ordered| && ordered[a].key == ordered[b].key && ordered[a].openTime == ordered[b].openTime
  {
    var i, j :| 0 <= i < j < |candles| && candles[i].isClosed && candles[j].isClosed
      && candles[i].key == candles[j].key && candles[i].openTime == candles[j].openTime;
    var twin := OpensAt(candles[i].key, candles[i].openTime);
    var both := (c: Candle) => c.isClosed && twin(c);
    KeptTwice(candles, both, i, j);
    var closed := Sorting.Filter(candles, ClosedCandle);
    Sorting.FilterTwice(candles, ClosedCandle, twin, both);
    Sorting.FilterCommutesWithSort(closed, OpenTimeOf, twin);
    hide Sorting.Filter, Sorting.StableSort;
    a, b := TwoKept(Ordered(candles), twin);
  }

  // -------------------------------------------------- the search skips the twin

  lemma SeriesInOrder(candles: seq<Candle>, key: SeriesKey)
    ensures var series := Sorting.Filter(Ordered(candles), OfKey(key));
            && series == Sorting.StableSort(Series(candles, key), OpenTimeOf)
            && forall i, j :: 0 <= i < j < |series| ==> series[i].openTime <= series[j].openTime
  {
    Sorting.FilterCommutesWithSort(Sorting.Filter(candles, ClosedCandle), OpenTimeOf, OfKey(key));
    Sorting.StableSortSorted(Series(candles, key), OpenTimeOf);
    var series := Sorting.StableSort(Series(candles, key), OpenTimeOf);
    assert Sorting.SortedBy(series, OpenTimeOf);
    hide Sorting.StableSort, Series;
    forall i, j | 0 <= i < j < |series| ensures series[i].openTime <= series[j].openTime {
      assert OpenTimeOf(series[i]) <= OpenTimeOf(series[j]);
    }
  }

  /** With a candle of the time itself behind the cut, the search keeps fewer candles. */
  lemma SearchKeepsFewer(series: seq<Candle>, front: seq<Candle>, back: seq<Candle>, time: int, k: nat)
    requires series == front + back && k < |back| && back[k].openTime == time
    requires forall i, j :: 0 <= i < j < |series| ==> series[i].openTime <= series[j].openTime
    ensures |After(series, time)| < |back|
  {
    var ts := OpenTimes(series);
    assert Bisect.NonDescending(ts);
    assert ts[|front| + k] == time;
    assert |front| + k < Bisect.BisectRight(ts, time);
  }

  /** The simulator feeds a plan fewer candles than the runner when a twin follows its signal. */
  lemma FewerOffline(candles: seq<Candle>, p: Pending, b: nat)
    requires p.id.candle < b < |Ordered(candles)|
    requires p.signal == Ordered(candles)[p.id.candle] && p.plan.key == p.signal.key
    requires Ordered(candles)[b].key == p.signal.key && Ordered(candles)[b].openTime == p.signal.openTime
    ensures |After(Sorting.StableSort(Series(candles, p.plan.key), OpenTimeOf), p.signal.openTime)|
          < |Later(Ordered(candles), p, |Ordered(candles)|)|
  {
    var ordered, n, key := Ordered(candles), p.id.candle, p.plan.key;
    SeriesInOrder(candles, key);
    hide Sorting.Filter, Sorting.StableSort, Ordered, After, Series;
    assert ordered == ordered[..n + 1] + ordered[n + 1..|ordered|];
    Sorting.FilterAppend(ordered[..n + 1], ordered[n + 1..|ordered|], OfKey(key));
    var front := Sorting.Filter<Candle>(ordered[..n + 1], OfKey(key));
    var back := Sorting.Filter<Candle>(ordered[n + 1..|ordered|], OfKey(key));
    assert ordered[n + 1..|ordered|][b - (n + 1)] == ordered[b];
    assert ordered[b] in back;
    var k :| 0 <= k < |back| && back[k] == ordered[b];
    SearchKeepsFewer(front + back, front, back, p.signal.openTime, k);
  }

  // -------------------------------------------------------------------- the law

  /** One plan, on the candle at index `n`. */
  function PlanOnceAt(n: nat, plan: Plan): Strategy {
    (history: seq<Candle>) => if |history| == n + 1 then [plan] else []
  }

  lemma CountingIsAdmissible(ordered: seq<Candle>, n: nat, m: real)
    requires n < |ordered| && 1.0 <= m
    ensures var strategy := PlanOnceAt(n, Plan(ordered[n].key, WaitingPlan(m)));
            && Admissible(COUNTING, strategy, ordered) && Issued(strategy, ordered, PlanId(n, 0))
            && PlansAt(strategy, ordered, n) == [Plan(ordered[n].key, WaitingPlan(m))]
  {
    var strategy := PlanOnceAt(n, Plan(ordered[n].key, WaitingPlan(m)));
    assert ONE_LEG.legs[1..] == [] && TotalSize(ONE_LEG.legs) == 100.0;
    forall k | 0 <= k < |ordered|
      ensures PlansAt(strategy, ordered, k) == if k == n then [Plan(ordered[n].key, WaitingPlan(m))] else []
    {
      assert |ordered[..k + 1]| == k + 1;
    }
  }

  lemma TwinsDisagree(candles: seq<Candle>)
    requires !UniqueTimes(candles)
    ensures !AlwaysAgree(candles)
  {
    var a, b := TwinsInOrder(candles);
    var ordered, m, id := Ordered(candles), Beyond(Ordered(candles)), PlanId(a, 0);
    var plan := Plan(ordered[a].key, WaitingPlan(m));
    var strategy := PlanOnceAt(a, plan);
    CountingIsAdmissible(ordered, a, m);
    var p := OnlineIsOwn(COUNTING, strategy, candles, id);
    FewerOffline(candles, p, b);
    var online := Later(ordered, p, |ordered|);
    var offline := After(Sorting.StableSort(Series(candles, plan.key), OpenTimeOf), ordered[a].openTime);
    AllInside(candles, plan.key, ordered[a].openTime, p, m);
    hide Online, Ordered, Outcome, Later, After, Series, Lookup, Issued, PlansAt, PlanOnceAt, OwnSeries;
    WaitingCounts(m, plan.key, ordered[a], online);
    WaitingCounts(m, plan.key, ordered[a], offline);
    assert !Agrees(COUNTING, strategy, candles, id);
  }

  lemma AllInside(candles: seq<Candle>, key: SeriesKey, time: int, p: Pending, m: real)
    requires p.id.candle < |Ordered(candles)| && forall c <- Ordered(candles) :: -m < c.low && c.high < m
    ensures Inside(Later(Ordered(candles), p, |Ordered(candles)|), m)
    ensures Inside(After(Sorting.StableSort(Series(candles, key), OpenTimeOf), time), m)
  {
    var ordered := Ordered(candles);
    SeriesInOrder(candles, key);
    hide Ordered, Sorting.StableSort, Series, Sorting.Filter;
    var later := Later(ordered, p, |ordered|);
    forall i | 0 <= i < |later| ensures later[i] in ordered {
      assert later[i] in later;
    }
    var series := Sorting.Filter<Candle>(ordered, OfKey(key));
    var after := After(series, time);
    forall i | 0 <= i < |after| ensures after[i] in ordered {
      assert after[i] in after && after[i] in series;
    }
  }

  /**
   Online equals offline on every admissible setup, strategy and plan if and only
   if no two closed candles of one series open at the same time.
   */
  lemma AgreementIsUniqueness(candles: seq<Candle>)
    ensures AlwaysAgree(candles) <==> UniqueTimes(candles)
  {
    if UniqueTimes(candles) {
      hide UniqueTimes, Ordered, Online, Simulated, Lookup;
      forall setup: Setup, strategy: Strategy, id: PlanId
        | Admissible(setup, strategy, Ordered(candles)) && Issued(strategy, Ordered(candles), id)
        ensures Agrees(setup, strategy, candles, id)
      {
        OnlineEqualsOffline(setup, strategy, candles, id);
      }
    } else {
      TwinsDisagree(candles);
    }
  }
}
