/**
 The online runner and the offline simulator agree: whatever the strategy, each
 plan is persisted exactly once with the offline result, or not at all when the
 offline simulator returns nothing.
 */
module BacktestAgreement {
  import opened Market
  import opened Exits
  import opened Backtest
  import ExitProgress
  import Sorting
  import Bisect

  /** The audits stored under one id, in the order they were saved. */
  function Lookup(saved: seq<Saved>, id: PlanId): seq<Result<Audit>> {
    if saved == [] then []
    else (if saved[0].id == id then [saved[0].audit] else []) + Lookup(saved[1..], id)
  }

  lemma {:induction false} LookupAppend(a: seq<Saved>, b: seq<Saved>, id: PlanId)
    ensures Lookup(a + b, id) == Lookup(a, id) + Lookup(b, id)
  {
    if a == [] {
      assert a + b == b;
    } else {
      assert (a + b)[1..] == a[1..] + b;
      LookupAppend(a[1..], b, id);
    }
  }

  // ------------------------------------------- every plan, as if it ran alone

  /** The candles of a plan's series between its signal and candle number `n`. */
  function Later(ordered: seq<Candle>, p: Pending, n: nat): seq<Candle>
    requires p.id.candle < n <= |ordered|
  {
    Sorting.Filter(ordered[p.id.candle + 1..n], OfKey(p.plan.key))
  }

  function Alone(setup: Setup, ordered: seq<Candle>, p: Pending, n: nat): (r: Pending)
    requires setup.policy.legs != [] && p.id.candle < n <= |ordered|
    ensures Ready(r) && r.id == p.id && r.plan == p.plan && r.signal == p.signal
  {
    ReplaySound(setup.policy, p.plan.prices, Later(ordered, p, n));
    p.(trade := Replayed(setup.policy, OpenTrade(setup.policy, p.plan.prices), Later(ordered, p, n)))
  }

  function PlansUpTo(setup: Setup, strategy: Strategy, ordered: seq<Candle>, n: nat): (r: seq<Pending>)
    requires setup.policy.legs != [] && n <= |ordered|
    ensures forall i :: 0 <= i < |r| ==> r[i].id.candle < n
  {
    if n == 0 then []
    else PlansUpTo(setup, strategy, ordered, n - 1) + NewPending(setup, ordered[n - 1], n - 1, PlansAt(strategy, ordered, n - 1))
  }

  /** The unfinished plans of `ps`, each with its own replay. */
  function Unfinished(setup: Setup, ordered: seq<Candle>, ps: seq<Pending>, n: nat): (r: seq<Pending>)
    requires setup.policy.legs != [] && n <= |ordered|
    requires forall i :: 0 <= i < |ps| ==> ps[i].id.candle < n
    ensures AllReady(r)
  {
    if ps == [] then []
    else
      var p := Alone(setup, ordered, ps[0], n);
      (if p.trade.Terminal() then [] else [p]) + Unfinished(setup, ordered, ps[1..], n)
  }

  ghost predicate Distinct(ps: seq<Pending>) {
    forall i, j :: 0 <= i < j < |ps| ==> ps[i].id != ps[j].id
  }

  lemma LaterGrows(ordered: seq<Candle>, p: Pending, n: nat)
    requires p.id.candle < n < |ordered|
    ensures Later(ordered, p, n + 1) == Later(ordered, p, n) + if ordered[n].key == p.plan.key then [ordered[n]] else []
  {
    var c := ordered[n];
    assert ordered[p.id.candle + 1..n + 1] == ordered[p.id.candle + 1..n] + [c];
    Sorting.FilterAppend(ordered[p.id.candle + 1..n], [c], OfKey(p.plan.key));
    assert [c][1..] == [];
  }

  /** One more candle moves the plan's own replay exactly as the runner moves it. */
  lemma AloneGrows(setup: Setup, ordered: seq<Candle>, p: Pending, n: nat)
    requires setup.policy.legs != [] && p.id.candle < n < |ordered|
    ensures var before := Alone(setup, ordered, p, n);
            Alone(setup, ordered, p, n + 1)
            == if Eligible(before, ordered[n], n) then Advanced(setup, before, ordered[n]) else before
  {
    hide Step;
    LaterGrows(ordered, p, n);
    var later := Later(ordered, p, n);
    assert (later + [ordered[n]])[..|later + [ordered[n]]| - 1] == later;
    assert later + [] == later;
  }

  lemma FinishedStaysFinished(setup: Setup, ordered: seq<Candle>, p: Pending, n: nat)
    requires setup.policy.legs != [] && p.id.candle < n < |ordered|
    requires Alone(setup, ordered, p, n).trade.Terminal()
    ensures Alone(setup, ordered, p, n + 1) == Alone(setup, ordered, p, n)
  {
    AloneGrows(setup, ordered, p, n);
  }

  lemma {:induction false} SurvivorsAppend(setup: Setup, a: seq<Pending>, b: seq<Pending>, c: Candle, n: nat)
    requires AllReady(a) && AllReady(b)
    ensures Survivors(setup, a + b, c, n) == Survivors(setup, a, c, n) + Survivors(setup, b, c, n)
    ensures ClosedNow(setup, a + b, c, n) == ClosedNow(setup, a, c, n) + ClosedNow(setup, b, c, n)
  {
    hide Advanced, SavedRecord;
    if a == [] {
      assert a + b == b;
    } else {
      assert (a + b)[1..] == a[1..] + b;
      SurvivorsAppend(setup, a[1..], b, c, n);
    }
  }

  lemma {:induction false} NewPlansWait(setup: Setup, ps: seq<Pending>, c: Candle, n: nat)
    requires AllReady(ps) && forall i :: 0 <= i < |ps| ==> ps[i].id.candle == n
    ensures Survivors(setup, ps, c, n) == ps && ClosedNow(setup, ps, c, n) == []
  {
    if ps != [] {
      NewPlansWait(setup, ps[1..], c, n);
    }
  }

  lemma {:induction false} UnfinishedAppend(setup: Setup, ordered: seq<Candle>, a: seq<Pending>, b: seq<Pending>, n: nat)
    requires setup.policy.legs != [] && n <= |ordered|
    requires forall i :: 0 <= i < |a| ==> a[i].id.candle < n
    requires forall i :: 0 <= i < |b| ==> b[i].id.candle < n
    ensures Unfinished(setup, ordered, a + b, n) == Unfinished(setup, ordered, a, n) + Unfinished(setup, ordered, b, n)
  {
    hide Alone;
    if a == [] {
      assert a + b == b;
    } else {
      assert (a + b)[1..] == a[1..] + b;
      UnfinishedAppend(setup, ordered, a[1..], b, n);
    }
  }

  lemma {:induction false} OldPlansMoveTogether(setup: Setup, ordered: seq<Candle>, ps: seq<Pending>, n: nat)
    requires setup.policy.legs != [] && n < |ordered|
    requires forall i :: 0 <= i < |ps| ==> ps[i].id.candle < n
    ensures Survivors(setup, Unfinished(setup, ordered, ps, n), ordered[n], n) == Unfinished(setup, ordered, ps, n + 1)
  {
    hide Alone, Advanced;
    if ps != [] {
      OldPlansMoveTogether(setup, ordered, ps[1..], n);
      var p := Alone(setup, ordered, ps[0], n);
      AloneGrows(setup, ordered, ps[0], n);
      var rest := Unfinished(setup, ordered, ps[1..], n);
      if p.trade.Terminal() {
        FinishedStaysFinished(setup, ordered, ps[0], n);
        assert [] + rest == rest;
        assert [] + Unfinished(setup, ordered, ps[1..], n + 1) == Unfinished(setup, ordered, ps[1..], n + 1);
      } else {
        assert ([p] + rest)[1..] == rest;
      }
    }
  }

  lemma {:induction false} FreshPlansUnfinished(setup: Setup, ordered: seq<Candle>, ps: seq<Pending>, n: nat)
    requires setup.policy.legs != [] && n < |ordered|
    requires forall i :: 0 <= i < |ps| ==>
      ps[i].id.candle == n && ps[i].trade == OpenTrade(setup.policy, ps[i].plan.prices)
    ensures Unfinished(setup, ordered, ps, n + 1) == ps
  {
    if ps != [] {
      FreshPlansUnfinished(setup, ordered, ps[1..], n);
      assert ordered[n + 1..n + 1] == [];
      assert Later(ordered, ps[0], n + 1) == [];
    }
  }

  /** The pending list of the runner is, at every candle, exactly the unfinished plans. */
  lemma {:induction false} PendingIsUnfinished(setup: Setup, strategy: Strategy, ordered: seq<Candle>, n: nat)
    requires setup.policy.legs != [] && n <= |ordered|
    ensures RunTo(setup, strategy, ordered, n).pending
         == Unfinished(setup, ordered, PlansUpTo(setup, strategy, ordered, n), n)
  {
    if n > 0 {
      hide Survivors, ClosedNow, Alone, OpenTrade;
      PendingIsUnfinished(setup, strategy, ordered, n - 1);
      var old_ := PlansUpTo(setup, strategy, ordered, n - 1);
      var new_ := NewPending(setup, ordered[n - 1], n - 1, PlansAt(strategy, ordered, n - 1));
      var st := RunTo(setup, strategy, ordered, n - 1);
      SurvivorsAppend(setup, st.pending, new_, ordered[n - 1], n - 1);
      NewPlansWait(setup, new_, ordered[n - 1], n - 1);
      OldPlansMoveTogether(setup, ordered, old_, n - 1);
      FreshPlansUnfinished(setup, ordered, new_, n - 1);
      UnfinishedAppend(setup, ordered, old_, new_, n);
    }
  }

  // --------------------------------------------- what has been saved so far

  ghost predicate KnownId(ps: seq<Pending>, id: PlanId) {
    exists i :: 0 <= i < |ps| && ps[i].id == id
  }

  /** The audit of a plan's own replay, once that replay is closed. */
  function Booked(setup: Setup, p: Pending): seq<Result<Audit>>
    requires Ready(p)
  {
    if p.trade.state.Closed? then [AuditOf(setup, p.plan, p.signal, p.trade)] else []
  }

  lemma {:induction false} NothingForUnknown(setup: Setup, ps: seq<Pending>, c: Candle, n: nat, id: PlanId)
    requires AllReady(ps) && !KnownId(ps, id)
    ensures Lookup(ClosedNow(setup, ps, c, n), id) == []
  {
    if ps != [] {
      assert forall i :: 0 <= i < |ps[1..]| ==> ps[1..][i].id == ps[i + 1].id;
      NothingForUnknown(setup, ps[1..], c, n, id);
    }
  }

  lemma {:induction false} UnfinishedKeepsIds(setup: Setup, ordered: seq<Candle>, ps: seq<Pending>, n: nat, id: PlanId)
    requires setup.policy.legs != [] && n <= |ordered|
    requires forall i :: 0 <= i < |ps| ==> ps[i].id.candle < n
    requires KnownId(Unfinished(setup, ordered, ps, n), id)
    ensures KnownId(ps, id)
  {
    hide Alone;
    var all := Unfinished(setup, ordered, ps, n);
    if ps != [] && ps[0].id != id {
      var rest := Unfinished(setup, ordered, ps[1..], n);
      var i :| 0 <= i < |all| && all[i].id == id;
      var k := i - (|all| - |rest|);
      assert rest[k] == all[i];
      UnfinishedKeepsIds(setup, ordered, ps[1..], n, id);
      var j :| 0 <= j < |ps[1..]| && ps[1..][j].id == id;
      assert ps[j + 1].id == id;
    }
  }

  /** The plan itself, if it is not finished. */
  function Still(head: Pending): seq<Pending> {
    if head.trade.Terminal() then [] else [head]
  }

  /** The candle saves a plan that still runs exactly when it closes it. */
  lemma ClosingHead(setup: Setup, ordered: seq<Candle>, p: Pending, n: nat)
    requires setup.policy.legs != [] && p.id.candle < n < |ordered|
    ensures var head := Alone(setup, ordered, p, n);
            Booked(setup, head) + Lookup(ClosedNow(setup, Still(head), ordered[n], n), p.id)
            == Booked(setup, Alone(setup, ordered, p, n + 1))
  {
    hide AuditOf, Alone;
    var head := Alone(setup, ordered, p, n);
    AloneGrows(setup, ordered, p, n);
    if head.trade.Terminal() {
      FinishedStaysFinished(setup, ordered, p, n);
    } else {
      assert [head][1..] == [];
    }
  }

  /** It saves nothing under another id. */
  lemma ClosingOther(setup: Setup, ordered: seq<Candle>, p: Pending, n: nat, id: PlanId)
    requires setup.policy.legs != [] && p.id.candle < n < |ordered| && p.id != id
    ensures Lookup(ClosedNow(setup, Still(Alone(setup, ordered, p, n)), ordered[n], n), id) == []
  {
    hide Alone;
    NothingForUnknown(setup, Still(Alone(setup, ordered, p, n)), ordered[n], n, id);
  }

  lemma ClosingSplit(setup: Setup, ordered: seq<Candle>, ps: seq<Pending>, n: nat, id: PlanId)
    requires setup.policy.legs != [] && n < |ordered| && ps != []
    requires forall i :: 0 <= i < |ps| ==> ps[i].id.candle < n
    ensures Lookup(ClosedNow(setup, Unfinished(setup, ordered, ps, n), ordered[n], n), id)
         == Lookup(ClosedNow(setup, Still(Alone(setup, ordered, ps[0], n)), ordered[n], n), id)
            + Lookup(ClosedNow(setup, Unfinished(setup, ordered, ps[1..], n), ordered[n], n), id)
  {
    hide Alone, AuditOf, ClosedNow, Lookup;
    var front, rest := Still(Alone(setup, ordered, ps[0], n)), Unfinished(setup, ordered, ps[1..], n);
    SurvivorsAppend(setup, front, rest, ordered[n], n);
    LookupAppend(ClosedNow(setup, front, ordered[n], n), ClosedNow(setup, rest, ordered[n], n), id);
  }

  /** One candle saves a plan exactly when it closes the plan's own replay. */
  lemma {:induction false} ClosingCandle(setup: Setup, ordered: seq<Candle>, ps: seq<Pending>, n: nat, j: nat)
    requires setup.policy.legs != [] && n < |ordered| && j < |ps| && Distinct(ps)
    requires forall i :: 0 <= i < |ps| ==> ps[i].id.candle < n
    ensures var closed := ClosedNow(setup, Unfinished(setup, ordered, ps, n), ordered[n], n);
            Booked(setup, Alone(setup, ordered, ps[j], n)) + Lookup(closed, ps[j].id)
            == Booked(setup, Alone(setup, ordered, ps[j], n + 1))
  {
    hide Alone, AuditOf, ClosedNow, Lookup, Unfinished, Booked, Still;
    ClosingSplit(setup, ordered, ps, n, ps[j].id);
    if j == 0 {
      var rest := Unfinished(setup, ordered, ps[1..], n);
      if KnownId(rest, ps[0].id) {
        UnfinishedKeepsIds(setup, ordered, ps[1..], n, ps[0].id);
        assert false;
      }
      NothingForUnknown(setup, rest, ordered[n], n, ps[0].id);
      ClosingHead(setup, ordered, ps[0], n);
    } else {
      assert ps[0].id != ps[j].id;
      ClosingOther(setup, ordered, ps[0], n, ps[j].id);
      ClosingCandle(setup, ordered, ps[1..], n, j - 1);
    }
  }

  lemma {:induction false} PlanIdsDistinct(setup: Setup, strategy: Strategy, ordered: seq<Candle>, n: nat)
    requires setup.policy.legs != [] && n <= |ordered|
    ensures Distinct(PlansUpTo(setup, strategy, ordered, n))
  {
    if n > 0 {
      PlanIdsDistinct(setup, strategy, ordered, n - 1);
    }
  }

  /** At every candle each plan has been saved exactly if, and as, its own replay is closed. */
  lemma {:induction false} SavedIsBooked(setup: Setup, strategy: Strategy, ordered: seq<Candle>, n: nat, j: nat)
    requires setup.policy.legs != [] && n <= |ordered| && j < |PlansUpTo(setup, strategy, ordered, n)|
    ensures var p := PlansUpTo(setup, strategy, ordered, n)[j];
            Lookup(RunTo(setup, strategy, ordered, n).saved, p.id) == Booked(setup, Alone(setup, ordered, p, n))
  {
    hide Alone, Booked, RunTo, ClosedNow, NewPending, Unfinished, Lookup;
    if n > 0 {
      var p := PlansUpTo(setup, strategy, ordered, n)[j];
      var old_ := PlansUpTo(setup, strategy, ordered, n - 1);
      LookupGrows(setup, strategy, ordered, n - 1, p.id);
      PlanIdsDistinct(setup, strategy, ordered, n - 1);
      if j < |old_| {
        SavedIsBooked(setup, strategy, ordered, n - 1, j);
        ClosingCandle(setup, ordered, old_, n - 1, j);
      } else {
        FreshIsUnknown(setup, strategy, ordered, n, j);
        SavedUnknown(setup, strategy, ordered, n - 1, p.id);
        UnknownUnfinished(setup, ordered, old_, n - 1, p.id);
        FreshIsNotBooked(setup, ordered, p, n);
      }
    }
  }

  lemma FreshIsUnknown(setup: Setup, strategy: Strategy, ordered: seq<Candle>, n: nat, j: nat)
    requires setup.policy.legs != [] && 0 < n <= |ordered|
    requires |PlansUpTo(setup, strategy, ordered, n - 1)| <= j < |PlansUpTo(setup, strategy, ordered, n)|
    ensures var p := PlansUpTo(setup, strategy, ordered, n)[j];
            p.id.candle == n - 1 && !KnownId(PlansUpTo(setup, strategy, ordered, n - 1), p.id)
  {
  }

  lemma StillUnknown(setup: Setup, strategy: Strategy, ordered: seq<Candle>, n: nat, id: PlanId)
    requires setup.policy.legs != [] && 0 < n <= |ordered| && !KnownId(PlansUpTo(setup, strategy, ordered, n), id)
    ensures !KnownId(PlansUpTo(setup, strategy, ordered, n - 1), id)
  {
    var old_ := PlansUpTo(setup, strategy, ordered, n - 1);
    forall i | 0 <= i < |old_| ensures old_[i].id != id {
      assert PlansUpTo(setup, strategy, ordered, n)[i] == old_[i];
    }
  }

  lemma {:induction false} SavedUnknown(setup: Setup, strategy: Strategy, ordered: seq<Candle>, n: nat, id: PlanId)
    requires setup.policy.legs != [] && n <= |ordered| && !KnownId(PlansUpTo(setup, strategy, ordered, n), id)
    ensures Lookup(RunTo(setup, strategy, ordered, n).saved, id) == []
  {
    hide OnCandle, ClosedNow, PlansUpTo, KnownId, Unfinished;
    if n > 0 {
      var old_ := PlansUpTo(setup, strategy, ordered, n - 1);
      StillUnknown(setup, strategy, ordered, n, id);
      SavedUnknown(setup, strategy, ordered, n - 1, id);
      LookupGrows(setup, strategy, ordered, n - 1, id);
      UnknownUnfinished(setup, ordered, old_, n - 1, id);
    }
  }

  lemma ClosedThisCandle(setup: Setup, strategy: Strategy, ordered: seq<Candle>, n: nat)
    requires setup.policy.legs != [] && n < |ordered|
    ensures RunTo(setup, strategy, ordered, n + 1).saved
         == RunTo(setup, strategy, ordered, n).saved
            + ClosedNow(setup, Unfinished(setup, ordered, PlansUpTo(setup, strategy, ordered, n), n), ordered[n], n)
  {
    var new_ := NewPending(setup, ordered[n], n, PlansAt(strategy, ordered, n));
    var pending := RunTo(setup, strategy, ordered, n).pending;
    PendingIsUnfinished(setup, strategy, ordered, n);
    SurvivorsAppend(setup, pending, new_, ordered[n], n);
    NewPlansWait(setup, new_, ordered[n], n);
  }

  lemma LookupGrows(setup: Setup, strategy: Strategy, ordered: seq<Candle>, n: nat, id: PlanId)
    requires setup.policy.legs != [] && n < |ordered|
    ensures var unfinished := Unfinished(setup, ordered, PlansUpTo(setup, strategy, ordered, n), n);
            Lookup(RunTo(setup, strategy, ordered, n + 1).saved, id)
            == Lookup(RunTo(setup, strategy, ordered, n).saved, id)
               + Lookup(ClosedNow(setup, unfinished, ordered[n], n), id)
  {
    hide RunTo, ClosedNow, Unfinished, Lookup;
    ClosedThisCandle(setup, strategy, ordered, n);
    var unfinished := Unfinished(setup, ordered, PlansUpTo(setup, strategy, ordered, n), n);
    LookupAppend(RunTo(setup, strategy, ordered, n).saved, ClosedNow(setup, unfinished, ordered[n], n), id);
  }

  lemma UnknownUnfinished(setup: Setup, ordered: seq<Candle>, ps: seq<Pending>, n: nat, id: PlanId)
    requires setup.policy.legs != [] && n < |ordered| && !KnownId(ps, id)
    requires forall i :: 0 <= i < |ps| ==> ps[i].id.candle < n
    ensures Lookup(ClosedNow(setup, Unfinished(setup, ordered, ps, n), ordered[n], n), id) == []
  {
    if KnownId(Unfinished(setup, ordered, ps, n), id) {
      UnfinishedKeepsIds(setup, ordered, ps, n, id);
    }
    NothingForUnknown(setup, Unfinished(setup, ordered, ps, n), ordered[n], n, id);
  }

  lemma FreshIsNotBooked(setup: Setup, ordered: seq<Candle>, p: Pending, n: nat)
    requires setup.policy.legs != [] && p.id.candle + 1 == n <= |ordered|
    ensures Booked(setup, Alone(setup, ordered, p, n)) == []
  {
    assert ordered[n..n] == [];
    assert Later(ordered, p, n) == [];
  }

  // ------------------------------------------------------------ end of the run

  function Listed(r: Option<Result<Audit>>): seq<Result<Audit>> {
    if r.Some? then [r.value] else []
  }

  lemma LastOfSeries(ordered: seq<Candle>, p: Pending)
    requires p.id.candle < |ordered| && Later(ordered, p, |ordered|) != []
    ensures var series, later := Sorting.Filter(ordered, OfKey(p.plan.key)), Later(ordered, p, |ordered|);
            series != [] && series[|series| - 1] == later[|later| - 1]
  {
    hide Sorting.Filter;
    var k := p.id.candle + 1;
    assert ordered == ordered[..k] + ordered[k..|ordered|];
    Sorting.FilterAppend(ordered[..k], ordered[k..|ordered|], OfKey(p.plan.key));
  }

  function ClosedAtEnd(setup: Setup, p: Pending, ordered: seq<Candle>): seq<Saved>
    requires Ready(p)
  {
    EndOfRun(setup, [p], ordered)
  }

  lemma {:induction false} EndAppend(setup: Setup, a: seq<Pending>, b: seq<Pending>, ordered: seq<Candle>)
    requires AllReady(a) && AllReady(b)
    ensures EndOfRun(setup, a + b, ordered) == EndOfRun(setup, a, ordered) + EndOfRun(setup, b, ordered)
  {
    hide SavedRecord;
    if a == [] {
      assert a + b == b;
    } else {
      assert (a + b)[1..] == a[1..] + b;
      EndAppend(setup, a[1..], b, ordered);
    }
  }

  lemma {:induction false} EndUnknown(setup: Setup, ps: seq<Pending>, ordered: seq<Candle>, id: PlanId)
    requires AllReady(ps) && !KnownId(ps, id)
    ensures Lookup(EndOfRun(setup, ps, ordered), id) == []
  {
    if ps != [] {
      assert forall i :: 0 <= i < |ps[1..]| ==> ps[1..][i].id == ps[i + 1].id;
      EndUnknown(setup, ps[1..], ordered, id);
    }
  }

  lemma NoCandlesNoEntry(setup: Setup, p: Pending)
    requires setup.policy.legs != []
    ensures Replayed(setup.policy, OpenTrade(setup.policy, p.plan.prices), []).state.AwaitingEntry?
  {
  }

  lemma SingleEnd(setup: Setup, p: Pending, ordered: seq<Candle>)
    requires Ready(p)
    ensures var series := Sorting.Filter(ordered, OfKey(p.plan.key));
            Lookup(ClosedAtEnd(setup, p, ordered), p.id)
            == if p.trade.state.Open? && series != [] then
                 [AuditOf(setup, p.plan, p.signal, CloseAtEnd(p.trade, series[|series| - 1]))]
               else []
  {
    hide AuditOf, CloseAtEnd, Sorting.Filter;
    assert [p][1..] == [];
    assert EndOfRun(setup, [p][1..], ordered) == [];
    var all := ClosedAtEnd(setup, p, ordered);
    assert |all| <= 1;
    assert all != [] ==> all[1..] == [];
  }

  /** Booked during the run or closed at its end: together the plan's own outcome. */
  lemma OwnOutcome(setup: Setup, ordered: seq<Candle>, p: Pending)
    requires setup.policy.legs != [] && p.id.candle < |ordered|
    ensures var q := Alone(setup, ordered, p, |ordered|);
            Booked(setup, q) + Lookup(EndOfRun(setup, Still(q), ordered), p.id)
            == Listed(Outcome(setup, p.plan, p.signal, Later(ordered, p, |ordered|)))
  {
    hide AuditOf, Replayed, Sorting.Filter, OpenTrade;
    var later := Later(ordered, p, |ordered|);
    var q := Alone(setup, ordered, p, |ordered|);
    if later == [] {
      NoCandlesNoEntry(setup, p);
    } else {
      LastOfSeries(ordered, p);
    }
    SingleEnd(setup, q, ordered);
  }

  lemma EndSplit(setup: Setup, ordered: seq<Candle>, ps: seq<Pending>, id: PlanId)
    requires setup.policy.legs != [] && ps != []
    requires forall i :: 0 <= i < |ps| ==> ps[i].id.candle < |ordered|
    ensures var head := Alone(setup, ordered, ps[0], |ordered|);
            Lookup(EndOfRun(setup, Unfinished(setup, ordered, ps, |ordered|), ordered), id)
            == Lookup(EndOfRun(setup, Still(head), ordered), id)
               + Lookup(EndOfRun(setup, Unfinished(setup, ordered, ps[1..], |ordered|), ordered), id)
  {
    hide Alone, EndOfRun, Lookup;
    var front := Still(Alone(setup, ordered, ps[0], |ordered|));
    var rest := Unfinished(setup, ordered, ps[1..], |ordered|);
    EndAppend(setup, front, rest, ordered);
    LookupAppend(EndOfRun(setup, front, ordered), EndOfRun(setup, rest, ordered), id);
  }

  lemma {:induction false} EndOfUnfinished(setup: Setup, ordered: seq<Candle>, ps: seq<Pending>, j: nat)
    requires setup.policy.legs != [] && j < |ps| && Distinct(ps)
    requires forall i :: 0 <= i < |ps| ==> ps[i].id.candle < |ordered|
    ensures var q := Alone(setup, ordered, ps[j], |ordered|);
            Lookup(EndOfRun(setup, Unfinished(setup, ordered, ps, |ordered|), ordered), ps[j].id)
            == Lookup(EndOfRun(setup, Still(q), ordered), ps[j].id)
  {
    hide Alone, EndOfRun, Lookup, Unfinished;
    EndSplit(setup, ordered, ps, ps[j].id);
    if j == 0 {
      var rest := Unfinished(setup, ordered, ps[1..], |ordered|);
      if KnownId(rest, ps[0].id) {
        UnfinishedKeepsIds(setup, ordered, ps[1..], |ordered|, ps[0].id);
        assert false;
      }
      EndUnknown(setup, rest, ordered, ps[0].id);
    } else {
      assert ps[0].id != ps[j].id;
      EndUnknown(setup, Still(Alone(setup, ordered, ps[0], |ordered|)), ordered, ps[j].id);
      EndOfUnfinished(setup, ordered, ps[1..], j - 1);
    }
  }

  // ----------------------------------------------------------- main theorem

  /** No two closed candles of one series open at the same time. */
  ghost predicate UniqueTimes(candles: seq<Candle>) {
    forall i, j :: 0 <= i < j < |candles| && candles[i].isClosed && candles[j].isClosed && candles[i].key == candles[j].key
      ==> candles[i].openTime != candles[j].openTime
  }

  /** The plans a strategy produces belong to the series of the candle that triggers them. */
  ghost predicate OwnSeries(strategy: Strategy, ordered: seq<Candle>) {
    forall n :: 0 <= n < |ordered| ==> forall p <- PlansAt(strategy, ordered, n) :: p.key == ordered[n].key
  }

  /** Cutting a series behind a point in time is the same as cutting the list behind the signal. */
  lemma {:induction false} LaterIsAfter(series: seq<Candle>, front: seq<Candle>, back: seq<Candle>, time: int)
    requires series == front + back
    requires forall i, j :: 0 <= i < j < |series| ==> series[i].openTime < series[j].openTime
    requires forall c <- front :: c.openTime <= time
    requires forall c <- back :: time < c.openTime
    ensures After(series, time) == back
  {
    var ts := OpenTimes(series);
    forall k | 0 <= k < |series| ensures k < |front| <==> ts[k] <= time {
      assert if k < |front| then series[k] in front else series[k] in back;
    }
    Bisect.BisectRightIs(ts, time, |front|);
  }

  lemma SortedSeries(candles: seq<Candle>, key: SeriesKey)
    requires UniqueTimes(candles)
    ensures var series := Sorting.Filter(Ordered(candles), OfKey(key));
            && series == Sorting.StableSort(Series(candles, key), OpenTimeOf)
            && forall i, j :: 0 <= i < j < |series| ==> series[i].openTime < series[j].openTime
  {
    var closed := Sorting.Filter(candles, ClosedCandle);
    var both := (c: Candle) => c.isClosed && c.key == key;
    Sorting.FilterCommutesWithSort(closed, OpenTimeOf, OfKey(key));
    Sorting.FilterTwice(candles, ClosedCandle, OfKey(key), both);
    Sorting.FilterDistinct(candles, OpenTimeOf, both);
    Sorting.SortDistinct(Series(candles, key), OpenTimeOf);
    Sorting.StableSortSorted(Series(candles, key), OpenTimeOf);
    var series := Sorting.StableSort(Series(candles, key), OpenTimeOf);
    forall i, j | 0 <= i < j < |series| ensures series[i].openTime < series[j].openTime {
      assert OpenTimeOf(series[i]) <= OpenTimeOf(series[j]) && OpenTimeOf(series[i]) != OpenTimeOf(series[j]);
    }
  }

  /** The candles the runner feeds a plan are the candles the simulator slices out for it. */
  lemma SameCandles(candles: seq<Candle>, p: Pending)
    requires UniqueTimes(candles) && p.id.candle < |Ordered(candles)|
    requires p.signal == Ordered(candles)[p.id.candle] && p.plan.key == p.signal.key
    ensures Later(Ordered(candles), p, |Ordered(candles)|)
         == After(Sorting.StableSort(Series(candles, p.plan.key), OpenTimeOf), p.signal.openTime)
  {
    hide Sorting.Filter, Sorting.StableSort, Ordered, After, Series;
    var ordered, n, key := Ordered(candles), p.id.candle, p.plan.key;
    var series := Sorting.Filter(ordered, OfKey(key));
    SortedSeries(candles, key);
    var front, back := Sorting.Filter(ordered[..n + 1], OfKey(key)), Sorting.Filter(ordered[n + 1..|ordered|], OfKey(key));
    assert ordered == ordered[..n + 1] + ordered[n + 1..|ordered|];
    Sorting.FilterAppend(ordered[..n + 1], ordered[n + 1..|ordered|], OfKey(key));
    UpToSignal(candles, n);
    BeyondSignal(front, back, p.signal);
    LaterIsAfter(series, front, back, p.signal.openTime);
  }

  /** Up to its own index, a signal is the last candle of its series. */
  lemma UpToSignal(candles: seq<Candle>, n: nat)
    requires n < |Ordered(candles)|
    ensures var signal := Ordered(candles)[n];
            var front := Sorting.Filter<Candle>(Ordered(candles)[..n + 1], OfKey(signal.key));
            signal in front && forall c <- front :: c.openTime <= signal.openTime
  {
    var ordered := Ordered(candles);
    Sorting.StableSortSorted(Sorting.Filter(candles, ClosedCandle), OpenTimeOf);
    assert Sorting.SortedBy(ordered, OpenTimeOf);
    hide Sorting.Filter, Ordered, Sorting.StableSort;
    var front := Sorting.Filter(ordered[..n + 1], OfKey(ordered[n].key));
    assert ordered[..n + 1][n] == ordered[n];
    forall c | c in front ensures c.openTime <= ordered[n].openTime {
      var i :| 0 <= i < |ordered[..n + 1]| && ordered[..n + 1][i] == c;
      assert i < n ==> OpenTimeOf(ordered[i]) <= OpenTimeOf(ordered[n]);
    }
  }

  lemma BeyondSignal(front: seq<Candle>, back: seq<Candle>, signal: Candle)
    requires signal in front
    requires forall i, j :: 0 <= i < j < |front + back| ==> (front + back)[i].openTime < (front + back)[j].openTime
    ensures forall c <- back :: signal.openTime < c.openTime
  {
    var i :| 0 <= i < |front| && front[i] == signal;
    forall c | c in back ensures signal.openTime < c.openTime {
      var j :| 0 <= j < |back| && back[j] == c;
      assert (front + back)[i] == signal && (front + back)[|front| + j] == c;
    }
  }

  lemma {:induction false} PlanOf(setup: Setup, strategy: Strategy, ordered: seq<Candle>, n: nat, k: nat, rank: nat)
      returns (j: nat)
    requires setup.policy.legs != [] && k < n <= |ordered| && rank < |PlansAt(strategy, ordered, k)|
    ensures j < |PlansUpTo(setup, strategy, ordered, n)|
    ensures var p := PlansUpTo(setup, strategy, ordered, n)[j];
            p.id == PlanId(k, rank) && p.plan == PlansAt(strategy, ordered, k)[rank] && p.signal == ordered[k]
  {
    if k == n - 1 {
      j := |PlansUpTo(setup, strategy, ordered, n - 1)| + rank;
    } else {
      j := PlanOf(setup, strategy, ordered, n - 1, k, rank);
    }
  }

  lemma {:induction false} IdsAreIssued(setup: Setup, strategy: Strategy, ordered: seq<Candle>, n: nat, id: PlanId)
    requires setup.policy.legs != [] && n <= |ordered| && KnownId(PlansUpTo(setup, strategy, ordered, n), id)
    ensures id.candle < n && id.rank < |PlansAt(strategy, ordered, id.candle)|
  {
    if n > 0 {
      var all, old_ := PlansUpTo(setup, strategy, ordered, n), PlansUpTo(setup, strategy, ordered, n - 1);
      var i :| 0 <= i < |all| && all[i].id == id;
      if i < |old_| {
        assert old_[i].id == id;
        IdsAreIssued(setup, strategy, ordered, n - 1, id);
      }
    }
  }

  predicate Issued(strategy: Strategy, ordered: seq<Candle>, id: PlanId) {
    id.candle < |ordered| && id.rank < |PlansAt(strategy, ordered, id.candle)|
  }

  /**
   Online equals offline: under each issued id the runner persists exactly what
   the simulator returns for that plan, once, and nothing under any other id.
   */
  lemma OnlineEqualsOffline(setup: Setup, strategy: Strategy, candles: seq<Candle>, id: PlanId)
    requires setup.policy.legs != [] && UniqueTimes(candles) && OwnSeries(strategy, Ordered(candles))
    ensures var ordered := Ordered(candles);
            Lookup(Online(setup, strategy, candles), id)
            == if Issued(strategy, ordered, id) then
                 Listed(Simulated(setup, PlansAt(strategy, ordered, id.candle)[id.rank], ordered[id.candle], candles))
               else []
  {
    if Issued(strategy, Ordered(candles), id) {
      IssuedOnce(setup, strategy, candles, id);
    } else {
      NothingElse(setup, strategy, candles, id);
    }
  }

  lemma IssuedOnce(setup: Setup, strategy: Strategy, candles: seq<Candle>, id: PlanId)
    requires setup.policy.legs != [] && UniqueTimes(candles) && OwnSeries(strategy, Ordered(candles))
    requires Issued(strategy, Ordered(candles), id)
    ensures var ordered := Ordered(candles);
            Lookup(Online(setup, strategy, candles), id)
            == Listed(Simulated(setup, PlansAt(strategy, ordered, id.candle)[id.rank], ordered[id.candle], candles))
  {
    hide Online, Ordered, Simulated, Outcome, Lookup, Later;
    var p := OnlineIsOwn(setup, strategy, candles, id);
    SimulatedIsOwn(setup, strategy, candles, p);
  }

  /** On any history, what is persisted of a plan is its own outcome over the candles behind its signal. */
  lemma OnlineIsOwn(setup: Setup, strategy: Strategy, candles: seq<Candle>, id: PlanId) returns (p: Pending)
    requires setup.policy.legs != [] && Issued(strategy, Ordered(candles), id)
    ensures var ordered := Ordered(candles);
            && p.id == id && p.plan == PlansAt(strategy, ordered, id.candle)[id.rank] && p.signal == ordered[id.candle]
            && Lookup(Online(setup, strategy, candles), id)
               == Listed(Outcome(setup, p.plan, p.signal, Later(ordered, p, |ordered|)))
  {
    hide RunTo, Ordered, Outcome, Booked, Alone, Unfinished, EndOfRun, PlansUpTo, Still, Lookup, Later;
    var ordered := Ordered(candles);
    var n := |ordered|;
    var st := RunTo(setup, strategy, ordered, n);
    var j := PlanOf(setup, strategy, ordered, n, id.candle, id.rank);
    p := PlansUpTo(setup, strategy, ordered, n)[j];
    PendingIsUnfinished(setup, strategy, ordered, n);
    LookupAppend(st.saved, EndOfRun(setup, st.pending, ordered), id);
    PlanIdsDistinct(setup, strategy, ordered, n);
    SavedIsBooked(setup, strategy, ordered, n, j);
    EndOfUnfinished(setup, ordered, PlansUpTo(setup, strategy, ordered, n), j);
    OwnOutcome(setup, ordered, p);
  }

  lemma NothingElse(setup: Setup, strategy: Strategy, candles: seq<Candle>, id: PlanId)
    requires setup.policy.legs != [] && !Issued(strategy, Ordered(candles), id)
    ensures Lookup(Online(setup, strategy, candles), id) == []
  {
    hide RunTo, Ordered, Unfinished, EndOfRun, PlansUpTo, Lookup;
    var ordered := Ordered(candles);
    var n := |ordered|;
    var st := RunTo(setup, strategy, ordered, n);
    var ps := PlansUpTo(setup, strategy, ordered, n);
    PendingIsUnfinished(setup, strategy, ordered, n);
    LookupAppend(st.saved, EndOfRun(setup, st.pending, ordered), id);
    if KnownId(ps, id) {
      IdsAreIssued(setup, strategy, ordered, n, id);
    }
    if KnownId(st.pending, id) {
      UnfinishedKeepsIds(setup, ordered, ps, n, id);
    }
    SavedUnknown(setup, strategy, ordered, n, id);
    EndUnknown(setup, st.pending, ordered, id);
  }

  lemma SimulatedIsOwn(setup: Setup, strategy: Strategy, candles: seq<Candle>, p: Pending)
    requires setup.policy.legs != [] && UniqueTimes(candles) && OwnSeries(strategy, Ordered(candles))
    requires Issued(strategy, Ordered(candles), p.id)
    requires p.plan == PlansAt(strategy, Ordered(candles), p.id.candle)[p.id.rank] && p.signal == Ordered(candles)[p.id.candle]
    ensures Simulated(setup, p.plan, p.signal, candles)
         == Outcome(setup, p.plan, p.signal, Later(Ordered(candles), p, |Ordered(candles)|))
  {
    assert p.plan.key == p.signal.key;
    SameCandles(candles, p);
  }

  // -------------------------------------------------- runs that end in an error

  lemma {:induction false} LookupOfFailure(log: seq<Saved>) returns (id: PlanId)
    requires FailureOf(log).Some?
    ensures Raised(FailureOf(log).value) in Lookup(log, id)
  {
    if log[0].audit.Raised? {
      id := log[0].id;
    } else {
      id := LookupOfFailure(log[1..]);
    }
  }

  lemma {:induction false} NoFailureNoError(log: seq<Saved>, id: PlanId)
    requires FailureOf(log).None?
    ensures forall r <- Lookup(log, id) :: r.Ok?
  {
    if log != [] {
      NoFailureNoError(log[1..], id);
    }
  }

  lemma {:induction false} KeptIsFront(log: seq<Saved>, id: PlanId)
    ensures Lookup(Kept(log), id) <= Lookup(log, id)
    ensures FailureOf(log).None? ==> Kept(log) == log
  {
    if log != [] && log[0].audit.Ok? {
      KeptIsFront(log[1..], id);
      assert ([log[0]] + Kept(log[1..]))[1..] == Kept(log[1..]);
    }
  }

  /** The plan is issued and simulating it raises this error. */
  predicate Unpriced(setup: Setup, strategy: Strategy, candles: seq<Candle>, id: PlanId, error: string)
    requires setup.policy.legs != []
  {
    var ordered := Ordered(candles);
    Issued(strategy, ordered, id)
    && Simulated(setup, PlansAt(strategy, ordered, id.candle)[id.rank], ordered[id.candle], candles) == Some(Raised(error))
  }

  /**
   The runner raises if and only if simulating some plan does, with an error of such a
   plan; otherwise it persists its whole log, and of any plan never more than the log.
   */
  lemma RunFailsWithSimulator(setup: Setup, strategy: Strategy, candles: seq<Candle>, id: PlanId)
    requires setup.policy.legs != [] && UniqueTimes(candles) && OwnSeries(strategy, Ordered(candles))
    ensures var log := Online(setup, strategy, candles);
            && (FailureOf(log).Some? <==> exists i, e :: Unpriced(setup, strategy, candles, i, e))
            && (FailureOf(log).Some? ==> exists i :: Unpriced(setup, strategy, candles, i, FailureOf(log).value))
            && (FailureOf(log).None? ==> Kept(log) == log)
            && Lookup(Kept(log), id) <= Lookup(log, id)
  {
    hide Online, Simulated, Ordered, Issued, PlansAt, OwnSeries, UniqueTimes;
    var log := Online(setup, strategy, candles);
    KeptIsFront(log, id);
    hide Kept, FailureOf, Lookup;
    if FailureOf(log).Some? {
      var i := LookupOfFailure(log);
      OnlineEqualsOffline(setup, strategy, candles, i);
      assert Unpriced(setup, strategy, candles, i, FailureOf(log).value);
    }
    if i, e :| Unpriced(setup, strategy, candles, i, e) {
      OnlineEqualsOffline(setup, strategy, candles, i);
      assert Raised(e) in Lookup(log, i);
      if FailureOf(log).None? {
        NoFailureNoError(log, i);
        assert false;
      }
    }
  }
}
