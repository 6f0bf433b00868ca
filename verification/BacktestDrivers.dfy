/**
 The two drivers as they run: the runner's loop over candles and pending trades,
 and the simulator's grouped series, binary search and replay.
 */
module BacktestDrivers {
  import opened Market
  import opened Exits
  import opened ExitEngine
  import opened Backtest
  import BacktestAgreement
  import ExitProgress
  import Sorting
  import Bisect

  /** A `_PendingTrade`: the mutable trade with the plan and signal it came from. */
  datatype Record = Record(id: PlanId, plan: Plan, signal: Candle, trade: SimulatedTrade)

  function ValueOf(r: Record): Pending
    reads r.trade
  {
    Pending(r.id, r.plan, r.signal, r.trade.Value())
  }

  function TradesOf(records: seq<Record>): set<SimulatedTrade> {
    set r | r in records :: r.trade
  }

  /** `records` hold the values `vs`. */
  ghost predicate Hold(records: seq<Record>, vs: seq<Pending>)
    reads TradesOf(records)
  {
    |records| == |vs| && forall k :: 0 <= k < |records| ==> ValueOf(records[k]) == vs[k]
  }

  lemma JoinRecords(a: seq<Record>, vs: seq<Pending>, b: seq<Record>, ws: seq<Pending>)
    requires Separate(a) && Separate(b) && Hold(a, vs) && Hold(b, ws)
    requires TradesOf(a) !! TradesOf(b)
    ensures Separate(a + b) && Hold(a + b, vs + ws)
  {
    forall i, j | 0 <= i < |a| && 0 <= j < |b| ensures a[i].trade != b[j].trade {
      TradeIn(a, i);
      TradeIn(b, j);
    }
    hide TradesOf;
  }

  lemma TradesOfJoin(a: seq<Record>, b: seq<Record>)
    ensures TradesOf(a + b) == TradesOf(a) + TradesOf(b)
  {
    forall t | t in TradesOf(a) + TradesOf(b) ensures t in TradesOf(a + b) {
      var r :| (r in a || r in b) && r.trade == t;
      assert r in a + b;
    }
  }

  /** From `i` on, `left` still lists what `records` lists from `j` on. */
  ghost predicate SameTail(left: seq<Record>, i: nat, records: seq<Record>, j: nat) {
    i <= |left| && j <= |records| && left[i..] == records[j..]
  }

  lemma NextRecord(left: seq<Record>, i: nat, records: seq<Record>, j: nat)
    requires SameTail(left, i, records, j) && j < |records|
    ensures i < |left| && left[i] == records[j]
  {
    assert left[i..][0] == records[j..][0];
  }

  lemma TailOfTail(left': seq<Record>, i': nat, left: seq<Record>, i: nat, records: seq<Record>, j: nat)
    requires SameTail(left', i', left, i + 1) && SameTail(left, i, records, j) && j < |records|
    ensures SameTail(left', i', records, j + 1)
  {
    assert left[i..][1..] == left[i + 1..] && records[j..][1..] == records[j + 1..];
  }

  lemma TradeIn(records: seq<Record>, i: nat)
    requires i < |records|
    ensures records[i].trade in TradesOf(records)
  {
  }

  ghost predicate Separate(records: seq<Record>) {
    forall i, j :: 0 <= i < j < |records| ==> records[i].trade != records[j].trade
  }

  ghost predicate NoneTerminal(ps: seq<Pending>) {
    forall i :: 0 <= i < |ps| ==> !ps[i].trade.Terminal()
  }

  lemma {:induction false} SurvivorsLive(setup: Setup, ps: seq<Pending>, c: Candle, n: nat)
    requires AllReady(ps) && NoneTerminal(ps)
    ensures NoneTerminal(Survivors(setup, ps, c, n))
  {
    if ps != [] {
      SurvivorsLive(setup, ps[1..], c, n);
    }
  }

  lemma OneSurvivor(setup: Setup, ps: seq<Pending>, i: nat, c: Candle, n: nat)
    requires AllReady(ps) && i < |ps|
    ensures var q := if Eligible(ps[i], c, n) then Advanced(setup, ps[i], c) else ps[i];
            && Survivors(setup, ps[..i + 1], c, n)
               == Survivors(setup, ps[..i], c, n) + (if Eligible(ps[i], c, n) && q.trade.Terminal() then [] else [q])
            && ClosedNow(setup, ps[..i + 1], c, n)
               == ClosedNow(setup, ps[..i], c, n)
                  + (if Eligible(ps[i], c, n) && q.trade.state.Closed? then [SavedRecord(setup, q)] else [])
  {
    hide Advanced, SavedRecord;
    assert ps[..i + 1] == ps[..i] + [ps[i]];
    BacktestAgreement.SurvivorsAppend(setup, ps[..i], [ps[i]], c, n);
    assert [ps[i]][1..] == [];
  }

  predicate Gone(setup: Setup, p: Pending, c: Candle, n: nat)
    requires Ready(p)
  {
    Eligible(p, c, n) && Advanced(setup, p, c).trade.Terminal()
  }

  function Moved(setup: Setup, p: Pending, c: Candle, n: nat): Pending
    requires Ready(p)
  {
    if Eligible(p, c, n) then Advanced(setup, p, c) else p
  }

  lemma ReplaceMiddle<T>(front: seq<T>, was: seq<T>, i: nat, q: T)
    requires i < |was|
    ensures var vs, done := front + was[i..], |front|;
            && vs[done] == was[i]
            && vs[..done] + vs[done + 1..] == front + was[i + 1..]
            && vs[done := q] == front + [q] + was[i + 1..]
  {
  }

  lemma OneRecord(setup: Setup, p: Pending, c: Candle, n: nat)
    requires Ready(p)
    ensures var q := Moved(setup, p, c, n);
            && Survivors(setup, [p], c, n) == (if Gone(setup, p, c, n) then [] else [q])
            && ClosedNow(setup, [p], c, n)
               == (if Eligible(p, c, n) && q.trade.state.Closed? then [SavedRecord(setup, q)] else [])
  {
    hide Advanced, SavedRecord;
    OneSurvivor(setup, [p], 0, c, n);
    assert [p][..1] == [p];
  }

  /** What the first `i` records leave behind and what they persist. */
  ghost function SurvivorsOf(setup: Setup, was: seq<Pending>, i: nat, c: Candle, n: nat): seq<Pending>
    requires AllReady(was) && i <= |was|
  {
    Survivors(setup, was[..i], c, n)
  }

  ghost function ClosedOf(setup: Setup, was: seq<Pending>, i: nat, c: Candle, n: nat): seq<Saved>
    requires AllReady(was) && i <= |was|
  {
    ClosedNow(setup, was[..i], c, n)
  }

  /** The list in the middle of the inner loop: survivors, then records not yet looked at. */
  ghost function Midway(setup: Setup, was: seq<Pending>, i: nat, c: Candle, n: nat): (vs: seq<Pending>)
    requires AllReady(was) && i <= |was|
  {
    SurvivorsOf(setup, was, i, c, n) + was[i..]
  }

  lemma MidwayStart(setup: Setup, was: seq<Pending>, c: Candle, n: nat)
    requires AllReady(was)
    ensures Midway(setup, was, 0, c, n) == was
    ensures SurvivorsOf(setup, was, 0, c, n) == [] && ClosedOf(setup, was, 0, c, n) == []
  {
  }

  lemma MidwayEnd(setup: Setup, was: seq<Pending>, c: Candle, n: nat)
    requires AllReady(was)
    ensures Midway(setup, was, |was|, c, n) == Survivors(setup, was, c, n)
    ensures ClosedOf(setup, was, |was|, c, n) == ClosedNow(setup, was, c, n)
  {
    assert was[..|was|] == was;
  }

  /** The list after one more record: dropped, or replaced by its new value. */
  ghost function Replaced(setup: Setup, vs: seq<Pending>, done: nat, c: Candle, n: nat): seq<Pending>
    requires done < |vs| && AllReady(vs)
  {
    if Gone(setup, vs[done], c, n) then vs[..done] + vs[done + 1..] else vs[done := Moved(setup, vs[done], c, n)]
  }

  lemma ReplacedIs(setup: Setup, vs: seq<Pending>, done: nat, c: Candle, n: nat)
    requires done < |vs| && AllReady(vs)
    ensures Replaced(setup, vs, done, c, n)
         == (var moved := vs[done := Moved(setup, vs[done], c, n)];
             if Gone(setup, vs[done], c, n) then moved[..done] + moved[done + 1..] else moved)
  {
    hide Gone, Moved;
  }

  lemma MidwayLive(setup: Setup, was: seq<Pending>, i: nat, c: Candle, n: nat)
    requires AllReady(was) && NoneTerminal(was) && i < |was|
    ensures var done, vs := |SurvivorsOf(setup, was, i, c, n)|, Midway(setup, was, i, c, n);
            AllReady(vs) && NoneTerminal(vs) && done < |vs| && vs[done] == was[i]
  {
    hide Survivors, Ready;
    SurvivorsLive(setup, was[..i], c, n);
  }

  lemma OneMoreRecord(setup: Setup, was: seq<Pending>, i: nat, c: Candle, n: nat)
    requires AllReady(was) && i < |was|
    ensures SurvivorsOf(setup, was, i + 1, c, n)
         == SurvivorsOf(setup, was, i, c, n) + (if Gone(setup, was[i], c, n) then [] else [Moved(setup, was[i], c, n)])
    ensures ClosedOf(setup, was, i + 1, c, n) == ClosedOf(setup, was, i, c, n) + ClosedNow(setup, [was[i]], c, n)
  {
    OneRecord(setup, was[i], c, n);
    hide Survivors, ClosedNow, Moved, Gone, Ready;
    assert was[..i + 1] == was[..i] + [was[i]];
    BacktestAgreement.SurvivorsAppend(setup, was[..i], [was[i]], c, n);
  }

  lemma MidwayStep(setup: Setup, was: seq<Pending>, i: nat, c: Candle, n: nat)
    requires AllReady(was) && NoneTerminal(was) && i < |was|
    ensures var done, vs := |SurvivorsOf(setup, was, i, c, n)|, Midway(setup, was, i, c, n);
            && AllReady(vs) && NoneTerminal(vs) && done < |vs| && vs[done] == was[i]
            && Midway(setup, was, i + 1, c, n) == Replaced(setup, vs, done, c, n)
            && |SurvivorsOf(setup, was, i + 1, c, n)| == (if Gone(setup, was[i], c, n) then done else done + 1)
            && ClosedOf(setup, was, i + 1, c, n) == ClosedOf(setup, was, i, c, n) + ClosedNow(setup, [was[i]], c, n)
  {
    hide SurvivorsOf, ClosedOf, ClosedNow, Survivors, Moved, Gone, Ready;
    assert Ready(was[i]);
    MidwayLive(setup, was, i, c, n);
    OneMoreRecord(setup, was, i, c, n);
    hide AllReady, NoneTerminal;
    ReplaceMiddle(SurvivorsOf(setup, was, i, c, n), was, i, Moved(setup, was[i], c, n));
  }

  ghost function FirstPending(setup: Setup, c: Candle, n: nat, plans: seq<Plan>, j: nat): seq<Pending>
    requires setup.policy.legs != [] && j <= |plans|
  {
    NewPending(setup, c, n, plans)[..j]
  }

  lemma NewPendingBounds(setup: Setup, c: Candle, n: nat, plans: seq<Plan>)
    requires setup.policy.legs != []
    ensures FirstPending(setup, c, n, plans, 0) == []
    ensures FirstPending(setup, c, n, plans, |plans|) == NewPending(setup, c, n, plans)
  {
  }

  lemma NewPendingStep(setup: Setup, c: Candle, n: nat, plans: seq<Plan>, j: nat)
    requires setup.policy.legs != [] && j < |plans|
    ensures FirstPending(setup, c, n, plans, j + 1)
         == FirstPending(setup, c, n, plans, j)
            + [Pending(PlanId(n, j), plans[j], c, OpenTrade(setup.policy, plans[j].prices))]
  {
    hide OpenTrade;
  }

  ghost function EndedUpTo(setup: Setup, vs: seq<Pending>, i: nat, ordered: seq<Candle>): seq<Saved>
    requires AllReady(vs) && i <= |vs|
  {
    EndOfRun(setup, vs[..i], ordered)
  }

  lemma EndedBounds(setup: Setup, vs: seq<Pending>, ordered: seq<Candle>)
    requires AllReady(vs)
    ensures EndedUpTo(setup, vs, 0, ordered) == []
    ensures EndedUpTo(setup, vs, |vs|, ordered) == EndOfRun(setup, vs, ordered)
  {
    assert vs[..|vs|] == vs;
  }

  lemma EndedStep(setup: Setup, vs: seq<Pending>, i: nat, ordered: seq<Candle>)
    requires AllReady(vs) && i < |vs|
    ensures var series := Sorting.Filter(ordered, OfKey(vs[i].plan.key));
            EndedUpTo(setup, vs, i + 1, ordered)
            == EndedUpTo(setup, vs, i, ordered)
               + (if vs[i].trade.state.Open? && series != [] then
                    [SavedRecord(setup, vs[i].(trade := CloseAtEnd(vs[i].trade, Last(series))))]
                  else [])
  {
    hide SavedRecord, Sorting.Filter;
    assert vs[..i + 1] == vs[..i] + [vs[i]];
    BacktestAgreement.EndAppend(setup, vs[..i], [vs[i]], ordered);
    assert EndOfRun(setup, [vs[i]][1..], ordered) == [];
  }

  function Last(cs: seq<Candle>): Candle
    requires cs != []
  {
    cs[|cs| - 1]
  }

  class HistoricalBacktestRunner {
    const setup: Setup
    var saved: seq<Saved>

    constructor (setup: Setup)
      ensures this.setup == setup && saved == []
    {
      this.setup := setup;
      saved := [];
    }

    /** Prices and stores the trade; when it cannot be priced the call raises. */
    method PersistTrade(r: Record) returns (failed: Option<string>)
      requires Complete(r.trade.Value())
      modifies this
      ensures Books(old(saved), [SavedRecord(setup, ValueOf(r))], saved, failed)
    {
      var audit := AuditOf(setup, r.plan, r.signal, r.trade.Value());
      BooksOne(saved, Saved(r.id, audit));
      hide AuditOf, Books;
      if audit.Raised? {
        return Some(audit.error);
      }
      saved := saved + [Saved(r.id, audit)];
      return None;
    }

    /** Python's `list.remove`: the first record with equal fields goes. */
    method Remove(records: seq<Record>, r: Record, ghost at: nat) returns (left: seq<Record>)
      requires at < |records| && records[at] == r
      requires forall k :: 0 <= k < at ==> ValueOf(records[k]) != ValueOf(r)
      ensures left == records[..at] + records[at + 1..]
    {
      var k := 0;
      while ValueOf(records[k]) != ValueOf(r)
        invariant k <= at
        decreases at - k
      {
        k := k + 1;
      }
      left := records[..k] + records[k + 1..];
    }

    /** The callbacks of one candle: every plan opens a pending trade. */
    method Capture(engine: ExitPolicyEngine, plans: seq<Plan>, c: Candle, n: nat) returns (taken: seq<Record>)
      requires engine.settings == setup.policy && setup.policy.legs != []
      ensures Separate(taken) && fresh(TradesOf(taken))
      ensures Hold(taken, NewPending(setup, c, n, plans))
    {
      taken := [];
      NewPendingBounds(setup, c, n, plans);
      hide NewPending, FirstPending, OpenTrade;
      for j := 0 to |plans|
        invariant |taken| == j && Separate(taken) && fresh(TradesOf(taken))
        invariant Hold(taken, FirstPending(setup, c, n, plans, j))
      {
        NewPendingStep(setup, c, n, plans, j);
        var trade := engine.OpenNew(plans[j].prices);
        assert forall k :: 0 <= k < |taken| ==> taken[k].trade in TradesOf(taken);
        taken := taken + [Record(PlanId(n, j), plans[j], c, trade)];
      }
    }

    /** One turn of the inner loop, up to the removal. */
    method AdvanceOne(engine: ExitPolicyEngine, r: Record, c: Candle, n: nat) returns (gone: bool, failed: Option<string>)
      requires engine.settings == setup.policy && Ready(ValueOf(r)) && !r.trade.Value().Terminal()
      modifies this, r.trade
      ensures ValueOf(r) == Moved(setup, old(ValueOf(r)), c, n)
      ensures gone == Gone(setup, old(ValueOf(r)), c, n) && (gone ==> r.trade.Value().Terminal())
      ensures Books(old(saved), ClosedNow(setup, [old(ValueOf(r))], c, n), saved, failed)
    {
      OneRecord(setup, ValueOf(r), c, n);
      BooksNothing(saved);
      hide Step, SavedRecord, ClosedNow, Survivors, Books;
      gone, failed := false, None;
      if r.id.candle >= n || r.plan.key != c.key {
        return;
      }
      StepSound(setup.policy, r.trade.Value(), c);
      engine.Advance(r.trade, c);
      if r.trade.state.Closed? {
        failed := PersistTrade(r);
        gone := true;
      } else if r.trade.state.ExpiredUnfilled? {
        gone := true;
      }
    }

    /** Removing a finished trade that stands behind running ones. */
    method Drop(left: seq<Record>, r: Record, done: nat, ghost vs: seq<Pending>) returns (left': seq<Record>)
      requires Separate(left) && done < |left| && left[done] == r && Hold(left, vs)
      requires vs[done].trade.Terminal() && forall k :: 0 <= k < done ==> !vs[k].trade.Terminal()
      ensures Separate(left') && TradesOf(left') <= TradesOf(left)
      ensures SameTail(left', done, left, done + 1)
      ensures Hold(left', vs[..done] + vs[done + 1..])
    {
      left' := Remove(left, r, done);
    }

    /** One turn for `r`, which stands behind the `done` survivors so far. */
    method Turn(engine: ExitPolicyEngine, left: seq<Record>, r: Record, done: nat, c: Candle, n: nat, ghost vs: seq<Pending>)
        returns (left': seq<Record>, done': nat, failed: Option<string>)
      requires engine.settings == setup.policy && Separate(left) && done < |left| && left[done] == r
      requires Hold(left, vs) && AllReady(vs) && NoneTerminal(vs)
      modifies this, r.trade
      ensures Separate(left') && TradesOf(left') <= TradesOf(left)
      ensures SameTail(left', done', left, done + 1)
      ensures Hold(left', Replaced(setup, vs, done, c, n))
      ensures done' == if Gone(setup, vs[done], c, n) then done else done + 1
      ensures Books(old(saved), ClosedNow(setup, [vs[done]], c, n), saved, failed)
    {
      hide Gone, Moved, ClosedNow, TradesOf, Ready, Books;
      assert forall k :: 0 <= k < |left| && k != done ==> left[k].trade != r.trade;
      var gone;
      gone, failed := AdvanceOne(engine, r, c, n);
      ghost var vs' := vs[done := Moved(setup, vs[done], c, n)];
      assert Hold(left, vs');
      ReplacedIs(setup, vs, done, c, n);
      hide Hold, Replaced, Separate;
      if gone {
        left' := Drop(left, r, done, vs');
        done' := done;
      } else {
        left' := left;
        done' := done + 1;
      }
    }

    /** The inner loop: advance, persist and drop, over a copy of the list. */
    method AdvanceAll(engine: ExitPolicyEngine, records: seq<Record>, c: Candle, n: nat, ghost was: seq<Pending>)
        returns (left: seq<Record>, failed: Option<string>)
      requires engine.settings == setup.policy && Separate(records)
      requires Hold(records, was) && AllReady(was) && NoneTerminal(was)
      modifies this, TradesOf(records)
      ensures failed.None? ==> Separate(left) && TradesOf(left) <= TradesOf(records) && Hold(left, Survivors(setup, was, c, n))
      ensures Books(old(saved), ClosedNow(setup, was, c, n), saved, failed)
    {
      left, failed := records, None;
      var done := 0;
      MidwayStart(setup, was, c, n);
      BooksNothing(saved);
      assert |records| == |was|;
      hide Books, Survivors, ClosedNow, SurvivorsOf, ClosedOf, Midway, Replaced, Gone, Hold, SameTail, AllReady, NoneTerminal, Separate;
      for i := 0 to |records|
        invariant |records| == |was|
        invariant Separate(left) && TradesOf(left) <= TradesOf(records)
        invariant Hold(left, Midway(setup, was, i, c, n)) && done == |SurvivorsOf(setup, was, i, c, n)|
        invariant SameTail(left, done, records, i)
        invariant failed.None? && Books(old(saved), ClosedOf(setup, was, i, c, n), saved, failed)
      {
        MidwayStep(setup, was, i, c, n);
        TradeIn(records, i);
        NextRecord(left, done, records, i);
        ghost var left0, done0, saved0 := left, done, saved;
        left, done, failed := Turn(engine, left, records[i], done, c, n, Midway(setup, was, i, c, n));
        BooksRecord(setup, was, i, c, n, old(saved), saved0, saved, failed);
        if failed.Some? {
          return;
        }
        TailOfTail(left, done, left0, done0, records, i);
      }
      MidwayEnd(setup, was, c, n);
    }

    /** The last loop: open trades close at the last candle of their series. */
    method CloseOut(engine: ExitPolicyEngine, records: seq<Record>, last: map<SeriesKey, Candle>, ordered: seq<Candle>,
                    ghost vs: seq<Pending>) returns (failed: Option<string>)
      requires Separate(records) && Hold(records, vs) && AllReady(vs)
      requires LastCandles(last, ordered, |ordered|)
      requires forall p <- vs :: p.trade.state.Open? ==> Sorting.Filter(ordered, OfKey(p.plan.key)) != []
      modifies this, TradesOf(records)
      ensures Books(old(saved), EndOfRun(setup, vs, ordered), saved, failed)
    {
      hide SavedRecord, Sorting.Filter, EndOfRun, EndedUpTo, LastCandles, TradesOf, Books;
      EndedBounds(setup, vs, ordered);
      BooksNothing(saved);
      failed := None;
      for i := 0 to |records|
        invariant forall k :: i <= k < |records| ==> ValueOf(records[k]) == vs[k]
        invariant failed.None? && Books(old(saved), EndedUpTo(setup, vs, i, ordered), saved, failed)
      {
        EndedStep(setup, vs, i, ordered);
        TradeIn(records, i);
        assert forall k :: i < k < |records| ==> records[k].trade != records[i].trade;
        if records[i].trade.state.Open? {
          assert vs[i] in vs;
          LastOf(last, ordered, records[i].plan.key);
          ghost var closed := SavedRecord(setup, vs[i].(trade := CloseAtEnd(vs[i].trade, last[records[i].plan.key])));
          engine.CloseAtEndOfData(records[i].trade, last[records[i].plan.key]);
          ghost var saved0 := saved;
          failed := PersistTrade(records[i]);
          BooksMore(old(saved), EndedUpTo(setup, vs, i, ordered), [closed], saved0, saved, failed);
          if failed.Some? {
            EndedRest(setup, vs, i + 1, ordered);
            BooksNoMore(old(saved), EndedUpTo(setup, vs, i + 1, ordered), EndOfRun(setup, vs[i + 1..], ordered), saved, failed);
            return;
          }
        } else {
          assert EndedUpTo(setup, vs, i, ordered) + [] == EndedUpTo(setup, vs, i, ordered);
        }
      }
    }

    /**
     Sequential replay: persists what `Online` prices, after what was saved before,
     and raises at the first trade that cannot be priced.
     */
    method Run(strategy: Strategy, candles: seq<Candle>) returns (failed: Option<string>)
      requires setup.policy.legs != []
      modifies this
      ensures Books(old(saved), Online(setup, strategy, candles), saved, failed)
    {
      hide RunTo, Online, EndOfRun, Hold, NoneTerminal, Separate, LastCandles, Ordered, Books;
      var ordered := Ordered(candles);
      ghost var st := RunTo(setup, strategy, ordered, |ordered|);
      OnlineParts(setup, strategy, candles);
      var engine := new ExitPolicyEngine(setup.policy);
      var pending, last;
      ghost var owned;
      pending, last, failed, owned := ReplayCandles(engine, strategy, ordered);
      if failed.Some? {
        BooksNoMore(old(saved), st.saved, EndOfRun(setup, st.pending, ordered), saved, failed);
        return;
      }
      ReplayedAll(strategy, ordered, old(saved), pending, owned);
      OpenHasSeries(setup, strategy, ordered);
      ghost var saved0 := saved;
      failed := CloseOut(engine, pending, last, ordered, st.pending);
      BooksMore(old(saved), st.saved, EndOfRun(setup, st.pending, ordered), saved0, saved, failed);
    }

    /** After `n` candles: the pending records hold the pending trades, and what closed has been saved behind `base`. */
    ghost predicate Replaying(strategy: Strategy, ordered: seq<Candle>, n: nat, base: seq<Saved>,
                              pending: seq<Record>, owned: set<SimulatedTrade>)
      requires setup.policy.legs != [] && n <= |ordered|
      reads this, owned
    {
      && Separate(pending) && TradesOf(pending) <= owned
      && Hold(pending, RunTo(setup, strategy, ordered, n).pending)
      && NoneTerminal(RunTo(setup, strategy, ordered, n).pending)
      && Books(base, RunTo(setup, strategy, ordered, n).saved, saved, None)
    }

    /** The outer loop. */
    method ReplayCandles(engine: ExitPolicyEngine, strategy: Strategy, ordered: seq<Candle>)
        returns (pending: seq<Record>, last: map<SeriesKey, Candle>, failed: Option<string>, ghost owned: set<SimulatedTrade>)
      requires engine.settings == setup.policy && setup.policy.legs != []
      modifies this
      ensures fresh(owned)
      ensures failed.None? ==>
        Replaying(strategy, ordered, |ordered|, old(saved), pending, owned) && LastCandles(last, ordered, |ordered|)
      ensures failed.Some? ==> Books(old(saved), RunTo(setup, strategy, ordered, |ordered|).saved, saved, failed)
    {
      hide *;
      pending, last, failed, owned := [], map[], None, {};
      ReplayStart(strategy, ordered);
      for n := 0 to |ordered|
        invariant failed.None? && fresh(owned) && Replaying(strategy, ordered, n, old(saved), pending, owned)
        invariant LastCandles(last, ordered, n)
      {
        NextLast(last, ordered, n);
        pending, failed, owned := OneCandle(engine, pending, strategy, ordered, n, old(saved), owned);
        if failed.Some? {
          return;
        }
        last := last[ordered[n].key := ordered[n]];
      }
    }

    lemma ReplayStart(strategy: Strategy, ordered: seq<Candle>)
      requires setup.policy.legs != []
      ensures Replaying(strategy, ordered, 0, saved, [], {}) && LastCandles(map[], ordered, 0)
    {
      RunStart(setup, strategy, ordered);
      BooksNothing(saved);
      hide RunTo, LastCandles, Books;
    }

    lemma ReplayedAll(strategy: Strategy, ordered: seq<Candle>, base: seq<Saved>, pending: seq<Record>, owned: set<SimulatedTrade>)
      requires setup.policy.legs != [] && Replaying(strategy, ordered, |ordered|, base, pending, owned)
      ensures Books(base, RunTo(setup, strategy, ordered, |ordered|).saved, saved, None)
    {
    }

    /** The body of the outer loop: the strategy's plans, then the pending trades. */
    method OneCandle(engine: ExitPolicyEngine, pending: seq<Record>, strategy: Strategy, ordered: seq<Candle>, n: nat,
                     ghost base: seq<Saved>, ghost owned: set<SimulatedTrade>)
        returns (left: seq<Record>, failed: Option<string>, ghost owned': set<SimulatedTrade>)
      requires engine.settings == setup.policy && setup.policy.legs != [] && n < |ordered|
      requires Replaying(strategy, ordered, n, base, pending, owned)
      modifies this, owned
      ensures fresh(owned' - owned)
      ensures failed.None? ==> Replaying(strategy, ordered, n + 1, base, left, owned')
      ensures failed.Some? ==> Books(base, RunTo(setup, strategy, ordered, |ordered|).saved, saved, failed)
    {
      var c, plans := ordered[n], PlansAt(strategy, ordered, n);
      ghost var vs, ws := RunTo(setup, strategy, ordered, n).pending, NewPending(setup, c, n, plans);
      RunStep(setup, strategy, ordered, n);
      assert NoneTerminal(vs + ws);
      hide RunTo, Survivors, ClosedNow, NewPending, NoneTerminal, Hold, Separate, PlansAt, Books;
      var taken := Capture(engine, plans, c, n);
      JoinRecords(pending, vs, taken, ws);
      TradesOfJoin(pending, taken);
      owned' := owned + TradesOf(taken);
      ghost var saved0 := saved;
      left, failed := AdvanceAll(engine, pending + taken, c, n, vs + ws);
      BooksCandle(setup, strategy, ordered, n, base, saved0, saved, failed);
    }
  }

  /** The last candle of each series among the first `n`. */
  ghost predicate LastCandles(last: map<SeriesKey, Candle>, ordered: seq<Candle>, n: nat)
    requires n <= |ordered|
  {
    && (forall key :: key in last <==> Sorting.Filter(ordered[..n], OfKey(key)) != [])
    && (forall key :: key in last ==> last[key] == Last(Sorting.Filter(ordered[..n], OfKey(key))))
  }

  lemma LastOf(last: map<SeriesKey, Candle>, ordered: seq<Candle>, key: SeriesKey)
    requires LastCandles(last, ordered, |ordered|) && Sorting.Filter(ordered, OfKey(key)) != []
    ensures key in last && last[key] == Last(Sorting.Filter(ordered, OfKey(key)))
  {
    assert ordered[..|ordered|] == ordered;
  }

  lemma NextLast(last: map<SeriesKey, Candle>, ordered: seq<Candle>, n: nat)
    requires n < |ordered| && LastCandles(last, ordered, n)
    ensures LastCandles(last[ordered[n].key := ordered[n]], ordered, n + 1)
  {
    var c := ordered[n];
    assert ordered[..n + 1] == ordered[..n] + [c];
    forall key ensures Sorting.Filter(ordered[..n + 1], OfKey(key))
        == Sorting.Filter(ordered[..n], OfKey(key)) + (if c.key == key then [c] else [])
    {
      Sorting.FilterAppend(ordered[..n], [c], OfKey(key));
      Sorting.FilterOne<Candle>(c, OfKey(key));
    }
    hide Sorting.Filter;
  }

  lemma OnlineParts(setup: Setup, strategy: Strategy, candles: seq<Candle>)
    requires setup.policy.legs != []
    ensures var ordered := Ordered(candles);
            var st := RunTo(setup, strategy, ordered, |ordered|);
            Online(setup, strategy, candles) == st.saved + EndOfRun(setup, st.pending, ordered)
  {
  }

  lemma BooksNothing(saved: seq<Saved>)
    ensures Books(saved, [], saved, None)
  {
  }

  lemma BooksOne(saved: seq<Saved>, s: Saved)
    ensures Books(saved, [s], if s.audit.Ok? then saved + [s] else saved,
                  if s.audit.Ok? then None else Some(s.audit.error))
  {
    assert [s][1..] == [];
  }

  lemma ClosedRest(setup: Setup, was: seq<Pending>, i: nat, c: Candle, n: nat)
    requires AllReady(was) && i <= |was|
    ensures ClosedNow(setup, was, c, n) == ClosedOf(setup, was, i, c, n) + ClosedNow(setup, was[i..], c, n)
  {
    assert was == was[..i] + was[i..];
    BacktestAgreement.SurvivorsAppend(setup, was[..i], was[i..], c, n);
    hide ClosedNow, Ready;
  }

  /** One more record is booked; an error ends the candle. */
  lemma BooksRecord(setup: Setup, was: seq<Pending>, i: nat, c: Candle, n: nat,
                    base: seq<Saved>, middle: seq<Saved>, saved: seq<Saved>, failed: Option<string>)
    requires AllReady(was) && i < |was| && Books(base, ClosedOf(setup, was, i, c, n), middle, None)
    requires Books(middle, ClosedNow(setup, [was[i]], c, n), saved, failed)
    ensures Books(base, ClosedOf(setup, was, i + 1, c, n), saved, failed)
    ensures failed.Some? ==> Books(base, ClosedNow(setup, was, c, n), saved, failed)
  {
    OneMoreRecord(setup, was, i, c, n);
    ClosedRest(setup, was, i + 1, c, n);
    hide Books, ClosedOf, ClosedNow, AllReady;
    BooksMore(base, ClosedOf(setup, was, i, c, n), ClosedNow(setup, [was[i]], c, n), middle, saved, failed);
    if failed.Some? {
      assert AllReady(was[i + 1..]) by {
        RestReady(was, i + 1);
      }
      BooksNoMore(base, ClosedOf(setup, was, i + 1, c, n), ClosedNow(setup, was[i + 1..], c, n), saved, failed);
    }
  }

  lemma RestReady(was: seq<Pending>, i: nat)
    requires AllReady(was) && i <= |was|
    ensures AllReady(was[i..])
  {
  }

  /** An error at one candle ends the run. */
  lemma BooksNoCandles(setup: Setup, strategy: Strategy, ordered: seq<Candle>, n: nat,
                       base: seq<Saved>, saved: seq<Saved>, failed: Option<string>)
    requires setup.policy.legs != [] && n <= |ordered| && failed.Some?
    requires Books(base, RunTo(setup, strategy, ordered, n).saved, saved, failed)
    ensures Books(base, RunTo(setup, strategy, ordered, |ordered|).saved, saved, failed)
  {
    hide RunTo, Books;
    var more := LogGrows(setup, strategy, ordered, n, |ordered|);
    BooksNoMore(base, RunTo(setup, strategy, ordered, n).saved, more, saved, failed);
  }

  /** One more candle is booked. */
  lemma BooksCandle(setup: Setup, strategy: Strategy, ordered: seq<Candle>, n: nat,
                    base: seq<Saved>, middle: seq<Saved>, saved: seq<Saved>, failed: Option<string>)
    requires setup.policy.legs != [] && n < |ordered| && Books(base, RunTo(setup, strategy, ordered, n).saved, middle, None)
    requires var st := RunTo(setup, strategy, ordered, n);
             Books(middle, ClosedNow(setup, st.pending + NewPending(setup, ordered[n], n, PlansAt(strategy, ordered, n)), ordered[n], n),
                   saved, failed)
    ensures Books(base, RunTo(setup, strategy, ordered, n + 1).saved, saved, failed)
    ensures failed.Some? ==> Books(base, RunTo(setup, strategy, ordered, |ordered|).saved, saved, failed)
  {
    hide Books, ClosedNow, Survivors, NewPending, PlansAt;
    var st := RunTo(setup, strategy, ordered, n);
    var ps := st.pending + NewPending(setup, ordered[n], n, PlansAt(strategy, ordered, n));
    BooksMore(base, st.saved, ClosedNow(setup, ps, ordered[n], n), middle, saved, failed);
    if failed.Some? {
      BooksNoCandles(setup, strategy, ordered, n + 1, base, saved, failed);
    }
  }

  lemma EndedRest(setup: Setup, vs: seq<Pending>, i: nat, ordered: seq<Candle>)
    requires AllReady(vs) && i <= |vs|
    ensures EndOfRun(setup, vs, ordered) == EndedUpTo(setup, vs, i, ordered) + EndOfRun(setup, vs[i..], ordered)
  {
    assert vs == vs[..i] + vs[i..];
    BacktestAgreement.EndAppend(setup, vs[..i], vs[i..], ordered);
    hide EndOfRun, Ready;
  }

  /** Later candles only add to the log. */
  lemma {:induction false} LogGrows(setup: Setup, strategy: Strategy, ordered: seq<Candle>, n: nat, m: nat) returns (more: seq<Saved>)
    requires setup.policy.legs != [] && n <= m <= |ordered|
    ensures RunTo(setup, strategy, ordered, m).saved == RunTo(setup, strategy, ordered, n).saved + more
  {
    hide Survivors, ClosedNow, NewPending, PlansAt;
    more := [];
    if n < m {
      more := LogGrows(setup, strategy, ordered, n, m - 1);
      var st := RunTo(setup, strategy, ordered, m - 1);
      var ps := st.pending + NewPending(setup, ordered[m - 1], m - 1, PlansAt(strategy, ordered, m - 1));
      more := more + ClosedNow(setup, ps, ordered[m - 1], m - 1);
    }
  }

  lemma RunStart(setup: Setup, strategy: Strategy, ordered: seq<Candle>)
    requires setup.policy.legs != []
    ensures RunTo(setup, strategy, ordered, 0) == RunState([], [])
    ensures LastCandles(map[], ordered, 0)
  {
  }

  lemma RunStep(setup: Setup, strategy: Strategy, ordered: seq<Candle>, n: nat)
    requires setup.policy.legs != [] && n < |ordered|
    requires NoneTerminal(RunTo(setup, strategy, ordered, n).pending)
    ensures var st := RunTo(setup, strategy, ordered, n);
            var ps := st.pending + NewPending(setup, ordered[n], n, PlansAt(strategy, ordered, n));
            && RunTo(setup, strategy, ordered, n + 1).pending == Survivors(setup, ps, ordered[n], n)
            && NoneTerminal(RunTo(setup, strategy, ordered, n + 1).pending)
  {
    var st := RunTo(setup, strategy, ordered, n);
    SurvivorsLive(setup, st.pending + NewPending(setup, ordered[n], n, PlansAt(strategy, ordered, n)), ordered[n], n);
    hide Survivors, ClosedNow;
  }

  /** A trade that is open at the end has seen a candle of its series. */
  lemma OpenHasSeries(setup: Setup, strategy: Strategy, ordered: seq<Candle>)
    requires setup.policy.legs != []
    ensures forall p <- RunTo(setup, strategy, ordered, |ordered|).pending ::
      p.trade.state.Open? ==> Sorting.Filter(ordered, OfKey(p.plan.key)) != []
  {
    hide RunTo;
    BacktestAgreement.PendingIsUnfinished(setup, strategy, ordered, |ordered|);
    UnfinishedHaveSeries(setup, ordered, BacktestAgreement.PlansUpTo(setup, strategy, ordered, |ordered|));
  }

  lemma {:induction false} UnfinishedHaveSeries(setup: Setup, ordered: seq<Candle>, ps: seq<Pending>)
    requires setup.policy.legs != [] && forall i :: 0 <= i < |ps| ==> ps[i].id.candle < |ordered|
    ensures forall p <- BacktestAgreement.Unfinished(setup, ordered, ps, |ordered|) ::
      p.trade.state.Open? ==> Sorting.Filter(ordered, OfKey(p.plan.key)) != []
  {
    if ps != [] {
      UnfinishedHaveSeries(setup, ordered, ps[1..]);
      hide Sorting.Filter;
      if BacktestAgreement.Later(ordered, ps[0], |ordered|) != [] {
        BacktestAgreement.LastOfSeries(ordered, ps[0]);
      } else {
        BacktestAgreement.NoCandlesNoEntry(setup, ps[0]);
      }
    }
  }

  // ------------------------------------------------------------- offline

  class CanonicalTradeSimulator {
    const setup: Setup
    var candlesByKey: map<SeriesKey, seq<Candle>>
    var timesByKey: map<SeriesKey, seq<int>>

    constructor (setup: Setup)
      ensures this.setup == setup && Unprepared()
    {
      this.setup := setup;
      candlesByKey, timesByKey := map[], map[];
    }

    ghost predicate Unprepared()
      reads this
    {
      candlesByKey == map[] && timesByKey == map[]
    }

    ghost predicate PreparedFrom(candles: seq<Candle>)
      reads this
    {
      && (forall key :: key in candlesByKey <==> Series(candles, key) != [])
      && (forall key :: key in candlesByKey ==>
            candlesByKey[key] == Sorting.StableSort(Series(candles, key), OpenTimeOf))
      && timesByKey.Keys == candlesByKey.Keys
      && (forall key :: key in timesByKey ==> timesByKey[key] == OpenTimes(candlesByKey[key]))
    }

    method Prepare(candles: seq<Candle>)
      modifies this
      ensures PreparedFrom(candles)
    {
      hide Series, GroupedUpTo, Sorting.StableSort;
      var grouped: map<SeriesKey, seq<Candle>> := map[];
      GroupedNone(candles);
      for n := 0 to |candles|
        invariant GroupedUpTo(grouped, candles, n)
      {
        var c := candles[n];
        NextGroup(grouped, candles, n);
        if c.isClosed {
          grouped := grouped[c.key := (if c.key in grouped then grouped[c.key] else []) + [c]];
        }
      }
      GroupedAll(grouped, candles);
      candlesByKey := map key | key in grouped :: Sorting.StableSort(grouped[key], OpenTimeOf);
      timesByKey := map key | key in candlesByKey :: OpenTimes(candlesByKey[key]);
    }

    method Simulate(plan: Plan, signal: Candle, candles: seq<Candle>) returns (r: Option<Result<Audit>>)
      requires setup.policy.legs != [] && (Unprepared() || PreparedFrom(candles))
      ensures r == Simulated(setup, plan, signal, candles)
    {
      var engine := new ExitPolicyEngine(setup.policy);
      var trade := engine.OpenNew(plan.prices);
      var series := if plan.key in candlesByKey then candlesByKey[plan.key]
                    else Sorting.StableSort(Series(candles, plan.key), OpenTimeOf);
      var times := if plan.key in timesByKey then timesByKey[plan.key] else OpenTimes(series);
      var start := Bisect.BisectRight(times, signal.openTime);
      var relevant := series[start..];
      assert relevant == After(Sorting.StableSort(Series(candles, plan.key), OpenTimeOf), signal.openTime);
      if relevant == [] {
        return None;
      }
      r := ReplayPlan(engine, trade, plan, signal, relevant);
    }

    method ReplayPlan(engine: ExitPolicyEngine, trade: SimulatedTrade, plan: Plan, signal: Candle, relevant: seq<Candle>)
        returns (r: Option<Result<Audit>>)
      requires engine.settings == setup.policy && setup.policy.legs != [] && relevant != []
      requires trade.Value() == OpenTrade(setup.policy, plan.prices)
      modifies trade
      ensures r == Outcome(setup, plan, signal, relevant)
    {
      ghost var start := trade.Value();
      hide Step, Replayed;
      ReplayEnds(setup.policy, start, relevant);
      for k := 0 to |relevant|
        invariant trade.Value() == Replayed(setup.policy, start, relevant[..k]) && !trade.Value().Terminal()
      {
        OneStep(setup.policy, start, relevant, k);
        engine.Advance(trade, relevant[k]);
        if trade.state.Closed? {
          break;
        }
        if trade.state.ExpiredUnfilled? {
          return None;
        }
      }
      assert relevant[..|relevant|] == relevant;
      if trade.state.Open? {
        engine.CloseAtEndOfData(trade, relevant[|relevant| - 1]);
      }
      ReplaySound(setup.policy, plan.prices, relevant);
      if !trade.state.Closed? {
        return None;
      }
      r := Some(AuditOf(setup, plan, signal, trade.Value()));
    }
  }

  lemma ReplayEnds(policy: ExitPolicy, t: Trade, cs: seq<Candle>)
    requires t.EntryKnown() && t.legs != []
    ensures Replayed(policy, t, cs[..0]) == t
  {
  }

  /** One more candle; and once the trade is finished, the rest of the series changes nothing. */
  lemma OneStep(policy: ExitPolicy, t: Trade, cs: seq<Candle>, k: nat)
    requires t.EntryKnown() && t.legs != [] && k < |cs|
    ensures Replayed(policy, t, cs[..k + 1]) == Step(policy, Replayed(policy, t, cs[..k]), cs[k])
    ensures Replayed(policy, t, cs[..k + 1]).Terminal() ==> Replayed(policy, t, cs) == Replayed(policy, t, cs[..k + 1])
  {
    hide Step;
    assert cs[..k + 1][..k] == cs[..k];
    if Replayed(policy, t, cs[..k + 1]).Terminal() {
      ExitProgress.TerminalIsAbsorbing(policy, Replayed(policy, t, cs[..k + 1]), cs[k + 1..]);
      ExitProgress.ReplayAppend(policy, t, cs[..k + 1], cs[k + 1..]);
      assert cs[..k + 1] + cs[k + 1..] == cs;
    }
  }

  ghost predicate GroupedUpTo(grouped: map<SeriesKey, seq<Candle>>, candles: seq<Candle>, n: nat)
    requires n <= |candles|
  {
    && (forall key :: key in grouped <==> Series(candles[..n], key) != [])
    && (forall key :: key in grouped ==> grouped[key] == Series(candles[..n], key))
  }

  lemma GroupedNone(candles: seq<Candle>)
    ensures GroupedUpTo(map[], candles, 0)
  {
  }

  lemma GroupedAll(grouped: map<SeriesKey, seq<Candle>>, candles: seq<Candle>)
    requires GroupedUpTo(grouped, candles, |candles|)
    ensures forall key :: key in grouped <==> Series(candles, key) != []
    ensures forall key :: key in grouped ==> grouped[key] == Series(candles, key)
  {
    assert candles[..|candles|] == candles;
  }

  lemma SeriesGrows(cs: seq<Candle>, c: Candle, key: SeriesKey)
    ensures Series(cs + [c], key) == Series(cs, key) + (if c.isClosed && c.key == key then [c] else [])
  {
    hide Sorting.Filter;
    var closed := Sorting.Filter(cs, ClosedCandle);
    Sorting.FilterAppend(cs, [c], ClosedCandle);
    Sorting.FilterOne<Candle>(c, ClosedCandle);
    Sorting.FilterOne<Candle>(c, OfKey(key));
    if c.isClosed {
      Sorting.FilterAppend(closed, [c], OfKey(key));
    } else {
      assert closed + [] == closed;
    }
  }

  lemma NextGroup(grouped: map<SeriesKey, seq<Candle>>, candles: seq<Candle>, n: nat)
    requires n < |candles| && GroupedUpTo(grouped, candles, n)
    ensures var c := candles[n];
            GroupedUpTo(if c.isClosed then grouped[c.key := (if c.key in grouped then grouped[c.key] else []) + [c]] else grouped,
                    candles, n + 1)
  {
    var c := candles[n];
    assert candles[..n + 1] == candles[..n] + [c];
    forall key ensures Series(candles[..n + 1], key)
        == Series(candles[..n], key) + (if c.isClosed && c.key == key then [c] else [])
    {
      SeriesGrows(candles[..n], c, key);
    }
    hide Series;
  }
}
