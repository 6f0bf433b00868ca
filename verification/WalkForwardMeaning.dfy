/**
 Which candles and trades a walk-forward window counts, in open times: shown on the
 validation that keeps a diary, one trade for each candle it is handed, at the
 candle's own open time and worth its volume.
 */
module WalkForwardMeaning {
  import opened Market
  import opened WalkForwardRuns
  import Sorting

  /** The candles that open from one time on and before another, in the order given. */
  function Opening(cs: seq<Candle>, from: int, to: int): seq<Candle> {
    if cs == [] then []
    else (if from <= cs[0].openTime < to then [cs[0]] else []) + Opening(cs[1..], from, to)
  }

  /** Those of the first `n` inputs, one input after the other. */
  function OpeningAll(inputs: seq<Input>, from: int, to: int, n: nat): seq<Candle>
    requires n <= |inputs|
  {
    if n == 0 then [] else OpeningAll(inputs, from, to, n - 1) + Opening(inputs[n - 1].candles, from, to)
  }

  /** One trade for each candle. */
  function Diary(cs: seq<Candle>): (ts: seq<Trade>)
    ensures |ts| == |cs|
  {
    if cs == [] then [] else [Trade(cs[0].openTime, Some(cs[0].volume))] + Diary(cs[1..])
  }

  const KEEPING: Validate := cs => Ok(Diary(cs))

  function Volume(cs: seq<Candle>): real {
    if cs == [] then 0.0 else cs[0].volume + Volume(cs[1..])
  }

  /** The spans of a window follow one another. */
  predicate InOrder(w: Span) { w.inStart <= w.inEnd == w.outStart <= w.outEnd }

  /** A window is validated on the candles that open from its in-sample start on and before its out-of-sample end. */
  lemma {:induction false} ScopeMeans(cs: seq<Candle>, w: Span)
    ensures Scoped(cs, w) == Opening(cs, w.inStart, w.outEnd)
  {
    if cs != [] {
      ScopeMeans(cs[1..], w);
    }
  }

  lemma {:induction false} DiaryAppend(a: seq<Candle>, b: seq<Candle>)
    ensures Diary(a + b) == Diary(a) + Diary(b)
  {
    if a == [] {
      assert a + b == b;
    } else {
      assert (a + b)[1..] == a[1..] + b;
      DiaryAppend(a[1..], b);
    }
  }

  /** Of a diary the window counts what opens in each of its spans. */
  lemma {:induction false} DiaryCounts(cs: seq<Candle>, w: Span)
    requires InOrder(w)
    ensures var ts := Diary(Opening(cs, w.inStart, w.outEnd));
            && OutTrades(ts, w) == Diary(Opening(cs, w.outStart, w.outEnd))
            && |InTrades(ts, w)| == |Opening(cs, w.inStart, w.inEnd)|
  {
    if cs != [] {
      DiaryCounts(cs[1..], w);
      var c := cs[0];
      var first := if w.inStart <= c.openTime < w.outEnd then [c] else [];
      DiaryAppend(first, Opening(cs[1..], w.inStart, w.outEnd));
      MoreTrades(Diary(first), Diary(Opening(cs[1..], w.inStart, w.outEnd)), w);
      OneCandleCounts(c, w);
      var out := if w.outStart <= c.openTime < w.outEnd then [c] else [];
      DiaryAppend(out, Opening(cs[1..], w.outStart, w.outEnd));
      hide OutTrades, InTrades, Diary;
    }
  }

  lemma OneCandleCounts(c: Candle, w: Span)
    requires InOrder(w)
    ensures var ts := Diary(if w.inStart <= c.openTime < w.outEnd then [c] else []);
            && OutTrades(ts, w) == Diary(if w.outStart <= c.openTime < w.outEnd then [c] else [])
            && |InTrades(ts, w)| == if w.inStart <= c.openTime < w.inEnd then 1 else 0
  {
    var t := Trade(c.openTime, Some(c.volume));
    assert Diary([c]) == [t] by { assert [c][1..] == []; }
    Sorting.FilterOne(t, t => InOut(w, t));
    Sorting.FilterOne(t, t => InSample(w, t));
    NoTrades(w);
  }

  lemma {:induction false} WindowCounts(inputs: seq<Input>, w: Span, n: nat)
    requires InOrder(w) && n <= |inputs|
    ensures var ts := WindowTrades(KEEPING, inputs, w, n);
            && OutTrades(ts, w) == Diary(OpeningAll(inputs, w.outStart, w.outEnd, n))
            && |InTrades(ts, w)| == |OpeningAll(inputs, w.inStart, w.inEnd, n)|
  {
    if n == 0 {
      NoTrades(w);
    } else {
      WindowCounts(inputs, w, n - 1);
      var cs := inputs[n - 1].candles;
      ScopeMeans(cs, w);
      DiaryCounts(cs, w);
      MoreTrades(WindowTrades(KEEPING, inputs, w, n - 1), Diary(Scoped(cs, w)), w);
      DiaryAppend(OpeningAll(inputs, w.outStart, w.outEnd, n - 1), Opening(cs, w.outStart, w.outEnd));
      hide OutTrades, InTrades, Diary, Scoped, Opening;
    }
  }

  lemma {:induction false} DiaryWorth(cs: seq<Candle>)
    ensures |Net(Diary(cs))| == |cs| && Sum(Net(Diary(cs))) == Volume(cs)
  {
    if cs != [] {
      DiaryWorth(cs[1..]);
      assert Net(Diary(cs)) == [cs[0].volume] + Net(Diary(cs[1..]));
    }
  }

  /** The record of a window: how many candles open in each of its spans, and what those out of sample are worth. */
  lemma RecordMeans(inputs: seq<Input>, windows: seq<Span>, k: nat)
    requires k < |windows| && InOrder(windows[k])
    ensures var w, n := windows[k], |inputs|;
            OwnRecord(KEEPING, inputs, windows, k)
            == Record(w, |OpeningAll(inputs, w.inStart, w.inEnd, n)|, |OpeningAll(inputs, w.outStart, w.outEnd, n)|,
                      Volume(OpeningAll(inputs, w.outStart, w.outEnd, n)))
  {
    var w := windows[k];
    WindowCounts(inputs, w, |inputs|);
    DiaryWorth(OpeningAll(inputs, w.outStart, w.outEnd, |inputs|));
    hide OutTrades, InTrades, Diary, OpeningAll, WindowTrades, Net, Volume;
  }

  /** The out-of-sample candles of the first `n` windows, one window after the other. */
  function OutOfSample(inputs: seq<Input>, windows: seq<Span>, n: nat): seq<Candle>
    requires n <= |windows|
  {
    if n == 0 then []
    else OutOfSample(inputs, windows, n - 1)
         + OpeningAll(inputs, windows[n - 1].outStart, windows[n - 1].outEnd, |inputs|)
  }

  lemma {:induction false} CollectedMeans(inputs: seq<Input>, windows: seq<Span>, n: nat)
    requires n <= |windows| && forall k :: 0 <= k < |windows| ==> InOrder(windows[k])
    ensures OutSoFar(KEEPING, inputs, windows, n) == Diary(OutOfSample(inputs, windows, n))
  {
    hide OutTrades, Diary, OpeningAll, WindowTrades;
    if n == 0 {
      assert Diary([]) == [];
    } else {
      var w := windows[n - 1];
      CollectedMeans(inputs, windows, n - 1);
      WindowCounts(inputs, w, |inputs|);
      DiaryAppend(OutOfSample(inputs, windows, n - 1), OpeningAll(inputs, w.outStart, w.outEnd, |inputs|));
    }
  }

  lemma TotalsMean(records: seq<Record>, out: seq<Candle>)
    ensures var summary := Totals(records, Diary(out));
            && summary.records == records && summary.trades == |out| && summary.total == Volume(out)
            && (out == [] ==> summary.expectancy == 0.0)
            && (out != [] ==> summary.expectancy * |out| as real == Volume(out))
  {
    DiaryWorth(out);
    hide Net, Diary, Volume, Sum;
  }

  /** The totals of the resumable aggregation: what opens out of sample, and its mean. */
  lemma SummaryMeans(inputs: seq<Input>, windows: seq<Span>)
    requires forall k :: 0 <= k < |windows| ==> InOrder(windows[k])
    ensures var summary, out := Resumable(KEEPING, inputs, windows), OutOfSample(inputs, windows, |windows|);
            && |summary.records| == |windows|
            && (forall k :: 0 <= k < |windows| ==> summary.records[k] == OwnRecord(KEEPING, inputs, windows, k))
            && summary.trades == |out| && summary.total == Volume(out)
            && (out == [] ==> summary.expectancy == 0.0)
            && (out != [] ==> summary.expectancy * |out| as real == Volume(out))
  {
    hide OwnRecord, OutSoFar, Diary, OutOfSample, Volume, Totals, Resumable;
    ResumableParts(KEEPING, inputs, windows);
    CollectedMeans(inputs, windows, |windows|);
    TotalsMean(Resumable(KEEPING, inputs, windows).records, OutOfSample(inputs, windows, |windows|));
  }

  lemma ResumableParts(validate: Validate, inputs: seq<Input>, windows: seq<Span>)
    ensures var summary := Resumable(validate, inputs, windows);
            && summary == Totals(summary.records, OutSoFar(validate, inputs, windows, |windows|))
            && |summary.records| == |windows|
            && forall k :: 0 <= k < |windows| ==> summary.records[k] == OwnRecord(validate, inputs, windows, k)
  {
    hide OwnRecord, OutSoFar, Net, Sum;
  }

  /** Where no windows overlap the plain aggregation gives the same. */
  lemma PlainMeans(inputs: seq<Input>, windows: seq<Span>)
    requires Disjoint(windows)
    ensures PlainOutcome(KEEPING, inputs, windows) == Ok(Resumable(KEEPING, inputs, windows))
  {
    SummariesAgree(KEEPING, inputs, windows);
    FailureIff(KEEPING, inputs, windows);
    hide FirstFailure, Plain, Resumable, Scoped, Diary, Disjoint;
  }
}
