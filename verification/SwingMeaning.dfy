/** What the detector finds and the gate shows, in prices and times of the bars. */
module SwingMeaning {
  import opened Market
  import opened Swings
  import Sorting

  /** Milliseconds of one bar. */
  function BarMs(timeframe: Timeframe): int {
    match timeframe
    case M15 => 15 * 60 * 1000
    case H1 => 60 * 60 * 1000
    case H4 => 4 * 60 * 60 * 1000
    case D1 => 24 * 60 * 60 * 1000
  }

  /** Bar `i` is strictly above, or below, every other bar from `left` bars before it to `right` bars behind it. */
  ghost predicate Turns(cs: seq<PricedCandle>, left: nat, right: nat, i: int, kind: SwingType) {
    && left <= i && i + right < |cs|
    && forall k :: i - left <= k <= i + right && k != i ==>
         if kind.High? then cs[k].high < cs[i].high else cs[i].low < cs[k].low
  }

  /** The point at bar `i`: confirmed `right` bars behind its close. */
  function PointAt(cs: seq<PricedCandle>, right: nat, i: int, kind: SwingType): SwingPoint
    requires 0 <= i < |cs|
  {
    SwingPoint(kind, cs[i], cs[i].closeTime + right * BarMs(cs[i].key.timeframe))
  }

  lemma PivotsMean(cs: seq<PricedCandle>, left: nat, right: nat, i: int, p: SwingPoint)
    requires left <= i && i + right < |cs|
    ensures p in PivotsAt(cs, left, right, i) <==> Turns(cs, left, right, i, p.kind) && p == PointAt(cs, right, i, p.kind)
  {
    assert ConfirmedAt(cs[i], right) == cs[i].closeTime + right * BarMs(cs[i].key.timeframe);
    assert IsPivotHigh(cs, left, right, i) <==> Turns(cs, left, right, i, High);
    assert IsPivotLow(cs, left, right, i) <==> Turns(cs, left, right, i, Low);
    var high, low := PointAt(cs, right, i, High), PointAt(cs, right, i, Low);
    assert high == SwingPoint(High, cs[i], ConfirmedAt(cs[i], right)) && low == SwingPoint(Low, cs[i], ConfirmedAt(cs[i], right));
    hide ConfirmedAt, IsPivotHigh, IsPivotLow, Turns, BarMs;
    assert PivotsAt(cs, left, right, i)
        == (if Turns(cs, left, right, i, High) then [high] else []) + (if Turns(cs, left, right, i, Low) then [low] else []);
    assert p.kind.High? ==> PointAt(cs, right, i, p.kind) == high;
    assert p.kind.Low? ==> PointAt(cs, right, i, p.kind) == low;
  }

  lemma {:induction false} PivotsBeforeMean(cs: seq<PricedCandle>, left: nat, right: nat, end: int, p: SwingPoint)
    requires end + right <= |cs|
    ensures p in PivotsBefore(cs, left, right, end)
       <==> exists i :: left <= i < end && Turns(cs, left, right, i, p.kind) && p == PointAt(cs, right, i, p.kind)
    decreases end
  {
    hide PivotsAt, Turns, PointAt;
    if end > left {
      PivotsBeforeMean(cs, left, right, end - 1, p);
      PivotsMean(cs, left, right, end - 1, p);
    }
  }

  /** A point is detected if and only if some bar with its whole window in the series turns there. */
  lemma DetectionMeans(cs: seq<PricedCandle>, left: nat, right: nat, p: SwingPoint)
    ensures p in Detected(cs, left, right)
       <==> exists i :: Turns(cs, left, right, i, p.kind) && p == PointAt(cs, right, i, p.kind)
  {
    PivotsBeforeMean(cs, left, right, |cs| - right, p);
    if i :| Turns(cs, left, right, i, p.kind) && p == PointAt(cs, right, i, p.kind) {
      assert left <= i < |cs| - right;
    }
    hide PivotsBefore, PointAt;
  }

  /** The series it looks at: the closed candles, in order of their open times. */
  lemma SeriesMeans(candles: seq<PricedCandle>)
    ensures var cs := OrderedClosed(candles);
            && (forall c :: c in cs <==> c in candles && c.isClosed)
            && (forall i, j :: 0 <= i < j < |cs| ==> cs[i].openTime <= cs[j].openTime)
            && |cs| == |Sorting.Filter(candles, ClosedPriced)|
  {
    var closed := Sorting.Filter(candles, ClosedPriced);
    Sorting.StableSortSorted(closed, PricedOpenTime);
    Sorting.SameElements(closed, Sorting.StableSort(closed, PricedOpenTime));
    var cs := Sorting.StableSort(closed, PricedOpenTime);
    assert Sorting.SortedBy(cs, PricedOpenTime);
    hide Sorting.Filter, Sorting.StableSort;
    forall i, j | 0 <= i < j < |cs| ensures cs[i].openTime <= cs[j].openTime {
      assert PricedOpenTime(cs[i]) <= PricedOpenTime(cs[j]);
    }
  }

  /** The gate shows a detected point if and only if it is confirmed by then, and keeps the order. */
  lemma GateMeans(found: seq<SwingPoint>, at: int, p: SwingPoint)
    ensures p in Gate(found, at) <==> p in found && p.confirmedTime <= at
  {
  }
}
