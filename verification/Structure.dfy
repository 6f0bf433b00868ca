/** Swing classification (`app/structure/market_structure.py`). */
module Structure {
  import opened Market
  import opened Swings
  import Sorting

  datatype StructureKind = HH | HL | LH | LL

  datatype StructureEvent = StructureEvent(swing: SwingPoint, kind: Option<StructureKind>)

  /** The nearest swing of type `kind` among the first `n`. */
  function Previous(swings: seq<SwingPoint>, kind: SwingType, n: nat): (r: Option<SwingPoint>)
    requires n <= |swings|
    ensures r.None? <==> forall k :: 0 <= k < n ==> swings[k].kind != kind
    ensures r.Some? ==> r.value.kind == kind && r.value in swings[..n]
  {
    if n == 0 then None
    else if swings[n - 1].kind == kind then Some(swings[n - 1])
    else Previous(swings, kind, n - 1)
  }

  function KindAgainst(s: SwingPoint, previous: Option<SwingPoint>): Option<StructureKind> {
    if previous.None? then None
    else if s.kind.High? then Some(if s.Price() > previous.value.Price() then HH else LH)
    else Some(if s.Price() > previous.value.Price() then HL else LL)
  }

  function ClassifiedAt(swings: seq<SwingPoint>, i: nat): StructureEvent
    requires i < |swings|
  {
    StructureEvent(swings[i], KindAgainst(swings[i], Previous(swings, swings[i].kind, i)))
  }

  /** The first `n` swings, each compared with the nearest earlier swing of its type. */
  function ClassifiedTo(swings: seq<SwingPoint>, n: nat): (events: seq<StructureEvent>)
    requires n <= |swings|
    ensures |events| == n
  {
    if n == 0 then [] else ClassifiedTo(swings, n - 1) + [ClassifiedAt(swings, n - 1)]
  }

  function Classified(swings: seq<SwingPoint>): seq<StructureEvent> {
    ClassifiedTo(swings, |swings|)
  }

  function SwingTime(s: SwingPoint): real { s.candle.openTime as real }

  ghost predicate OneSeries(key: SeriesKey, swings: seq<SwingPoint>) {
    forall i :: 0 <= i < |swings| ==> swings[i].candle.key == key
  }

  ghost function Assessed(key: SeriesKey, swings: seq<SwingPoint>): Result<seq<StructureEvent>> {
    if OneSeries(key, swings) then Ok(Classified(Sorting.StableSort(swings, SwingTime)))
    else Raised("All swings must belong to the requested symbol and timeframe")
  }

  lemma SortedKeys(key: SeriesKey, swings: seq<SwingPoint>)
    ensures var ordered := Sorting.StableSort(swings, SwingTime);
            && (OneSeries(key, ordered) <==> OneSeries(key, swings))
            && OneSeries(key, ordered[..0])
            && ordered[..|ordered|] == ordered
  {
    var ordered := Sorting.StableSort(swings, SwingTime);
    Sorting.SameElements(swings, ordered);
    forall i | 0 <= i < |swings| ensures swings[i] in ordered {
      assert swings[i] in swings;
    }
    forall i | 0 <= i < |ordered| ensures ordered[i] in swings {
      assert ordered[i] in ordered;
    }
  }

  lemma OneMoreKey(key: SeriesKey, ordered: seq<SwingPoint>, n: nat)
    requires n < |ordered| && OneSeries(key, ordered[..n])
    ensures if ordered[n].candle.key == key then OneSeries(key, ordered[..n + 1]) else !OneSeries(key, ordered)
  {
  }

  class MarketStructureEngine {
    constructor () {}

    method Evaluate(key: SeriesKey, swings: seq<SwingPoint>) returns (r: Result<seq<StructureEvent>>)
      ensures r == Assessed(key, swings)
    {
      var ordered := Sorting.StableSort(swings, SwingTime);
      hide ClassifiedAt, Remembered, KindAgainst, OneSeries, Sorting.StableSort;
      assert OneSeries(key, ordered[..0]) by { SortedKeys(key, []); }
      var previousByType: map<SwingType, SwingPoint> := map[];
      NothingRemembered(ordered);
      var events: seq<StructureEvent> := [];
      for n := 0 to |ordered|
        invariant OneSeries(key, ordered[..n])
        invariant Remembered(previousByType, ordered, n)
        invariant events == ClassifiedTo(ordered, n)
      {
        var swing := ordered[n];
        OneMoreKey(key, ordered, n);
        if swing.candle.key != key {
          SortedKeys(key, swings);
          return Raised("All swings must belong to the requested symbol and timeframe");
        }
        RememberNext(previousByType, ordered, n);
        var previous := if swing.kind in previousByType then Some(previousByType[swing.kind]) else None;
        events := events + [StructureEvent(swing, KindAgainst(swing, previous))];
        previousByType := previousByType[swing.kind := swing];
      }
      SortedKeys(key, swings);
      return Ok(events);
    }
  }

  /** `previous_by_type` holds the nearest swing of each type. */
  ghost predicate Remembered(previous: map<SwingType, SwingPoint>, swings: seq<SwingPoint>, n: nat)
    requires n <= |swings|
  {
    forall t :: Previous(swings, t, n) == if t in previous then Some(previous[t]) else None
  }

  lemma NothingRemembered(swings: seq<SwingPoint>)
    ensures Remembered(map[], swings, 0)
  {
  }

  lemma RememberNext(previous: map<SwingType, SwingPoint>, swings: seq<SwingPoint>, n: nat)
    requires n < |swings| && Remembered(previous, swings, n)
    ensures ClassifiedAt(swings, n)
         == StructureEvent(swings[n], KindAgainst(swings[n],
              if swings[n].kind in previous then Some(previous[swings[n].kind]) else None))
    ensures Remembered(previous[swings[n].kind := swings[n]], swings, n + 1)
  {
  }

  lemma {:induction false} PreviousInPrefix(swings: seq<SwingPoint>, kind: SwingType, n: nat, k: nat)
    requires n <= k <= |swings|
    ensures Previous(swings[..k], kind, n) == Previous(swings, kind, n)
  {
    if n > 0 {
      PreviousInPrefix(swings, kind, n - 1, k);
    }
  }

  /** Later swings never change how earlier ones are classified. */
  lemma {:induction false} ClassificationIsCausal(swings: seq<SwingPoint>, n: nat, k: nat)
    requires n <= k <= |swings|
    ensures ClassifiedTo(swings[..k], n) == ClassifiedTo(swings, n)
    ensures ClassifiedTo(swings, n) == Classified(swings)[..n]
  {
    if n > 0 {
      ClassificationIsCausal(swings, n - 1, k);
      PreviousInPrefix(swings, swings[n - 1].kind, n - 1, k);
    }
    ClassifiedPrefix(swings, n, |swings|);
  }

  lemma {:induction false} ClassifiedPrefix(swings: seq<SwingPoint>, n: nat, m: nat)
    requires n <= m <= |swings|
    ensures ClassifiedTo(swings, n) == ClassifiedTo(swings, m)[..n]
  {
    if n < m {
      ClassifiedPrefix(swings, n, m - 1);
    }
  }

  // -------------------------------------- detection followed by classification

  predicate Ascends(cs: seq<PricedCandle>) {
    forall i, j :: 0 <= i < j < |cs| ==> cs[i].openTime < cs[j].openTime
  }

  /** Detection lists pivots in time order, so sorting them again changes nothing. */
  lemma {:induction false} PivotsInOrder(cs: seq<PricedCandle>, left: nat, right: nat, end: int, key: SeriesKey)
    requires Ascends(cs) && end + right <= |cs| && forall i :: 0 <= i < |cs| ==> cs[i].key == key
    ensures var ps := PivotsBefore(cs, left, right, end);
            && Sorting.SortedBy(ps, SwingTime) && OneSeries(key, ps)
            && forall s <- ps :: end > left && SwingTime(s) <= cs[end - 1].openTime as real
    decreases end
  {
    hide PivotsAt;
    if end > left {
      var pivot := cs[end - 1].openTime as real;
      PivotsInOrder(cs, left, right, end - 1, key);
      var before, now := PivotsBefore(cs, left, right, end - 1), PivotsAt(cs, left, right, end - 1);
      PivotsShareTime(cs, left, right, end - 1);
      forall s | s in before ensures SwingTime(s) <= pivot {
        assert cs[end - 2].openTime < cs[end - 1].openTime;
      }
      Sorting.SortedJoin(before, now, SwingTime, pivot);
      forall i | 0 <= i < |now| ensures now[i].candle.key == key {
        assert now[i] in now;
      }
    }
  }

  lemma PivotsShareTime(cs: seq<PricedCandle>, left: nat, right: nat, i: int)
    requires left <= i && i + right < |cs|
    ensures forall s <- PivotsAt(cs, left, right, i) :: s.candle == cs[i]
    ensures Sorting.SortedBy(PivotsAt(cs, left, right, i), SwingTime)
  {
    hide IsPivotHigh, IsPivotLow;
  }

  /**
   Whatever the gate shows, at any time, it is classified as a prefix of the full
   classification.
   */
  lemma GatedClassificationIsPrefix(cs: seq<PricedCandle>, left: nat, right: nat, asOf: int)
    requires Spaced(cs) && Ascends(cs)
    ensures Classified(Sorting.StableSort(Gate(Detected(cs, left, right), asOf), SwingTime))
         <= Classified(Sorting.StableSort(Detected(cs, left, right), SwingTime))
  {
    hide PivotsBefore, Gate, Sorting.StableSort, ClassifiedTo;
    var end := |cs| - right;
    var key := if cs == [] then SeriesKey("", M15) else cs[0].key;
    var n := GateCuts(cs, left, right, end, asOf);
    EarlierPivotsFirst(cs, left, right, n, end);
    var shown, all := PivotsBefore(cs, left, right, n), PivotsBefore(cs, left, right, end);
    PivotsInOrder(cs, left, right, n, key);
    PivotsInOrder(cs, left, right, end, key);
    Sorting.SortOfSorted(shown, SwingTime);
    Sorting.SortOfSorted(all, SwingTime);
    ClassificationIsCausal(all, |shown|, |shown|);
    assert shown == all[..|shown|];
  }

  /** Without missing bars it is the classification of the series cut at the bar of that time. */
  lemma GatedClassificationIsTruncated(cs: seq<PricedCandle>, left: nat, right: nat, last: nat)
    requires Contiguous(cs) && Ascends(cs) && last < |cs|
    ensures var cut := Classified(Sorting.StableSort(Detected(cs[..last + 1], left, right), SwingTime));
            && Classified(Sorting.StableSort(Gate(Detected(cs, left, right), cs[last].closeTime), SwingTime)) == cut
            && cut <= Classified(Sorting.StableSort(Detected(cs, left, right), SwingTime))
  {
    ContiguousGatingIsTruncation(cs, left, right, last);
    GatedClassificationIsPrefix(cs, left, right, cs[last].closeTime);
    hide *;
  }
}
