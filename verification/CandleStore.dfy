/**
 The in-memory candle store of `app/data/candles.py`: a dictionary of candles by
 open time beside a sorted list of the open times, searched by bisection.
 */
module CandleStore {
  import opened Market
  import opened Bisect

  /** The plain dictionaries, without the sorted lists. */
  type Book = map<SeriesKey, map<int, PricedCandle>>

  function Bucket(book: Book, key: SeriesKey): map<int, PricedCandle> {
    if key in book then book[key] else map[]
  }

  function With(book: Book, c: PricedCandle): Book {
    book[c.key := Bucket(book, c.key)[c.openTime := c]]
  }

  // ----------------------------------------------------- the reference scan

  /** `ts` lists the elements of `s` in ascending order. */
  ghost predicate Lists(ts: seq<int>, s: set<int>) {
    Ascending(ts) && forall t :: t in ts <==> t in s
  }

  lemma {:induction false} ListsUnique(xs: seq<int>, ys: seq<int>)
    requires Ascending(xs) && Ascending(ys) && forall t :: t in xs <==> t in ys
    ensures xs == ys
  {
    var x0, y0 := if xs == [] then 0 else xs[0], if ys == [] then 0 else ys[0];
    assert xs == [] || x0 in xs;
    assert ys == [] || y0 in ys;
    if xs != [] && ys != [] {
      var x, y := xs[|xs| - 1], ys[|ys| - 1];
      LastIsLargest(xs);
      LastIsLargest(ys);
      assert x in ys && y in xs;
      assert x == y;
      var xs', ys' := xs[..|xs| - 1], ys[..|ys| - 1];
      forall t ensures t in xs' <==> t in ys' {
        assert t in xs' <==> t in xs && t != x;
        assert t in ys' <==> t in ys && t != y;
      }
      ListsUnique(xs', ys');
    }
  }

  lemma {:induction false} CountListed(ts: seq<int>, s: set<int>)
    requires Lists(ts, s)
    ensures |ts| == |s|
  {
    if ts == [] {
      if s != {} {
        var t: int := Element(s);
        assert false;
      }
    } else {
      LastIsLargest(ts);
      var last := ts[|ts| - 1];
      assert last in ts;
      CountListed(ts[..|ts| - 1], s - {last});
    }
  }

  lemma LastIsLargest(xs: seq<int>)
    requires xs != [] && Ascending(xs)
    ensures forall t :: t in xs ==> t <= xs[|xs| - 1]
    ensures forall t :: t in xs[..|xs| - 1] <==> t in xs && t != xs[|xs| - 1]
  {
    forall t | t in xs ensures t <= xs[|xs| - 1] && (t in xs[..|xs| - 1] <==> t != xs[|xs| - 1]) {
      var i :| 0 <= i < |xs| && xs[i] == t;
      if i < |xs| - 1 {
        assert xs[..|xs| - 1][i] == t;
      }
    }
  }

  ghost function Element<T>(s: set<T>): (t: T)
    requires s != {}
    ensures t in s
  {
    var t :| t in s;
    t
  }

  /** Ascending listing of a finite set, by insertion. */
  ghost function Listing(s: set<int>): (ts: seq<int>)
    ensures Lists(ts, s)
  {
    if s == {} then []
    else
      var t := Element(s);
      var rest := Listing(s - {t});
      InsortAscending(rest, t);
      Insort(rest, t)
  }

  /** The last `limit` of a list. */
  function LastOf<T>(xs: seq<T>, limit: nat): seq<T> {
    if |xs| <= limit then xs else xs[|xs| - limit..]
  }

  function Lookup(bucket: map<int, PricedCandle>, ts: seq<int>): (r: seq<PricedCandle>)
    requires forall i :: 0 <= i < |ts| ==> ts[i] in bucket
    ensures |r| == |ts|
  {
    seq(|ts|, i requires 0 <= i < |ts| => bucket[ts[i]])
  }

  /** Every candle is filed under its own series and open time. */
  ghost predicate Filed(book: Book) {
    forall key, t :: key in book && t in book[key] ==> book[key][t].key == key && book[key][t].openTime == t
  }

  /** What a full scan of the dictionary gives: the last `limit` candles that open by `asOf`. */
  ghost function RecentAsOf(book: Book, key: SeriesKey, limit: nat, asOf: int): seq<PricedCandle> {
    var bucket := Bucket(book, key);
    var times := LastOf(Listing(set t | t in bucket && t <= asOf), limit);
    assert forall i :: 0 <= i < |times| ==> times[i] in Listing(set t | t in bucket && t <= asOf);
    Lookup(bucket, times)
  }

  ghost function InRange(book: Book, key: SeriesKey, start: int, end: int): seq<PricedCandle> {
    var bucket := Bucket(book, key);
    var times := Listing(set t | t in bucket && start <= t <= end);
    assert forall i :: 0 <= i < |times| ==> times[i] in times;
    Lookup(bucket, times)
  }

  ghost predicate NothingAfter(book: Book, key: SeriesKey, time: int) {
    forall t :: t in Bucket(book, key) ==> t <= time
  }

  // --------------------------------------------------------------- the store

  lemma PrefixLists(ts: seq<int>, s: set<int>, asOf: int)
    requires Lists(ts, s)
    ensures ts[..BisectRight(ts, asOf)] == Listing(set t | t in s && t <= asOf)
  {
    var below := set t | t in s && t <= asOf;
    var i := BisectRight(ts, asOf);
    assert NonDescending(ts);
    forall t ensures t in ts[..i] <==> t in below {
      if t in below {
        var k :| 0 <= k < |ts| && ts[k] == t;
        assert k < i;
        assert ts[..i][k] == t;
      }
    }
    ListsUnique(ts[..i], Listing(below));
  }

  lemma RangeLists(ts: seq<int>, s: set<int>, start: int, end: int)
    requires Lists(ts, s)
    ensures var i, j := BisectLeft(ts, start), BisectRight(ts, end);
            Slice(ts, i, j) == Listing(set t | t in s && start <= t <= end)
  {
    var within := set t | t in s && start <= t <= end;
    var i, j := BisectLeft(ts, start), BisectRight(ts, end);
    var cut := if i <= j then ts[i..j] else [];
    assert NonDescending(ts);
    forall t ensures t in cut <==> t in within {
      if t in within {
        var k :| 0 <= k < |ts| && ts[k] == t;
        assert i <= k < j;
        assert ts[i..j][k - i] == t;
      }
    }
    ListsUnique(cut, Listing(within));
  }

  class CandleStore {
    var candles: Book
    var orderedKeys: map<SeriesKey, seq<int>>

    constructor ()
      ensures Valid() && candles == map[]
    {
      candles, orderedKeys := map[], map[];
    }

    /** Each sorted list lists exactly the keys of its dictionary. */
    ghost predicate Valid()
      reads this
    {
      && Filed(candles)
      && orderedKeys.Keys == candles.Keys
      && forall key :: key in candles ==> Lists(orderedKeys[key], candles[key].Keys)
    }

    method AddCandle(c: PricedCandle) returns (changed: bool)
      requires Valid()
      modifies this
      ensures Valid()
      ensures candles == With(old(candles), c)
      ensures changed <==> !(c.openTime in Bucket(old(candles), c.key) && Bucket(old(candles), c.key)[c.openTime] == c)
    {
      hide Insort;
      var bucket := Bucket(candles, c.key);
      if c.openTime in bucket && bucket[c.openTime] == c {
        assert bucket[c.openTime := c] == bucket;
        return false;
      }
      var keys := if c.key in orderedKeys then orderedKeys[c.key] else [];
      if c.openTime !in bucket {
        InsortAscending(keys, c.openTime);
        keys := Insort(keys, c.openTime);
      }
      candles := candles[c.key := bucket[c.openTime := c]];
      orderedKeys := orderedKeys[c.key := keys];
      return true;
    }

    function Keys(key: SeriesKey): seq<int>
      reads this
    {
      if key in orderedKeys then orderedKeys[key] else []
    }

    lemma KeysList(key: SeriesKey)
      requires Valid()
      ensures Lists(Keys(key), Bucket(candles, key).Keys)
      ensures forall i :: 0 <= i < |Keys(key)| ==> Keys(key)[i] in Bucket(candles, key)
    {
      forall i | 0 <= i < |Keys(key)| ensures Keys(key)[i] in Bucket(candles, key) {
        assert Keys(key)[i] in Keys(key);
      }
    }

    /** `keys[-limit:]`, where a limit of 0 keeps the whole list. */
    method GetRecent(key: SeriesKey, limit: nat) returns (r: seq<PricedCandle>)
      requires Valid()
      ensures |r| == (if limit == 0 || |Bucket(candles, key)| <= limit then |Bucket(candles, key)| else limit)
      ensures forall asOf :: NothingAfter(candles, key, asOf) ==> r == RecentAsOf(candles, key, if limit == 0 then |r| else limit, asOf)
    {
      KeysList(key);
      var bucket, keys := Bucket(candles, key), Keys(key);
      r := Lookup(bucket, if limit == 0 then keys else LastOf(keys, limit));
      CountListed(keys, bucket.Keys);
      forall asOf | NothingAfter(candles, key, asOf)
        ensures r == RecentAsOf(candles, key, if limit == 0 then |r| else limit, asOf)
      {
        assert (set t | t in bucket && t <= asOf) == bucket.Keys;
        ListsUnique(keys, Listing(bucket.Keys));
      }
    }

    /** The candle with the largest open time. */
    method GetLatest(key: SeriesKey) returns (r: Option<PricedCandle>)
      requires Valid()
      ensures var bucket := Bucket(candles, key);
              match r
              case None => bucket == map[]
              case Some(c) => exists t :: t in bucket && bucket[t] == c && forall u :: u in bucket ==> u <= t
    {
      KeysList(key);
      var keys := Keys(key);
      if keys == [] {
        assert forall t :: t in Bucket(candles, key) ==> t in keys;
        return None;
      }
      LastIsLargest(keys);
      assert keys[|keys| - 1] in keys;
      return Some(candles[key][keys[|keys| - 1]]);
    }

    method GetRecentAsOf(key: SeriesKey, limit: nat, asOf: int) returns (r: seq<PricedCandle>)
      requires Valid()
      ensures r == RecentAsOf(candles, key, limit, asOf)
    {
      hide Listing, Valid, Insort, Ascending;
      KeysList(key);
      var bucket, keys := Bucket(candles, key), Keys(key);
      var end := BisectRight(keys, asOf);
      PrefixLists(keys, bucket.Keys, asOf);
      assert (set t | t in bucket.Keys && t <= asOf) == (set t | t in bucket && t <= asOf);
      var begin := if end - limit < 0 then 0 else end - limit;
      assert keys[begin..end] == LastOf(keys[..end], limit);
      r := Lookup(bucket, keys[begin..end]);
    }

    /** Every candle that opens in the closed range; nothing for an inverted range. */
    method GetRange(key: SeriesKey, start: int, end: int) returns (r: seq<PricedCandle>)
      requires Valid()
      ensures r == InRange(candles, key, start, end)
    {
      hide Listing, Valid, Insort;
      KeysList(key);
      var bucket, keys := Bucket(candles, key), Keys(key);
      var begin, finish := BisectLeft(keys, start), BisectRight(keys, end);
      ghost var within := set t | t in bucket && start <= t <= end;
      assert within == set t | t in bucket.Keys && start <= t <= end;
      RangeLists(keys, bucket.Keys, start, end);
      var cut := Slice(keys, begin, finish);
      assert cut == Listing(within);
      r := Lookup(bucket, cut);
    }
  }

  /** Python's `xs[i:j]`, empty when the bounds cross. */
  function Slice(xs: seq<int>, i: nat, j: nat): seq<int>
    requires i <= |xs| && j <= |xs|
  {
    if i <= j then xs[i..j] else []
  }

  // ------------------------------------------------------------ what reads see

  /** Two books hold the same candles of one series up to a point in time. */
  ghost predicate AgreeUpTo(a: Book, b: Book, key: SeriesKey, time: int) {
    forall t :: t <= time ==>
      (t in Bucket(a, key) <==> t in Bucket(b, key))
      && (t in Bucket(a, key) ==> Bucket(a, key)[t] == Bucket(b, key)[t])
  }

  /** An as-of read cannot see anything that opens later. */
  lemma ReadsAgree(a: Book, b: Book, key: SeriesKey, limit: nat, asOf: int)
    requires AgreeUpTo(a, b, key, asOf)
    ensures RecentAsOf(a, key, limit, asOf) == RecentAsOf(b, key, limit, asOf)
  {
    var x, y := Bucket(a, key), Bucket(b, key);
    assert (set t | t in x && t <= asOf) == (set t | t in y && t <= asOf);
    var times := LastOf(Listing(set t | t in x && t <= asOf), limit);
    forall i | 0 <= i < |times| ensures times[i] <= asOf && times[i] in x {
      assert times[i] in Listing(set t | t in x && t <= asOf);
    }
  }

  /** The book after adding candles one by one. */
  function BookOf(cs: seq<PricedCandle>): Book {
    if cs == [] then map[] else With(BookOf(cs[..|cs| - 1]), cs[|cs| - 1])
  }

  ghost predicate NoTwins(cs: seq<PricedCandle>) {
    forall i, j :: 0 <= i < j < |cs| && cs[i].key == cs[j].key ==> cs[i].openTime != cs[j].openTime
  }

  /** A book holds exactly the candles that were added. */
  lemma {:induction false} BookHolds(cs: seq<PricedCandle>, key: SeriesKey, t: int)
    requires NoTwins(cs)
    ensures t in Bucket(BookOf(cs), key) <==> exists i :: 0 <= i < |cs| && cs[i].key == key && cs[i].openTime == t
    ensures forall i :: 0 <= i < |cs| && cs[i].key == key && cs[i].openTime == t ==> Bucket(BookOf(cs), key)[t] == cs[i]
  {
    if cs != [] {
      var init := cs[..|cs| - 1];
      BookHolds(init, key, t);
      if i :| 0 <= i < |init| && init[i].key == key && init[i].openTime == t {
        assert cs[i] == init[i];
      }
    }
  }

  /** Candles in open-time order: at its own turn each sees the same past, whatever is added later. */
  lemma LaterCandlesInvisible(cs: seq<PricedCandle>, n: nat)
    requires n < |cs| && NoTwins(cs)
    requires forall i, j :: 0 <= i < j < |cs| ==> cs[i].openTime <= cs[j].openTime
    ensures AgreeUpTo(BookOf(cs[..n + 1]), BookOf(cs), cs[n].key, cs[n].openTime)
  {
    var key, past := cs[n].key, cs[..n + 1];
    forall t | t <= cs[n].openTime
      ensures t in Bucket(BookOf(past), key) <==> t in Bucket(BookOf(cs), key)
      ensures t in Bucket(BookOf(past), key) ==> Bucket(BookOf(past), key)[t] == Bucket(BookOf(cs), key)[t]
    {
      BookHolds(past, key, t);
      BookHolds(cs, key, t);
      if i :| 0 <= i < |cs| && cs[i].key == key && cs[i].openTime == t {
        assert i <= n;
        assert past[i] == cs[i];
      }
    }
  }

  /** The candles of an as-of read ascend strictly and open by the time asked for. */
  lemma ReadsAscend(book: Book, key: SeriesKey, limit: nat, asOf: int)
    requires forall t :: t in Bucket(book, key) ==> Bucket(book, key)[t].openTime == t
    ensures var cs := RecentAsOf(book, key, limit, asOf);
            && (forall i, j :: 0 <= i < j < |cs| ==> cs[i].openTime < cs[j].openTime)
            && (forall i :: 0 <= i < |cs| ==> cs[i].openTime <= asOf)
  {
    hide Listing;
    var bucket := Bucket(book, key);
    var all := Listing(set t | t in bucket && t <= asOf);
    var times := LastOf(all, limit);
    assert Ascending(times);
    var cs := RecentAsOf(book, key, limit, asOf);
    forall i | 0 <= i < |cs| ensures cs[i].openTime == times[i] && times[i] <= asOf {
      assert times[i] in all;
    }
  }
}
