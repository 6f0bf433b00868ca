/** Which candles a read of the store returns, in open times. */
module StoreMeaning {
  import opened Market
  import opened CandleStore
  import opened Bisect

  /** The stored open times of a series behind one time, up to another. */
  function StoredIn(book: Book, key: SeriesKey, after: int, upTo: int): set<int> {
    set t | t in Bucket(book, key) && after < t <= upTo
  }

  lemma {:induction false} SuffixLists(ts: seq<int>, s: set<int>, i: nat)
    requires Lists(ts, s) && i < |ts|
    ensures |ts| - 1 - i == |set t | t in s && ts[i] < t|
  {
    var later := set t | t in s && ts[i] < t;
    var rest := ts[i + 1..];
    forall t ensures t in rest <==> t in later {
      if t in later {
        var k :| 0 <= k < |ts| && ts[k] == t;
        assert rest[k - (i + 1)] == t;
      }
      if t in rest {
        var k :| 0 <= k < |rest| && rest[k] == t;
        assert ts[i + 1 + k] == t;
      }
    }
    CountListed(rest, later);
  }

  /** The last `limit` of an ascending list are those with fewer than `limit` behind them. */
  lemma LastMeans(ts: seq<int>, s: set<int>, limit: nat, t: int)
    requires Lists(ts, s)
    ensures t in LastOf(ts, limit) <==> t in s && |set u | u in s && t < u| < limit
  {
    var last := LastOf(ts, limit);
    var skipped := |ts| - |last|;
    assert forall k :: 0 <= k < |last| ==> last[k] == ts[skipped + k];
    if t in ts {
      var i :| 0 <= i < |ts| && ts[i] == t;
      SuffixLists(ts, s, i);
      if skipped <= i {
        assert last[i - skipped] == t;
      } else {
        forall k | 0 <= k < |last| ensures last[k] != t {
          assert ts[i] < ts[skipped + k];
        }
      }
    }
  }

  lemma LookupMeans(book: Book, key: SeriesKey, ts: seq<int>, c: PricedCandle)
    requires Filed(book) && forall i :: 0 <= i < |ts| ==> ts[i] in Bucket(book, key)
    ensures c in Lookup(Bucket(book, key), ts) <==> c.openTime in ts && Bucket(book, key)[c.openTime] == c
  {
    var bucket := Bucket(book, key);
    var read := Lookup(bucket, ts);
    forall i | 0 <= i < |ts| ensures read[i] == bucket[ts[i]] && read[i].openTime == ts[i] {
    }
    if c in read {
      var i :| 0 <= i < |read| && read[i] == c;
      assert ts[i] in ts;
    }
    if c.openTime in ts && bucket[c.openTime] == c {
      var i :| 0 <= i < |ts| && ts[i] == c.openTime;
      assert read[i] == c;
    }
  }

  /**
   An as-of read returns a stored candle if and only if it opens by the time asked
   for and fewer than `limit` stored candles open behind it by then.
   */
  lemma RecentMeans(book: Book, key: SeriesKey, limit: nat, asOf: int, c: PricedCandle)
    requires Filed(book)
    ensures c in RecentAsOf(book, key, limit, asOf)
       <==> && c.openTime in Bucket(book, key) && Bucket(book, key)[c.openTime] == c
            && c.openTime <= asOf && |StoredIn(book, key, c.openTime, asOf)| < limit
  {
    hide Listing;
    var bucket := Bucket(book, key);
    var upTo := set t | t in bucket && t <= asOf;
    var times := LastOf(Listing(upTo), limit);
    forall i | 0 <= i < |times| ensures times[i] in bucket {
      assert times[i] in Listing(upTo);
    }
    LookupMeans(book, key, times, c);
    LastMeans(Listing(upTo), upTo, limit, c.openTime);
    assert (set u | u in upTo && c.openTime < u) == StoredIn(book, key, c.openTime, asOf);
    hide LastOf, Lookup, StoredIn;
  }

  /** A range read returns exactly the stored candles that open in the closed range. */
  lemma RangeMeans(book: Book, key: SeriesKey, start: int, end: int, c: PricedCandle)
    requires Filed(book)
    ensures c in InRange(book, key, start, end)
       <==> c.openTime in Bucket(book, key) && Bucket(book, key)[c.openTime] == c && start <= c.openTime <= end
  {
    hide Listing;
    var times := Listing(set t | t in Bucket(book, key) && start <= t <= end);
    forall i | 0 <= i < |times| ensures times[i] in Bucket(book, key) {
      assert times[i] in times;
    }
    LookupMeans(book, key, times, c);
    hide Lookup;
  }

  /** And in ascending order. */
  lemma RangeAscends(book: Book, key: SeriesKey, start: int, end: int)
    requires Filed(book)
    ensures var read := InRange(book, key, start, end);
            forall i, j :: 0 <= i < j < |read| ==> read[i].openTime < read[j].openTime
  {
    hide Listing;
    var bucket := Bucket(book, key);
    var times := Listing(set t | t in bucket && start <= t <= end);
    var read := InRange(book, key, start, end);
    forall i | 0 <= i < |read| ensures read[i].openTime == times[i] {
      assert times[i] in times;
    }
  }
}
