/**
 The paging loop of `app/data/binance_rest.py`.  The server is any function of the
 request and of the number of requests so far; waiting between requests is left out.
 */
module Pagination {
  import opened Market
  import Sorting

  /** Rate limits and server errors are retried, other refusals raise. */
  datatype Response = Busy | Refused | Rows(rows: seq<Candle>)

  datatype Request = Request(startTime: int, endTime: int, number: nat)

  type Server = Request -> Response

  const PAGE: nat := 1500
  const MAXIMUM_FAILURES: nat := 5

  predicate Wanted(c: Candle, start: int, end: int) { start <= c.openTime < end }

  /** Strictly ascending open times: sorted and without duplicates. */
  ghost predicate Ascends(cs: seq<Candle>) {
    forall i, j :: 0 <= i < j < |cs| ==> cs[i].openTime < cs[j].openTime
  }

  /** Each candle is filed under its open time, inside the range. */
  ghost predicate Filed(collected: map<int, Candle>, start: int, end: int) {
    forall t <- collected :: collected[t].openTime == t && start <= t < end
  }

  function Collect(collected: map<int, Candle>, page: seq<Candle>, start: int, end: int, n: nat): map<int, Candle>
    requires n <= |page|
  {
    if n == 0 then collected
    else
      var before := Collect(collected, page, start, end, n - 1);
      if Wanted(page[n - 1], start, end) then before[page[n - 1].openTime := page[n - 1]] else before
  }

  lemma {:induction false} CollectFiled(collected: map<int, Candle>, page: seq<Candle>, start: int, end: int, n: nat)
    requires n <= |page| && Filed(collected, start, end)
    ensures Filed(Collect(collected, page, start, end, n), start, end)
  {
    if n > 0 {
      CollectFiled(collected, page, start, end, n - 1);
    }
  }

  method AddPage(collected: map<int, Candle>, page: seq<Candle>, start: int, end: int) returns (r: map<int, Candle>)
    ensures r == Collect(collected, page, start, end, |page|)
  {
    r := collected;
    for i := 0 to |page|
      invariant r == Collect(collected, page, start, end, i)
    {
      if start <= page[i].openTime < end {
        r := r[page[i].openTime := page[i]];
      }
    }
  }

  /** `max(page, key=open_time)`: the first of the latest candles. */
  method Latest(page: seq<Candle>) returns (last: Candle)
    requires page != []
    ensures last in page && forall c <- page :: c.openTime <= last.openTime
  {
    last := page[0];
    for i := 1 to |page|
      invariant last in page && forall j :: 0 <= j < i ==> page[j].openTime <= last.openTime
    {
      if page[i].openTime > last.openTime {
        last := page[i];
      }
    }
  }

  method PickAny<T>(s: set<T>) returns (t: T)
    requires s != {}
    ensures t in s
  {
    t :| t in s;
  }

  /** `sorted(collected.values(), key=open_time)`. */
  method SortedValues(collected: map<int, Candle>, start: int, end: int) returns (r: seq<Candle>)
    requires Filed(collected, start, end)
    ensures Ascends(r)
    ensures forall c: Candle :: c in r <==> c.openTime in collected && collected[c.openTime] == c
  {
    var left, values: seq<Candle> := collected.Keys, [];
    while left != {}
      invariant left <= collected.Keys
      invariant forall c: Candle :: c in values <==> c.openTime in collected.Keys - left && collected[c.openTime] == c
      invariant forall i, j :: 0 <= i < j < |values| ==> values[i].openTime != values[j].openTime
    {
      var t := PickAny(left);
      assert forall c <- values :: c.openTime != t;
      values := values + [collected[t]];
      left := left - {t};
    }
    r := Sorting.StableSort(values, OpenTimeOf);
    SortAscends(values);
    Sorting.SameElements(values, r);
  }

  lemma SortAscends(values: seq<Candle>)
    requires forall i, j :: 0 <= i < j < |values| ==> values[i].openTime != values[j].openTime
    ensures Ascends(Sorting.StableSort(values, OpenTimeOf))
  {
    hide Sorting.StableSort;
    assert Sorting.DistinctBy(values, OpenTimeOf);
    Sorting.SortDistinct(values, OpenTimeOf);
    Sorting.StableSortSorted(values, OpenTimeOf);
    OrderedAscends(Sorting.StableSort(values, OpenTimeOf));
  }

  lemma OrderedAscends(r: seq<Candle>)
    requires Sorting.SortedBy(r, OpenTimeOf) && Sorting.DistinctBy(r, OpenTimeOf)
    ensures Ascends(r)
  {
    forall i, j | 0 <= i < j < |r| ensures r[i].openTime < r[j].openTime {
      assert OpenTimeOf(r[i]) <= OpenTimeOf(r[j]) && OpenTimeOf(r[i]) != OpenTimeOf(r[j]);
    }
  }

  // ---------------------------------------------------- a server with a fixed book

  /** The candles of one series: consecutive ones do not overlap. */
  ghost predicate Orderly(book: seq<Candle>) {
    forall i, j :: 0 <= i < j < |book| ==> book[i].closeTime < book[j].openTime
  }

  function Available(book: seq<Candle>, from: int, to: int): seq<Candle> {
    Sorting.Filter(book, (c: Candle) => from <= c.openTime <= to)
  }

  /** The first rows of the requested range, both ends included. */
  function PageOf(book: seq<Candle>, from: int, to: int): seq<Candle> {
    var all := Available(book, from, to);
    if |all| <= 1500 then all else all[..1500]
  }

  /** Whenever the server answers, it answers from the book. */
  ghost predicate ServesFrom(server: Server, book: seq<Candle>) {
    forall q: Request :: server(q).Rows? ==> server(q).rows == PageOf(book, q.startTime, q.endTime)
  }

  predicate Holds(collected: map<int, Candle>, c: Candle) {
    c.openTime in collected && collected[c.openTime] == c
  }

  /** Everything wanted that opens before the cursor has been collected, and nothing else. */
  ghost predicate CollectedBefore(collected: map<int, Candle>, book: seq<Candle>, start: int, end: int, cursor: int) {
    forall c: Candle :: Holds(collected, c) <==> c in book && Wanted(c, start, end) && c.openTime < cursor
  }

  /** The list the caller asked for. */
  function Range(book: seq<Candle>, start: int, end: int): (r: seq<Candle>)
    ensures forall c :: c in r <==> c in book && start <= c.openTime < end
  {
    Sorting.Filter(book, (c: Candle) => Wanted(c, start, end))
  }

  lemma {:induction false} FilterAscends(book: seq<Candle>, keep: Candle -> bool)
    requires Orderly(book)
    ensures Ascends(Sorting.Filter(book, keep)) && Orderly(Sorting.Filter(book, keep))
  {
    if book != [] {
      FilterAscends(book[1..], keep);
      var rest := Sorting.Filter<Candle>(book[1..], keep);
      forall i | 0 <= i < |rest| ensures book[0].closeTime < rest[i].openTime {
        assert rest[i] in rest;
        var k :| 0 <= k < |book[1..]| && book[1..][k] == rest[i];
      }
    }
  }

  lemma {:induction false} AscendingUnique(xs: seq<Candle>, ys: seq<Candle>)
    requires Ascends(xs) && Ascends(ys) && forall c: Candle :: c in xs <==> c in ys
    ensures xs == ys
  {
    assert ys == [] || ys[0] in ys;
    if xs != [] {
      assert xs[0] in ys;
      assert xs[0] == ys[0];
      forall c: Candle ensures c in xs[1..] <==> c in ys[1..] {
        assert c in xs[1..] <==> c in xs && c != xs[0];
        assert c in ys[1..] <==> c in ys && c != ys[0];
      }
      AscendingUnique(xs[1..], ys[1..]);
    }
  }

  lemma {:induction false} CollectHolds(collected: map<int, Candle>, page: seq<Candle>, start: int, end: int, n: nat, c: Candle)
    requires n <= |page| && Ascends(page)
    requires forall p <- page :: p.openTime !in collected
    ensures Holds(Collect(collected, page, start, end, n), c)
       <==> Holds(collected, c) || (Wanted(c, start, end) && exists i :: 0 <= i < n && page[i] == c)
  {
    if n > 0 {
      CollectHolds(collected, page, start, end, n - 1, c);
      var p := page[n - 1];
      assert p in page;
    }
  }

  /** The cursor after a page: the end of the range after a short one. */
  ghost predicate Advances(page: seq<Candle>, cursor: int, end: int, next: int) {
    if |page| < PAGE then next == end
    else exists last <- page :: (forall c <- page :: c.openTime <= last.openTime) && next == last.closeTime + 1
  }

  lemma RowsOfPage(book: seq<Candle>, end: int, cursor: int, next: int, c: Candle)
    requires cursor < end && Advances(PageOf(book, cursor, end), cursor, end, next)
    ensures cursor < next
    ensures c in PageOf(book, cursor, end) ==> c in book && cursor <= c.openTime && (c.openTime < next || c.openTime == end)
  {
    var all, page := Available(book, cursor, end), PageOf(book, cursor, end);
    forall p | p in page ensures p in book && cursor <= p.openTime <= end {
      assert p in all;
    }
    hide PageOf, Available;
  }

  lemma BeyondPage(all: seq<Candle>, page: seq<Candle>, next: int, i: nat)
    requires Orderly(all) && |all| > PAGE && page == all[..PAGE] && PAGE <= i < |all|
    requires exists last <- page :: (forall c <- page :: c.openTime <= last.openTime) && next == last.closeTime + 1
    ensures next <= all[i].openTime
  {
    var last :| last in page && (forall p <- page :: p.openTime <= last.openTime) && next == last.closeTime + 1;
    var j :| 0 <= j < |page| && page[j] == last;
    assert all[j].closeTime < all[i].openTime;
  }

  lemma PageIsNext(book: seq<Candle>, end: int, cursor: int, next: int, c: Candle)
    requires Orderly(book) && cursor < end && Advances(PageOf(book, cursor, end), cursor, end, next)
    ensures c in book && cursor <= c.openTime <= end && c.openTime < next ==> c in PageOf(book, cursor, end)
  {
    var all := Available(book, cursor, end);
    FilterAscends(book, (c: Candle) => cursor <= c.openTime <= end);
    assert c in book && cursor <= c.openTime <= end ==> c in all;
    hide Available, Orderly;
    if c in all && |all| > PAGE {
      var i :| 0 <= i < |all| && all[i] == c;
      if i < PAGE {
        assert all[..PAGE][i] == c;
      } else {
        BeyondPage(all, all[..PAGE], next, i);
      }
    }
  }

  /** A page takes the collection from one cursor to the next. */
  lemma PageCollects(book: seq<Candle>, collected: map<int, Candle>, start: int, end: int, cursor: int, next: int)
    requires Orderly(book) && start <= cursor < end && Filed(collected, start, end)
    requires CollectedBefore(collected, book, start, end, cursor)
    requires Advances(PageOf(book, cursor, end), cursor, end, next)
    ensures var page := PageOf(book, cursor, end);
            CollectedBefore(Collect(collected, page, start, end, |page|), book, start, end, next)
    ensures cursor < next
  {
    var page := PageOf(book, cursor, end);
    PageIsNew(book, collected, start, end, cursor, next);
    hide PageOf, Advances, Orderly, Collect, Ascends;
    forall c: Candle
      ensures Holds(Collect(collected, page, start, end, |page|), c)
         <==> c in book && Wanted(c, start, end) && c.openTime < next
    {
      CollectHolds(collected, page, start, end, |page|, c);
      RowsOfPage(book, end, cursor, next, c);
      PageIsNext(book, end, cursor, next, c);
    }
  }

  lemma PageIsNew(book: seq<Candle>, collected: map<int, Candle>, start: int, end: int, cursor: int, next: int)
    requires Orderly(book) && start <= cursor < end && Filed(collected, start, end)
    requires CollectedBefore(collected, book, start, end, cursor)
    requires Advances(PageOf(book, cursor, end), cursor, end, next)
    ensures var page := PageOf(book, cursor, end);
            Ascends(page) && forall p <- page :: p.openTime !in collected
    ensures cursor < next
  {
    var page := PageOf(book, cursor, end);
    FilterAscends(book, (c: Candle) => cursor <= c.openTime <= end);
    assert Ascends(page);
    RowsOfPage(book, end, cursor, next, CandleRecord(SeriesKey("", M15), 0, 0, 0.0, 0.0, 0.0, 0.0, 0.0, true));
    hide PageOf, Advances, Orderly, Ascends;
    forall p | p in page ensures p.openTime !in collected {
      RowsOfPage(book, end, cursor, next, p);
      assert p.openTime in collected ==> Holds(collected, collected[p.openTime]);
    }
  }

  lemma RangeComplete(book: seq<Candle>, collected: map<int, Candle>, start: int, end: int, cursor: int, r: seq<Candle>)
    requires Orderly(book) && cursor >= end && CollectedBefore(collected, book, start, end, cursor)
    requires Ascends(r) && forall c: Candle :: c in r <==> Holds(collected, c)
    ensures r == Range(book, start, end)
  {
    FilterAscends(book, (c: Candle) => Wanted(c, start, end));
    AscendingUnique(r, Range(book, start, end));
  }

  const TOO_MANY_FAILURES := "candle range request failed after 5 failures"
  const NO_ADVANCE := "candle pagination did not advance"
  const REFUSED := "client error"

  ghost predicate Reliable(server: Server, book: seq<Candle>) {
    Orderly(book) && ServesFrom(server, book)
  }

  /** The `count` requests for one page from number `n` on went unanswered. */
  ghost predicate BusyFrom(server: Server, end: int, cursor: int, n: nat, count: nat) {
    forall k: nat :: n <= k < n + count ==> server(Request(cursor, end, k)).Busy?
  }

  ghost predicate BusyFiveTimes(server: Server, end: int) {
    exists cursor, n: nat :: BusyFrom(server, end, cursor, n, 5)
  }

  method FetchCandlesRange(server: Server, start: int, end: int, ghost book: seq<Candle>)
      returns (r: Result<seq<Candle>>)
    ensures r.Ok? ==> Ascends(r.value) && forall c <- r.value :: start <= c.openTime < end
    ensures Reliable(server, book) && r.Ok? ==> r.value == Range(book, start, end)
    ensures r.Raised? ==> r.error in {TOO_MANY_FAILURES, NO_ADVANCE, REFUSED}
    ensures r.Raised? && r.error == TOO_MANY_FAILURES ==> BusyFiveTimes(server, end)
    ensures r.Raised? && r.error == REFUSED ==> exists q: Request :: server(q).Refused?
    ensures r.Raised? && r.error == NO_ADVANCE ==> !Reliable(server, book)
  {
    hide Collect, PageOf, Orderly, ServesFrom, Ascends, CollectedBefore, Range;
    if start >= end {
      EmptyRange(book, start, end);
      return Ok([]);
    }
    var cursor, failures, number: nat := start, 0, 0;
    var collected: map<int, Candle> := map[];
    ghost var reached := start;
    NothingBefore(book, start, end);
    while cursor < end
      invariant start <= cursor && failures < MAXIMUM_FAILURES && failures <= number
      invariant Filed(collected, start, end)
      invariant Reliable(server, book) ==> CollectedBefore(collected, book, start, end, cursor)
      invariant BusyFrom(server, end, cursor, number - failures, failures)
      invariant reached == cursor
      decreases end - cursor, MAXIMUM_FAILURES - failures
    {
      var response := server(Request(cursor, end, number));
      number := number + 1;
      if response.Busy? {
        failures := failures + 1;
        if failures >= MAXIMUM_FAILURES {
          assert BusyFrom(server, end, cursor, number - failures, MAXIMUM_FAILURES);
          return Raised(TOO_MANY_FAILURES);
        }
        continue;
      }
      if response.Refused? {
        return Raised(REFUSED);
      }
      failures := 0;
      var page := response.rows;
      ghost var before := collected;
      CollectFiled(collected, page, start, end, |page|);
      collected := AddPage(collected, page, start, end);
      if |page| < PAGE {
        if Reliable(server, book) {
          Answered(server, book, Request(cursor, end, number - 1));
          PageCollects(book, before, start, end, cursor, end);
        }
        reached := end;
        break;
      }
      var last := Latest(page);
      var next := last.closeTime + 1;
      if Reliable(server, book) {
        Answered(server, book, Request(cursor, end, number - 1));
        PageCollects(book, before, start, end, cursor, next);
      }
      if next <= cursor {
        return Raised(NO_ADVANCE);
      }
      cursor, reached := next, next;
    }
    var values := SortedValues(collected, start, end);
    if Reliable(server, book) {
      RangeComplete(book, collected, start, end, reached, values);
    }
    return Ok(values);
  }

  lemma {:induction false} EmptyRange(book: seq<Candle>, start: int, end: int)
    requires start >= end
    ensures Range(book, start, end) == [] && Ascends([])
  {
    if book != [] {
      EmptyRange(book[1..], start, end);
    }
  }

  lemma NothingBefore(book: seq<Candle>, start: int, end: int)
    ensures CollectedBefore(map[], book, start, end, start)
  {
  }

  lemma Answered(server: Server, book: seq<Candle>, q: Request)
    requires ServesFrom(server, book) && server(q).Rows?
    ensures server(q).rows == PageOf(book, q.startTime, q.endTime)
  {
  }
}
