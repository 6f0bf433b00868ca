/**
 Python's stable `sorted(xs, key=...)` and list filtering, with the one law the
 backtest needs of them: filtering a sorted list is sorting the filtered list.
 */
module Sorting {

  function Filter<T(!new)>(xs: seq<T>, keep: T -> bool): (r: seq<T>)
    ensures forall x :: x in r <==> x in xs && keep(x)
    ensures |r| <= |xs|
  {
    if xs == [] then []
    else if keep(xs[0]) then [xs[0]] + Filter(xs[1..], keep)
    else Filter(xs[1..], keep)
  }

  ghost predicate SortedBy<T(!new)>(xs: seq<T>, key: T -> real) {
    forall i, j :: 0 <= i < j < |xs| ==> key(xs[i]) <= key(xs[j])
  }

  /** Places `x` in front of the elements that do not precede it. */
  function Insert<T(!new)>(x: T, ys: seq<T>, key: T -> real): (r: seq<T>)
    ensures multiset(r) == multiset(ys) + multiset{x}
    ensures |r| == |ys| + 1
  {
    if ys == [] then [x]
    else if key(x) <= key(ys[0]) then [x] + ys
    else
      assert ys == [ys[0]] + ys[1..];
      [ys[0]] + Insert(x, ys[1..], key)
  }

  function StableSort<T(!new)>(xs: seq<T>, key: T -> real): (r: seq<T>)
    ensures multiset(r) == multiset(xs)
    ensures |r| == |xs|
  {
    if xs == [] then []
    else
      assert xs == [xs[0]] + xs[1..];
      Insert(xs[0], StableSort(xs[1..], key), key)
  }

  lemma SameElements<T(!new)>(xs: seq<T>, ys: seq<T>)
    requires multiset(xs) == multiset(ys)
    ensures forall x :: x in xs <==> x in ys
  {
    forall x ensures x in xs <==> x in ys {
      assert x in xs <==> x in multiset(xs);
      assert x in ys <==> x in multiset(ys);
    }
  }

  lemma {:induction false} InsertSorted<T(!new)>(x: T, ys: seq<T>, key: T -> real)
    requires SortedBy(ys, key)
    ensures SortedBy(Insert(x, ys, key), key)
  {
    if ys != [] && key(x) > key(ys[0]) {
      InsertSorted(x, ys[1..], key);
      var r := Insert(x, ys[1..], key);
      forall y | y in r ensures key(ys[0]) <= key(y) {
        assert y in multiset(r);
        assert y == x || y in ys[1..];
      }
    }
  }

  lemma {:induction false} StableSortSorted<T(!new)>(xs: seq<T>, key: T -> real)
    ensures SortedBy(StableSort(xs, key), key)
  {
    if xs != [] {
      StableSortSorted(xs[1..], key);
      InsertSorted(xs[0], StableSort(xs[1..], key), key);
    }
  }

  lemma InsertFirst<T(!new)>(x: T, ys: seq<T>, key: T -> real)
    requires forall y :: y in ys ==> key(x) <= key(y)
    ensures Insert(x, ys, key) == [x] + ys
  {
  }

  lemma {:induction false} FilterInsert<T(!new)>(x: T, ys: seq<T>, key: T -> real, keep: T -> bool)
    requires SortedBy(ys, key)
    ensures Filter(Insert(x, ys, key), keep)
         == if keep(x) then Insert(x, Filter(ys, keep), key) else Filter(ys, keep)
  {
    if ys == [] {
    } else if key(x) <= key(ys[0]) {
      assert ([x] + ys)[1..] == ys;
      InsertFirst(x, Filter(ys, keep), key);
    } else {
      var tail := Insert(x, ys[1..], key);
      assert ([ys[0]] + tail)[1..] == tail;
      FilterInsert(x, ys[1..], key, keep);
      if keep(ys[0]) {
        assert ([ys[0]] + Filter(ys[1..], keep))[1..] == Filter(ys[1..], keep);
      }
      InsertFilteredBehind(x, ys, key, keep);
    }
  }

  lemma InsertFilteredBehind<T(!new)>(x: T, ys: seq<T>, key: T -> real, keep: T -> bool)
    requires ys != [] && SortedBy(ys, key) && key(x) > key(ys[0])
    ensures Insert(x, Filter(ys, keep), key)
         == if keep(ys[0]) then [ys[0]] + Insert(x, Filter(ys[1..], keep), key)
            else Insert(x, Filter(ys[1..], keep), key)
  {
    if keep(ys[0]) {
      assert Filter(ys, keep)[1..] == Filter(ys[1..], keep);
    }
  }

  /** Selecting one series before or after a stable sort gives the same list. */
  lemma {:induction false} FilterCommutesWithSort<T(!new)>(xs: seq<T>, key: T -> real, keep: T -> bool)
    ensures Filter(StableSort(xs, key), keep) == StableSort(Filter(xs, keep), key)
  {
    if xs != [] {
      FilterCommutesWithSort(xs[1..], key, keep);
      StableSortSorted(xs[1..], key);
      FilterInsert(xs[0], StableSort(xs[1..], key), key, keep);
      if keep(xs[0]) {
        assert ([xs[0]] + Filter(xs[1..], keep))[1..] == Filter(xs[1..], keep);
      }
    }
  }

  lemma {:induction false} FilterAppend<T(!new)>(xs: seq<T>, ys: seq<T>, keep: T -> bool)
    ensures Filter(xs + ys, keep) == Filter(xs, keep) + Filter(ys, keep)
  {
    if xs == [] {
      assert xs + ys == ys;
    } else {
      assert (xs + ys)[1..] == xs[1..] + ys;
      FilterAppend(xs[1..], ys, keep);
    }
  }

  lemma SortedJoin<T(!new)>(xs: seq<T>, ys: seq<T>, key: T -> real, pivot: real)
    requires SortedBy(xs, key) && SortedBy(ys, key)
    requires (forall x :: x in xs ==> key(x) <= pivot) && (forall y :: y in ys ==> pivot <= key(y))
    ensures SortedBy(xs + ys, key)
  {
    forall i | 0 <= i < |xs| ensures key(xs[i]) <= pivot {
      assert xs[i] in xs;
    }
    forall j | 0 <= j < |ys| ensures pivot <= key(ys[j]) {
      assert ys[j] in ys;
    }
  }

  lemma FilterOne<T(!new)>(x: T, keep: T -> bool)
    ensures Filter([x], keep) == if keep(x) then [x] else []
  {
    assert [x][1..] == [];
  }

  /** Sorting a list that is already sorted changes nothing. */
  lemma {:induction false} SortOfSorted<T(!new)>(xs: seq<T>, key: T -> real)
    requires SortedBy(xs, key)
    ensures StableSort(xs, key) == xs
  {
    if xs != [] {
      SortOfSorted(xs[1..], key);
      InsertFirst(xs[0], xs[1..], key);
    }
  }

  ghost predicate DistinctBy<T>(xs: seq<T>, key: T -> real) {
    forall i, j :: 0 <= i < j < |xs| ==> key(xs[i]) != key(xs[j])
  }

  lemma {:induction false} SortDistinct<T(!new)>(xs: seq<T>, key: T -> real)
    requires DistinctBy(xs, key)
    ensures DistinctBy(StableSort(xs, key), key)
  {
    if xs != [] {
      SortDistinct(xs[1..], key);
      SameElements(xs[1..], StableSort(xs[1..], key));
      InsertDistinct(xs[0], StableSort(xs[1..], key), key);
    }
  }

  lemma {:induction false} InsertDistinct<T(!new)>(x: T, ys: seq<T>, key: T -> real)
    requires DistinctBy(ys, key) && forall y :: y in ys ==> key(y) != key(x)
    ensures DistinctBy(Insert(x, ys, key), key)
  {
    if ys != [] && key(x) > key(ys[0]) {
      InsertDistinct(x, ys[1..], key);
      var r := Insert(x, ys[1..], key);
      forall y | y in r ensures key(ys[0]) != key(y) {
        assert y in multiset(r);
        assert y == x || y in ys[1..];
      }
    }
  }

  lemma {:induction false} FilterDistinct<T(!new)>(xs: seq<T>, key: T -> real, keep: T -> bool)
    requires forall i, j :: 0 <= i < j < |xs| && keep(xs[i]) && keep(xs[j]) ==> key(xs[i]) != key(xs[j])
    ensures DistinctBy(Filter(xs, keep), key)
  {
    if xs != [] {
      FilterDistinct(xs[1..], key, keep);
      if keep(xs[0]) {
        forall y | y in Filter(xs[1..], keep) ensures key(xs[0]) != key(y) {
          var k :| 0 <= k < |xs[1..]| && xs[1..][k] == y;
          assert xs[k + 1] == y;
        }
      }
    }
  }

  lemma {:induction false} FilterTwice<T(!new)>(xs: seq<T>, first: T -> bool, second: T -> bool, both: T -> bool)
    requires forall x :: both(x) <==> first(x) && second(x)
    ensures Filter(Filter(xs, first), second) == Filter(xs, both)
  {
    if xs != [] {
      FilterTwice(xs[1..], first, second, both);
      if first(xs[0]) {
        assert Filter(xs, first)[1..] == Filter(xs[1..], first);
      }
    }
  }
}
