/** Python's `bisect` module on sorted integer lists. */
module Bisect {

  ghost predicate Ascending(xs: seq<int>) {
    forall i, j :: 0 <= i < j < |xs| ==> xs[i] < xs[j]
  }

  ghost predicate NonDescending(xs: seq<int>) {
    forall i, j :: 0 <= i < j < |xs| ==> xs[i] <= xs[j]
  }

  /** The position behind the last element that is at most `x`. */
  function BisectRight(xs: seq<int>, x: int): (i: nat)
    ensures i <= |xs|
    ensures NonDescending(xs) ==> (forall k :: 0 <= k < i ==> xs[k] <= x) && (forall k :: i <= k < |xs| ==> x < xs[k])
  {
    if xs == [] then 0
    else if xs[|xs| - 1] <= x then |xs|
    else BisectRight(xs[..|xs| - 1], x)
  }

  lemma {:induction false} BisectRightIs(xs: seq<int>, x: int, k: nat)
    requires k <= |xs| && (forall j :: 0 <= j < |xs| ==> (j < k <==> xs[j] <= x))
    ensures BisectRight(xs, x) == k
  {
    if xs != [] && x < xs[|xs| - 1] {
      BisectRightIs(xs[..|xs| - 1], x, k);
    }
  }

  /** The position of the first element that is at least `x`. */
  function BisectLeft(xs: seq<int>, x: int): (i: nat)
    ensures i <= |xs|
    ensures NonDescending(xs) ==> (forall k :: 0 <= k < i ==> xs[k] < x) && (forall k :: i <= k < |xs| ==> x <= xs[k])
  {
    if xs == [] then 0
    else if xs[|xs| - 1] < x then |xs|
    else BisectLeft(xs[..|xs| - 1], x)
  }

  /** `insort`: behind every element that is not larger. */
  function Insort(xs: seq<int>, x: int): seq<int> {
    var i := BisectRight(xs, x);
    xs[..i] + [x] + xs[i..]
  }

  lemma InsortAscending(xs: seq<int>, x: int)
    requires Ascending(xs) && x !in xs
    ensures Ascending(Insort(xs, x))
    ensures forall y :: y in Insort(xs, x) <==> y in xs || y == x
  {
    var i := BisectRight(xs, x);
    assert NonDescending(xs);
    forall k | 0 <= k < i ensures xs[k] < x {
      assert xs[k] in xs;
    }
    assert xs == xs[..i] + xs[i..];
  }
}
