/** Grouping trades for the breakdown tables (`app/backtest/metrics.py`). */
module Buckets {
  import opened Market
  import Sorting

  function Named<T>(key: T -> string, name: string): T -> bool {
    t => key(t) == name
  }

  /** The trades of one group, in list order. */
  function Group<T(!new)>(trades: seq<T>, key: T -> string, name: string): seq<T> {
    Sorting.Filter(trades, Named(key, name))
  }

  /** A figure that adds up over trades: a count, a number of wins, a total. */
  function Tally<T>(trades: seq<T>, value: T -> real): real {
    if trades == [] then 0.0 else value(trades[0]) + Tally(trades[1..], value)
  }

  function TallyOver<T(!new)>(names: seq<string>, trades: seq<T>, key: T -> string, value: T -> real): real {
    if names == [] then 0.0 else Tally(Group(trades, key, names[0]), value) + TallyOver(names[1..], trades, key, value)
  }

  ghost predicate Distinct(names: seq<string>) {
    forall i, j :: 0 <= i < j < |names| ==> names[i] != names[j]
  }

  /** The dictionary after some trades: every name seen, once, with its trades in order. */
  ghost predicate Grouped<T(!new)>(groups: map<string, seq<T>>, names: seq<string>, trades: seq<T>, key: T -> string) {
    && Distinct(names) && (forall name :: name in groups <==> name in names)
    && (forall name :: name in groups <==> Group(trades, key, name) != [])
    && (forall name <- groups :: groups[name] == Group(trades, key, name))
  }

  lemma GroupNext<T(!new)>(trades: seq<T>, t: T, key: T -> string, name: string)
    ensures Group(trades + [t], key, name) == Group(trades, key, name) + (if key(t) == name then [t] else [])
  {
    Sorting.FilterAppend(trades, [t], Named(key, name));
    Sorting.FilterOne(t, Named(key, name));
  }

  /** `groups.setdefault(key, []).append(trade)`; `names` is the order of insertion. */
  method BucketBy<T(!new)>(trades: seq<T>, key: T -> string) returns (groups: map<string, seq<T>>, names: seq<string>)
    ensures Grouped(groups, names, trades, key)
  {
    groups, names := map[], [];
    assert trades[..0] == [];
    for i := 0 to |trades|
      invariant Grouped(groups, names, trades[..i], key)
    {
      var t := trades[i];
      var name := key(t);
      assert trades[..i + 1] == trades[..i] + [t];
      forall other ensures Group(trades[..i + 1], key, other)
          == Group(trades[..i], key, other) + (if name == other then [t] else [])
      {
        GroupNext(trades[..i], t, key, other);
      }
      if name in groups {
        groups := groups[name := groups[name] + [t]];
      } else {
        assert Group(trades[..i], key, name) == [];
        groups := groups[name := [t]];
        names := names + [name];
      }
    }
    assert trades[..|trades|] == trades;
  }

  lemma {:induction false} TallyOfOthers<T(!new)>(names: seq<string>, trades: seq<T>, key: T -> string, value: T -> real)
    requires trades != []
    ensures key(trades[0]) !in names ==>
              TallyOver(names, trades, key, value) == TallyOver(names, trades[1..], key, value)
    ensures Distinct(names) && key(trades[0]) in names ==>
              TallyOver(names, trades, key, value) == value(trades[0]) + TallyOver(names, trades[1..], key, value)
  {
    if names != [] {
      TallyOfOthers(names[1..], trades, key, value);
      assert key(trades[0]) in names <==> key(trades[0]) == names[0] || key(trades[0]) in names[1..];
      var rest := Group(trades[1..], key, names[0]);
      if key(trades[0]) == names[0] {
        assert Group(trades, key, names[0]) == [trades[0]] + rest;
        assert ([trades[0]] + rest)[1..] == rest;
      } else {
        assert Group(trades, key, names[0]) == rest;
      }
    }
  }

  lemma {:induction false} NothingToTally<T(!new)>(names: seq<string>, key: T -> string, value: T -> real)
    ensures TallyOver(names, [], key, value) == 0.0
  {
    if names != [] {
      NothingToTally<T>(names[1..], key, value);
    }
  }

  /** No trade is lost or counted twice: every additive figure is the sum over the groups. */
  lemma {:induction false} GroupsAddUp<T(!new)>(names: seq<string>, trades: seq<T>, key: T -> string, value: T -> real)
    requires Distinct(names) && forall t <- trades :: key(t) in names
    ensures TallyOver(names, trades, key, value) == Tally(trades, value)
  {
    if trades == [] {
      NothingToTally(names, key, value);
    } else {
      assert trades[0] in trades;
      GroupsAddUp(names, trades[1..], key, value);
      TallyOfOthers(names, trades, key, value);
    }
  }

  /** The groups of the dictionary account for every trade. */
  lemma BucketsConserve<T(!new)>(groups: map<string, seq<T>>, names: seq<string>, trades: seq<T>,
                                 key: T -> string, value: T -> real)
    requires Grouped(groups, names, trades, key)
    ensures TallyOver(names, trades, key, value) == Tally(trades, value)
  {
    forall t | t in trades ensures key(t) in names {
      assert t in Group(trades, key, key(t));
    }
    GroupsAddUp(names, trades, key, value);
  }
}
