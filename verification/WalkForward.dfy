/** Rolling validation windows and their calendar arithmetic (`app/backtest/walkforward.py`). */
module WalkForward {

  const DAY_US := 86_400_000_000

  predicate IsLeap(year: int) {
    year % 4 == 0 && (year % 100 != 0 || year % 400 == 0)
  }

  function MonthLength(year: int, month: int): (n: int)
    ensures 28 <= n <= 31
    ensures n == 28 <==> month == 2 && !IsLeap(year)
  {
    if month == 2 then (if IsLeap(year) then 29 else 28)
    else if month in {4, 6, 9, 11} then 30
    else 31
  }

  /** The months of a year one after the other. */
  function DaysOfYear(year: int): int {
    MonthLength(year, 1) + MonthLength(year, 2) + MonthLength(year, 3) + MonthLength(year, 4)
    + MonthLength(year, 5) + MonthLength(year, 6) + MonthLength(year, 7) + MonthLength(year, 8)
    + MonthLength(year, 9) + MonthLength(year, 10) + MonthLength(year, 11) + MonthLength(year, 12)
  }

  function DaysOfYears(year: int, n: nat): int {
    if n == 0 then 0 else DaysOfYears(year, n - 1) + DaysOfYear(year + n - 1)
  }

  /** Leap days before a year of the Gregorian calendar. */
  function LeapDaysBefore(year: int): int { (year - 1) / 4 - (year - 1) / 100 + (year - 1) / 400 }

  /** The month lengths add up to the Gregorian calendar. */
  lemma {:induction false} CalendarIsGregorian(year: int, n: nat)
    ensures DaysOfYears(year, n) == 365 * n + LeapDaysBefore(year + n) - LeapDaysBefore(year)
  {
    hide DaysOfYear, LeapDaysBefore;
    if n > 0 {
      CalendarIsGregorian(year, n - 1);
      OneMoreYear(year + n - 1);
    }
  }

  /** Months of 31 and 30 days alternate, starting over with August; February makes up the year. */
  lemma MonthsAlternate(year: int, month: int)
    requires 1 <= month <= 12
    ensures month != 2 ==> MonthLength(year, month) == 30 + (month + month / 8) % 2
  {
  }

  /** So 400 years in a row have 146 097 days. */
  lemma FourCenturies(year: int)
    ensures DaysOfYears(year, 400) == 146_097
  {
    hide DaysOfYears, DaysOfYear;
    CalendarIsGregorian(year, 400);
    Shift(year - 1, 4, 100);
    Shift(year - 1, 100, 4);
    Shift(year - 1, 400, 1);
    assert year + 400 - 1 == year - 1 + 400;
  }

  lemma Shift(x: int, d: nat, k: int)
    requires d > 0
    ensures (x + k * d) / d == x / d + k
  {
    assert x == x / d * d + x % d;
    assert x + k * d == (x / d + k) * d + x % d;
    Euclid(x + k * d, d, x / d + k, x % d);
  }

  lemma OneMoreYear(year: int)
    ensures DaysOfYear(year) == 365 + LeapDaysBefore(year + 1) - LeapDaysBefore(year)
  {
    Multiples(year, 4);
    Multiples(year, 100);
    Multiples(year, 400);
    assert year % 400 == 0 ==> year % 100 == 0;
    assert year % 100 == 0 ==> year % 4 == 0;
  }

  lemma Multiples(year: int, d: nat)
    requires d > 0
    ensures year / d - (year - 1) / d == if year % d == 0 then 1 else 0
  {
    var q, r := year / d, year % d;
    assert year == q * d + r;
    if r == 0 {
      assert year - 1 == (q - 1) * d + (d - 1);
      Euclid(year - 1, d, q - 1, d - 1);
    } else {
      Euclid(year - 1, d, q, r - 1);
    }
  }

  lemma Euclid(x: int, d: nat, q: int, r: int)
    requires d > 0 && x == q * d + r && 0 <= r < d
    ensures x / d == q
  {
    var k := x / d - q;
    assert (x / d) * d == q * d + k * d;
    assert x / d * d <= x < x / d * d + d;
    assert k * d <= r && 0 < k * d + d;
    assert k >= 1 ==> k * d >= d;
    assert k <= -1 ==> k * d + d <= 0;
  }

  datatype Stamp = Stamp(year: int, month: int, day: int, time: int) {
    predicate Valid() {
      1 <= month <= 12 && 1 <= day <= MonthLength(year, month) && 0 <= time < DAY_US
    }

    /** `year * 12 + month - 1`. */
    function MonthIndex(): int { year * 12 + month - 1 }
  }

  /** A calendar date with the microsecond of the day. */
  type DateTime = s: Stamp | s.Valid() witness Stamp(2000, 1, 1, 0)

  /** The order of `datetime`. */
  predicate Leq(a: DateTime, b: DateTime) {
    a.MonthIndex() < b.MonthIndex()
    || (a.MonthIndex() == b.MonthIndex() && (a.day < b.day || (a.day == b.day && a.time <= b.time)))
  }

  predicate Less(a: DateTime, b: DateTime) { !Leq(b, a) }

  function AddMonths(d: DateTime, months: int): (r: DateTime)
    ensures r.MonthIndex() == d.MonthIndex() + months && r.time == d.time
    ensures r.day == if d.day <= MonthLength(r.year, r.month) then d.day else MonthLength(r.year, r.month)
  {
    var index := d.MonthIndex() + months;
    var year, month := index / 12, index % 12 + 1;
    var length := MonthLength(year, month);
    Stamp(year, month, if d.day < length then d.day else length, d.time)
  }

  lemma SameMonth(a: DateTime, b: DateTime)
    requires a.MonthIndex() == b.MonthIndex()
    ensures a.year == b.year && a.month == b.month
  {
  }

  /** Days past the 28th that clamp to one day can swap their times of day, and nothing else breaks the order. */
  lemma AddMonthsMonotone(a: DateTime, b: DateTime, months: int)
    requires Leq(a, b)
    ensures var target := a.MonthIndex() + months;
            (Leq(AddMonths(a, months), AddMonths(b, months))
             <==> !(a.MonthIndex() == b.MonthIndex() && a.day < b.day && a.time > b.time
                    && a.day >= MonthLength(target / 12, target % 12 + 1)))
  {
    if a.MonthIndex() == b.MonthIndex() {
      SameMonth(AddMonths(a, months), AddMonths(b, months));
    }
  }

  lemma AddMonthsAdditive(d: DateTime, m: int, n: int)
    requires d.day <= 28
    ensures AddMonths(AddMonths(d, m), n) == AddMonths(d, m + n)
  {
    SameMonth(AddMonths(AddMonths(d, m), n), AddMonths(d, m + n));
  }

  // -------------------------------------------------------------------- windows

  datatype Window = Window(inStart: DateTime, inEnd: DateTime, outStart: DateTime, outEnd: DateTime)

  function WindowAt(cursor: DateTime, inMonths: int, outMonths: int): Window {
    var inEnd := AddMonths(cursor, inMonths);
    Window(cursor, inEnd, inEnd, AddMonths(inEnd, outMonths))
  }

  predicate Fits(cursor: DateTime, end: DateTime, span: int) {
    Leq(AddMonths(cursor, span), end)
  }

  function Rolling(start: DateTime, end: DateTime, inMonths: int, outMonths: int, step: int): seq<Window>
    requires step >= 1
    decreases end.MonthIndex() - start.MonthIndex() - inMonths - outMonths + 1
  {
    if !Fits(start, end, inMonths + outMonths) then []
    else [WindowAt(start, inMonths, outMonths)] + Rolling(AddMonths(start, step), end, inMonths, outMonths, step)
  }

  /** The loop; the month index of the cursor makes it end. */
  method RollingWindows(start: DateTime, end: DateTime, inMonths: int, outMonths: int, step: int)
      returns (windows: seq<Window>)
    requires step >= 1
    ensures windows == Rolling(start, end, inMonths, outMonths, step)
  {
    windows := [];
    var cursor := start;
    while Leq(AddMonths(cursor, inMonths + outMonths), end)
      invariant windows + Rolling(cursor, end, inMonths, outMonths, step) == Rolling(start, end, inMonths, outMonths, step)
      decreases end.MonthIndex() - cursor.MonthIndex() - inMonths - outMonths + 1
    {
      var inEnd := AddMonths(cursor, inMonths);
      var outEnd := AddMonths(inEnd, outMonths);
      assert Rolling(cursor, end, inMonths, outMonths, step)
          == [Window(cursor, inEnd, inEnd, outEnd)] + Rolling(AddMonths(cursor, step), end, inMonths, outMonths, step);
      windows := windows + [Window(cursor, inEnd, inEnd, outEnd)];
      cursor := AddMonths(cursor, step);
    }
  }

  /** The start of window number `k`: clamped days stay clamped. */
  function Cursor(start: DateTime, step: int, k: nat): (c: DateTime)
    ensures c.MonthIndex() == start.MonthIndex() + step * k
  {
    if k == 0 then start else AddMonths(Cursor(start, step, k - 1), step)
  }

  lemma {:induction false} CursorFromNext(start: DateTime, step: int, k: nat)
    ensures Cursor(AddMonths(start, step), step, k) == Cursor(start, step, k + 1)
  {
    if k > 0 {
      CursorFromNext(start, step, k - 1);
    }
  }

  lemma {:induction false} RollingAt(start: DateTime, end: DateTime, inMonths: int, outMonths: int, step: int, k: nat)
    requires step >= 1
    ensures var ws := Rolling(start, end, inMonths, outMonths, step);
            k < |ws| ==> ws[k] == WindowAt(Cursor(start, step, k), inMonths, outMonths)
    decreases k
  {
    hide AddMonths, WindowAt, MonthLength, Leq, Fits, IsLeap;
    if k > 0 {
      RollingAt(AddMonths(start, step), end, inMonths, outMonths, step, k - 1);
      CursorFromNext(start, step, k - 1);
    }
  }

  lemma {:induction false} CursorExact(start: DateTime, step: int, k: nat)
    requires start.day <= 28
    ensures Cursor(start, step, k) == AddMonths(start, step * k)
    ensures Cursor(start, step, k).day == start.day
  {
    hide AddMonths, MonthLength;
    if k == 0 {
      SameMonth(start, AddMonths(start, 0));
    } else {
      CursorExact(start, step, k - 1);
      AddMonthsAdditive(start, step * (k - 1), step);
      assert step * (k - 1) + step == step * k;
    }
  }

  lemma {:induction false} WindowExists(start: DateTime, end: DateTime, inMonths: int, outMonths: int, step: int, k: nat)
    requires start.day <= 28 && step >= 1
    ensures k < |Rolling(start, end, inMonths, outMonths, step)|
       <==> Leq(AddMonths(start, step * k + inMonths + outMonths), end)
    decreases k
  {
    var span := inMonths + outMonths;
    hide AddMonths, MonthLength, WindowAt, IsLeap;
    if k > 0 {
      var next := AddMonths(start, step);
      WindowExists(next, end, inMonths, outMonths, step, k - 1);
      assert step * (k - 1) + step == step * k;
      AddMonthsAdditive(start, step, step * (k - 1) + span);
      assert step * k >= 0 by {
        StepsApart(step, 0, k);
      }
      LaterMonthsLater(start, span, step * k + span);
      Transitive(AddMonths(start, span), AddMonths(start, step * k + span), end);
    }
  }

  lemma Transitive(a: DateTime, b: DateTime, c: DateTime)
    ensures Leq(a, b) && Leq(b, c) ==> Leq(a, c)
  {
  }

  /** Up to the 28th every boundary is a whole number of months from the start, and no window is missing. */
  lemma WindowsExact(start: DateTime, end: DateTime, inMonths: int, outMonths: int, step: int, k: nat)
    requires start.day <= 28 && step >= 1
    ensures var ws, at := Rolling(start, end, inMonths, outMonths, step), step * k;
            && (k < |ws| <==> Leq(AddMonths(start, at + inMonths + outMonths), end))
            && (k < |ws| ==> ws[k] == Window(AddMonths(start, at), AddMonths(start, at + inMonths),
                                             AddMonths(start, at + inMonths), AddMonths(start, at + inMonths + outMonths)))
  {
    WindowExists(start, end, inMonths, outMonths, step, k);
    RollingAt(start, end, inMonths, outMonths, step, k);
    WindowFromStart(start, inMonths, outMonths, step, k);
    hide *;
  }

  lemma WindowFromStart(start: DateTime, inMonths: int, outMonths: int, step: int, k: nat)
    requires start.day <= 28
    ensures var at := step * k;
            WindowAt(Cursor(start, step, k), inMonths, outMonths)
            == Window(AddMonths(start, at), AddMonths(start, at + inMonths), AddMonths(start, at + inMonths),
                      AddMonths(start, at + inMonths + outMonths))
  {
    var at := step * k;
    CursorExact(start, step, k);
    AddMonthsAdditive(start, at, inMonths);
    AddMonthsAdditive(start, at + inMonths, outMonths);
    hide Cursor, MonthLength, AddMonths;
  }

  // ------------------------------------------------------------- exact tiling

  ghost predicate Tiles(ws: seq<Window>) {
    forall k :: 0 <= k < |ws| - 1 ==> ws[k].outEnd == ws[k + 1].outStart
  }

  ghost predicate NeverOverlaps(ws: seq<Window>) {
    forall j, k :: 0 <= j < k < |ws| ==> Leq(ws[j].outEnd, ws[k].outStart)
  }

  ghost predicate AlwaysTiles(start: DateTime) {
    forall end: DateTime, inMonths: nat, step: nat :: step >= 1 ==> Tiles(Rolling(start, end, inMonths, step, step))
  }

  ghost predicate NeverCountsTwice(start: DateTime) {
    forall end: DateTime, inMonths: nat, step: nat :: step >= 1 ==> NeverOverlaps(Rolling(start, end, inMonths, step, step))
  }

  lemma TilesEarly(start: DateTime, end: DateTime, inMonths: int, step: int)
    requires start.day <= 28 && step >= 1
    ensures Tiles(Rolling(start, end, inMonths, step, step))
  {
    var ws := Rolling(start, end, inMonths, step, step);
    forall k | 0 <= k < |ws| - 1 ensures ws[k].outEnd == ws[k + 1].outStart {
      WindowsExact(start, end, inMonths, step, step, k);
      WindowsExact(start, end, inMonths, step, step, k + 1);
      assert step * k + step == step * (k + 1);
    }
  }

  lemma DisjointEarly(start: DateTime, end: DateTime, inMonths: int, outMonths: int, step: int)
    requires start.day <= 28 && step >= 1 && outMonths <= step
    ensures NeverOverlaps(Rolling(start, end, inMonths, outMonths, step))
  {
    var ws := Rolling(start, end, inMonths, outMonths, step);
    forall j, k | 0 <= j < k < |ws| ensures Leq(ws[j].outEnd, ws[k].outStart) {
      WindowsExact(start, end, inMonths, outMonths, step, j);
      WindowsExact(start, end, inMonths, outMonths, step, k);
      StepsApart(step, j, k);
      LaterMonthsLater(start, step * j + inMonths + outMonths, step * k + inMonths);
    }
  }

  lemma StepsApart(step: int, j: nat, k: nat)
    requires step >= 1 && j < k
    ensures step * j + step <= step * k
  {
    assert step * (k - j - 1) >= 0;
    assert step * k == step * j + step + step * (k - j - 1);
  }

  lemma LaterMonthsLater(d: DateTime, m: int, n: int)
    requires d.day <= 28 && m <= n
    ensures Leq(AddMonths(d, m), AddMonths(d, n))
  {
  }

  // -------------------------------------------------- starts after the 28th

  /** Months from `d` to a February of 28 days, at least one year ahead. */
  function ToShortFebruary(d: DateTime): (n: nat)
    ensures var r := AddMonths(d, n); r.month == 2 && !IsLeap(r.year) && n >= 1
  {
    var year := if IsLeap(d.year + 1) then d.year + 2 else d.year + 1;
    year * 12 + 1 - d.MonthIndex()
  }

  /** Months from `d` to a month of 31 days that is not a whole number of years away. */
  function ToLongMonth(d: DateTime): (n: nat)
    ensures 1 <= n <= 11 && MonthLength(AddMonths(d, n).year, AddMonths(d, n).month) == 31
  {
    if d.month == 1 then 2 else 13 - d.month
  }

  lemma ShortFirst(d: DateTime)
    requires d.day > 28
    ensures AddMonths(AddMonths(d, ToShortFebruary(d)), ToLongMonth(d)).day == 28
  {
    var february := AddMonths(d, ToShortFebruary(d));
    hide ToShortFebruary, ToLongMonth, AddMonths;
    assert february.day == 28;
  }

  lemma LongFirst(d: DateTime)
    requires d.day > 28
    ensures AddMonths(AddMonths(d, ToLongMonth(d)), ToShortFebruary(d)).day > 28
  {
    var short, long := ToShortFebruary(d), ToLongMonth(d);
    var february, first := AddMonths(d, short), AddMonths(d, long);
    hide ToShortFebruary, ToLongMonth, AddMonths, MonthLength, IsLeap;
    assert first.day == d.day;
    var both := AddMonths(first, short);
    NotAYearAway(february, both, long);
  }

  lemma NotAYearAway(a: DateTime, b: DateTime, n: int)
    requires 1 <= n <= 11 && b.MonthIndex() == a.MonthIndex() + n && a.month == 2
    ensures b.month != 2
  {
  }

  /** Short first clamps for good; long first keeps the day. */
  lemma OrderMatters(d: DateTime)
    requires d.day > 28
    ensures var short, long := ToShortFebruary(d), ToLongMonth(d);
            && AddMonths(AddMonths(d, short), long).day == 28
            && AddMonths(AddMonths(d, long), short).day > 28
            && AddMonths(AddMonths(d, short), long).MonthIndex() == AddMonths(AddMonths(d, long), short).MonthIndex()
  {
    ShortFirst(d);
    LongFirst(d);
    hide ToShortFebruary, ToLongMonth, AddMonths;
  }

  /** An end far enough away for two windows. */
  function FarEnd(start: DateTime, months: nat): (end: DateTime)
    ensures end.MonthIndex() == start.MonthIndex() + months + 1
  {
    AddMonths(start, months + 1)
  }

  lemma TwoWindows(start: DateTime, inMonths: nat, step: nat)
    requires step >= 1
    ensures var ws := Rolling(start, FarEnd(start, inMonths + step + step), inMonths, step, step);
            && |ws| >= 2
            && ws[0].outEnd == AddMonths(AddMonths(start, inMonths), step)
            && ws[1].outStart == AddMonths(AddMonths(start, step), inMonths)
  {
    var end := FarEnd(start, inMonths + step + step);
    var second := AddMonths(start, step);
    assert Rolling(start, end, inMonths, step, step)
        == [WindowAt(start, inMonths, step)] + Rolling(second, end, inMonths, step, step);
    assert Rolling(second, end, inMonths, step, step)
        == [WindowAt(second, inMonths, step)] + Rolling(AddMonths(second, step), end, inMonths, step, step);
  }

  /** With windows as long as the step, consecutive ones meet exactly if and only if the start is no later than the 28th. */
  lemma ExactTiling(start: DateTime)
    ensures AlwaysTiles(start) <==> start.day <= 28
  {
    if start.day <= 28 {
      forall end: DateTime, inMonths: nat, step: nat | step >= 1 ensures Tiles(Rolling(start, end, inMonths, step, step)) {
        TilesEarly(start, end, inMonths, step);
      }
    } else {
      var inMonths, step := ToShortFebruary(start), ToLongMonth(start);
      OrderMatters(start);
      TwoWindows(start, inMonths, step);
      assert !Tiles(Rolling(start, FarEnd(start, inMonths + step + step), inMonths, step, step));
    }
  }

  /** And only then can no moment fall into two out-of-sample windows. */
  lemma NoDoubleCounting(start: DateTime)
    ensures NeverCountsTwice(start) <==> start.day <= 28
  {
    if start.day <= 28 {
      forall end: DateTime, inMonths: nat, step: nat | step >= 1
        ensures NeverOverlaps(Rolling(start, end, inMonths, step, step))
      {
        DisjointEarly(start, end, inMonths, step, step);
      }
    } else {
      var inMonths, step := ToLongMonth(start), ToShortFebruary(start);
      OrderMatters(start);
      TwoWindows(start, inMonths, step);
      assert !NeverOverlaps(Rolling(start, FarEnd(start, inMonths + step + step), inMonths, step, step));
    }
  }

  // ---------------------------------------------------- the default lengths

  /** Six months in sample, two out of sample, two to the next window. */
  function Default(start: DateTime, end: DateTime): seq<Window> { Rolling(start, end, 6, 2, 2) }

  /** Every second month from the start has its day. */
  predicate KeepsDay(start: DateTime) {
    start.day <= 28 || (start.month % 2 == 1 && start.day <= 30)
  }

  lemma EvenMonths(d: DateTime, n: int)
    requires KeepsDay(d) && n % 2 == 0
    ensures AddMonths(d, n).day == d.day && KeepsDay(AddMonths(d, n))
  {
    SameParity(d, AddMonths(d, n), n);
    hide IsLeap;
  }

  lemma SameParity(a: DateTime, b: DateTime, n: int)
    requires b.MonthIndex() == a.MonthIndex() + n && n % 2 == 0
    ensures b.month % 2 == a.month % 2
  {
    var half := n / 2;
    assert b.month == a.month + 2 * (6 * (a.year - b.year) + half);
    EvenStep(a.month, b.month, 6 * (a.year - b.year) + half);
  }

  lemma EvenStep(x: int, y: int, k: int)
    requires y == x + 2 * k
    ensures y % 2 == x % 2
  {
  }

  lemma {:induction false} CursorKeepsDay(start: DateTime, k: nat)
    requires KeepsDay(start)
    ensures Cursor(start, 2, k).day == start.day && Cursor(start, 2, k).time == start.time && KeepsDay(Cursor(start, 2, k))
  {
    hide KeepsDay, MonthLength;
    if k > 0 {
      CursorKeepsDay(start, k - 1);
      EvenMonths(Cursor(start, 2, k - 1), 2);
    }
  }

  /** Both out-of-sample boundaries of window `k` keep the day of the start. */
  lemma DefaultAt(start: DateTime, end: DateTime, k: nat)
    requires KeepsDay(start) && k < |Default(start, end)|
    ensures var w := Default(start, end)[k];
            && w.outStart.MonthIndex() == start.MonthIndex() + 2 * k + 6 && w.outEnd.MonthIndex() == start.MonthIndex() + 2 * k + 8
            && w.outStart.day == start.day == w.outEnd.day && w.outStart.time == start.time == w.outEnd.time
  {
    RollingAt(start, end, 6, 2, 2, k);
    CursorKeepsDay(start, k);
    var cursor := Cursor(start, 2, k);
    EvenMonths(cursor, 6);
    EvenMonths(AddMonths(cursor, 6), 2);
    hide KeepsDay, MonthLength, Rolling, Cursor;
  }

  lemma DefaultMeets(start: DateTime, end: DateTime)
    requires KeepsDay(start)
    ensures Tiles(Default(start, end)) && NeverOverlaps(Default(start, end))
  {
    var ws := Default(start, end);
    forall k | 0 <= k < |ws| - 1 ensures ws[k].outEnd == ws[k + 1].outStart {
      DefaultAt(start, end, k);
      DefaultAt(start, end, k + 1);
      SameMonth(ws[k].outEnd, ws[k + 1].outStart);
    }
    forall j, k | 0 <= j < k < |ws| ensures Leq(ws[j].outEnd, ws[k].outStart) {
      DefaultAt(start, end, j);
      DefaultAt(start, end, k);
    }
  }

  /** Window `k` runs into the one behind it. */
  ghost predicate OverlapAt(start: DateTime, end: DateTime, k: nat) {
    k + 1 < |Default(start, end)| && Less(Default(start, end)[k + 1].outStart, Default(start, end)[k].outEnd)
  }

  lemma OverlapSpoils(start: DateTime, end: DateTime, k: nat)
    requires OverlapAt(start, end, k)
    ensures !Tiles(Default(start, end)) && !NeverOverlaps(Default(start, end))
  {
    hide Rolling;
    var ws := Default(start, end);
    assert ws[k].outEnd != ws[k + 1].outStart;
    assert !Leq(ws[k].outEnd, ws[k + 1].outStart);
  }

  lemma OverlapHere(start: DateTime) returns (end: DateTime)
    requires Less(WindowAt(AddMonths(start, 2), 6, 2).outStart, WindowAt(start, 6, 2).outEnd)
    ensures OverlapAt(start, end, 0)
  {
    end := FarEnd(start, 10);
    TwoWindows(start, 6, 2);
    hide AddMonths, Rolling, WindowAt;
  }

  /** An overlap behind the next cursor is one behind this one. */
  lemma OverlapFurther(start: DateTime, end: DateTime, k: nat)
    requires OverlapAt(AddMonths(start, 2), end, k)
    ensures OverlapAt(start, end, k + 1)
  {
    var next := AddMonths(start, 2);
    assert Fits(next, end, 8);
    assert Fits(start, end, 8);
    assert Default(start, end) == [WindowAt(start, 6, 2)] + Default(next, end);
    hide AddMonths, Rolling, WindowAt;
  }

  /** The 31st of an odd month walks to the end of July, from where the two windows behind it overlap in March. */
  lemma {:induction false} OddOverlaps(start: DateTime) returns (end: DateTime, k: nat)
    requires start.month % 2 == 1 && start.day == 31
    ensures OverlapAt(start, end, k)
    decreases 7 - start.month
  {
    hide OverlapAt, Rolling;
    if start.month == 7 {
      EndOfJuly(start);
      end := OverlapHere(start);
      k := 0;
    } else {
      end, k := OddOverlaps(AddMonths(start, 2));
      OverlapFurther(start, end, k);
      k := k + 1;
    }
  }

  /** Where so many months lead, clamped to the length of that month. */
  lemma Lands(d: DateTime, n: int, year: int, month: int)
    requires d.MonthIndex() + n == year * 12 + month - 1 && 1 <= month <= 12
    ensures var r := AddMonths(d, n);
            r.year == year && r.month == month && r.day == if d.day <= MonthLength(year, month) then d.day else MonthLength(year, month)
  {
    var r := AddMonths(d, n);
    hide AddMonths, MonthLength;
    assert r.year * 12 + r.month == year * 12 + month;
  }

  lemma EndOfJuly(start: DateTime)
    requires start.month == 7 && start.day == 31
    ensures Less(WindowAt(AddMonths(start, 2), 6, 2).outStart, WindowAt(start, 6, 2).outEnd)
  {
    hide AddMonths, IsLeap;
    var next, middle := AddMonths(start, 2), AddMonths(start, 6);
    Lands(start, 2, start.year, 9);
    Lands(start, 6, start.year + 1, 1);
    Lands(next, 6, start.year + 1, 3);
    Lands(middle, 2, start.year + 1, 3);
  }

  /** Months until the overlap. */
  function ToOverlap(start: DateTime): (n: int)
    ensures n >= 0
  {
    (if IsLeap(start.year + 1) then 12 else 0) + 12 - start.month
  }

  lemma LateDayStays(start: DateTime)
    requires start.month % 2 == 0 && start.day >= 29
    requires start.month < 12 || (start.day == 29 && IsLeap(start.year + 1))
    ensures var next := AddMonths(start, 2);
            next.month % 2 == 0 && next.day >= 29 && ToOverlap(next) < ToOverlap(start)
  {
    var next := AddMonths(start, 2);
    if start.month < 12 {
      assert next.year == start.year && next.month == start.month + 2;
      hide IsLeap, AddMonths;
    } else {
      assert next.year == start.year + 1 && next.month == 2;
      NoTwoLeapYears(start.year + 1);
      hide AddMonths;
    }
  }

  lemma NoTwoLeapYears(year: int)
    requires IsLeap(year)
    ensures !IsLeap(year + 1)
  {
  }

  /** A late day of an even month walks to a December whose next February lacks it. */
  lemma {:induction false} EvenOverlaps(start: DateTime) returns (end: DateTime, k: nat)
    requires start.month % 2 == 0 && start.day >= 29
    ensures OverlapAt(start, end, k)
    decreases ToOverlap(start)
  {
    hide OverlapAt, Rolling, MonthLength, IsLeap, AddMonths, ToOverlap;
    if start.month == 12 && (start.day >= 30 || !IsLeap(start.year + 1)) {
      LateDecember(start);
      end := OverlapHere(start);
      k := 0;
    } else {
      LateDayStays(start);
      end, k := EvenOverlaps(AddMonths(start, 2));
      OverlapFurther(start, end, k);
      k := k + 1;
    }
  }

  lemma LateDecember(start: DateTime)
    requires start.month == 12 && start.day >= 29 && (start.day >= 30 || !IsLeap(start.year + 1))
    ensures Less(WindowAt(AddMonths(start, 2), 6, 2).outStart, WindowAt(start, 6, 2).outEnd)
  {
    hide AddMonths;
    var next, middle := AddMonths(start, 2), AddMonths(start, 6);
    Lands(start, 2, start.year + 1, 2);
    Lands(start, 6, start.year + 1, 6);
    Lands(next, 6, start.year + 1, 8);
    Lands(middle, 2, start.year + 1, 8);
  }

  /**
   At the default lengths windows meet exactly, for every end, if and only if they
   never overlap, if and only if every second month has the day of the start.
   */
  lemma DefaultTiling(start: DateTime)
    ensures (forall end: DateTime :: Tiles(Default(start, end))) <==> KeepsDay(start)
    ensures (forall end: DateTime :: NeverOverlaps(Default(start, end))) <==> KeepsDay(start)
  {
    hide Default, Tiles, NeverOverlaps, OverlapAt;
    if KeepsDay(start) {
      forall end: DateTime ensures Tiles(Default(start, end)) && NeverOverlaps(Default(start, end)) {
        DefaultMeets(start, end);
      }
    } else if start.month % 2 == 1 {
      var end, k := OddOverlaps(start);
      OverlapSpoils(start, end, k);
    } else {
      var end, k := EvenOverlaps(start);
      OverlapSpoils(start, end, k);
    }
  }

  const NEW_YEARS_EVE: DateTime := Stamp(2023, 12, 31, 0)

  const LEAP_DAY: DateTime := Stamp(2024, 2, 29, 0)

  lemma FirstWindow()
    ensures AddMonths(NEW_YEARS_EVE, 2) == LEAP_DAY
    ensures AddMonths(NEW_YEARS_EVE, 8) == Stamp(2024, 8, 31, 0)
    ensures WindowAt(NEW_YEARS_EVE, 6, 2).outEnd == Stamp(2024, 8, 30, 0)
  {
  }

  lemma SecondWindow()
    ensures AddMonths(LEAP_DAY, 8) == Stamp(2024, 10, 29, 0)
    ensures WindowAt(LEAP_DAY, 6, 2).outStart == Stamp(2024, 8, 29, 0)
  {
  }

  /** The default six, two and two months from a New Year's Eve put one day of August into two windows. */
  lemma NewYearsEveOverlaps()
    ensures var ws := Rolling(NEW_YEARS_EVE, Stamp(2025, 1, 1, 0), 6, 2, 2);
            |ws| >= 2 && Less(ws[1].outStart, ws[0].outEnd)
  {
    FirstWindow();
    SecondWindow();
    hide AddMonths, MonthLength, IsLeap, WindowAt;
    var end: DateTime := Stamp(2025, 1, 1, 0);
    assert Fits(NEW_YEARS_EVE, end, 8) && Fits(LEAP_DAY, end, 8);
    hide Fits;
    assert Rolling(NEW_YEARS_EVE, end, 6, 2, 2) == [WindowAt(NEW_YEARS_EVE, 6, 2)] + Rolling(LEAP_DAY, end, 6, 2, 2);
    assert Rolling(LEAP_DAY, end, 6, 2, 2)
        == [WindowAt(LEAP_DAY, 6, 2)] + Rolling(AddMonths(LEAP_DAY, 2), end, 6, 2, 2);
  }
}
