/** Payroll cadence on ECMA-262 dates (section 21.4.1): a time is a count of milliseconds, a day
    a count of days, both from 1970-01-01 UTC, and calendar fields are computed from them. */
module Cadence {

  const MS_PER_DAY: int := 86_400_000

  datatype Cadence = Weekly | Biweekly | Monthly | OneOff

  /** A calendar date; months count from 0 and days of the month from 1. */
  datatype Date = Date(year: int, month: int, day: int)

  function Day(time: int): int { time / MS_PER_DAY }

  function TimeWithinDay(time: int): int { time % MS_PER_DAY }

  function MakeDate(day: int, within: int): int { day * MS_PER_DAY + within }

  predicate Leap(y: int) {
    y % 4 == 0 && (y % 100 != 0 || y % 400 == 0)
  }

  function DaysInYear(y: int): int { if Leap(y) then 366 else 365 }

  /** The day number of the first of January of `y`. */
  function DayFromYear(y: int): int {
    365 * (y - 1970) + (y - 1969) / 4 - (y - 1901) / 100 + (y - 1601) / 400
  }

  function DaysInMonth(y: int, m: int): (n: int)
    requires 0 <= m < 12
    ensures 28 <= n <= 31
  {
    if m == 1 then (if Leap(y) then 29 else 28)
    else if m == 3 || m == 5 || m == 8 || m == 10 then 30
    else 31
  }

  /** The days of the year before month `m`; m = 12 gives the whole year. */
  function DaysBefore(y: int, m: int): (n: int)
    requires 0 <= m <= 12
    decreases m
  {
    if m == 0 then 0 else DaysBefore(y, m - 1) + DaysInMonth(y, m - 1)
  }

  /** The years divisible by 4, by 100 and by 400 are counted by quotients. */
  lemma NextQuotient(y: int, past: int, d: int)
    requires (past == 1969 && d == 4) || (past == 1901 && d == 100) || (past == 1601 && d == 400)
    ensures (y + 1 - past) / d - (y - past) / d == if y % d == 0 then 1 else 0
  {
  }

  lemma MultipleOf(y: int, q: int, e: int)
    requires e == 4 || e == 100
    requires y == e * q
    ensures y % e == 0
  {
  }

  lemma YearLength(y: int)
    ensures DayFromYear(y + 1) - DayFromYear(y) == DaysInYear(y)
  {
    NextQuotient(y, 1969, 4);
    NextQuotient(y, 1901, 100);
    NextQuotient(y, 1601, 400);
    if y % 100 == 0 {
      MultipleOf(y, 25 * (y / 100), 4);
    }
    if y % 400 == 0 {
      MultipleOf(y, 4 * (y / 400), 100);
    }
  }

  lemma YearIsItsMonths(y: int)
    ensures DaysBefore(y, 12) == DaysInYear(y)
  {
    assert DaysBefore(y, 2) == 31 + DaysInMonth(y, 1);
    assert DaysBefore(y, 4) == DaysBefore(y, 2) + 31 + 30;
    assert DaysBefore(y, 6) == DaysBefore(y, 4) + 31 + 30;
    assert DaysBefore(y, 8) == DaysBefore(y, 6) + 31 + 31;
    assert DaysBefore(y, 10) == DaysBefore(y, 8) + 30 + 31;
  }

  // ---- From a day number to a date ----

  function YearFrom(y: int, d: int): (r: int)
    ensures DayFromYear(r) <= d < DayFromYear(r + 1)
    decreases d < DayFromYear(y), if d < DayFromYear(y) then DayFromYear(y) - d else d - DayFromYear(y)
  {
    YearLength(y);
    YearLength(y - 1);
    if d < DayFromYear(y) then YearFrom(y - 1, d)
    else if d >= DayFromYear(y + 1) then YearFrom(y + 1, d)
    else y
  }

  function MonthFrom(y: int, m: int, k: int): (r: int)
    requires 0 <= m < 12
    requires DaysBefore(y, m) <= k < DaysBefore(y, 12)
    ensures 0 <= r < 12 && DaysBefore(y, r) <= k < DaysBefore(y, r + 1)
    decreases 12 - m
  {
    if k < DaysBefore(y, m + 1) then m else MonthFrom(y, m + 1, k)
  }

  predicate ValidDate(x: Date) {
    0 <= x.month < 12 && 1 <= x.day <= DaysInMonth(x.year, x.month)
  }

  /** The day number of a date whose month is in range. */
  function DayOf(x: Date): int
    requires 0 <= x.month < 12
  {
    DayFromYear(x.year) + DaysBefore(x.year, x.month) + x.day - 1
  }

  function DateOf(d: int): (x: Date)
    ensures ValidDate(x) && DayOf(x) == d
  {
    var y := YearFrom(1970, d);
    var k := d - DayFromYear(y);
    YearLength(y);
    YearIsItsMonths(y);
    var m := MonthFrom(y, 0, k);
    Date(y, m, k - DaysBefore(y, m) + 1)
  }

  /** MakeDay: months and days out of range carry over. */
  function MakeDay(year: int, month: int, date: int): int {
    var y, m := year + month / 12, month % 12;
    DayOf(Date(y, m, date))
  }

  /** A date read off a day number makes that day again. */
  lemma MakeDayOfDate(d: int)
    ensures var x := DateOf(d); MakeDay(x.year, x.month, x.day) == d
  {
    InRange(DateOf(d));
    hide MakeDay;
  }

  lemma {:induction false} YearsOrdered(a: int, b: int)
    requires a <= b
    ensures DayFromYear(a) <= DayFromYear(b)
    decreases b - a
  {
    if a < b {
      YearLength(b - 1);
      YearsOrdered(a, b - 1);
    }
  }

  lemma {:induction false} MonthsOrdered(y: int, a: int, b: int)
    requires 0 <= a <= b <= 12
    ensures DaysBefore(y, a) <= DaysBefore(y, b)
    decreases b
  {
    if a < b {
      MonthsOrdered(y, a, b - 1);
    }
  }

  lemma WithinItsMonth(x: Date)
    requires ValidDate(x)
    ensures DaysBefore(x.year, x.month) <= DayOf(x) - DayFromYear(x.year) < DaysBefore(x.year, x.month + 1)
    ensures DayFromYear(x.year) <= DayOf(x) < DayFromYear(x.year + 1)
  {
    hide DayFromYear;
    MonthsOrdered(x.year, 0, x.month);
    MonthsOrdered(x.year, x.month + 1, 12);
    YearIsItsMonths(x.year);
    YearLength(x.year);
  }

  lemma LaterYear(a: Date, b: Date)
    requires ValidDate(a) && ValidDate(b) && a.year < b.year
    ensures DayOf(a) < DayOf(b)
  {
    WithinItsMonth(a);
    WithinItsMonth(b);
    hide DayFromYear, DaysBefore;
    YearsOrdered(a.year + 1, b.year);
  }

  lemma LaterMonth(a: Date, b: Date)
    requires ValidDate(a) && ValidDate(b) && a.year == b.year && a.month < b.month
    ensures DayOf(a) < DayOf(b)
  {
    WithinItsMonth(a);
    WithinItsMonth(b);
    hide DayFromYear, DaysBefore;
    MonthsOrdered(a.year, a.month + 1, b.month);
  }

  lemma DateOfDay(x: Date)
    requires ValidDate(x)
    ensures DateOf(DayOf(x)) == x
  {
    var r := DateOf(DayOf(x));
    assert DayOf(r) == DayOf(x);
    if r.year == x.year && r.month == x.month {
      SameMonth(r, x);
    }
    hide DateOf, DayOf;
    if r.year < x.year {
      LaterYear(r, x);
    } else if x.year < r.year {
      LaterYear(x, r);
    } else if r.month < x.month {
      LaterMonth(r, x);
    } else if x.month < r.month {
      LaterMonth(x, r);
    }
  }

  lemma SameMonth(a: Date, b: Date)
    requires 0 <= a.month < 12 && a.year == b.year && a.month == b.month
    ensures DayOf(a) - DayOf(b) == a.day - b.day
  {
    hide DayFromYear, DaysBefore;
  }

  lemma InRange(x: Date)
    requires 0 <= x.month < 12
    ensures MakeDay(x.year, x.month, x.day) == DayOf(x)
  {
    hide DayOf;
  }

  /** A valid date is read back from the day it makes. */
  lemma DateOfMakeDay(x: Date)
    requires ValidDate(x)
    ensures DateOf(MakeDay(x.year, x.month, x.day)) == x
  {
    hide DateOf, MakeDay;
    InRange(x);
    DateOfDay(x);
  }

  // ---- The Date object and advanceCadence ----

  function SetDate(time: int, date: int): int {
    var x := DateOf(Day(time));
    MakeDate(MakeDay(x.year, x.month, date), TimeWithinDay(time))
  }

  function SetMonth(time: int, month: int): int {
    var x := DateOf(Day(time));
    MakeDate(MakeDay(x.year, month, x.day), TimeWithinDay(time))
  }

  function Advance(from: int, c: Cadence): int {
    var x := DateOf(Day(from));
    match c
    case Weekly => SetDate(from, x.day + 7)
    case Biweekly => SetDate(from, x.day + 14)
    case Monthly => SetMonth(from, x.month + 1)
    case OneOff => from
  }

  class UtcDate {
    var time: int

    constructor (time: int)
      ensures this.time == time
    {
      this.time := time;
    }

    method SetUTCDate(date: int)
      modifies this
      ensures time == SetDate(old(time), date)
    {
      var x := DateOf(Day(time));
      time := MakeDate(MakeDay(x.year, x.month, date), TimeWithinDay(time));
    }

    method SetUTCMonth(month: int)
      modifies this
      ensures time == SetMonth(old(time), month)
    {
      var x := DateOf(Day(time));
      time := MakeDate(MakeDay(x.year, month, x.day), TimeWithinDay(time));
    }
  }

  method AdvanceCadence(from: int, c: Cadence) returns (r: int)
    ensures r == Advance(from, c)
  {
    hide DayFromYear, DaysBefore, DateOf, MakeDay, MakeDate, Day, TimeWithinDay;
    var next := new UtcDate(from);
    match c {
      case Weekly => next.SetUTCDate(DateOf(Day(next.time)).day + 7);
      case Biweekly => next.SetUTCDate(DateOf(Day(next.time)).day + 14);
      case Monthly => next.SetUTCMonth(DateOf(Day(next.time)).month + 1);
      case OneOff =>
    }
    r := next.time;
  }

  // ---- What a step adds ----

  /** The whole days that one step adds. */
  function DaysAdded(from: int, c: Cadence): int {
    match c
    case Weekly => 7
    case Biweekly => 14
    case Monthly => var x := DateOf(Day(from)); DaysInMonth(x.year, x.month)
    case OneOff => 0
  }

  lemma NextMonth(y: int, m: int, day: int)
    requires 0 <= m < 12
    ensures MakeDay(y, m + 1, day) == MakeDay(y, m, day) + DaysInMonth(y, m)
  {
    hide DayFromYear;
    if m == 11 {
      YearIsItsMonths(y);
      YearLength(y);
    }
  }

  lemma Recompose(time: int)
    ensures MakeDate(Day(time), TimeWithinDay(time)) == time
    ensures 0 <= TimeWithinDay(time) < MS_PER_DAY
  {
  }

  lemma LaterDay(y: int, m: int, day: int, n: int)
    ensures MakeDay(y, m, day + n) == MakeDay(y, m, day) + n
  {
  }

  /** A step adds whole days: 7, 14, or exactly as many as the starting month has. */
  lemma AdvanceAdds(from: int, c: Cadence)
    ensures Advance(from, c) == from + DaysAdded(from, c) * MS_PER_DAY
  {
    hide DayFromYear, DaysBefore, DateOf, MakeDay, Day, TimeWithinDay, DaysInMonth;
    var x := DateOf(Day(from));
    MakeDayOfDate(Day(from));
    Recompose(from);
    match c {
      case Weekly => LaterDay(x.year, x.month, x.day, 7);
      case Biweekly => LaterDay(x.year, x.month, x.day, 14);
      case Monthly => NextMonth(x.year, x.month, x.day);
      case OneOff =>
    }
  }

  lemma WholeDays(time: int, n: int)
    ensures Day(time + n * MS_PER_DAY) == Day(time) + n
    ensures TimeWithinDay(time + n * MS_PER_DAY) == TimeWithinDay(time)
  {
    assert time + n * MS_PER_DAY == (Day(time) + n) * MS_PER_DAY + TimeWithinDay(time);
  }

  /** A recurring schedule moves strictly forward, by 7 to 31 days, at the same time of day. */
  lemma AdvanceForward(from: int, c: Cadence)
    requires !c.OneOff?
    ensures from + 7 * MS_PER_DAY <= Advance(from, c) <= from + 31 * MS_PER_DAY
    ensures TimeWithinDay(Advance(from, c)) == TimeWithinDay(from)
    ensures Day(Advance(from, c)) == Day(from) + DaysAdded(from, c)
  {
    AdvanceAdds(from, c);
    WholeDays(from, DaysAdded(from, c));
  }

  function Steps(from: int, c: Cadence, k: nat): int {
    if k == 0 then from else Advance(Steps(from, c, k - 1), c)
  }

  /** k weekly or biweekly steps in a row add exactly 7k or 14k days. */
  lemma {:induction false} StepsAdd(from: int, c: Cadence, k: nat)
    requires c.Weekly? || c.Biweekly?
    ensures Steps(from, c, k) == from + (if c.Weekly? then 7 else 14) * k * MS_PER_DAY
  {
    hide Advance, DateOf;
    if k > 0 {
      StepsAdd(from, c, k - 1);
      AdvanceAdds(Steps(from, c, k - 1), c);
    }
  }

  /** The month after (y, m). */
  function MonthAfter(x: Date): Date {
    if x.month == 11 then Date(x.year + 1, 0, x.day) else Date(x.year, x.month + 1, x.day)
  }

  lemma NextMonthDay(x: Date)
    requires 0 <= x.month < 12
    ensures DayOf(MonthAfter(x)) == DayOf(x) + DaysInMonth(x.year, x.month)
  {
    hide DayOf, DayFromYear, DaysBefore;
    NextMonth(x.year, x.month, x.day);
    InRange(x);
    InRange(MonthAfter(x));
  }

  /** Where a monthly step lands: the same day of the next month or, if that month is too short,
      the rest of the days into the month after it. */
  function MonthlyTarget(x: Date): Date
    requires 0 <= x.month < 12
  {
    var n := MonthAfter(x);
    var length := DaysInMonth(n.year, n.month);
    if x.day <= length then n
    else Date(MonthAfter(n).year, MonthAfter(n).month, x.day - length)
  }

  lemma MonthlyLands(from: int)
    ensures DateOf(Day(Advance(from, Monthly))) == MonthlyTarget(DateOf(Day(from)))
  {
    var x := DateOf(Day(from));
    MonthlyDay(from);
    hide Advance, DateOf, DayOf, Day, MonthlyTarget, DaysInMonth;
    TargetDay(x);
    DateOfDay(MonthlyTarget(x));
  }

  lemma MonthlyDay(from: int)
    ensures var x := DateOf(Day(from));
            DayOf(x) == Day(from) && Day(Advance(from, Monthly)) == DayOf(x) + DaysInMonth(x.year, x.month)
  {
    AdvanceForward(from, Monthly);
    hide Advance, Day, DayOf;
  }

  lemma TargetDay(x: Date)
    requires ValidDate(x)
    ensures ValidDate(MonthlyTarget(x))
    ensures DayOf(MonthlyTarget(x)) == DayOf(x) + DaysInMonth(x.year, x.month)
  {
    hide DayOf;
    NextMonthDay(x);
    SpillOver(MonthAfter(x));
  }

  lemma SpillOver(n: Date)
    requires 0 <= n.month < 12
    ensures DayOf(n) == DayOf(Date(MonthAfter(n).year, MonthAfter(n).month, n.day - DaysInMonth(n.year, n.month)))
  {
    var early := Date(n.year, n.month, n.day - DaysInMonth(n.year, n.month));
    SameMonth(n, early);
    NextMonthDay(early);
    hide DayOf;
  }

  /** So a monthly step keeps the day of the month exactly when the next month has that day. */
  lemma MonthlyKeepsDayIff(from: int)
    ensures var x := DateOf(Day(from));
            var n := MonthAfter(x);
            DateOf(Day(Advance(from, Monthly))).day == x.day <==> x.day <= DaysInMonth(n.year, n.month)
  {
    MonthlyLands(from);
    hide Advance, DateOf;
  }

  /** The date k months after x, for a day that every month has. */
  function MonthsAfter(x: Date, k: nat): Date {
    if k == 0 then x else MonthAfter(MonthsAfter(x, k - 1))
  }

  /** From a day 1 to 28, k monthly steps in a row are k calendar months. */
  lemma {:induction false} MonthlyRhythm(from: int, k: nat)
    requires DateOf(Day(from)).day <= 28
    ensures DateOf(Day(Steps(from, Monthly, k))) == MonthsAfter(DateOf(Day(from)), k)
    ensures DateOf(Day(Steps(from, Monthly, k))).day == DateOf(Day(from)).day
  {
    hide Advance, DateOf;
    if k > 0 {
      MonthlyRhythm(from, k - 1);
      MonthlyLands(Steps(from, Monthly, k - 1));
    }
  }

  // ---- Steps from two instants ----

  /** The days of the month of x are its neighbours. */
  lemma OfTheMonth(x: Date, d: int)
    requires ValidDate(x) && DayOf(x) - x.day < d <= DayOf(x) - x.day + DaysInMonth(x.year, x.month)
    ensures DateOf(d) == Date(x.year, x.month, d - (DayOf(x) - x.day))
  {
    hide DateOf, DayOf;
    var z := Date(x.year, x.month, d - (DayOf(x) - x.day));
    SameMonth(z, x);
    DateOfDay(z);
  }

  /** The later of two instants steps further, if the earlier is on a day that every month has. */
  lemma MonthlyOrdered(a: int, b: int)
    requires a < b && DateOf(Day(a)).day <= 28
    ensures Advance(a, Monthly) < Advance(b, Monthly)
  {
    AdvanceAdds(a, Monthly);
    AdvanceAdds(b, Monthly);
    var x := DateOf(Day(a));
    hide Advance, DateOf, DayOf;
    if Day(b) <= Day(a) - x.day + DaysInMonth(x.year, x.month) {
      OfTheMonth(x, Day(b));
    }
  }

  /** So it does for the other cadences. */
  lemma AdvanceOrdered(a: int, b: int, c: Cadence)
    requires a < b && (c.Monthly? ==> DateOf(Day(a)).day <= 28)
    ensures Advance(a, c) < Advance(b, c)
  {
    hide Advance, DateOf, Day;
    if c.Monthly? {
      MonthlyOrdered(a, b);
    } else {
      AdvanceAdds(a, c);
      AdvanceAdds(b, c);
    }
  }

  /** From the 31st it need not: outside leap years January 31 and February 3 step to the same instant. */
  lemma MonthEndsMeet(from: int, y: int)
    requires DateOf(Day(from)) == Date(y, 0, 31) && !Leap(y)
    ensures Advance(from, Monthly) == Advance(from + 3 * MS_PER_DAY, Monthly)
  {
    AdvanceAdds(from, Monthly);
    AdvanceAdds(from + 3 * MS_PER_DAY, Monthly);
    WholeDays(from, 3);
    NextMonthDay(Date(y, 0, 31));
    hide Advance, DateOf, DayOf, Day;
    OfTheMonth(Date(y, 1, 28), Day(from) + 3);
  }

  // ---- The calendar, day by day ----

  /** The months have the lengths of the Gregorian calendar. */
  lemma MonthLengths(y: int, m: int)
    requires 0 <= m < 12
    ensures DaysInMonth(y, m) ==
            [31, if y % 400 == 0 || (y % 4 == 0 && y % 100 != 0) then 29 else 28, 31, 30, 31, 30, 31, 31, 30, 31, 30, 31][m]
  {
  }

  /** Day 0 is January 1, 1970. */
  lemma Epoch()
    ensures DateOf(0) == Date(1970, 0, 1)
  {
    assert DayOf(Date(1970, 0, 1)) == 0;
    DateOfDay(Date(1970, 0, 1));
    hide DateOf, DayOf;
  }

  /** And every day has the date after the one before: the next day of the month, or the first of the next
      month. With the epoch and the lengths this is the whole calendar, in both directions. */
  lemma NextDate(d: int)
    ensures var x := DateOf(d);
            DateOf(d + 1) == if x.day < DaysInMonth(x.year, x.month) then Date(x.year, x.month, x.day + 1)
                             else MonthAfter(Date(x.year, x.month, 1))
  {
    hide *;
    var x := DateOf(d);
    DateValid(d);
    if x.day < DaysInMonth(x.year, x.month) {
      OfTheMonth(x, d + 1);
    } else {
      MonthEnd(x);
    }
  }

  lemma DateValid(d: int)
    ensures var x := DateOf(d);
            && ValidDate(x) && DayOf(x) == d && 0 <= x.month < 12 && 1 <= x.day <= DaysInMonth(x.year, x.month)
  {
  }

  lemma MonthEnd(x: Date)
    requires ValidDate(x) && x.day == DaysInMonth(x.year, x.month)
    ensures DateOf(DayOf(x) + 1) == MonthAfter(Date(x.year, x.month, 1))
  {
    hide DateOf, DayOf;
    var first := Date(x.year, x.month, 1);
    SameMonth(x, first);
    NextMonthDay(first);
    DateOfDay(MonthAfter(first));
  }
}
