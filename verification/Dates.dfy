/**
 The Gregorian calendar dates the month report works on (ISO 8601-1:2019, section 5.2.2),
 the weekday of a date, whole-day arithmetic, and the two date rules of the runner: the
 weekend fold and the month offset.
 */
module Dates {

  datatype Date = Date(year: nat, month: nat, day: nat)

  const MAX_YEAR := 9999

  predicate Divides(k: nat, n: int)
    requires k > 0
  {
    if n < k then n == 0 else Divides(k, n - k)
  }

  predicate Leap(year: int) {
    Divides(4, year) && (!Divides(100, year) || Divides(400, year))
  }

  lemma {:induction false} DividesFour(n: nat)
    ensures Divides(4, n) <==> n % 4 == 0
  {
    if n >= 4 { DividesFour(n - 4); }
  }

  lemma {:induction false} DividesHundred(n: nat)
    ensures Divides(100, n) <==> n % 100 == 0
  {
    if n >= 100 { DividesHundred(n - 100); }
  }

  lemma {:induction false} DividesFourHundred(n: nat)
    ensures Divides(400, n) <==> n % 400 == 0
  {
    if n >= 400 { DividesFourHundred(n - 400); }
  }

  /** The Gregorian leap years. */
  lemma LeapIs(year: nat)
    ensures Leap(year) <==> year % 4 == 0 && (year % 100 != 0 || year % 400 == 0)
  {
    DividesFour(year);
    DividesHundred(year);
    DividesFourHundred(year);
  }

  function DaysIn(year: int, month: nat): (n: nat)
    ensures 28 <= n <= 31
  {
    if month == 2 then (if Leap(year) then 29 else 28)
    else if month == 4 || month == 6 || month == 9 || month == 11 then 30
    else 31
  }

  /** The table of the months. */
  lemma DaysInIs(year: nat, month: nat)
    requires 1 <= month <= 12
    ensures
      var february := if year % 4 == 0 && (year % 100 != 0 || year % 400 == 0) then 29 else 28;
      DaysIn(year, month) == [31, february, 31, 30, 31, 30, 31, 31, 30, 31, 30, 31][month - 1]
  {
    LeapIs(year);
  }

  predicate Valid(d: Date) {
    1 <= d.year && 1 <= d.month <= 12 && 1 <= d.day <= DaysIn(d.year, d.month)
  }

  // ----- a date and its day number, day 1 being 0001-01-01

  type Day = n: nat | n >= 1 witness 1

  function Succ(d: Date): (r: Date)
    requires Valid(d)
    ensures Valid(r)
  {
    if d.day < DaysIn(d.year, d.month) then Date(d.year, d.month, d.day + 1)
    else if d.month < 12 then Date(d.year, d.month + 1, 1)
    else Date(d.year + 1, 1, 1)
  }

  /** The date of a day number; adding a `timedelta` to a date adds to its day number. */
  function DateOf(n: nat): (d: Date)
    requires n >= 1
    ensures Valid(d)
  {
    if n == 1 then Date(1, 1, 1) else Succ(DateOf(n - 1))
  }

  function YearDays(year: int): nat {
    if Leap(year) then 366 else 365
  }

  function DaysBeforeYear(year: int): nat {
    if year <= 1 then 0 else DaysBeforeYear(year - 1) + YearDays(year - 1)
  }

  function DaysBeforeMonth(year: int, month: nat): nat {
    if month <= 1 then 0 else DaysBeforeMonth(year, month - 1) + DaysIn(year, month - 1)
  }

  function DayNumber(d: Date): nat {
    DaysBeforeYear(d.year) + DaysBeforeMonth(d.year, d.month) + d.day
  }

  lemma YearLength(year: int)
    ensures DaysBeforeMonth(year, 12) + 31 == YearDays(year)
  {
    assert DaysBeforeMonth(year, 2) == 31;
    assert DaysBeforeMonth(year, 3) == 31 + DaysIn(year, 2);
    assert DaysBeforeMonth(year, 5) == 92 + DaysIn(year, 2);
    assert DaysBeforeMonth(year, 7) == 153 + DaysIn(year, 2);
    assert DaysBeforeMonth(year, 9) == 215 + DaysIn(year, 2);
    assert DaysBeforeMonth(year, 11) == 276 + DaysIn(year, 2);
  }

  lemma NextDayNumber(d: Date)
    requires Valid(d)
    ensures DayNumber(Succ(d)) == DayNumber(d) + 1
  {
    if d.day < DaysIn(d.year, d.month) {
    } else if d.month < 12 {
      assert DaysBeforeMonth(d.year, d.month + 1) == DaysBeforeMonth(d.year, d.month) + DaysIn(d.year, d.month);
    } else {
      YearLength(d.year);
    }
  }

  /** Every valid date but the first has a day before it. */
  lemma HasPred(d: Date) returns (p: Date)
    requires Valid(d) && DayNumber(d) > 1
    ensures Valid(p) && Succ(p) == d && DayNumber(p) == DayNumber(d) - 1
  {
    if d.day > 1 {
      p := Date(d.year, d.month, d.day - 1);
    } else if d.month > 1 {
      p := Date(d.year, d.month - 1, DaysIn(d.year, d.month - 1));
    } else {
      assert DaysBeforeMonth(d.year, 1) == 0;
      p := Date(d.year - 1, 12, 31);
    }
    NextDayNumber(p);
  }

  lemma FirstDay(d: Date)
    requires Valid(d)
    ensures DayNumber(d) >= 1 && (DayNumber(d) == 1 ==> d == Date(1, 1, 1))
  {
    if d.year > 1 {
      assert DaysBeforeYear(d.year) >= YearDays(d.year - 1);
    } else if d.month > 1 {
      assert DaysBeforeMonth(d.year, d.month) >= DaysIn(d.year, d.month - 1);
    }
  }

  /** Counting by years and months and stepping day by day are inverse to each other. */
  lemma {:induction false} DateOfDayNumber(d: Date)
    requires Valid(d)
    ensures DayNumber(d) >= 1 && DateOf(DayNumber(d)) == d
    decreases DayNumber(d)
  {
    FirstDay(d);
    if DayNumber(d) > 1 {
      var p := HasPred(d);
      DateOfDayNumber(p);
    }
  }

  lemma {:induction false} DayNumberOfDate(n: nat)
    requires n >= 1
    ensures DayNumber(DateOf(n)) == n
  {
    if n == 1 {
      assert DaysBeforeMonth(1, 1) == 0;
    } else {
      DayNumberOfDate(n - 1);
      NextDayNumber(DateOf(n - 1));
    }
  }

  function NextMonth(d: Date): Date {
    if d.month < 12 then Date(d.year, d.month + 1, 1) else Date(d.year + 1, 1, 1)
  }

  lemma MonthStart(d: Date)
    requires Valid(d) && d.month < 12
    ensures DayNumber(NextMonth(d)) == DayNumber(d) - d.day + DaysIn(d.year, d.month) + 1
  {
    assert DaysBeforeMonth(d.year, d.month + 1) == DaysBeforeMonth(d.year, d.month) + DaysIn(d.year, d.month);
  }

  lemma YearStart(d: Date)
    requires Valid(d) && d.month == 12
    ensures DayNumber(NextMonth(d)) == DayNumber(d) - d.day + DaysIn(d.year, d.month) + 1
  {
    YearLength(d.year);
    assert DaysBeforeMonth(d.year + 1, 1) == 0;
  }

  lemma LaterMonth(d: Date, day: nat)
    requires Valid(d) && 1 <= day <= 28
    ensures
      var e := Date(NextMonth(d).year, NextMonth(d).month, day);
      Valid(e) && DayNumber(e) == DayNumber(d) - d.day + DaysIn(d.year, d.month) + day
  {
    if d.month < 12 { MonthStart(d); } else { YearStart(d); }
  }

  lemma SameMonth(d: Date, day: nat)
    requires Valid(d) && 1 <= day <= DaysIn(d.year, d.month)
    ensures DayNumber(Date(d.year, d.month, day)) == DayNumber(d) - d.day + day
  {
  }

  /** The day before the first of a month, unless that is day 1. */
  lemma EarlierMonth(d: Date) returns (p: Date)
    requires Valid(d) && DayNumber(d) > d.day
    ensures Valid(p) && p.month != d.month && p.day == DaysIn(p.year, p.month)
    ensures DayNumber(p) == DayNumber(d) - d.day
  {
    SameMonth(d, 1);
    p := HasPred(Date(d.year, d.month, 1));
  }

  /** Where `e`, `o` days from `d`, lies. */
  predicate Lies(d: Date, o: int, e: Date) {
    var len := DaysIn(d.year, d.month);
    if 1 <= d.day + o <= len then e == Date(d.year, d.month, d.day + o)
    else if d.day + o > len then e == Date(NextMonth(d).year, NextMonth(d).month, d.day + o - len)
    else e.month != d.month
  }

  lemma NearbyDate(d: Date, o: int) returns (e: Date)
    requires Valid(d) && DayNumber(d) + o >= 1
    requires -28 < d.day + o <= DaysIn(d.year, d.month) + 28
    ensures Valid(e) && DayNumber(e) == DayNumber(d) + o && Lies(d, o, e)
  {
    var len := DaysIn(d.year, d.month);
    if 1 <= d.day + o <= len {
      SameMonth(d, d.day + o);
      e := Date(d.year, d.month, d.day + o);
    } else if d.day + o > len {
      LaterMonth(d, d.day + o - len);
      e := Date(NextMonth(d).year, NextMonth(d).month, d.day + o - len);
    } else {
      var p := EarlierMonth(d);
      SameMonth(p, p.day + d.day + o);
      e := Date(p.year, p.month, p.day + d.day + o);
    }
  }

  /** Up to four weeks away a day lies in the same month or in a neighbour, which has
      another month number. */
  lemma Nearby(n: nat, o: int)
    requires n >= 1 && n + o >= 1
    requires -28 < DateOf(n).day + o <= DaysIn(DateOf(n).year, DateOf(n).month) + 28
    ensures Lies(DateOf(n), o, DateOf(n + o))
  {
    DayNumberOfDate(n);
    var e := NearbyDate(DateOf(n), o);
    DateOfDayNumber(e);
  }

  // ----- weekdays

  /** Monday is 0, and day 1 is a Monday. */
  function Weekday(n: nat): (w: nat)
    requires n >= 1
    ensures w <= 6 && w < n
  {
    if n <= 7 then n - 1 else Weekday(n - 7)
  }

  lemma {:induction false} WeekdayClosed(n: nat)
    requires n >= 1
    ensures Weekday(n) == (n + 6) % 7
  {
    if n > 7 {
      WeekdayClosed(n - 7);
    }
  }

  lemma {:induction false} WeekWraps(n: nat, k: nat)
    requires n >= 1
    ensures Weekday(n) + k <= 6 ==> Weekday(n + k) == Weekday(n) + k
    ensures 7 <= Weekday(n) + k <= 13 ==> Weekday(n + k) == Weekday(n) + k - 7
    ensures k <= Weekday(n) ==> Weekday(n - k) == Weekday(n) - k
  {
    if n > 7 {
      WeekWraps(n - 7, k);
    }
  }

  // ----- the weekend fold

  function Fold(n: nat): (f: nat)
    requires n >= 1
    ensures f >= 1
  {
    if Weekday(n) < 5 then n else
      var friday := n - (Weekday(n) - 4);
      if DateOf(friday).month == DateOf(n).month then friday else n + 7 - Weekday(n)
  }

  lemma FoldBack(n: nat, w: nat)
    requires n >= 1 && w == Weekday(n) >= 5 && DateOf(n).day > w - 4
    ensures Fold(n) == n - (w - 4) && Weekday(Fold(n)) == 4
    ensures DateOf(Fold(n)) == Date(DateOf(n).year, DateOf(n).month, DateOf(n).day - (w - 4))
  {
    var o: int := 4 - w;
    Nearby(n, o);
    WeekWraps(n, w - 4);
  }

  lemma FoldOn(n: nat, w: nat)
    requires n >= 1 && w == Weekday(n) >= 5 && DateOf(n).day <= w - 4
    ensures Fold(n) == n + 7 - w && Weekday(Fold(n)) == 0
    ensures DateOf(Fold(n)) == Date(DateOf(n).year, DateOf(n).month, DateOf(n).day + 7 - w)
  {
    var o: int := 4 - w;
    Nearby(n, o);
    Nearby(n, 7 - w);
    WeekWraps(n, 7 - w);
  }

  /** The fold never leaves the weekdays, the month or the year: back to Friday, or at the
      month's opening weekend forward to Monday. */
  lemma FoldStaysInMonth(n: nat)
    requires n >= 1
    ensures
      var d, f, w := DateOf(n), DateOf(Fold(n)), Weekday(n);
      && f.year == d.year && f.month == d.month
      && Weekday(Fold(n)) < 5
      && (w < 5 ==> Fold(n) == n)
      && (w >= 5 && d.day > w - 4 ==> Weekday(Fold(n)) == 4 && f.day == d.day - (w - 4))
      && (w >= 5 && d.day <= w - 4 ==> Weekday(Fold(n)) == 0 && f.day == d.day + 7 - w)
  {
    var w := Weekday(n);
    if w >= 5 {
      if DateOf(n).day > w - 4 { FoldBack(n, w); } else { FoldOn(n, w); }
    }
  }

  // ----- the month offset

  /** `divmod` over absolute month indices; Python floors, and so does a division by 12 here. */
  function OffsetMonth(year: int, month: int, offset: int): (int, int) {
    var index := year * 12 + (month - 1) - offset;
    (index / 12, index % 12 + 1)
  }

  /** Offset 0 is the month itself, and one more is exactly one calendar month earlier. */
  lemma OffsetSteps(year: int, month: int, offset: int)
    requires 1 <= month <= 12
    ensures OffsetMonth(year, month, 0) == (year, month)
    ensures var (y, m) := OffsetMonth(year, month, offset);
      1 <= m <= 12 && OffsetMonth(year, month, offset + 1) == if m > 1 then (y, m - 1) else (y - 1, 12)
  {
  }
}
