/** The proleptic Gregorian calendar and its day numbers, 1970-01-01 being day 0. */
module Gregorian {
  datatype Date = Date(year: int, month: int, day: int)

  predicate Leap(year: int) {
    year % 4 == 0 && (year % 100 != 0 || year % 400 == 0)
  }

  function MonthLength(year: int, month: int): int {
    if month == 2 then if Leap(year) then 29 else 28
    else if month == 4 || month == 6 || month == 9 || month == 11 then 30
    else 31
  }

  predicate OnCalendar(date: Date) {
    1 <= date.month <= 12 && 1 <= date.day <= MonthLength(date.year, date.month)
  }

  /** The calendar rule itself: the day after a day. */
  function NextDay(date: Date): Date {
    if date.day < MonthLength(date.year, date.month) then date.(day := date.day + 1)
    else if date.month < 12 then Date(date.year, date.month + 1, 1)
    else Date(date.year + 1, 1, 1)
  }

  /** The number of the first day of a year: "Time Values and Time Range" of ECMA-262. */
  function YearStart(year: int): int {
    365 * (year - 1970) + (year - 1969) / 4 - (year - 1901) / 100 + (year - 1601) / 400
  }

  function YearLength(year: int): int {
    if Leap(year) then 366 else 365
  }

  /** Days of the year before a month; month 13 gives the whole year. */
  function DaysBefore(year: int, month: int): int {
    var leap := if Leap(year) then 1 else 0;
    if month <= 1 then 0 else if month == 2 then 31 else if month == 3 then 59 + leap
    else if month == 4 then 90 + leap else if month == 5 then 120 + leap else if month == 6 then 151 + leap
    else if month == 7 then 181 + leap else if month == 8 then 212 + leap else if month == 9 then 243 + leap
    else if month == 10 then 273 + leap else if month == 11 then 304 + leap else if month == 12 then 334 + leap
    else 365 + leap
  }

  function DayNumber(date: Date): int {
    YearStart(date.year) + DaysBefore(date.year, date.month) + date.day - 1
  }

  lemma FloorSteps(a: int, b: int, c: int)
    ensures a / 4 - (a - 1) / 4 == if a % 4 == 0 then 1 else 0
    ensures b / 100 - (b - 1) / 100 == if b % 100 == 0 then 1 else 0
    ensures c / 400 - (c - 1) / 400 == if c % 400 == 0 then 1 else 0
  {
  }

  lemma Remainder4(q: int, r: int)
    requires 0 <= r < 4
    ensures (4 * q + r) % 4 == r
  {
  }

  lemma Remainder100(q: int, r: int)
    requires 0 <= r < 100
    ensures (100 * q + r) % 100 == r
  {
  }

  lemma Remainder400(q: int, r: int)
    requires 0 <= r < 400
    ensures (400 * q + r) % 400 == r
  {
  }

  lemma SameRemainders(year: int)
    ensures (year - 1968) % 4 == year % 4 && (year - 1900) % 100 == year % 100 && (year - 1600) % 400 == year % 400
  {
    assert year - 1968 == 4 * (year / 4 - 492) + year % 4;
    assert year - 1900 == 100 * (year / 100 - 19) + year % 100;
    assert year - 1600 == 400 * (year / 400 - 4) + year % 400;
    Remainder4(year / 4 - 492, year % 4);
    Remainder100(year / 100 - 19, year % 100);
    Remainder400(year / 400 - 4, year % 400);
  }

  lemma YearsFollow(year: int)
    ensures YearStart(year + 1) == YearStart(year) + YearLength(year)
  {
    FloorSteps(year - 1968, year - 1900, year - 1600);
    SameRemainders(year);
    LeapDays(year);
  }

  lemma LeapDays(year: int)
    ensures (if Leap(year) then 1 else 0) ==
      (if year % 4 == 0 then 1 else 0) - (if year % 100 == 0 then 1 else 0) + (if year % 400 == 0 then 1 else 0)
  {
    if year % 400 == 0 {
      assert year == 100 * (4 * (year / 400)) + 0;
      Remainder100(4 * (year / 400), 0);
    }
    if year % 100 == 0 {
      assert year == 4 * (25 * (year / 100)) + 0;
      Remainder4(25 * (year / 100), 0);
    }
  }

  lemma {:induction false} YearsGrow(a: int, b: int)
    requires a <= b
    ensures YearStart(b) >= YearStart(a) + 365 * (b - a)
    decreases b - a
  {
    hide YearStart;
    if a < b {
      YearsFollow(b - 1);
      YearsGrow(a, b - 1);
    }
  }

  /** The year a day number falls in, looked for from `year` on. */
  function YearFrom(n: int, year: int): (y: int)
    ensures YearStart(y) <= n < YearStart(y) + YearLength(y)
    decreases n < YearStart(year), if n < YearStart(year) then YearStart(year) - n else n - YearStart(year)
  {
    YearsFollow(year);
    YearsFollow(year - 1);
    if n < YearStart(year) then YearFrom(n, year - 1)
    else if n >= YearStart(year + 1) then YearFrom(n, year + 1)
    else year
  }

  function MonthFrom(year: int, k: int): (m: int)
    requires 0 <= k < YearLength(year)
    ensures 1 <= m <= 12 && DaysBefore(year, m) <= k < DaysBefore(year, m + 1)
  {
    if k < DaysBefore(year, 2) then 1 else if k < DaysBefore(year, 3) then 2 else if k < DaysBefore(year, 4) then 3
    else if k < DaysBefore(year, 5) then 4 else if k < DaysBefore(year, 6) then 5 else if k < DaysBefore(year, 7) then 6
    else if k < DaysBefore(year, 8) then 7 else if k < DaysBefore(year, 9) then 8 else if k < DaysBefore(year, 10) then 9
    else if k < DaysBefore(year, 11) then 10 else if k < DaysBefore(year, 12) then 11 else 12
  }

  lemma MonthsFollow(year: int, month: int)
    requires 1 <= month <= 12
    ensures DaysBefore(year, month + 1) == DaysBefore(year, month) + MonthLength(year, month)
  {
  }

  /** The date of a day number. */
  function DateOf(n: int): (date: Date)
    ensures OnCalendar(date) && DayNumber(date) == n
  {
    var year := YearFrom(n, 1970);
    var k := n - YearStart(year);
    var month := MonthFrom(year, k);
    MonthsFollow(year, month);
    Date(year, month, k - DaysBefore(year, month) + 1)
  }

  lemma {:induction false} MonthsGrow(year: int, a: int, b: int)
    requires 1 <= a <= b <= 13
    ensures DaysBefore(year, a) + 28 * (b - a) <= DaysBefore(year, b)
    decreases b - a
  {
    hide DaysBefore;
    if a < b {
      MonthsFollow(year, b - 1);
      MonthsGrow(year, a, b - 1);
    }
  }

  /** Day numbers order the dates of one year by month and day, and stay within the year. */
  lemma WithinYear(date: Date)
    requires OnCalendar(date)
    ensures YearStart(date.year) <= DayNumber(date) < YearStart(date.year) + YearLength(date.year)
  {
    hide YearStart;
    MonthsFollow(date.year, date.month);
    MonthsGrow(date.year, date.month + 1, 13);
  }

  lemma SameYear(a: Date, b: Date)
    requires OnCalendar(a) && OnCalendar(b) && DayNumber(a) == DayNumber(b)
    ensures a.year == b.year
  {
    hide YearStart, DaysBefore, DayNumber, Leap;
    WithinYear(a);
    WithinYear(b);
    if a.year < b.year {
      YearsGrow(a.year + 1, b.year);
      YearsFollow(a.year);
    } else if b.year < a.year {
      YearsGrow(b.year + 1, a.year);
      YearsFollow(b.year);
    }
  }

  /** No two dates share a day number. */
  lemma DayNumbersDistinguish(a: Date, b: Date)
    requires OnCalendar(a) && OnCalendar(b)
    ensures DayNumber(a) == DayNumber(b) <==> a == b
  {
    hide YearStart, DaysBefore, Leap;
    if DayNumber(a) == DayNumber(b) {
      SameYear(a, b);
      if a.month < b.month {
        MonthsFollow(a.year, a.month);
        MonthsGrow(a.year, a.month + 1, b.month);
      } else if b.month < a.month {
        MonthsFollow(b.year, b.month);
        MonthsGrow(b.year, b.month + 1, a.month);
      }
    }
  }

  /** Dates and day numbers correspond one to one. */
  lemma DateOfDayNumber(date: Date)
    requires OnCalendar(date)
    ensures DateOf(DayNumber(date)) == date
  {
    DayNumbersDistinguish(DateOf(DayNumber(date)), date);
  }

  /** Counting one up is the calendar's next day, across months, years and leap days alike. */
  lemma NextNumberIsNextDay(n: int)
    ensures DateOf(n + 1) == NextDay(DateOf(n))
  {
    hide YearStart, DaysBefore, Leap, DateOf;
    var date := DateOf(n);
    MonthsFollow(date.year, date.month);
    YearsFollow(date.year);
    YearEdges(date.year);
    assert OnCalendar(NextDay(date)) by { NextOnCalendar(date); }
    assert DayNumber(NextDay(date)) == n + 1;
    DayNumbersDistinguish(DateOf(n + 1), NextDay(date));
  }

  lemma YearEdges(year: int)
    ensures DaysBefore(year, 13) == YearLength(year) && DaysBefore(year, 1) == 0 && DaysBefore(year + 1, 1) == 0
  {
  }

  lemma NextOnCalendar(date: Date)
    requires OnCalendar(date)
    ensures OnCalendar(NextDay(date))
  {
  }

  function Later(date: Date, k: nat): Date {
    if k == 0 then date else NextDay(Later(date, k - 1))
  }

  /** Adding to the day number is walking the calendar day by day. */
  lemma {:induction false} AddingIsWalking(n: int, k: nat)
    ensures DateOf(n + k) == Later(DateOf(n), k)
  {
    hide NextDay, DateOf, DayNumber, OnCalendar;
    if k > 0 {
      AddingIsWalking(n, k - 1);
      NextNumberIsNextDay(n + k - 1);
    }
  }

  /** A date's year starts no earlier than `year` exactly when its number does. */
  lemma YearBound(date: Date, year: int)
    requires OnCalendar(date)
    ensures year <= date.year <==> YearStart(year) <= DayNumber(date)
  {
    hide DayNumber, YearStart;
    WithinYear(date);
    if year <= date.year {
      YearsGrow(year, date.year);
    } else {
      YearsFollow(date.year);
      YearsGrow(date.year + 1, year);
    }
  }

  /** The day numbers of the years 0, 1000 and 10000. */
  lemma YearBounds(date: Date)
    requires OnCalendar(date)
    ensures 0 <= date.year <==> -719_528 <= DayNumber(date)
    ensures 1000 <= date.year <==> -354_285 <= DayNumber(date)
    ensures date.year <= 9999 <==> DayNumber(date) < 2_932_897
  {
    Anchors();
    hide DayNumber, YearStart;
    YearBound(date, 0);
    YearBound(date, 1000);
    YearBound(date, 10000);
  }

  lemma Anchors()
    ensures YearStart(0) == -719_528 && YearStart(1000) == -354_285 && YearStart(1970) == 0 && YearStart(10000) == 2_932_897
  {
  }
}
