/** Comparing instants by their text: when `<` on toISOString agrees with time. */
module TextOrder {
  import opened Gregorian
  import opened DateTexts

  /** `<` on strings. */
  predicate Before(a: string, b: string) {
    if a == [] then b != []
    else b != [] && (a[0] < b[0] || (a[0] == b[0] && Before(a[1..], b[1..])))
  }

  /** It is a total order. */
  lemma {:induction false} BeforeIsTotal(a: string, b: string)
    ensures !(Before(a, b) && Before(b, a))
    ensures !Before(a, b) && !Before(b, a) <==> a == b
  {
    if a != [] && b != [] {
      BeforeIsTotal(a[1..], b[1..]);
      assert a == [a[0]] + a[1..] && b == [b[0]] + b[1..];
    }
  }

  lemma {:induction false} BeforeIsTransitive(a: string, b: string, c: string)
    requires Before(a, b) && Before(b, c)
    ensures Before(a, c)
  {
    if a != [] && a[0] == b[0] == c[0] {
      BeforeIsTransitive(a[1..], b[1..], c[1..]);
    }
  }

  /** Equally long pieces compare piece by piece. */
  lemma {:induction false} PiecesCompare(a: string, b: string, x: string, y: string)
    requires |a| == |b|
    ensures Before(a + x, b + y) <==> Before(a, b) || (a == b && Before(x, y))
  {
    if a == [] {
      assert a + x == x && b + y == y;
    } else {
      assert (a + x)[1..] == a[1..] + x && (b + y)[1..] == b[1..] + y;
      PiecesCompare(a[1..], b[1..], x, y);
      assert a == [a[0]] + a[1..] && b == [b[0]] + b[1..];
    }
  }

  lemma OneChar(c: char, d: char)
    ensures Before([c], [d]) <==> c < d
  {
    assert [c][1..] == [] && [d][1..] == [];
  }

  lemma DigitOrder(m: int, n: int)
    requires 0 <= m <= 9 && 0 <= n <= 9
    ensures (Digit(m) < Digit(n) <==> m < n) && (Digit(m) == Digit(n) <==> m == n)
    ensures Before([Digit(m)], [Digit(n)]) <==> m < n
  {
    OneChar(Digit(m), Digit(n));
  }

  lemma PadOrder(m: int, n: int)
    requires 0 <= m <= 99 && 0 <= n <= 99
    ensures (Before(Pad(m), Pad(n)) <==> m < n) && (Pad(m) == Pad(n) <==> m == n)
  {
    hide Before, Digit;
    DigitOrder(m / 10, n / 10);
    DigitOrder(m % 10, n % 10);
    assert Pad(m) == [Digit(m / 10)] + [Digit(m % 10)] && Pad(n) == [Digit(n / 10)] + [Digit(n % 10)];
    PiecesCompare([Digit(m / 10)], [Digit(n / 10)], [Digit(m % 10)], [Digit(n % 10)]);
  }

  /** Two digits and a rest that is ordered as `r` and `q` are. */
  lemma PadThen(m: int, n: int, x: string, y: string)
    requires 0 <= m <= 99 && 0 <= n <= 99
    ensures Before(Pad(m) + x, Pad(n) + y) <==> m < n || (m == n && Before(x, y))
  {
    hide Before, Pad;
    PadOrder(m, n);
    PiecesCompare(Pad(m), Pad(n), x, y);
  }

  lemma SameChar(c: char, x: string, y: string)
    ensures Before([c] + x, [c] + y) <==> Before(x, y)
  {
    OneChar(c, c);
    PiecesCompare([c], [c], x, y);
  }

  lemma FourOrder(m: int, n: int)
    requires 0 <= m <= 9999 && 0 <= n <= 9999
    ensures (Before(FourDigits(m), FourDigits(n)) <==> m < n) && (FourDigits(m) == FourDigits(n) <==> m == n)
  {
    FourIsTwoPads(m);
    FourIsTwoPads(n);
    hide Before, Pad, FourDigits;
    PadOrder(m / 100, n / 100);
    PadOrder(m % 100, n % 100);
    PiecesCompare(Pad(m / 100), Pad(n / 100), Pad(m % 100), Pad(n % 100));
    assert m == n ==> FourDigits(m) == FourDigits(n);
    if FourDigits(m) == FourDigits(n) {
      assert FourDigits(m)[..2] == Pad(m / 100) && FourDigits(m)[2..] == Pad(m % 100);
      assert FourDigits(n)[..2] == Pad(n / 100) && FourDigits(n)[2..] == Pad(n % 100);
    }
  }

  lemma FourIsTwoPads(n: int)
    requires 0 <= n <= 9999
    ensures FourDigits(n) == Pad(n / 100) + Pad(n % 100)
  {
    FourSplit(n);
    DigitsOf(n / 1000, n / 100 % 10);
    DigitsOf(n / 10 % 10, n % 10);
  }

  lemma MonthDayOrder(m: int, d: int, n: int, e: int)
    requires 0 <= m <= 99 && 0 <= d <= 99 && 0 <= n <= 99 && 0 <= e <= 99
    ensures Before(MonthDay(m, d), MonthDay(n, e)) <==> m < n || (m == n && d < e)
    ensures MonthDay(m, d) == MonthDay(n, e) <==> m == n && d == e
  {
    assert MonthDay(m, d) == ['-'] + (Pad(m) + (['-'] + Pad(d)));
    assert MonthDay(n, e) == ['-'] + (Pad(n) + (['-'] + Pad(e)));
    assert MonthDay(m, d)[1..3] == Pad(m) && MonthDay(m, d)[4..6] == Pad(d);
    assert MonthDay(n, e)[1..3] == Pad(n) && MonthDay(n, e)[4..6] == Pad(e);
    hide Before, Pad, MonthDay;
    PadOrder(m, n);
    PadOrder(d, e);
    SameChar('-', Pad(m) + (['-'] + Pad(d)), Pad(n) + (['-'] + Pad(e)));
    PadThen(m, n, ['-'] + Pad(d), ['-'] + Pad(e));
    SameChar('-', Pad(d), Pad(e));
  }

  predicate Earlier(a: Date, b: Date) {
    a.year < b.year || (a.year == b.year && (a.month < b.month || (a.month == b.month && a.day < b.day)))
  }

  lemma EarlierNumber(a: Date, b: Date)
    requires OnCalendar(a) && OnCalendar(b) && Earlier(a, b)
    ensures DayNumber(a) < DayNumber(b)
  {
    hide YearStart, DaysBefore, Leap;
    if a.year < b.year {
      WithinYear(a);
      WithinYear(b);
      YearsFollow(a.year);
      YearsGrow(a.year + 1, b.year);
    } else if a.month < b.month {
      MonthsFollow(a.year, a.month);
      MonthsGrow(a.year, a.month + 1, b.month);
    }
  }

  /** Day numbers order dates by year, month and day. */
  lemma DateOrder(a: Date, b: Date)
    requires OnCalendar(a) && OnCalendar(b)
    ensures DayNumber(a) < DayNumber(b) <==> Earlier(a, b)
  {
    hide DayNumber, OnCalendar;
    if Earlier(a, b) {
      EarlierNumber(a, b);
    } else if Earlier(b, a) {
      EarlierNumber(b, a);
    } else {
      assert a == b;
    }
  }

  lemma DateTextOrder(a: Date, b: Date)
    requires OnCalendar(a) && OnCalendar(b) && 0 <= a.year <= 9999 && 0 <= b.year <= 9999
    ensures 0 <= a.month <= 99 && 0 <= a.day <= 99 && 0 <= b.month <= 99 && 0 <= b.day <= 99
    ensures Before(DateText(a), DateText(b)) <==> DayNumber(a) < DayNumber(b)
    ensures DateText(a) == DateText(b) <==> a == b
  {
    InMonth(a);
    InMonth(b);
    hide Before, MonthDay, FourDigits, DayNumber, OnCalendar;
    FourOrder(a.year, b.year);
    MonthDayOrder(a.month, a.day, b.month, b.day);
    PiecesCompare(FourDigits(a.year), FourDigits(b.year), MonthDay(a.month, a.day), MonthDay(b.month, b.day));
    DateOrder(a, b);
    assert DateText(a)[..4] == FourDigits(a.year) && DateText(a)[4..] == MonthDay(a.month, a.day);
    assert DateText(b)[..4] == FourDigits(b.year) && DateText(b)[4..] == MonthDay(b.month, b.day);
  }

  function Millis(t: int): (s: string) {
    var ms := TimeOfDay(t) % 1000;
    [Digit(ms / 100)] + Pad(ms % 100) + ['Z']
  }

  lemma ClockPieces(t: int)
    ensures Clock(t) ==
      ['T'] + (Pad(Hour(t)) + ([':'] + (Pad(Minute(t)) + ([':'] + (Pad(Second(t)) + (['.'] + Millis(t)))))))
  {
    hide Hour, Minute, Second, TimeOfDay;
    var ms := TimeOfDay(t) % 1000;
    FourSplit(ms);
    DigitsOf(ms / 10 % 10, ms % 10);
  }

  lemma MillisOrder(t: int, u: int)
    ensures Before(Millis(t), Millis(u)) <==> TimeOfDay(t) % 1000 < TimeOfDay(u) % 1000
  {
    var m, n := TimeOfDay(t) % 1000, TimeOfDay(u) % 1000;
    hide Before, Pad, Digit, TimeOfDay;
    DigitOrder(m / 100, n / 100);
    OneChar('Z', 'Z');
    assert Millis(t) == [Digit(m / 100)] + (Pad(m % 100) + ['Z']);
    assert Millis(u) == [Digit(n / 100)] + (Pad(n % 100) + ['Z']);
    PadThen(m % 100, n % 100, ['Z'], ['Z']);
    PiecesCompare([Digit(m / 100)], [Digit(n / 100)], Pad(m % 100) + ['Z'], Pad(n % 100) + ['Z']);
  }

  lemma ClockOrder(t: int, u: int)
    ensures Before(Clock(t), Clock(u)) <==> TimeOfDay(t) < TimeOfDay(u)
  {
    hide Before, Pad, Clock, Millis, Hour, Minute, Second, TimeOfDay;
    ClockPieces(t);
    ClockPieces(u);
    var s3, v3 := ['.'] + Millis(t), ['.'] + Millis(u);
    var s2, v2 := [':'] + (Pad(Second(t)) + s3), [':'] + (Pad(Second(u)) + v3);
    var s1, v1 := [':'] + (Pad(Minute(t)) + s2), [':'] + (Pad(Minute(u)) + v2);
    MillisOrder(t, u);
    SameChar('.', Millis(t), Millis(u));
    PadThen(Second(t), Second(u), s3, v3);
    SameChar(':', Pad(Second(t)) + s3, Pad(Second(u)) + v3);
    PadThen(Minute(t), Minute(u), s2, v2);
    SameChar(':', Pad(Minute(t)) + s2, Pad(Minute(u)) + v2);
    PadThen(Hour(t), Hour(u), s1, v1);
    SameChar('T', Pad(Hour(t)) + s1, Pad(Hour(u)) + v1);
    ClockAddsUp(t);
    ClockAddsUp(u);
  }

  /** For years 0 to 9999 the later instant has the greater text. */
  lemma IsoOrderIsTimeOrder(t: int, u: int)
    requires FourDigitYear(t) && FourDigitYear(u)
    ensures Before(Iso(t), Iso(u)) <==> t < u
  {
    hide Before, Clock, DateOf, DayNumber, OnCalendar, DateText, Iso, TimeOfDay;
    var a, b := DateOf(t / MS_DAY), DateOf(u / MS_DAY);
    IsoSplits(t);
    IsoSplits(u);
    DateTextOrder(a, b);
    ClockOrder(t, u);
    PiecesCompare(DateText(a), DateText(b), Clock(t), Clock(u));
    DayAndTime(t);
    DayAndTime(u);
    TimeInDay(t);
    TimeInDay(u);
  }

  lemma TimeInDay(t: int)
    ensures 0 <= TimeOfDay(t) < MS_DAY
  {
  }

  /** A year of another width sorts below every four-digit year, also when it is later. */
  lemma LongYearSortsFirst(t: int, u: int)
    requires FourDigitYear(t) && !FourDigitYear(u)
    ensures Before(Iso(u), Iso(t)) && !Before(Iso(t), Iso(u))
  {
    hide DateOf;
    FourDigitYearIff(t);
    FourDigitYearIff(u);
    var date := DateOf(t / MS_DAY);
    assert Iso(u)[0] == '+' || Iso(u)[0] == '-';
    assert IsDigit(Iso(t)[0]) by {
      assert Iso(t)[0] == FourDigits(date.year)[0];
    }
  }

  // ---- Years past 9999 ----

  /** A year of five or six digits as toISOString pads it. */
  function SixDigits(year: int): (s: string)
    requires 10_000 <= year <= 999_999
    ensures |s| == 6
  {
    Pad(year / 10_000) + FourDigits(year % 10_000)
  }

  lemma SixDigitsArePadded(year: int)
    requires 10_000 <= year <= 999_999
    ensures PadLeft(Decimal(year), 6) == SixDigits(year)
  {
    var a, r := year / 10_000, year % 10_000;
    hide Decimal, Pad, FourDigits;
    DecimalOfTens(a, r);
    assert |Decimal(a)| <= 2 && PadLeft(Decimal(a) + FourDigits(r), 6) == Pad(a) + FourDigits(r) by {
      PaddedTens(a, FourDigits(r));
    }
  }

  lemma DecimalOfTens(a: nat, r: nat)
    requires 1 <= a && r <= 9999
    ensures Decimal(10_000 * a + r) == Decimal(a) + FourDigits(r)
  {
    hide Decimal;
    var b, c, d, e := r / 1000, r / 100 % 10, r / 10 % 10, r % 10;
    FourSplit(r);
    assert r == 100 * (r / 100) + r % 100;
    assert 10_000 * a + r == 10 * (10 * (10 * (10 * a + b) + c) + d) + e;
    DecimalAppends(a, b);
    DecimalAppends(10 * a + b, c);
    DecimalAppends(10 * (10 * a + b) + c, d);
    DecimalAppends(10 * (10 * (10 * a + b) + c) + d, e);
  }

  lemma PaddedTens(a: nat, rest: string)
    requires 1 <= a <= 99 && |rest| == 4
    ensures |Decimal(a)| <= 2 && PadLeft(Decimal(a) + rest, 6) == Pad(a) + rest
  {
    if a < 10 {
      assert "0" + (Decimal(a) + rest) == Pad(a) + rest;
    } else {
      assert Decimal(a / 10) == [Digit(a / 10)];
    }
  }

  lemma SixOrder(m: int, n: int)
    requires 10_000 <= m <= 999_999 && 10_000 <= n <= 999_999
    ensures (Before(SixDigits(m), SixDigits(n)) <==> m < n) && (SixDigits(m) == SixDigits(n) <==> m == n)
  {
    var a, b, x, y := m / 10_000, n / 10_000, m % 10_000, n % 10_000;
    hide Before, Pad, FourDigits;
    PadOrder(a, b);
    FourOrder(x, y);
    PiecesCompare(Pad(a), Pad(b), FourDigits(x), FourDigits(y));
    assert SixDigits(m)[..2] == Pad(a) && SixDigits(m)[2..] == FourDigits(x);
    assert SixDigits(n)[..2] == Pad(b) && SixDigits(n)[2..] == FourDigits(y);
  }

  function LongDateText(date: Date): (s: string)
    requires 10_000 <= date.year <= 999_999 && 0 <= date.month <= 99 && 0 <= date.day <= 99
    ensures |s| == 13
  {
    ['+'] + (SixDigits(date.year) + MonthDay(date.month, date.day))
  }

  lemma CutLong(year: string, rest: string)
    requires |year| == 6
    ensures var s := ['+'] + (year + rest); s[1..7] == year && s[7..] == rest
  {
  }

  lemma LongTextsCompare(a: Date, b: Date)
    requires 10_000 <= a.year <= 999_999 && 10_000 <= b.year <= 999_999
    requires 0 <= a.month <= 99 && 0 <= a.day <= 99 && 0 <= b.month <= 99 && 0 <= b.day <= 99
    ensures Before(LongDateText(a), LongDateText(b)) <==> Earlier(a, b)
    ensures LongDateText(a) == LongDateText(b) ==> a == b
  {
    hide Before, MonthDay, SixDigits;
    var x, y := SixDigits(a.year), SixDigits(b.year);
    var p, q := MonthDay(a.month, a.day), MonthDay(b.month, b.day);
    SixOrder(a.year, b.year);
    MonthDayOrder(a.month, a.day, b.month, b.day);
    PiecesCompare(x, y, p, q);
    SameChar('+', x + p, y + q);
    CutLong(x, p);
    CutLong(y, q);
  }

  lemma LongDateTextOrder(a: Date, b: Date)
    requires OnCalendar(a) && OnCalendar(b) && 10_000 <= a.year <= 999_999 && 10_000 <= b.year <= 999_999
    ensures 0 <= a.month <= 99 && 0 <= a.day <= 99 && 0 <= b.month <= 99 && 0 <= b.day <= 99
    ensures Before(LongDateText(a), LongDateText(b)) <==> DayNumber(a) < DayNumber(b)
    ensures LongDateText(a) == LongDateText(b) <==> a == b
  {
    hide Before, LongDateText, DayNumber, OnCalendar, Earlier;
    InMonth(a);
    InMonth(b);
    LongTextsCompare(a, b);
    DateOrder(a, b);
  }

  lemma LongIsoSplits(t: int)
    requires 2_932_897 <= t / MS_DAY && InRange(t)
    ensures var date := DateOf(t / MS_DAY);
      && 10_000 <= date.year <= 999_999 && 0 <= date.month <= 99 && 0 <= date.day <= 99
      && Iso(t) == LongDateText(date) + Clock(t)
  {
    var date := DateOf(t / MS_DAY);
    assert YearStart(1_000_000) > 100_000_000;
    hide DateOf, DayNumber, Clock, MonthDay, Decimal, YearStart, SixDigits;
    YearBounds(date);
    YearBound(date, 1_000_000);
    InMonth(date);
    SixDigitsArePadded(date.year);
  }

  /** Past the year 9999, up to the last time value, the later instant has the greater text as well. */
  lemma LongIsoOrderIsTimeOrder(t: int, u: int)
    requires 2_932_897 <= t / MS_DAY && 2_932_897 <= u / MS_DAY && InRange(t) && InRange(u)
    ensures Before(Iso(t), Iso(u)) <==> t < u
  {
    hide Before, Clock, DateOf, DayNumber, OnCalendar, LongDateText, Iso, TimeOfDay, InRange;
    var a, b := DateOf(t / MS_DAY), DateOf(u / MS_DAY);
    LongIsoSplits(t);
    LongIsoSplits(u);
    LongDateTextOrder(a, b);
    ClockOrder(t, u);
    PiecesCompare(LongDateText(a), LongDateText(b), Clock(t), Clock(u));
    DayAndTime(t);
    DayAndTime(u);
    TimeInDay(t);
    TimeInDay(u);
  }
}
