/** Dates and instants as text: fixed-width ISO 8601 forms, and the unpadded year of String(n). */
module DateTexts {
  import opened Gregorian
  import opened Lists

  const MS_DAY := 86_400_000

  function Digit(n: int): char
    requires 0 <= n <= 9
  {
    (n + 48) as char
  }

  lemma DigitReads(n: int)
    requires 0 <= n <= 9
    ensures IsDigit(Digit(n)) && Value(Digit(n)) == n
  {
  }

  predicate IsDigit(c: char) { '0' <= c <= '9' }

  function Value(c: char): (n: int)
    ensures IsDigit(c) ==> 0 <= n <= 9 && Digit(n) == c
  {
    c as int - 48
  }

  predicate TwoDigits(s: string, i: nat) {
    i + 2 <= |s| && IsDigit(s[i]) && IsDigit(s[i + 1])
  }

  function Two(s: string, i: nat): (n: int)
    requires TwoDigits(s, i)
    ensures 0 <= n <= 99
  {
    10 * Value(s[i]) + Value(s[i + 1])
  }

  /** The text begins with dddd-dd-dd. */
  predicate DatePrefix(s: string) {
    |s| >= 10 && TwoDigits(s, 0) && TwoDigits(s, 2) && s[4] == '-' && TwoDigits(s, 5) && s[7] == '-' && TwoDigits(s, 8)
  }

  function ReadDate(s: string): (date: Date)
    requires DatePrefix(s)
    ensures 0 <= date.year <= 9999 && 0 <= date.month <= 99 && 0 <= date.day <= 99
  {
    Date(100 * Two(s, 0) + Two(s, 2), Two(s, 5), Two(s, 8))
  }

  /** A number padded to two digits. */
  function Pad(n: int): (s: string)
    requires 0 <= n <= 99
    ensures |s| == 2 && TwoDigits(s, 0) && Two(s, 0) == n
  {
    [Digit(n / 10), Digit(n % 10)]
  }

  function MonthDay(month: int, day: int): (s: string)
    requires 0 <= month <= 99 && 0 <= day <= 99
    ensures |s| == 6
  {
    ['-', Digit(month / 10), Digit(month % 10), '-', Digit(day / 10), Digit(day % 10)]
  }

  function FourDigits(n: int): (s: string)
    requires 0 <= n <= 9999
    ensures |s| == 4
  {
    [Digit(n / 1000), Digit(n / 100 % 10), Digit(n / 10 % 10), Digit(n % 10)]
  }

  /** yyyy-mm-dd with the year padded to four digits. */
  function DateText(date: Date): (s: string)
    requires 0 <= date.year <= 9999 && 0 <= date.month <= 99 && 0 <= date.day <= 99
    ensures |s| == 10
  {
    FourDigits(date.year) + MonthDay(date.month, date.day)
  }

  lemma FourSplit(n: int)
    requires 0 <= n <= 9999
    ensures 10 * (n / 1000) + n / 100 % 10 == n / 100
    ensures 10 * (n / 10 % 10) + n % 10 == n % 100
  {
  }

  lemma FourDigitsRead(n: int)
    requires 0 <= n <= 9999
    ensures var s := FourDigits(n); TwoDigits(s, 0) && TwoDigits(s, 2) && 100 * Two(s, 0) + Two(s, 2) == n
  {
    hide Digit, IsDigit, Value;
    DigitReads(n / 1000);
    DigitReads(n / 100 % 10);
    DigitReads(n / 10 % 10);
    DigitReads(n % 10);
    FourSplit(n);
  }

  /** Reading takes back what was written, whatever follows it. */
  lemma ReadsBack(date: Date, rest: string)
    requires 0 <= date.year <= 9999 && 0 <= date.month <= 99 && 0 <= date.day <= 99
    ensures DatePrefix(DateText(date) + rest) && ReadDate(DateText(date) + rest) == date
  {
    var s, y := DateText(date) + rest, FourDigits(date.year);
    FourDigitsRead(date.year);
    assert s[0] == y[0] && s[1] == y[1] && s[2] == y[2] && s[3] == y[3];
    assert s[4] == s[7] == '-';
    assert Two(s, 5) == date.month && Two(s, 8) == date.day;
  }

  lemma DigitsOf(a: int, b: int)
    requires 0 <= a <= 9 && 0 <= b <= 9
    ensures (10 * a + b) / 10 == a && (10 * a + b) % 10 == b
  {
  }

  /** And writing takes back what was read. */
  lemma WritesBack(s: string)
    requires DatePrefix(s)
    ensures DateText(ReadDate(s)) == s[..10]
  {
    DigitsOf(Value(s[5]), Value(s[6]));
    DigitsOf(Value(s[8]), Value(s[9]));
    YearDigits(Value(s[0]), Value(s[1]), Value(s[2]), Value(s[3]));
  }

  lemma YearDigits(a: int, b: int, c: int, d: int)
    requires 0 <= a <= 9 && 0 <= b <= 9 && 0 <= c <= 9 && 0 <= d <= 9
    ensures var n := 100 * (10 * a + b) + (10 * c + d);
            n / 1000 == a && n / 100 % 10 == b && n / 10 % 10 == c && n % 10 == d
  {
    ByThousand(a, 100 * b + 10 * c + d);
    ByHundred(10 * a + b, 10 * c + d);
    ByTen(100 * a + 10 * b + c, d);
    ByTen(a, b);
    ByTen(10 * a + b, c);
  }

  lemma ByThousand(q: nat, r: nat)
    requires r < 1000
    ensures (1000 * q + r) / 1000 == q
  {
  }

  lemma ByHundred(q: nat, r: nat)
    requires r < 100
    ensures (100 * q + r) / 100 == q
  {
  }

  lemma ByTen(q: nat, r: nat)
    requires r < 10
    ensures (10 * q + r) / 10 == q && (10 * q + r) % 10 == r
  {
  }

  // ---- String(n) ----

  function Decimal(n: nat): (s: string)
    ensures |s| >= 1 && forall i :: 0 <= i < |s| ==> IsDigit(s[i])
  {
    if n < 10 then [Digit(n)] else Decimal(n / 10) + [Digit(n % 10)]
  }

  lemma {:induction false} DecimalWidth(n: nat)
    ensures n <= 9 <==> |Decimal(n)| == 1
    ensures n <= 99 <==> |Decimal(n)| <= 2
    ensures n <= 999 <==> |Decimal(n)| <= 3
    ensures n <= 9999 <==> |Decimal(n)| <= 4
  {
    if n >= 10 {
      DecimalWidth(n / 10);
    }
  }

  lemma DecimalOfFour(n: nat)
    requires 1000 <= n <= 9999
    ensures Decimal(n) == FourDigits(n)
  {
    assert Decimal(n / 1000) == [Digit(n / 1000)];
    assert Decimal(n / 100) == Decimal(n / 1000) + [Digit(n / 100 % 10)];
    assert Decimal(n / 10) == Decimal(n / 100) + [Digit(n / 10 % 10)];
  }

  lemma DecimalAppends(q: nat, d: nat)
    requires 1 <= q && d <= 9
    ensures Decimal(10 * q + d) == Decimal(q) + [Digit(d)]
  {
  }

  function YearText(year: int): string {
    if year < 0 then "-" + Decimal(-year) else Decimal(year)
  }

  /** A date whose year is written unpadded reads as a date exactly for four-digit years. */
  lemma PlainYearReads(date: Date, rest: string)
    requires 0 <= date.month <= 99 && 0 <= date.day <= 99
    ensures DatePrefix(YearText(date.year) + MonthDay(date.month, date.day) + rest) <==> 1000 <= date.year <= 9999
    ensures 1000 <= date.year <= 9999 ==> YearText(date.year) + MonthDay(date.month, date.day) == DateText(date)
  {
    var year, tail := YearText(date.year), MonthDay(date.month, date.day);
    var s := year + tail + rest;
    if 1000 <= date.year <= 9999 {
      DecimalOfFour(date.year);
      assert s == DateText(date) + rest;
      ReadsBack(date, rest);
    } else if date.year < 0 {
      assert s[0] == '-';
    } else {
      DecimalWidth(date.year);
      if date.year < 1000 {
        assert s[|year|] == '-' && |year| < 4;
      } else {
        assert s[4] == year[4];
      }
    }
  }

  // ---- Instants ----

  /** A time value is at most this far from 1970: "Time Values and Time Range" of ECMA-262. */
  const TIME_LIMIT := 8_640_000_000_000_000

  predicate InRange(t: int) { -TIME_LIMIT <= t <= TIME_LIMIT }

  function TimeOfDay(t: int): int { t % MS_DAY }
  function Hour(t: int): (h: int)
    ensures 0 <= h <= 23
  {
    TimeOfDay(t) / 3_600_000
  }
  function Minute(t: int): (m: int)
    ensures 0 <= m <= 59
  {
    TimeOfDay(t) / 60_000 % 60
  }
  function Second(t: int): (s: int)
    ensures 0 <= s <= 59
  {
    TimeOfDay(t) / 1000 % 60
  }

  function PadLeft(s: string, width: nat): string
    decreases width - |s|
  {
    if |s| < width then PadLeft("0" + s, width) else s
  }

  /** The year of toISOString: four digits, or a sign and six. */
  function IsoYear(year: int): string {
    if 0 <= year <= 9999 then FourDigits(year)
    else if year < 0 then "-" + PadLeft(Decimal(-year), 6)
    else "+" + PadLeft(Decimal(year), 6)
  }

  function Clock(t: int): (s: string)
    ensures |s| == 14
  {
    var h, m, sec, ms := Hour(t), Minute(t), Second(t), TimeOfDay(t) % 1000;
    ['T', Digit(h / 10), Digit(h % 10), ':', Digit(m / 10), Digit(m % 10), ':', Digit(sec / 10), Digit(sec % 10), '.',
     Digit(ms / 100), Digit(ms / 10 % 10), Digit(ms % 10), 'Z']
  }

  /** toISOString. */
  function Iso(t: int): string {
    var date := DateOf(t / MS_DAY);
    IsoYear(date.year) + MonthDay(date.month, date.day) + Clock(t)
  }

  /** From the first instant of year 0 to the last of year 9999. */
  predicate FourDigitYear(t: int) {
    -719_528 <= t / MS_DAY < 2_932_897
  }

  lemma FourDigitYearIff(t: int)
    ensures FourDigitYear(t) <==> 0 <= DateOf(t / MS_DAY).year <= 9999
  {
    hide DateOf, DayNumber;
    YearBounds(DateOf(t / MS_DAY));
  }

  predicate ClockForm(s: string, i: nat) {
    |s| == i + 14 && s[i] == 'T' && TwoDigits(s, i + 1) && s[i + 3] == ':' && TwoDigits(s, i + 4) && s[i + 6] == ':'
    && TwoDigits(s, i + 7) && s[i + 9] == '.' && TwoDigits(s, i + 10) && IsDigit(s[i + 12]) && s[i + 13] == 'Z'
  }

  function ReadClock(s: string, i: nat): int
    requires ClockForm(s, i)
  {
    3_600_000 * Two(s, i + 1) + 60_000 * Two(s, i + 4) + 1000 * Two(s, i + 7) + 10 * Two(s, i + 10) + Value(s[i + 12])
  }

  /** The instant of a text in exactly the form toISOString gives four-digit years. */
  function FromIso(s: string): Option<int> {
    if |s| == 24 && DatePrefix(s) && ClockForm(s, 10) && OnCalendar(ReadDate(s))
       && Two(s, 11) <= 23 && Two(s, 14) <= 59 && Two(s, 17) <= 59
    then Some(DayNumber(ReadDate(s)) * MS_DAY + ReadClock(s, 10))
    else None
  }

  lemma ClockReads(t: int)
    ensures ClockForm(Clock(t), 0)
    ensures Two(Clock(t), 1) == Hour(t) && Two(Clock(t), 4) == Minute(t) && Two(Clock(t), 7) == Second(t)
    ensures 10 * Two(Clock(t), 10) + Value(Clock(t)[12]) == TimeOfDay(t) % 1000
  {
    hide Digit, IsDigit, Value, Hour, Minute, Second, TimeOfDay;
    PairReads(Hour(t));
    PairReads(Minute(t));
    PairReads(Second(t));
    MillisRead(TimeOfDay(t) % 1000);
  }

  lemma PairReads(n: int)
    requires 0 <= n <= 99
    ensures IsDigit(Digit(n / 10)) && IsDigit(Digit(n % 10)) && 10 * Value(Digit(n / 10)) + Value(Digit(n % 10)) == n
  {
    hide Digit, IsDigit, Value;
    DigitReads(n / 10);
    DigitReads(n % 10);
  }

  lemma MillisRead(n: int)
    requires 0 <= n <= 999
    ensures IsDigit(Digit(n / 100)) && IsDigit(Digit(n / 10 % 10)) && IsDigit(Digit(n % 10))
    ensures 10 * (10 * Value(Digit(n / 100)) + Value(Digit(n / 10 % 10))) + Value(Digit(n % 10)) == n
  {
    hide Digit, IsDigit, Value;
    DigitReads(n / 100);
    DigitReads(n / 10 % 10);
    DigitReads(n % 10);
  }

  /** Hour, minute, second and millisecond make up the time of day. */
  lemma ClockAddsUp(t: int)
    ensures 3_600_000 * Hour(t) + 60_000 * Minute(t) + 1000 * Second(t) + TimeOfDay(t) % 1000 == TimeOfDay(t)
  {
    var x := TimeOfDay(t);
    assert x / 60_000 == 60 * (x / 3_600_000) + x / 60_000 % 60;
    assert x / 1000 == 60 * (x / 60_000) + x / 1000 % 60;
  }

  lemma ClockReadsAfter(date: string, t: int)
    requires |date| == 10
    ensures var s := date + Clock(t);
            ClockForm(s, 10) && ReadClock(s, 10) == TimeOfDay(t)
            && Two(s, 11) == Hour(t) && Two(s, 14) == Minute(t) && Two(s, 17) == Second(t)
  {
    var s, c := date + Clock(t), Clock(t);
    hide Clock, Hour, Minute, Second, TimeOfDay, Value, IsDigit;
    ClockReads(t);
    ClockAddsUp(t);
    assert forall k :: 0 <= k < 14 ==> s[10 + k] == c[k];
    assert s[10] == c[0] && s[11] == c[1] && s[12] == c[2] && s[13] == c[3] && s[14] == c[4] && s[15] == c[5] && s[16] == c[6];
    assert s[17] == c[7] && s[18] == c[8] && s[19] == c[9] && s[20] == c[10] && s[21] == c[11] && s[22] == c[12] && s[23] == c[13];
  }

  lemma IsoSplits(t: int)
    requires FourDigitYear(t)
    ensures 0 <= DateOf(t / MS_DAY).year <= 9999
    ensures Iso(t) == DateText(DateOf(t / MS_DAY)) + Clock(t)
  {
    hide Clock, DateOf, MonthDay, FourDigits;
    FourDigitYearIff(t);
  }

  /** Reading an instant's text gives the instant back. */
  lemma IsoRoundTrip(t: int)
    requires FourDigitYear(t)
    ensures |Iso(t)| == 24 && FromIso(Iso(t)) == Some(t)
  {
    hide Clock, ReadClock, Hour, Minute, Second, TimeOfDay, DateOf, DayNumber, DateText, ReadDate, DatePrefix, ClockForm,
      OnCalendar, TwoDigits, Two, IsDigit, Iso;
    var date := DateOf(t / MS_DAY);
    IsoSplits(t);
    InMonth(date);
    ReadsBack(date, Clock(t));
    ClockReadsAfter(DateText(date), t);
    assert t == t / MS_DAY * MS_DAY + TimeOfDay(t) by { DayAndTime(t); }
  }

  lemma InMonth(date: Date)
    requires OnCalendar(date)
    ensures 1 <= date.month <= 12 && 1 <= date.day <= 31
  {
  }

  lemma DayAndTime(t: int)
    ensures t == t / MS_DAY * MS_DAY + TimeOfDay(t)
  {
  }

  /** Years beyond four digits are not read as dates. */
  lemma LongYearUnread(t: int)
    requires !FourDigitYear(t)
    ensures Iso(t) != [] && !DatePrefix(Iso(t))
  {
    hide DateOf;
    FourDigitYearIff(t);
    assert Iso(t)[0] == '+' || Iso(t)[0] == '-';
  }
}
