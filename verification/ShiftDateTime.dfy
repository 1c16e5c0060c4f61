/** Moving a typed or stored date by whole days, on the text of the cell, in a zone of fixed offset. */
module ShiftDateTime {
  import opened Lists
  import opened Gregorian
  import opened DateTexts

  /** Null is the source's null; the range error is thrown by toISOString. */
  datatype Outcome = Null | Text(text: string) | RangeError

  // ---- The Date object ----

  /** MakeDay of ECMA-262: months and days may overflow. */
  function MakeDay(year: int, month0: int, day: int): int {
    DayNumber(Date(year + month0 / 12, month0 % 12 + 1, 1)) + day - 1
  }

  /** The local time in milliseconds of `new Date(y, month0, d, h, mi)`, where years 0 to 99 mean 1900 to 1999. */
  function LocalTime(year: int, month0: int, day: int, h: int, mi: int): int {
    MakeDay(if 0 <= year <= 99 then 1900 + year else year, month0, day) * MS_DAY + 3_600_000 * h + 60_000 * mi
  }

  function DayOfMonth(t: int): int { DateOf(t / MS_DAY).day }

  /** setDate and setUTCDate. */
  function SetDate(t: int, day: int): int {
    var date := DateOf(t / MS_DAY);
    MakeDay(date.year, date.month - 1, day) * MS_DAY + TimeOfDay(t)
  }

  // ---- The forms of a value ----

  predicate DateOnly(s: string) { DatePrefix(s) && |s| == 10 }

  predicate HourMinute(s: string) {
    DatePrefix(s) && |s| >= 16 && s[10] == 'T' && TwoDigits(s, 11) && s[13] == ':' && TwoDigits(s, 14)
  }

  predicate MinuteForm(s: string) { HourMinute(s) && |s| == 16 }

  /** A minute form that may go on with seconds and up to three decimals. */
  predicate SecondsForm(s: string) {
    HourMinute(s) &&
    (|s| == 16 ||
     (|s| >= 19 && s[16] == ':' && TwoDigits(s, 17) &&
      (|s| == 19 || (21 <= |s| <= 23 && s[19] == '.' && forall i :: 20 <= i < |s| ==> IsDigit(s[i])))))
  }

  predicate IsSpace(c: char) {
    '\t' <= c <= '\r' || c == ' ' || c == '\U{00A0}' || c == '\U{1680}' || '\U{2000}' <= c <= '\U{200A}'
    || c == '\U{2028}' || c == '\U{2029}' || c == '\U{202F}' || c == '\U{205F}' || c == '\U{3000}' || c == '\U{FEFF}'
  }

  function TrimEnd(s: string): string {
    if s != [] && IsSpace(s[|s| - 1]) then TrimEnd(s[..|s| - 1]) else s
  }

  /** Ends with Z or a numeric offset. */
  predicate HasZone(s: string) {
    var n := |s|;
    || (n >= 1 && (s[n - 1] == 'Z' || s[n - 1] == 'z'))
    || (n >= 5 && (s[n - 5] == '+' || s[n - 5] == '-') && TwoDigits(s, n - 4) && TwoDigits(s, n - 2))
    || (n >= 6 && (s[n - 6] == '+' || s[n - 6] == '-') && TwoDigits(s, n - 5) && s[n - 3] == ':' && TwoDigits(s, n - 2))
  }

  // ---- The function ----

  function PlainDate(date: Date): string
    requires 0 <= date.month <= 99 && 0 <= date.day <= 99
  {
    YearText(date.year) + MonthDay(date.month, date.day)
  }

  function HourMinuteText(t: int): (s: string)
    ensures |s| == 6
  {
    ['T', Digit(Hour(t) / 10), Digit(Hour(t) % 10), ':', Digit(Minute(t) / 10), Digit(Minute(t) % 10)]
  }

  /** What the local getters print; outside the range of time values they give NaN. */
  function LocalText(t: int, timed: bool, offset: int): string {
    var date := DateOf(t / MS_DAY);
    if InRange(t - offset) then PlainDate(date) + if timed then HourMinuteText(t) else ""
    else if timed then "NaN-NaN-NaNTNaN:NaN" else "NaN-NaN-NaN"
  }

  function ShiftLocal(date: Date, h: int, mi: int, timed: bool, strict: bool, n: int, offset: int): Outcome {
    var t := LocalTime(date.year, date.month - 1, date.day, h, mi);
    if !InRange(t - offset) || DateOf(t / MS_DAY) != date || (strict && (Hour(t) != h || Minute(t) != mi)) then Null
    else Text(LocalText(SetDate(t, DayOfMonth(t) + n), timed, offset))
  }

  /** `parse` is the engine's reading of a date text, `offset` the zone's milliseconds ahead of UTC. */
  function Shift(value: string, days: real, offset: int, parse: string -> Option<int>): Outcome {
    if days.Floor as real != days then Null else ShiftBy(value, days.Floor, offset, parse)
  }

  function ShiftBy(value: string, n: int, offset: int, parse: string -> Option<int>): Outcome {
    if DateOnly(value) then ShiftLocal(ReadDate(value), 0, 0, false, false, n, offset)
    else if MinuteForm(value) then ShiftLocal(ReadDate(value), Two(value, 11), Two(value, 14), true, true, n, offset)
    else if !(DatePrefix(value) && |value| > 10 && value[10] == 'T') || parse(value).None? then Null
    else if HasZone(TrimEnd(value)) then
      var t := parse(value).value;
      var u := SetDate(t, DayOfMonth(t) + n);
      if InRange(u) then Text(Iso(u)) else RangeError
    else if SecondsForm(value) then ShiftLocal(ReadDate(value), Two(value, 11), Two(value, 14), true, false, n, offset)
    else Null
  }

  /** A day count that is not whole is refused whatever the value; a whole one shifts by that many days. */
  lemma WholeDaysOnly(value: string, days: real, n: int, offset: int, parse: string -> Option<int>)
    ensures days.Floor as real != days ==> Shift(value, days, offset, parse) == Null
    ensures Shift(value, n as real, offset, parse) == ShiftBy(value, n, offset, parse)
  {
    hide ShiftBy;
  }

  // ---- Moving by days ----

  /** Setting the day of the month past its end moves the instant by whole days. */
  lemma SetDateMoves(t: int, n: int)
    ensures SetDate(t, DayOfMonth(t) + n) == t + n * MS_DAY
  {
    hide DateOf, YearStart, DaysBefore;
    DayAndTime(t);
  }

  predicate Accepted(date: Date) {
    OnCalendar(date) && date.year >= 100
  }

  predicate ZoneOffset(offset: int) { -MS_DAY < offset < MS_DAY }

  lemma TimeParts(day: int, h: int, mi: int)
    requires 0 <= h <= 23 && 0 <= mi <= 59
    ensures var t := day * MS_DAY + 3_600_000 * h + 60_000 * mi;
            t / MS_DAY == day && TimeOfDay(t) == 3_600_000 * h + 60_000 * mi && Hour(t) == h && Minute(t) == mi
  {
    var r := 3_600_000 * h + 60_000 * mi;
    var t := day * MS_DAY + r;
    assert t == day * MS_DAY + r && 0 <= r < MS_DAY;
    assert t / MS_DAY == day && t % MS_DAY == r;
    MinuteParts(h, mi);
  }

  lemma MinuteParts(h: int, mi: int)
    requires 0 <= h <= 23 && 0 <= mi <= 59
    ensures var r := 3_600_000 * h + 60_000 * mi; r / 3_600_000 == h && r / 60_000 % 60 == mi
  {
    var r := 3_600_000 * h + 60_000 * mi;
    assert r / 60_000 == 60 * h + mi;
  }

  lemma FirstDay(year: int, month: int)
    ensures DaysBefore(year, 1) == 0 && DayNumber(Date(year, month, 1)) == YearStart(year) + DaysBefore(year, month)
  {
    hide YearStart;
  }

  lemma FirstOfMonth(date: Date)
    requires 1 <= date.month <= 12
    ensures MakeDay(date.year, date.month - 1, date.day) == DayNumber(date)
  {
    hide YearStart, DaysBefore;
    assert (date.month - 1) / 12 == 0 && (date.month - 1) % 12 == date.month - 1;
    FirstDay(date.year, date.month);
  }

  lemma EarlyYearsJump(date: Date, day: int)
    requires OnCalendar(date) && 0 <= date.year <= 99
    ensures MakeDay(1900 + date.year, date.month - 1, date.day) > DayNumber(date)
  {
    hide YearStart, DaysBefore, OnCalendar;
    InMonth(date);
    FirstOfMonth(Date(1900 + date.year, date.month, date.day));
    WithinYear(date);
    YearsGrow(date.year, 1900 + date.year);
    DaysNonNegative(1900 + date.year, date.month);
  }

  lemma DaysNonNegative(year: int, month: int)
    ensures DaysBefore(year, month) >= 0
  {
  }

  /** The Date object read back equals the numbers given exactly for real dates of year 100 on. */
  lemma RealDatesPass(date: Date, h: int, mi: int, offset: int)
    requires 0 <= date.year <= 9999 && 0 <= h <= 23 && 0 <= mi <= 59 && ZoneOffset(offset)
    ensures var t := LocalTime(date.year, date.month - 1, date.day, h, mi);
      && (InRange(t - offset) && DateOf(t / MS_DAY) == date <==> Accepted(date))
      && (Accepted(date) ==> t == DayNumber(date) * MS_DAY + 3_600_000 * h + 60_000 * mi && Hour(t) == h && Minute(t) == mi)
  {
    hide YearStart, DaysBefore, MakeDay, DateOf, DayNumber, OnCalendar, Hour, Minute, TimeOfDay;
    var t := LocalTime(date.year, date.month - 1, date.day, h, mi);
    var year := if date.year <= 99 then 1900 + date.year else date.year;
    TimeParts(MakeDay(year, date.month - 1, date.day), h, mi);
    if OnCalendar(date) {
      InMonth(date);
      FirstOfMonth(date);
      YearBounds(date);
      DateOfDayNumber(date);
      if date.year <= 99 {
        EarlyYearsJump(date, date.day);
      }
    }
  }

  predicate Local(value: string) { DateOnly(value) || MinuteForm(value) }

  /** A local value whose date and time exist. */
  predicate Exists(value: string)
    requires Local(value)
  {
    Accepted(ReadDate(value)) && (MinuteForm(value) ==> Two(value, 11) <= 23 && Two(value, 14) <= 59)
  }

  /** Its time of day in milliseconds. */
  function TimeIn(value: string): (time: int)
    requires Local(value)
  {
    if MinuteForm(value) then 3_600_000 * Two(value, 11) + 60_000 * Two(value, 14) else 0
  }

  /** The value's date `n` days later, in front of the value's own time. */
  function Moved(value: string, n: int, offset: int): string
    requires Local(value)
  {
    var k := DayNumber(ReadDate(value)) + n;
    if InRange(k * MS_DAY + TimeIn(value) - offset) then PlainDate(DateOf(k)) + value[10..]
    else if MinuteForm(value) then "NaN-NaN-NaNTNaN:NaN" else "NaN-NaN-NaN"
  }

  lemma TimeKept(value: string, t: int)
    requires MinuteForm(value) && Hour(t) == Two(value, 11) && Minute(t) == Two(value, 14)
    ensures HourMinuteText(t) == value[10..]
  {
    hide Hour, Minute;
    DigitsOf(Value(value[11]), Value(value[12]));
    DigitsOf(Value(value[14]), Value(value[15]));
  }

  lemma MovedTime(value: string, n: int, offset: int)
    requires Local(value) && Exists(value)
    ensures var h, mi := if MinuteForm(value) then Two(value, 11) else 0, if MinuteForm(value) then Two(value, 14) else 0;
      var t := DayNumber(ReadDate(value)) * MS_DAY + 3_600_000 * h + 60_000 * mi;
      LocalText(t + n * MS_DAY, MinuteForm(value), offset) == Moved(value, n, offset)
  {
    hide DateOf, DayNumber, PlainDate, ReadDate, Accepted, InRange, Hour, Minute, HourMinuteText, TimeOfDay;
    var h, mi := if MinuteForm(value) then Two(value, 11) else 0, if MinuteForm(value) then Two(value, 14) else 0;
    var k := DayNumber(ReadDate(value));
    var t := (k + n) * MS_DAY + 3_600_000 * h + 60_000 * mi;
    assert t == k * MS_DAY + 3_600_000 * h + 60_000 * mi + n * MS_DAY;
    TimeParts(k + n, h, mi);
    if MinuteForm(value) {
      TimeKept(value, t);
    } else {
      assert value[10..] == "";
    }
  }

  /** A date or minute value is refused unless its date and time exist, from year 100 on;
      otherwise its date moves on the calendar and its time stays. */
  lemma LocalShift(value: string, n: int, offset: int, parse: string -> Option<int>)
    requires Local(value) && ZoneOffset(offset)
    ensures ShiftBy(value, n, offset, parse) == if Exists(value) then Text(Moved(value, n, offset)) else Null
  {
    hide LocalTime, DateOf, DayNumber, Accepted, LocalText, Moved, InRange, SetDate, DayOfMonth, ZoneOffset, Minute, Hour,
      TwoDigits, Two, ReadDate, DatePrefix;
    var date := ReadDate(value);
    var timed := MinuteForm(value);
    var h, mi := if timed then Two(value, 11) else 0, if timed then Two(value, 14) else 0;
    var t := LocalTime(date.year, date.month - 1, date.day, h, mi);
    assert ShiftBy(value, n, offset, parse) == ShiftLocal(date, h, mi, timed, timed, n, offset);
    if h <= 23 && mi <= 59 {
      RealDatesPass(date, h, mi, offset);
      if Accepted(date) {
        SetDateMoves(t, n);
        MovedTime(value, n, offset);
      }
    } else {
      assert Hour(t) != h || Minute(t) != mi;
    }
  }

  lemma NoDateRefused(value: string, n: int, offset: int, parse: string -> Option<int>)
    requires !DatePrefix(value)
    ensures ShiftBy(value, n, offset, parse) == Null
  {
    hide DatePrefix;
  }

  predicate FourDigit(date: Date) { 1000 <= date.year <= 9999 }

  /** The value moved by `n` days, as far as its date goes. */
  function DateAfter(value: string, n: int): Date
    requires DatePrefix(value)
  {
    DateOf(DayNumber(ReadDate(value)) + n)
  }

  lemma FourDigitInRange(k: int, time: int, offset: int)
    requires FourDigit(DateOf(k)) && ZoneOffset(offset) && 0 <= time < MS_DAY
    ensures InRange(k * MS_DAY + time - offset)
  {
    hide DateOf;
    YearBounds(DateOf(k));
  }

  /** A moved value is a value again exactly when its year has four digits. */
  lemma MovedReads(value: string, n: int, offset: int)
    requires Local(value) && Exists(value) && ZoneOffset(offset)
    ensures var w := Moved(value, n, offset);
      if FourDigit(DateAfter(value, n)) then
        && Local(w) && Exists(w) && (MinuteForm(w) <==> MinuteForm(value)) && |w| == |value|
        && w[10..] == value[10..] && ReadDate(w) == DateAfter(value, n)
      else !DatePrefix(w)
  {
    hide DateOf, DayNumber, OnCalendar, PlainDate, DateText, ReadDate, DatePrefix, YearText, MonthDay, InRange,
      TwoDigits, Two, ZoneOffset;
    var k := DayNumber(ReadDate(value)) + n;
    var date := DateOf(k);
    var w := Moved(value, n, offset);
    InMonth(date);
    PlainYear(date, value[10..]);
    var time := TimeIn(value);
    if FourDigit(date) {
      FourDigitInRange(k, time, offset);
      assert w == PlainDate(date) + value[10..];
      SameTail(w, value);
    } else if !InRange(k * MS_DAY + time - offset) {
      NotANumber(w);
    }
  }

  lemma NotANumber(w: string)
    requires w != [] && w[0] == 'N'
    ensures !DatePrefix(w)
  {
  }

  lemma PlainYear(date: Date, rest: string)
    requires 0 <= date.month <= 99 && 0 <= date.day <= 99
    ensures DatePrefix(PlainDate(date) + rest) <==> FourDigit(date)
    ensures FourDigit(date) ==>
      |PlainDate(date)| == 10 && ReadDate(PlainDate(date) + rest) == date && (PlainDate(date) + rest)[10..] == rest
  {
    hide DatePrefix, ReadDate, YearText, MonthDay;
    PlainYearReads(date, rest);
    if FourDigit(date) {
      PlainYearReads(date, "");
      ReadsBack(date, rest);
    }
  }

  lemma SameTail(w: string, value: string)
    requires DatePrefix(w) && Local(value) && |w| == |value| && w[10..] == value[10..]
    ensures Local(w) && (MinuteForm(w) <==> MinuteForm(value))
    ensures MinuteForm(value) ==> Two(w, 11) == Two(value, 11) && Two(w, 14) == Two(value, 14)
  {
    assert forall i :: 10 <= i < |w| ==> w[i] == w[10..][i - 10] && value[i] == value[10..][i - 10];
  }

  lemma HasDate(value: string)
    requires Local(value)
    ensures DatePrefix(value)
  {
  }

  lemma MovedTwice(value: string, a: int, b: int, offset: int)
    requires Local(value) && Exists(value) && ZoneOffset(offset) && FourDigit(DateAfter(value, a))
    ensures var w := Moved(value, a, offset); Local(w) && Exists(w) && Moved(w, b, offset) == Moved(value, a + b, offset)
  {
    hide DateOf, DayNumber, ZoneOffset, ReadDate, DatePrefix, PlainDate, OnCalendar, FourDigit, Exists, InRange;
    MovedReads(value, a, offset);
    var w := Moved(value, a, offset);
    SameTail(w, value);
    assert DayNumber(ReadDate(w)) == DayNumber(ReadDate(value)) + a;
  }

  lemma MovedUnread(value: string, n: int, offset: int)
    requires Local(value) && Exists(value) && ZoneOffset(offset) && !FourDigit(DateAfter(value, n))
    ensures !DatePrefix(Moved(value, n, offset))
  {
    MovedReads(value, n, offset);
  }

  /** Shifting twice is shifting by the sum exactly when the year in between has four digits. */
  lemma ShiftsAddUpIff(value: string, a: int, b: int, offset: int, parse: string -> Option<int>)
    requires Local(value) && Exists(value) && ZoneOffset(offset)
    ensures DatePrefix(value)
    ensures var first := ShiftBy(value, a, offset, parse);
      && first.Text?
      && (ShiftBy(first.text, b, offset, parse) == ShiftBy(value, a + b, offset, parse)
          <==> FourDigit(DateAfter(value, a)))
  {
    hide *;
    HasDate(value);
    LocalShift(value, a, offset, parse);
    LocalShift(value, a + b, offset, parse);
    var w := Moved(value, a, offset);
    if FourDigit(DateAfter(value, a)) {
      MovedTwice(value, a, b, offset);
      LocalShift(w, b, offset, parse);
    } else {
      MovedUnread(value, a, offset);
      NoDateRefused(w, b, offset, parse);
    }
  }

  /** Shifting back restores the value exactly when both years have four digits. */
  lemma ShiftBackRestoresIff(value: string, n: int, offset: int, parse: string -> Option<int>)
    requires Local(value) && Exists(value) && ZoneOffset(offset)
    ensures DatePrefix(value)
    ensures var there := ShiftBy(value, n, offset, parse);
      && there.Text?
      && (ShiftBy(there.text, -n, offset, parse) == Text(value)
          <==> FourDigit(ReadDate(value)) && FourDigit(DateAfter(value, n)))
  {
    hide *;
    ShiftsAddUpIff(value, n, -n, offset, parse);
    LocalShift(value, n, offset, parse);
    LocalShift(value, 0, offset, parse);
    MovedByNone(value, offset);
    if !FourDigit(DateAfter(value, n)) {
      MovedUnread(value, n, offset);
      NoDateRefused(Moved(value, n, offset), -n, offset, parse);
    }
  }

  lemma MovedByNone(value: string, offset: int)
    requires Local(value) && Exists(value) && ZoneOffset(offset)
    ensures Moved(value, 0, offset) == value <==> FourDigit(ReadDate(value))
  {
    hide OnCalendar, DateOf, DayNumber, YearText, MonthDay;
    var date := ReadDate(value);
    DateOfDayNumber(date);
    MovedReads(value, 0, offset);
    if FourDigit(date) {
      FourDigitInRange(DayNumber(date), TimeIn(value), offset);
      PlainYearReads(date, "");
      WritesBack(value);
      assert value == value[..10] + value[10..];
    }
  }

  /** The shifted date is the one the calendar reaches day by day. */
  lemma ShiftWalksTheCalendar(value: string, n: nat)
    requires Local(value) && Exists(value)
    ensures DateAfter(value, n) == Later(ReadDate(value), n)
    ensures Later(DateAfter(value, 0 - n), n) == ReadDate(value)
  {
    hide DateOf, DayNumber, Later, OnCalendar;
    var k := DayNumber(ReadDate(value));
    DateOfDayNumber(ReadDate(value));
    AddingIsWalking(k, n);
    AddingIsWalking(k - n, n);
  }

  // ---- Zoned values ----

  /** The engine reads toISOString's own form as ECMA-262 prescribes. */
  ghost predicate ReadsIso(parse: string -> Option<int>) {
    forall s :: FromIso(s).Some? ==> parse(s) == FromIso(s)
  }

  predicate Zoned(value: string) {
    DatePrefix(value) && |value| > 10 && value[10] == 'T' && !MinuteForm(value) && HasZone(TrimEnd(value))
  }

  /** Z, or a sign with four digits and perhaps a colon between them. */
  predicate ZoneText(z: string) {
    || z == "Z" || z == "z"
    || (|z| == 5 && (z[0] == '+' || z[0] == '-') && TwoDigits(z, 1) && TwoDigits(z, 3))
    || (|z| == 6 && (z[0] == '+' || z[0] == '-') && TwoDigits(z, 1) && z[3] == ':' && TwoDigits(z, 4))
  }

  lemma ZoneStart(s: string) returns (k: nat)
    requires HasZone(s)
    ensures k <= |s| && ZoneText(s[k..])
  {
    var n := |s|;
    if s[n - 1] == 'Z' || s[n - 1] == 'z' {
      k := n - 1;
    } else if n >= 5 && (s[n - 5] == '+' || s[n - 5] == '-') && TwoDigits(s, n - 4) && TwoDigits(s, n - 2) {
      k := n - 5;
    } else {
      k := n - 6;
    }
  }

  /** A text has a zone exactly when it ends with one. */
  lemma HasZoneIff(s: string)
    ensures HasZone(s) <==> exists head, z :: s == head + z && ZoneText(z)
  {
    if HasZone(s) {
      var k := ZoneStart(s);
      assert s == s[..k] + s[k..];
    }
    hide HasZone, ZoneText;
    if head, z :| s == head + z && ZoneText(z) {
      ZoneAtEnd(head, z);
    }
  }

  lemma ZoneAtEnd(head: string, z: string)
    requires ZoneText(z)
    ensures HasZone(head + z)
  {
    var s, n := head + z, |head + z|;
    if |z| == 1 {
      assert s[n - 1] == z[0];
    } else if |z| == 5 {
      assert s[n - 5] == z[0] && s[n - 4] == z[1] && s[n - 3] == z[2] && s[n - 2] == z[3] && s[n - 1] == z[4];
    } else {
      assert s[n - 6] == z[0] && s[n - 5] == z[1] && s[n - 4] == z[2] && s[n - 3] == z[3] && s[n - 2] == z[4] && s[n - 1] == z[5];
    }
  }

  /** Trimming takes exactly the trailing white space. */
  lemma {:induction false} TrimEndIs(s: string)
    ensures var t := TrimEnd(s);
      && t <= s && (t != [] ==> !IsSpace(t[|t| - 1])) && forall i :: |t| <= i < |s| ==> IsSpace(s[i])
  {
    if s != [] && IsSpace(s[|s| - 1]) {
      TrimEndIs(s[..|s| - 1]);
    }
  }

  /** Whatever follows the T, a value that ends with a zone is zoned, in each of its forms. */
  lemma ZoneMakesZoned(head: string, z: string)
    requires DatePrefix(head) && |head| > 10 && head[10] == 'T' && ZoneText(z)
    ensures Zoned(head + z)
  {
    var s := head + z;
    assert forall i :: 0 <= i < |head| ==> s[i] == head[i];
    assert forall i :: 0 <= i < |z| ==> s[|head| + i] == z[i];
    HasZoneIff(s);
    assert !IsSpace(z[|z| - 1]);
    assert s[|s| - 1] == z[|z| - 1];
    assert TrimEnd(s) == s;
    assert s[|head|] == z[0];
  }

  /** The forms a local value is written in: the date, with hour and minute, with seconds, with one to three decimals. */
  lemma LocalForms(date: Date, h: int, mi: int, sec: int, decimals: string)
    requires 0 <= date.year <= 9999 && 0 <= date.month <= 99 && 0 <= date.day <= 99
    requires 0 <= h <= 99 && 0 <= mi <= 99 && 0 <= sec <= 99
    requires 1 <= |decimals| <= 3 && forall i :: 0 <= i < |decimals| ==> IsDigit(decimals[i])
    ensures var time := ['T'] + (Pad(h) + ([':'] + Pad(mi)));
      var minute := DateText(date) + time;
      var second := minute + ([':'] + Pad(sec));
      && DateOnly(DateText(date)) && MinuteForm(minute) && Two(minute, 11) == h && Two(minute, 14) == mi
      && SecondsForm(second) && SecondsForm(second + (['.'] + decimals))
  {
    var time := ['T'] + (Pad(h) + ([':'] + Pad(mi)));
    var minute := DateText(date) + time;
    var second := minute + ([':'] + Pad(sec));
    ReadsBack(date, "");
    assert DateText(date) + "" == DateText(date);
    hide DateText, DatePrefix, Pad;
    MinuteReads(DateText(date), Pad(h), Pad(mi));
    assert forall i :: 0 <= i < 10 ==> DateText(date)[i] == minute[i] == second[i];
    ReadsBack(date, time);
    ReadsBack(date, time + ([':'] + Pad(sec)));
    assert second == DateText(date) + (time + ([':'] + Pad(sec)));
    var full := second + (['.'] + decimals);
    ReadsBack(date, time + ([':'] + Pad(sec)) + (['.'] + decimals));
    assert full == DateText(date) + (time + ([':'] + Pad(sec)) + (['.'] + decimals));
    SecondsRead(minute, Pad(sec), decimals);
  }

  lemma MinuteReads(date: string, h: string, mi: string)
    requires |date| == 10 && |h| == |mi| == 2 && TwoDigits(h, 0) && TwoDigits(mi, 0)
    ensures var s := date + (['T'] + (h + ([':'] + mi)));
      && |s| == 16 && s[10] == 'T' && TwoDigits(s, 11) && s[13] == ':' && TwoDigits(s, 14)
      && Two(s, 11) == Two(h, 0) && Two(s, 14) == Two(mi, 0)
  {
    var s := date + (['T'] + (h + ([':'] + mi)));
    assert s[10] == 'T' && s[11] == h[0] && s[12] == h[1] && s[13] == ':' && s[14] == mi[0] && s[15] == mi[1];
  }

  lemma SecondsRead(minute: string, sec: string, decimals: string)
    requires MinuteForm(minute) && |sec| == 2 && TwoDigits(sec, 0)
    requires 1 <= |decimals| <= 3 && forall i :: 0 <= i < |decimals| ==> IsDigit(decimals[i])
    ensures SecondsForm(minute + ([':'] + sec)) && SecondsForm(minute + ([':'] + sec) + (['.'] + decimals))
  {
    var s := minute + ([':'] + sec);
    var t := s + (['.'] + decimals);
    assert forall i :: 0 <= i < 16 ==> s[i] == minute[i] && t[i] == minute[i];
    assert s[16] == ':' && s[17] == sec[0] && s[18] == sec[1];
    assert t[16] == ':' && t[17] == sec[0] && t[18] == sec[1] && t[19] == '.';
    assert forall i :: 20 <= i < |t| ==> t[i] == decimals[i - 20];
  }

  /** A zoned value moves by exactly that many days as an instant. */
  lemma ZonedShift(value: string, n: int, offset: int, parse: string -> Option<int>)
    requires Zoned(value) && parse(value).Some?
    ensures var u := parse(value).value + n * MS_DAY;
      ShiftBy(value, n, offset, parse) == if InRange(u) then Text(Iso(u)) else RangeError
  {
    hide DatePrefix, Iso, InRange, SetDate, DayOfMonth;
    SetDateMoves(parse(value).value, n);
  }

  lemma IsoIsZoned(t: int)
    requires FourDigitYear(t)
    ensures Zoned(Iso(t))
  {
    hide Clock, DateText;
    var date := DateOf(t / MS_DAY);
    IsoSplits(t);
    InMonth(date);
    ReadsBack(date, Clock(t));
    ClockReads(t);
    var s := Iso(t);
    assert s[10] == Clock(t)[0] && s[23] == Clock(t)[13] && |s| == 24;
    assert TrimEnd(s) == s;
  }

  /** Zoned shifts add up exactly when the year in between fits four digits. */
  lemma ZonedShiftsAddUpIff(value: string, a: int, b: int, offset: int, parse: string -> Option<int>)
    requires Zoned(value) && parse(value).Some? && ReadsIso(parse)
    requires InRange(parse(value).value + a * MS_DAY)
    ensures var first := ShiftBy(value, a, offset, parse);
      && first.Text?
      && (ShiftBy(first.text, b, offset, parse) == ShiftBy(value, (a + b), offset, parse)
          <==> FourDigitYear(parse(value).value + a * MS_DAY))
  {
    hide ShiftBy, Iso, Zoned, InRange, FromIso, FourDigitYear;
    var u := parse(value).value + a * MS_DAY;
    ZonedShift(value, a, offset, parse);
    ZonedShift(value, a + b, offset, parse);
    if FourDigitYear(u) {
      IsoRoundTrip(u);
      IsoIsZoned(u);
      assert FromIso(Iso(u)).Some?;
      ZonedShift(Iso(u), b, offset, parse);
    } else {
      LongYearUnread(u);
      NoDateRefused(Iso(u), b, offset, parse);
    }
  }

  // ---- Local values with seconds ----

  lemma SecondsCut(value: string)
    requires SecondsForm(value) && |value| > 16
    ensures var s := value[..16];
      MinuteForm(s) && ReadDate(s) == ReadDate(value) && Two(s, 11) == Two(value, 11) && Two(s, 14) == Two(value, 14)
  {
  }

  /** The Date object read back for any two-digit hour and minute: the date passes exactly when it is real and the
      time does not run into the next day, and then the time passes exactly for minutes up to 59. */
  lemma RunningOverFails(date: Date, h: int, mi: int, offset: int)
    requires 0 <= date.year <= 9999 && 0 <= h <= 99 && 0 <= mi <= 99 && ZoneOffset(offset)
    ensures var t := LocalTime(date.year, date.month - 1, date.day, h, mi);
      && (InRange(t - offset) && DateOf(t / MS_DAY) == date <==> Accepted(date) && 60 * h + mi < 1440)
      && (60 * h + mi < 1440 ==> (Hour(t) == h && Minute(t) == mi <==> mi <= 59))
  {
    hide YearStart, DaysBefore, MakeDay, DateOf, DayNumber, OnCalendar, Hour, Minute, TimeOfDay;
    var t := LocalTime(date.year, date.month - 1, date.day, h, mi);
    var day := MakeDay(if date.year <= 99 then 1900 + date.year else date.year, date.month - 1, date.day);
    var over, h', mi' := (60 * h + mi) / 1440, (60 * h + mi) % 1440 / 60, (60 * h + mi) % 60;
    SplitTime(h, mi);
    assert t == (day + over) * MS_DAY + 3_600_000 * h' + 60_000 * mi';
    TimeParts(day + over, h', mi');
    if OnCalendar(date) {
      InMonth(date);
      FirstOfMonth(date);
      YearBounds(date);
      DateOfDayNumber(date);
      if date.year <= 99 {
        EarlyYearsJump(date, date.day);
      }
    }
  }

  lemma SplitTime(h: int, mi: int)
    requires 0 <= h <= 99 && 0 <= mi <= 99
    ensures var m := 60 * h + mi;
      && m == 1440 * (m / 1440) + 60 * (m % 1440 / 60) + m % 60
      && 0 <= m % 1440 / 60 <= 23 && 0 <= m % 60 <= 59 && m / 1440 <= 4
      && (m < 1440 ==> m / 1440 == 0 && (m % 1440 / 60 == h <==> mi <= 59) && (mi <= 59 ==> m % 60 == mi))
  {
  }

  lemma StrictnessMatters(date: Date, h: int, mi: int, n: int, offset: int)
    requires 0 <= date.year <= 9999 && 0 <= h <= 99 && 0 <= mi <= 99 && ZoneOffset(offset)
    ensures ShiftLocal(date, h, mi, true, false, n, offset) == ShiftLocal(date, h, mi, true, true, n, offset) <==>
            !(Accepted(date) && 60 * h + mi < 1440 && mi > 59)
  {
    hide DateOf, LocalTime, LocalText, SetDate, Hour, Minute, InRange, Accepted, DayNumber, DayOfMonth;
    RunningOverFails(date, h, mi, offset);
  }

  /** Seconds are dropped: the value shifts as its first sixteen characters do, unless its minutes run past 59 on a
      real date without reaching the next day; then only the form with seconds is accepted. */
  lemma SecondsAreDroppedIff(value: string, n: int, offset: int, parse: string -> Option<int>)
    requires SecondsForm(value) && |value| > 16 && !HasZone(TrimEnd(value)) && parse(value).Some? && ZoneOffset(offset)
    ensures ShiftBy(value, n, offset, parse) == ShiftBy(value[..16], n, offset, parse) <==>
            !(Accepted(ReadDate(value)) && 60 * Two(value, 11) + Two(value, 14) < 1440 && Two(value, 14) > 59)
  {
    hide DatePrefix, TwoDigits, ReadDate, Two, DateOf, LocalTime, LocalText, SetDate, Hour, Minute, InRange, Accepted,
      DayNumber, ZoneOffset, DayOfMonth, HasZone, TrimEnd, ShiftLocal;
    SecondsCut(value);
    var date, h, mi := ReadDate(value), Two(value, 11), Two(value, 14);
    assert ShiftBy(value, n, offset, parse) == ShiftLocal(date, h, mi, true, false, n, offset);
    assert ShiftBy(value[..16], n, offset, parse) == ShiftLocal(date, h, mi, true, true, n, offset);
    StrictnessMatters(date, h, mi, n, offset);
  }
}
