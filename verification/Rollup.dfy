/** The daily metrics rollup: which past days one run recomputes, and what it reports. */
module Rollup {
  import opened Lists
  import opened Gregorian
  import opened DateTexts
  import ShiftDateTime

  const KST := 32_400_000

  datatype Reason = CronDisabled | MissingQueryApi | MissingServiceRole | MissingExecutor

  /** One call of the executor; a row count is any JavaScript number but NaN and the infinities. */
  datatype Answer = Receipt(day: string, upsertedRows: real) | Threw

  datatype Result =
    | BadDayCount
    | Unavailable(reason: Reason, days: seq<string>)
    | Completed(days: seq<string>, rows: int, failedDays: seq<string>)

  /** Texts are None when the setting is absent. `execute` answers the i-th call, for the given day. */
  datatype Config = Config(cronEnabled: Option<string>, queryApiKey: Option<string>, serviceRoleKey: Option<string>,
    execute: Option<(nat, string) -> Answer>, recomputeDays: Option<real>)

  /** The number of the calendar day in Seoul. */
  function KstNumber(now: int): int { (now + KST) / MS_DAY }

  /** A day in Seoul runs from 15:00 UTC of the day before to 15:00 UTC. */
  lemma SeoulDayStartsAtFifteen(k: int, r: int)
    requires 0 <= r < MS_DAY
    ensures KstNumber((k - 1) * MS_DAY + 15 * 3_600_000 + r) == k
  {
    assert (k - 1) * MS_DAY + 15 * 3_600_000 + r + KST == k * MS_DAY + r;
  }

  /** Today's year in Seoul is 1000 to 9999. */
  predicate FourDigitDay(now: int) {
    -354_285 <= KstNumber(now) < 2_932_897
  }

  lemma FourDigitDayIff(now: int)
    ensures FourDigitDay(now) <==> 1000 <= DateOf(KstNumber(now)).year <= 9999
  {
    hide DateOf, DayNumber;
    YearBounds(DateOf(KstNumber(now)));
  }

  function KstDay(now: int): (day: string)
    requires FourDigitDay(now)
    ensures DatePrefix(day) && |day| == 10 && ReadDate(day) == DateOf(KstNumber(now))
  {
    var date := DateOf(KstNumber(now));
    FourDigitDayIff(now);
    InMonth(date);
    ReadsBack(date, "");
    assert DateText(date) + "" == DateText(date);
    DateText(date)
  }

  /** The midnight the cursor starts from: the day's text read as an instant in UTC. */
  function Cursor(day: string): Option<int> {
    FromIso(day + "T00:00:00.000Z")
  }

  /** Entry `index` of the list. */
  function DayBack(cursor: int, index: nat): string {
    var t := ShiftDateTime.SetDate(cursor, ShiftDateTime.DayOfMonth(cursor) - (index + 1));
    var text := Iso(t);
    if |text| >= 10 then text[..10] else text
  }

  lemma CursorIsMidnight(now: int)
    requires FourDigitDay(now)
    ensures Cursor(KstDay(now)) == Some(KstNumber(now) * MS_DAY)
  {
    var k := KstNumber(now);
    FourDigitDayIff(now);
    hide ClockForm, ReadClock, Two, TwoDigits, DateOf, DayNumber, OnCalendar, ReadDate, DatePrefix, DateText, Clock;
    MidnightClock(k);
    Midnight(k);
    InMonth(DateOf(k));
    assert KstDay(now) == DateText(DateOf(k));
    IsoSplits(k * MS_DAY);
    IsoRoundTrip(k * MS_DAY);
  }

  lemma MidnightClock(k: int)
    ensures Clock(k * MS_DAY) == "T00:00:00.000Z"
  {
    hide TimeOfDay;
    Midnight(k);
    assert Hour(k * MS_DAY) == 0 && Minute(k * MS_DAY) == 0 && Second(k * MS_DAY) == 0;
    assert 0 / 100 == 0 / 10 % 10 == 0 % 10 == 0 / 10 == 0;
  }

  lemma Midnight(k: int)
    ensures k * MS_DAY / MS_DAY == k && TimeOfDay(k * MS_DAY) == 0
  {
  }

  /** The days of a run, or None for a count that is not a whole number from 1 to 31. */
  function RollupDays(now: int, days: real): Option<seq<string>>
    requires FourDigitDay(now)
  {
    if days.Floor as real != days || days < 1.0 || days > 31.0 then None
    else
      CursorIsMidnight(now);
      Some(seq(days.Floor, i requires 0 <= i < days.Floor => DayBack(Cursor(KstDay(now)).value, i)))
  }

  predicate ValidCount(days: real) {
    days.Floor as real == days && 1 <= days.Floor <= 31
  }

  lemma DayBackIs(k: int, index: nat)
    requires -354_285 <= k < 2_932_897 && index < 31
    ensures var date := DateOf(k - 1 - index);
      0 <= date.year <= 9999 && date.month <= 99 && date.day <= 99 && DayBack(k * MS_DAY, index) == DateText(date)
  {
    hide DateOf, DayNumber, OnCalendar, Clock, DateText;
    var j := k - 1 - index;
    ShiftDateTime.SetDateMoves(k * MS_DAY, -(index + 1));
    assert k * MS_DAY + -(index + 1) * MS_DAY == j * MS_DAY;
    Midnight(j);
    InMonth(DateOf(j));
    YearBounds(DateOf(j));
    IsoSplits(j * MS_DAY);
    assert Iso(j * MS_DAY)[..10] == DateText(DateOf(j));
  }

  /** The list is exactly the `n` days before today in Seoul, newest first, each leading to the next by the
      calendar and the first to today. */
  lemma RollupDaysLeadToToday(now: int, days: real)
    requires FourDigitDay(now)
    ensures RollupDays(now, days).Some? <==> ValidCount(days)
    ensures ValidCount(days) ==>
      var list := RollupDays(now, days).value;
      && |list| == days.Floor
      && forall i :: 0 <= i < |list| ==>
           && DatePrefix(list[i]) && |list[i]| == 10 && OnCalendar(ReadDate(list[i]))
           && DayNumber(ReadDate(list[i])) == KstNumber(now) - 1 - i
           && Later(ReadDate(list[i]), i + 1) == ReadDate(KstDay(now))
  {
    hide DateOf, DayNumber, OnCalendar, DatePrefix, ReadDate, DayBack, KstDay;
    CursorIsMidnight(now);
    if ValidCount(days) {
      var list := RollupDays(now, days).value;
      forall i | 0 <= i < |list|
        ensures DatePrefix(list[i]) && |list[i]| == 10 && OnCalendar(ReadDate(list[i]))
        ensures DayNumber(ReadDate(list[i])) == KstNumber(now) - 1 - i
        ensures Later(ReadDate(list[i]), i + 1) == ReadDate(KstDay(now))
      {
        ListedDay(KstNumber(now), i);
        AddingIsWalking(KstNumber(now) - 1 - i, i + 1);
      }
    }
  }

  lemma CountDecides(now: int, days: real)
    requires FourDigitDay(now)
    ensures RollupDays(now, days).Some? <==> ValidCount(days)
  {
    hide FourDigitDay, KstDay, DayBack;
  }

  lemma ListedDay(k: int, index: nat)
    requires -354_285 <= k < 2_932_897 && index < 31
    ensures var s := DayBack(k * MS_DAY, index); DatePrefix(s) && |s| == 10 && ReadDate(s) == DateOf(k - 1 - index)
  {
    hide DateOf, DayNumber, OnCalendar, DatePrefix, ReadDate, DayBack, DateText;
    DayBackIs(k, index);
    var date := DateOf(k - 1 - index);
    InMonth(date);
    ReadsBack(date, "");
    assert DateText(date) + "" == DateText(date);
  }

  // ---- One run ----

  predicate Blank(s: string) { forall c :: c in s ==> ShiftDateTime.IsSpace(c) }

  predicate Configured(value: Option<string>) { value.Some? && !Blank(value.value) }

  function WhyUnavailable(config: Config): Option<Reason> {
    if config.cronEnabled != Some("true") then Some(CronDisabled)
    else if !Configured(config.queryApiKey) then Some(MissingQueryApi)
    else if !Configured(config.serviceRoleKey) then Some(MissingServiceRole)
    else if config.execute.None? then Some(MissingExecutor)
    else None
  }

  /** What a run needs, in the order it is asked for. */
  predicate Has(config: Config, reason: Reason) {
    match reason
    case CronDisabled => config.cronEnabled == Some("true")
    case MissingQueryApi => config.queryApiKey.Some? && exists c :: c in config.queryApiKey.value && !ShiftDateTime.IsSpace(c)
    case MissingServiceRole =>
      config.serviceRoleKey.Some? && exists c :: c in config.serviceRoleKey.value && !ShiftDateTime.IsSpace(c)
    case MissingExecutor => config.execute.Some?
  }

  predicate Earlier(a: Reason, b: Reason) {
    match b
    case CronDisabled => false
    case MissingQueryApi => a.CronDisabled?
    case MissingServiceRole => a.CronDisabled? || a.MissingQueryApi?
    case MissingExecutor => !a.MissingExecutor?
  }

  /** A run goes ahead exactly when it has everything; otherwise it names the first thing missing. */
  lemma FirstMissingIsNamed(config: Config, reason: Reason)
    ensures WhyUnavailable(config).None? <==> forall r: Reason :: Has(config, r)
    ensures WhyUnavailable(config) == Some(reason) <==>
            !Has(config, reason) && forall r: Reason :: Earlier(r, reason) ==> Has(config, r)
  {
    assert Has(config, CronDisabled) <==> config.cronEnabled == Some("true");
    assert Has(config, MissingQueryApi) <==> Configured(config.queryApiKey);
    assert Has(config, MissingServiceRole) <==> Configured(config.serviceRoleKey);
    assert Has(config, MissingExecutor) <==> config.execute.Some?;
    assert Earlier(CronDisabled, MissingExecutor) && Earlier(MissingQueryApi, MissingExecutor) && Earlier(MissingServiceRole, MissingExecutor);
    assert Earlier(CronDisabled, MissingServiceRole) && Earlier(MissingQueryApi, MissingServiceRole);
    assert Earlier(CronDisabled, MissingQueryApi);
  }

  const MAX_SAFE := 9_007_199_254_740_991

  /** The receipt names the day that was asked for and counts rows. */
  predicate Good(answer: Answer, day: string) {
    && answer.Receipt? && answer.day == day
    && answer.upsertedRows.Floor as real == answer.upsertedRows && 0 <= answer.upsertedRows.Floor <= MAX_SAFE
  }

  function RowsOf(answer: Answer): int { if answer.Receipt? then answer.upsertedRows.Floor else 0 }

  /** The good receipts are those of the day asked for with a count from 0 to the largest safe integer. */
  lemma GoodReceipts(answer: Answer, day: string, n: int)
    ensures Good(answer, day) <==> answer == Receipt(day, RowsOf(answer) as real) && 0 <= RowsOf(answer) <= MAX_SAFE
    ensures RowsOf(Receipt(day, n as real)) == n && RowsOf(Threw) == 0
  {
  }

  /** The failed days of the first `n` calls. */
  function FailedDays(days: seq<string>, execute: (nat, string) -> Answer, n: nat): seq<string>
    requires n <= |days|
  {
    if n == 0 then []
    else FailedDays(days, execute, n - 1) + if Good(execute(n - 1, days[n - 1]), days[n - 1]) then [] else [days[n - 1]]
  }

  function Rows(days: seq<string>, execute: (nat, string) -> Answer, n: nat): int
    requires n <= |days|
  {
    if n == 0 then 0
    else Rows(days, execute, n - 1)
         + if Good(execute(n - 1, days[n - 1]), days[n - 1]) then RowsOf(execute(n - 1, days[n - 1])) else 0
  }

  /** Calls the executor for one day after the other. */
  method RunDays(days: seq<string>, execute: (nat, string) -> Answer) returns (rows: int, failedDays: seq<string>)
    ensures rows == Rows(days, execute, |days|)
    ensures failedDays == FailedDays(days, execute, |days|)
  {
    rows, failedDays := 0, [];
    for i := 0 to |days|
      invariant rows == Rows(days, execute, i)
      invariant failedDays == FailedDays(days, execute, i)
    {
      var answer := execute(i, days[i]);
      if Good(answer, days[i]) {
        rows := rows + RowsOf(answer);
      } else {
        failedDays := failedDays + [days[i]];
      }
    }
  }

  function DayCount(config: Config): (count: real)
    ensures config.recomputeDays.None? ==> count == 3.0
    ensures config.recomputeDays.Some? ==> count == config.recomputeDays.value
  {
    if config.recomputeDays.Some? then config.recomputeDays.value else 3.0
  }

  method RunRollup(config: Config, now: int) returns (result: Result)
    requires FourDigitDay(now)
    ensures !ValidCount(DayCount(config)) <==> result == BadDayCount
    ensures ValidCount(DayCount(config)) ==>
      RollupDays(now, DayCount(config)).Some? &&
      var days := RollupDays(now, DayCount(config)).value;
      match WhyUnavailable(config)
      case Some(reason) => result == Unavailable(reason, days)
      case None => result == Completed(days, Rows(days, config.execute.value, |days|),
                                       FailedDays(days, config.execute.value, |days|))
  {
    hide RollupDays, KstDay, WhyUnavailable, ValidCount, FourDigitDay, DayCount, Rows, FailedDays;
    var count := DayCount(config);
    CountDecides(now, count);
    if RollupDays(now, count).None? {
      return BadDayCount;
    }
    var days := RollupDays(now, count).value;
    var reason := WhyUnavailable(config);
    if reason.Some? {
      return Unavailable(reason.value, days);
    }
    AllSet(config);
    var rows, failedDays := RunDays(days, config.execute.value);
    return Completed(days, rows, failedDays);
  }

  lemma AllSet(config: Config)
    ensures WhyUnavailable(config).None? ==> config.execute.Some?
  {
  }

  /** `part` lists days in the order in which `days` does, none twice. */
  ghost predicate InOrder(part: seq<string>, days: seq<string>) {
    forall a, b, i, j :: 0 <= a < b < |part| && 0 <= i < |days| && 0 <= j < |days| && part[a] == days[i] && part[b] == days[j] ==>
      i < j
  }

  /** The failed days are the days whose call was bad. */
  lemma {:induction false} FailedDaysAreTheBadOnes(days: seq<string>, execute: (nat, string) -> Answer, n: nat)
    requires n <= |days| && NoDuplicates(days)
    ensures var failed := FailedDays(days, execute, n);
      && (forall i :: 0 <= i < n ==> (days[i] in failed <==> !Good(execute(i, days[i]), days[i])))
      && (forall i :: n <= i < |days| ==> days[i] !in failed)
      && (forall day :: day in failed ==> day in days)
  {
    hide Good;
    if n > 0 {
      FailedDaysAreTheBadOnes(days, execute, n - 1);
    }
  }

  /** They come in the order of the list, none twice. */
  lemma {:induction false} FailedDaysInOrder(days: seq<string>, execute: (nat, string) -> Answer, n: nat)
    requires n <= |days| && NoDuplicates(days)
    ensures InOrder(FailedDays(days, execute, n), days)
  {
    hide Good;
    if n > 0 {
      FailedDaysInOrder(days, execute, n - 1);
      var before, failed := FailedDays(days, execute, n - 1), FailedDays(days, execute, n);
      forall a, b, i, j | 0 <= a < b < |failed| && 0 <= i < |days| && 0 <= j < |days| && failed[a] == days[i] && failed[b] == days[j]
        ensures i < j
      {
        assert failed[a] == before[a];
        if b < |before| {
          assert failed[b] == before[b];
        } else {
          FailedDaysAreTheBadOnes(days, execute, n - 1);
          assert days[i] in before && days[j] == days[n - 1];
        }
      }
    }
  }

  /** The reported rows of the first `n` days that are not among the failed ones. */
  function RowsOutside(days: seq<string>, execute: (nat, string) -> Answer, failed: seq<string>, n: nat): int
    requires n <= |days|
  {
    if n == 0 then 0
    else RowsOutside(days, execute, failed, n - 1) + if days[n - 1] in failed then 0 else RowsOf(execute(n - 1, days[n - 1]))
  }

  /** The row total is the sum over the days that did not fail, each a count of its own. */
  lemma {:induction false} RowsSumTheOthers(days: seq<string>, execute: (nat, string) -> Answer, n: nat)
    requires n <= |days| && NoDuplicates(days)
    ensures Rows(days, execute, n) == RowsOutside(days, execute, FailedDays(days, execute, |days|), n)
    ensures 0 <= Rows(days, execute, n) <= n * MAX_SAFE
  {
    if n > 0 {
      RowsSumTheOthers(days, execute, n - 1);
      FailedDaysAreTheBadOnes(days, execute, |days|);
      assert n * MAX_SAFE == (n - 1) * MAX_SAFE + MAX_SAFE;
    }
  }

  /** What a run tries is a list of distinct days. */
  lemma RollupDaysDistinct(now: int, days: real)
    requires FourDigitDay(now) && ValidCount(days)
    ensures RollupDays(now, days).Some? && NoDuplicates(RollupDays(now, days).value)
  {
    hide DateOf, DayNumber, OnCalendar, DatePrefix, ReadDate, KstDay, RollupDays, Later, ValidCount;
    RollupDaysLeadToToday(now, days);
  }

  // ---- Daily runs ----

  /** One run on every Seoul day from day `first` on. */
  ghost predicate Daily(runs: seq<int>, first: int) {
    forall i :: 0 <= i < |runs| ==> FourDigitDay(runs[i]) && KstNumber(runs[i]) == first + i
  }

  predicate Tries(now: int, count: real, day: string)
    requires FourDigitDay(now) && ValidCount(count)
  {
    RollupDays(now, count).Some? && day in RollupDays(now, count).value
  }

  /** A run tries a calendar day exactly when it lies 1 to n days back; so never the day in progress. */
  lemma TriesIff(now: int, count: real, date: Date)
    requires FourDigitDay(now) && ValidCount(count) && OnCalendar(date) && 0 <= date.year <= 9999
    ensures date.month <= 99 && date.day <= 99
    ensures Tries(now, count, DateText(date)) <==> 1 <= KstNumber(now) - DayNumber(date) <= count.Floor
  {
    hide DateOf, DayNumber, OnCalendar, DatePrefix, ReadDate, KstDay, RollupDays, DateText, Later;
    InMonth(date);
    RollupDaysLeadToToday(now, count);
    ReadsBack(date, "");
    var text := DateText(date);
    assert text + "" == text;
    var list := RollupDays(now, count).value;
    var i := KstNumber(now) - DayNumber(date) - 1;
    if text in list {
      var j :| 0 <= j < |list| && list[j] == text;
    }
    if 0 <= i < |list| {
      DayNumbersDistinguish(ReadDate(list[i]), date);
      WritesBack(list[i]);
      assert list[i][..10] == list[i];
    }
  }

  /** Running once a day, every past day is tried by exactly n runs: those of the n days after it. */
  lemma EveryDayIsTriedNTimes(runs: seq<int>, first: int, count: real, date: Date)
    requires Daily(runs, first) && ValidCount(count) && OnCalendar(date) && 0 <= date.year <= 9999
    requires first <= DayNumber(date) + 1 && DayNumber(date) + count.Floor < first + |runs|
    ensures date.month <= 99 && date.day <= 99
    ensures var tried := set i | 0 <= i < |runs| && Tries(runs[i], count, DateText(date)) :: i;
      && |tried| == count.Floor
      && forall i :: i in tried <==> DayNumber(date) + 1 - first <= i <= DayNumber(date) + count.Floor - first
  {
    hide DateOf, DayNumber, OnCalendar, Tries, DateText, KstNumber, FourDigitDay;
    InMonth(date);
    var from := DayNumber(date) + 1 - first;
    forall i | 0 <= i < |runs| ensures Tries(runs[i], count, DateText(date)) <==> from <= i < from + count.Floor {
      TriesIff(runs[i], count, date);
    }
    var tried := set i | 0 <= i < |runs| && Tries(runs[i], count, DateText(date)) :: i;
    forall i | i in Interval(from, count.Floor) ensures i in tried {
      assert Tries(runs[i], count, DateText(date));
    }
    assert tried == Interval(from, count.Floor);
  }

  ghost function Interval(from: int, n: nat): (s: set<int>)
    ensures |s| == n && forall i :: i in s <==> from <= i < from + n
  {
    if n == 0 then {} else Interval(from, n - 1) + {from + n - 1}
  }
}
