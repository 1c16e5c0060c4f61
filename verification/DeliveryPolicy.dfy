/** When a notification may be delivered: quiet hours, the bundling window and the batches built from candidates. */
module DeliveryPolicy {
  import DateTexts
  import opened Lists
  import TextOrder

  const MINUTE := 60_000
  const HOUR := 3_600_000

  datatype Urgency = Normal | High

  /** `createdAt` is the parsed time in milliseconds. */
  datatype Candidate = Candidate(notificationId: string, userId: string, eventKey: string, createdAt: int, urgency: Urgency)

  datatype QuietHours = QuietHours(startHour: int, endHour: int)

  /** The time zone is a fixed offset from UTC in milliseconds. */
  datatype Policy = Policy(offset: int, quietHours: Option<QuietHours>, bundleWindowMinutes: Option<int>)

  datatype Batch = Batch(userId: string, eventKey: string, notificationIds: seq<string>, deliverAfter: int)

  // ---- Quiet hours ----

  function HourAt(t: int, offset: int): (h: int)
    ensures 0 <= h < 24
  {
    (t + offset) / HOUR % 24
  }

  predicate IsQuietHour(hour: int, quiet: QuietHours) {
    if quiet.startHour > quiet.endHour then hour >= quiet.startHour || hour < quiet.endHour
    else hour >= quiet.startHour && hour < quiet.endHour
  }

  predicate IsQuiet(t: int, quiet: QuietHours, offset: int) { IsQuietHour(HourAt(t, offset), quiet) }

  /** Probes `from`+1, `from`+2, ... minutes after `now` for the end hour, up to a day. */
  function Probe(now: int, quiet: QuietHours, offset: int, from: nat): Option<int>
    decreases 1440 - from
  {
    if from >= 1440 then None
    else
      var t := now + (from + 1) * MINUTE;
      if HourAt(t, offset) == quiet.endHour then Some(t) else Probe(now, quiet, offset, from + 1)
  }

  function NextQuietEnd(now: int, quiet: QuietHours, offset: int): Option<int> {
    if IsQuiet(now, quiet, offset) then Probe(now, quiet, offset, 0) else None
  }

  method FindQuietEnd(now: int, quiet: QuietHours, offset: int) returns (end: Option<int>)
    ensures end == NextQuietEnd(now, quiet, offset)
  {
    var hour := HourAt(now, offset);
    var overnight := quiet.startHour > quiet.endHour;
    var isQuiet := if overnight then hour >= quiet.startHour || hour < quiet.endHour
                   else hour >= quiet.startHour && hour < quiet.endHour;
    if !isQuiet {
      return None;
    }
    var probe := now;
    for minutes := 1 to 1441
      invariant probe == now + (minutes - 1) * MINUTE
      invariant Probe(now, quiet, offset, minutes - 1) == Probe(now, quiet, offset, 0)
    {
      probe := probe + MINUTE;
      if HourAt(probe, offset) == quiet.endHour {
        return Some(probe);
      }
    }
    end := None;
  }

  /** One minute later it is the same hour or the next one. */
  lemma MinuteStep(t: int, offset: int)
    ensures var a, b := HourAt(t, offset), HourAt(t + MINUTE, offset);
            b == a || (b == (a + 1) % 24 && (t + MINUTE + offset) % HOUR < MINUTE)
  {
    var x := t + offset;
    assert x == x / HOUR * HOUR + x % HOUR;
    if x % HOUR + MINUTE < HOUR {
      assert (x + MINUTE) / HOUR == x / HOUR;
    } else {
      assert (x + MINUTE) / HOUR == x / HOUR + 1;
    }
  }

  lemma QuietStep(hour: int, next: int, quiet: QuietHours)
    requires 0 <= hour < 24 && (next == hour || next == (hour + 1) % 24)
    requires IsQuietHour(hour, quiet) && next != quiet.endHour && 0 <= quiet.endHour < 24
    ensures IsQuietHour(next, quiet)
  {
  }

  /** Until the end hour is met every probe is still quiet. */
  lemma {:induction false} QuietUntil(now: int, quiet: QuietHours, offset: int, n: nat)
    requires IsQuiet(now, quiet, offset) && 0 <= quiet.endHour < 24
    requires forall k: int :: 1 <= k <= n ==> HourAt(now + k * MINUTE, offset) != quiet.endHour
    ensures IsQuiet(now + n * MINUTE, quiet, offset)
  {
    if n > 0 {
      QuietUntil(now, quiet, offset, n - 1);
      MinuteStep(now + (n - 1) * MINUTE, offset);
      assert now + (n - 1) * MINUTE + MINUTE == now + n * MINUTE;
      QuietStep(HourAt(now + (n - 1) * MINUTE, offset), HourAt(now + n * MINUTE, offset), quiet);
    }
  }

  /** The probe that first lands in the end hour. */
  lemma EndHourIsProbed(now: int, hour: int, offset: int) returns (m: nat)
    requires 0 <= hour < 24 && hour != HourAt(now, offset)
    ensures 1 <= m <= 1380 && HourAt(now + m * MINUTE, offset) == hour
  {
    var x := now + offset;
    var a := x / HOUR;
    var d := (hour - a % 24) % 24;
    var boundary := (a + d) * HOUR;
    assert 1 <= d <= 23;
    assert x < boundary <= x + 23 * HOUR;
    m := (boundary - x + MINUTE - 1) / MINUTE;
    assert boundary <= x + m * MINUTE < boundary + MINUTE;
    assert (x + m * MINUTE) / HOUR == a + d;
    assert (a + d) % 24 == hour;
  }

  /** Probe `m` is the first one after `from` to land in the end hour. */
  ghost predicate FirstHit(now: int, quiet: QuietHours, offset: int, from: int, m: int) {
    && from < m && HourAt(now + m * MINUTE, offset) == quiet.endHour
    && forall k: int :: from < k < m ==> HourAt(now + k * MINUTE, offset) != quiet.endHour
  }

  lemma {:induction false} ProbeFindsFirst(now: int, quiet: QuietHours, offset: int, from: nat)
    requires from <= 1440
    ensures var found := Probe(now, quiet, offset, from);
            if found.Some?
            then exists m: int :: m <= 1440 && found.value == now + m * MINUTE && FirstHit(now, quiet, offset, from, m)
            else forall k: int :: from < k <= 1440 ==> HourAt(now + k * MINUTE, offset) != quiet.endHour
    decreases 1440 - from
  {
    if from < 1440 {
      ProbeFindsFirst(now, quiet, offset, from + 1);
      var found := Probe(now, quiet, offset, from);
      if HourAt(now + (from + 1) * MINUTE, offset) == quiet.endHour {
        assert FirstHit(now, quiet, offset, from, from + 1);
      } else if found.Some? {
        var m: int :| m <= 1440 && found.value == now + m * MINUTE && FirstHit(now, quiet, offset, from + 1, m);
        assert FirstHit(now, quiet, offset, from, m);
      }
    }
  }

  /** `end` is `m` minutes after `now`: quiet at every minute before it, and no longer quiet in the first minute of the end hour. */
  ghost predicate EndsQuiet(now: int, end: int, m: int, quiet: QuietHours, offset: int) {
    && end == now + m * MINUTE
    && (forall k: int :: 0 <= k < m ==> IsQuiet(now + k * MINUTE, quiet, offset))
    && !IsQuiet(end, quiet, offset)
    && HourAt(end, offset) == quiet.endHour && (end + offset) % HOUR < MINUTE
  }

  lemma FirstHitEndsQuiet(now: int, quiet: QuietHours, offset: int, m: int)
    requires IsQuiet(now, quiet, offset) && 0 <= quiet.endHour < 24 && FirstHit(now, quiet, offset, 0, m)
    ensures EndsQuiet(now, now + m * MINUTE, m, quiet, offset)
  {
    forall k: int | 0 <= k < m ensures IsQuiet(now + k * MINUTE, quiet, offset) {
      QuietUntil(now, quiet, offset, k);
    }
    var last := now + (m - 1) * MINUTE;
    assert last + MINUTE == now + m * MINUTE;
    MinuteStep(last, offset);
    assert IsQuiet(last, quiet, offset);
  }

  /** From a quiet instant the search ends exactly when the end hour is an hour of the day, and then within 23 hours. */
  lemma QuietEndIsFound(now: int, quiet: QuietHours, offset: int)
    requires IsQuiet(now, quiet, offset)
    ensures NextQuietEnd(now, quiet, offset).Some? <==> 0 <= quiet.endHour < 24
    ensures var found := NextQuietEnd(now, quiet, offset);
            found.Some? ==> exists m: int :: 1 <= m <= 1380 && EndsQuiet(now, found.value, m, quiet, offset)
  {
    ProbeFindsFirst(now, quiet, offset, 0);
    if 0 <= quiet.endHour < 24 {
      var hit := EndHourIsProbed(now, quiet.endHour, offset);
      var end := NextQuietEnd(now, quiet, offset).value;
      var m: int :| m <= 1440 && end == now + m * MINUTE && FirstHit(now, quiet, offset, 0, m);
      assert m <= hit;
      FirstHitEndsQuiet(now, quiet, offset, m);
    }
  }

  // ---- Batches ----

  /** The time one candidate asks for. A missing quiet end counts as time zero. */
  function OwnTime(c: Candidate, now: int, policy: Policy): (t: int)
    ensures t >= now
  {
    var quietEnd :=
      if c.urgency.High? || policy.quietHours.None? then None
      else NextQuietEnd(now, policy.quietHours.value, policy.offset);
    var window := match policy.bundleWindowMinutes case None => 60 case Some(w) => w;
    Max(now, Max(c.createdAt + window * MINUTE, match quietEnd case None => 0 case Some(t) => t))
  }

  /** The instant the quiet hours hold a candidate back to, if they do. */
  function HeldUntil(c: Candidate, now: int, policy: Policy): Option<int> {
    if c.urgency.High? then None
    else match policy.quietHours case None => None case Some(quiet) => NextQuietEnd(now, quiet, policy.offset)
  }

  /** `t` is neither past, nor inside the bundling window, nor before the end of the quiet hours. */
  predicate Due(c: Candidate, now: int, policy: Policy, t: int) {
    && now <= t
    && c.createdAt + (match policy.bundleWindowMinutes case None => 60 case Some(w) => w) * MINUTE <= t
    && (match HeldUntil(c, now, policy) case None => 0 case Some(end) => end) <= t
  }

  /** A candidate asks for the earliest instant at which it is due. */
  lemma OwnTimeIsEarliest(c: Candidate, now: int, policy: Policy, t: int)
    ensures Due(c, now, policy, OwnTime(c, now, policy))
    ensures Due(c, now, policy, t) <==> OwnTime(c, now, policy) <= t
  {
  }

  /** Hours count from midnight local time, a full hour each, and start again after 24. */
  lemma HourAtIsLocal(day: int, hour: int, r: int, offset: int)
    requires 0 <= hour < 24 && 0 <= r < HOUR
    ensures HourAt(day * 24 * HOUR + hour * HOUR + r - offset, offset) == hour
  {
    var x := 24 * day + hour;
    assert day * 24 * HOUR + hour * HOUR + r == x * HOUR + r;
    assert (x * HOUR + r) / HOUR == x;
    assert x % 24 == hour;
  }

  /** For hours of the day the quiet ones are those met going from the start hour on, round midnight if need be,
      before the end hour. */
  lemma QuietHoursAreTheArc(hour: int, quiet: QuietHours)
    requires 0 <= hour < 24 && 0 <= quiet.startHour < 24 && 0 <= quiet.endHour < 24
    ensures IsQuietHour(hour, quiet) <==> (hour - quiet.startHour) % 24 < (quiet.endHour - quiet.startHour) % 24
  {
  }

  function UrgencyText(urgency: Urgency): string {
    match urgency case Normal => "normal" case High => "high"
  }

  const NUL: char := '\0'

  function KeyOf(c: Candidate): string {
    c.userId + ([NUL] + (c.eventKey + ([NUL] + UrgencyText(c.urgency))))
  }

  function HasKey(key: string): Candidate -> bool { (c: Candidate) => KeyOf(c) == key }

  function Keys(cs: seq<Candidate>): (r: seq<string>)
    ensures |r| == |cs| && forall i :: 0 <= i < |cs| ==> r[i] == KeyOf(cs[i])
  {
    seq(|cs|, i requires 0 <= i < |cs| => KeyOf(cs[i]))
  }

  function NotificationIds(cs: seq<Candidate>): (r: seq<string>)
    ensures |r| == |cs| && forall i :: 0 <= i < |cs| ==> r[i] == cs[i].notificationId
  {
    seq(|cs|, i requires 0 <= i < |cs| => cs[i].notificationId)
  }

  /** The new time replaces the current one when its text is the greater one. */
  predicate TextAfter(t: int, current: int) {
    TextOrder.Before(DateTexts.Iso(current), DateTexts.Iso(t))
  }

  /** The time the candidates of a batch settle on, compared as text one after the other. */
  function LatestTime(cs: seq<Candidate>, now: int, policy: Policy): (t: int)
    requires cs != []
    ensures exists c :: c in cs && OwnTime(c, now, policy) == t
  {
    var last := |cs| - 1;
    assert cs == cs[..last] + [cs[last]];
    var t := OwnTime(cs[last], now, policy);
    if last == 0 then t
    else
      var current := LatestTime(cs[..last], now, policy);
      if TextAfter(t, current) then t else current
  }

  /** No member's text is greater than the chosen one's. */
  lemma {:induction false} LatestIsLastText(cs: seq<Candidate>, now: int, policy: Policy)
    requires cs != []
    ensures forall c :: c in cs ==> !TextAfter(OwnTime(c, now, policy), LatestTime(cs, now, policy))
  {
    hide OwnTime, DateTexts.Iso, TextOrder.Before;
    var last := |cs| - 1;
    assert cs == cs[..last] + [cs[last]];
    var t, chosen := OwnTime(cs[last], now, policy), LatestTime(cs, now, policy);
    TextOrder.BeforeIsTotal(DateTexts.Iso(chosen), DateTexts.Iso(chosen));
    if last > 0 {
      LatestIsLastText(cs[..last], now, policy);
      var current := LatestTime(cs[..last], now, policy);
      forall c | c in cs ensures !TextAfter(OwnTime(c, now, policy), chosen) {
        if c in cs[..last] && TextAfter(t, current) {
          NotAfterLater(OwnTime(c, now, policy), current, t);
        }
      }
    }
  }

  lemma NotAfterLater(t: int, current: int, next: int)
    requires !TextAfter(t, current) && TextAfter(next, current)
    ensures !TextAfter(t, next)
  {
    hide DateTexts.Iso, TextOrder.Before;
    if TextAfter(t, next) {
      TextOrder.BeforeIsTransitive(DateTexts.Iso(current), DateTexts.Iso(next), DateTexts.Iso(t));
    }
  }

  ghost predicate FourDigit(c: Candidate, now: int, policy: Policy) {
    DateTexts.FourDigitYear(OwnTime(c, now, policy))
  }

  /** As soon as one member asks for a year 0 to 9999 the chosen time is the latest of these members,
      whatever the others ask for. */
  lemma LatestOfFourDigits(cs: seq<Candidate>, now: int, policy: Policy)
    requires exists c :: c in cs && FourDigit(c, now, policy)
    ensures DateTexts.FourDigitYear(LatestTime(cs, now, policy))
    ensures forall c :: c in cs && FourDigit(c, now, policy) ==> OwnTime(c, now, policy) <= LatestTime(cs, now, policy)
  {
    hide OwnTime, LatestTime, DateTexts.FourDigitYear, DateTexts.Iso, TextOrder.Before;
    var chosen := LatestTime(cs, now, policy);
    LatestIsLastText(cs, now, policy);
    var one :| one in cs && FourDigit(one, now, policy);
    if !DateTexts.FourDigitYear(chosen) {
      TextOrder.LongYearSortsFirst(OwnTime(one, now, policy), chosen);
    }
    forall c | c in cs && FourDigit(c, now, policy) ensures OwnTime(c, now, policy) <= chosen {
      TextAfterIsLater(OwnTime(c, now, policy), chosen);
    }
  }

  lemma TextAfterIsLater(t: int, current: int)
    requires DateTexts.FourDigitYear(t) && DateTexts.FourDigitYear(current)
    ensures TextAfter(t, current) <==> t > current
  {
    TextOrder.IsoOrderIsTimeOrder(current, t);
  }

  /** For a clock in year 0 or later the chosen time is the latest of all exactly when the members' years
      all have four digits or none has. */
  lemma LatestIsMaximumIff(cs: seq<Candidate>, now: int, policy: Policy)
    requires cs != [] && -719_528 <= now / DateTexts.MS_DAY
    requires forall c :: c in cs ==> DateTexts.InRange(OwnTime(c, now, policy))
    ensures (forall c :: c in cs ==> OwnTime(c, now, policy) <= LatestTime(cs, now, policy)) <==>
            (forall c :: c in cs ==> FourDigit(c, now, policy)) || (forall c :: c in cs ==> !FourDigit(c, now, policy))
  {
    hide OwnTime, LatestTime, DateTexts.FourDigitYear, DateTexts.Iso, DateTexts.InRange;
    var chosen := LatestTime(cs, now, policy);
    if one :| one in cs && FourDigit(one, now, policy) {
      LatestOfFourDigits(cs, now, policy);
      if other :| other in cs && !FourDigit(other, now, policy) {
        LongYearIsLater(OwnTime(other, now, policy), now);
        LaterThanFourDigits(OwnTime(other, now, policy), chosen);
      }
    } else {
      LatestIsLastText(cs, now, policy);
      forall c | c in cs ensures OwnTime(c, now, policy) <= chosen {
        LongYearIsLater(OwnTime(c, now, policy), now);
        LongYearIsLater(chosen, now);
        TextOrder.LongIsoOrderIsTimeOrder(chosen, OwnTime(c, now, policy));
      }
    }
  }

  lemma LongYearIsLater(t: int, now: int)
    requires -719_528 <= now / DateTexts.MS_DAY && now <= t && !DateTexts.FourDigitYear(t)
    ensures 2_932_897 <= t / DateTexts.MS_DAY
  {
  }

  lemma LaterThanFourDigits(t: int, chosen: int)
    requires 2_932_897 <= t / DateTexts.MS_DAY && DateTexts.FourDigitYear(chosen)
    ensures chosen < t
  {
  }

  /** The batch of one key: its ids without repeats, at the latest time any of its candidates asks for. */
  function BatchOf(cs: seq<Candidate>, now: int, policy: Policy): Batch
    requires cs != []
  {
    Batch(cs[0].userId, cs[0].eventKey, Distinct(NotificationIds(cs)), LatestTime(cs, now, policy))
  }

  lemma KeyIsUsed(cs: seq<Candidate>, key: string)
    ensures key in Distinct(Keys(cs)) <==> Filter(cs, HasKey(key)) != []
  {
    FilterMembers(cs, HasKey(key));
    if key in Keys(cs) {
      var i :| 0 <= i < |cs| && Keys(cs)[i] == key;
      assert cs[i] in Filter(cs, HasKey(key));
    }
    if Filter(cs, HasKey(key)) != [] {
      var c := Filter(cs, HasKey(key))[0];
      assert c in Filter(cs, HasKey(key));
      var i :| 0 <= i < |cs| && cs[i] == c;
      assert Keys(cs)[i] == key;
    }
  }

  function Plan(cs: seq<Candidate>, now: int, policy: Policy): (batches: seq<Batch>)
    ensures |batches| == |Distinct(Keys(cs))|
  {
    var keys := Distinct(Keys(cs));
    seq(|keys|, i requires 0 <= i < |keys| =>
      KeyIsUsed(cs, keys[i]);
      BatchOf(Filter(cs, HasKey(keys[i])), now, policy))
  }

  lemma {:induction false} OneMore(cs: seq<Candidate>, c: Candidate, now: int, policy: Policy)
    ensures cs != [] ==>
      var ids := Distinct(NotificationIds(cs));
      BatchOf(cs + [c], now, policy) == BatchOf(cs, now, policy).(
        notificationIds := if c.notificationId in ids then ids else ids + [c.notificationId],
        deliverAfter := if TextAfter(OwnTime(c, now, policy), LatestTime(cs, now, policy)) then OwnTime(c, now, policy)
                        else LatestTime(cs, now, policy))
    ensures cs == [] ==> BatchOf(cs + [c], now, policy) ==
                         Batch(c.userId, c.eventKey, [c.notificationId], OwnTime(c, now, policy))
  {
    hide TextAfter, OwnTime;
    var more := cs + [c];
    assert more[..|cs|] == cs && more[|cs|] == c;
    assert NotificationIds(more)[..|cs|] == NotificationIds(cs);
    if cs == [] {
      assert NotificationIds(more)[..0] == [];
      assert Distinct<string>([]) == [];
    }
  }

  /** The insertion-ordered map after the candidates `cs`. */
  ghost predicate Grouped(cs: seq<Candidate>, order: seq<string>, groups: map<string, Batch>, now: int, policy: Policy) {
    && order == Distinct(Keys(cs))
    && (forall key :: key in groups <==> key in order)
    && forall key :: key in groups ==>
         Filter(cs, HasKey(key)) != [] && groups[key] == BatchOf(Filter(cs, HasKey(key)), now, policy)
  }

  lemma FilterSnoc(cs: seq<Candidate>, c: Candidate, key: string)
    ensures Filter(cs + [c], HasKey(key)) == if KeyOf(c) == key then Filter(cs, HasKey(key)) + [c] else Filter(cs, HasKey(key))
  {
    FilterAppend(cs, [c], HasKey(key));
    FilterCons(c, [], HasKey(key));
    assert [c] + [] == [c];
    assert Filter(cs, HasKey(key)) + [] == Filter(cs, HasKey(key));
  }

  lemma KeysSnoc(cs: seq<Candidate>, c: Candidate)
    ensures Distinct(Keys(cs + [c])) ==
            if KeyOf(c) in Distinct(Keys(cs)) then Distinct(Keys(cs)) else Distinct(Keys(cs)) + [KeyOf(c)]
  {
    assert Keys(cs + [c])[..|cs|] == Keys(cs);
  }

  lemma GroupOneMore(cs: seq<Candidate>, c: Candidate, order: seq<string>, groups: map<string, Batch>, batch: Batch, now: int, policy: Policy)
    requires Grouped(cs, order, groups, now, policy)
    requires Filter(cs + [c], HasKey(KeyOf(c))) != []
    requires batch == BatchOf(Filter(cs + [c], HasKey(KeyOf(c))), now, policy)
    ensures Grouped(cs + [c], if KeyOf(c) in groups then order else order + [KeyOf(c)], groups[KeyOf(c) := batch], now, policy)
  {
    hide BatchOf, Distinct, Keys;
    KeysSnoc(cs, c);
    forall key ensures key in groups && key != KeyOf(c) ==> Filter(cs + [c], HasKey(key)) == Filter(cs, HasKey(key)) {
      FilterSnoc(cs, c, key);
    }
  }

  /** Adds one candidate to its batch, or opens one. */
  method AddCandidate(ghost before: seq<Candidate>, order: seq<string>, groups: map<string, Batch>, c: Candidate, now: int, policy: Policy)
    returns (order': seq<string>, groups': map<string, Batch>)
    requires Grouped(before, order, groups, now, policy)
    ensures Grouped(before + [c], order', groups', now, policy)
  {
    var key := KeyOf(c);
    var quietEnd := None;
    if !(c.urgency.High? || policy.quietHours.None?) {
      quietEnd := FindQuietEnd(now, policy.quietHours.value, policy.offset);
    }
    var window := match policy.bundleWindowMinutes case None => 60 case Some(w) => w;
    var deliverAfter := Max(now, Max(c.createdAt + window * MINUTE, match quietEnd case None => 0 case Some(t) => t));
    assert deliverAfter == OwnTime(c, now, policy);
    KeyIsUsed(before, key);
    FilterSnoc(before, c, key);
    OneMore(Filter(before, HasKey(key)), c, now, policy);
    var batch;
    if key in groups {
      batch := groups[key];
      if c.notificationId !in batch.notificationIds {
        batch := batch.(notificationIds := batch.notificationIds + [c.notificationId]);
      }
      if TextAfter(deliverAfter, batch.deliverAfter) {
        batch := batch.(deliverAfter := deliverAfter);
      }
      order' := order;
    } else {
      batch := Batch(c.userId, c.eventKey, [c.notificationId], deliverAfter);
      order' := order + [key];
    }
    groups' := groups[key := batch];
    GroupOneMore(before, c, order, groups, batch, now, policy);
  }

  /** `[...groups.values()]`. */
  method ListBatches(order: seq<string>, groups: map<string, Batch>) returns (batches: seq<Batch>)
    requires forall key :: key in order ==> key in groups
    ensures |batches| == |order| && forall j :: 0 <= j < |order| ==> batches[j] == groups[order[j]]
  {
    batches := [];
    for i := 0 to |order|
      invariant |batches| == i && forall j :: 0 <= j < i ==> batches[j] == groups[order[j]]
    {
      batches := batches + [groups[order[i]]];
    }
  }

  method PlanNotificationDelivery(candidates: seq<Candidate>, now: int, policy: Policy) returns (batches: seq<Batch>)
    ensures batches == Plan(candidates, now, policy)
  {
    hide Distinct, Keys, Filter, BatchOf;
    var order: seq<string> := [];
    var groups: map<string, Batch> := map[];
    NothingGrouped(now, policy);
    for i := 0 to |candidates|
      invariant Grouped(candidates[..i], order, groups, now, policy)
    {
      order, groups := AddCandidate(candidates[..i], order, groups, candidates[i], now, policy);
      assert candidates[..i + 1] == candidates[..i] + [candidates[i]];
    }
    assert candidates[..|candidates|] == candidates;
    batches := ListBatches(order, groups);
    GroupedIsPlan(candidates, order, groups, batches, now, policy);
  }

  lemma NothingGrouped(now: int, policy: Policy)
    ensures Grouped([], [], map[], now, policy)
  {
    assert Keys([]) == [];
  }

  lemma GroupedIsPlan(cs: seq<Candidate>, order: seq<string>, groups: map<string, Batch>, batches: seq<Batch>, now: int, policy: Policy)
    requires Grouped(cs, order, groups, now, policy) && |batches| == |order|
    requires forall j :: 0 <= j < |order| ==> order[j] in groups && batches[j] == groups[order[j]]
    ensures batches == Plan(cs, now, policy)
  {
    hide BatchOf, Distinct, Keys;
    forall i | 0 <= i < |order| ensures batches[i] == Plan(cs, now, policy)[i] {
      PlanAt(cs, i, now, policy);
    }
  }

  /** The batch at a position of the plan. */
  lemma PlanAt(cs: seq<Candidate>, i: nat, now: int, policy: Policy)
    requires i < |Distinct(Keys(cs))|
    ensures Filter(cs, HasKey(Distinct(Keys(cs))[i])) != []
    ensures Plan(cs, now, policy)[i] == BatchOf(Filter(cs, HasKey(Distinct(Keys(cs))[i])), now, policy)
  {
    hide BatchOf, Distinct, Keys, Filter;
    KeyIsUsed(cs, Distinct(Keys(cs))[i]);
  }

  // ---- What the plan means ----

  lemma {:induction false} BeforeNul(a: string, x: string, b: string, y: string)
    requires NUL !in a && NUL !in b && a + ([NUL] + x) == b + ([NUL] + y)
    ensures a == b && x == y
  {
    var s, t := a + ([NUL] + x), b + ([NUL] + y);
    assert s[|a|] == NUL && t[|b|] == NUL;
    assert t[..|b|] == b && s[..|a|] == a;
    assert |a| == |b|;
    assert a == s[..|a|] && b == t[..|b|];
    assert x == s[|a| + 1..] && y == t[|b| + 1..];
  }

  lemma UrgencyKey(x: string, a: Urgency, y: string, b: Urgency)
    requires x + ([NUL] + UrgencyText(a)) == y + ([NUL] + UrgencyText(b))
    ensures a == b && x == y
  {
    var s, t := x + ([NUL] + UrgencyText(a)), y + ([NUL] + UrgencyText(b));
    assert s[|s| - 1] == if a.Normal? then 'l' else 'h';
    assert t[|t| - 1] == if b.Normal? then 'l' else 'h';
    assert |x| == |y|;
    assert x == s[..|x|] && y == t[..|y|];
  }

  /** With no NUL in the user ids the key is the (user, event, urgency) triple. */
  lemma KeyIsTriple(c: Candidate, d: Candidate)
    requires NUL !in c.userId && NUL !in d.userId
    ensures KeyOf(c) == KeyOf(d) <==> c.userId == d.userId && c.eventKey == d.eventKey && c.urgency == d.urgency
  {
    if KeyOf(c) == KeyOf(d) {
      BeforeNul(c.userId, c.eventKey + ([NUL] + UrgencyText(c.urgency)), d.userId, d.eventKey + ([NUL] + UrgencyText(d.urgency)));
      UrgencyKey(c.eventKey, c.urgency, d.eventKey, d.urgency);
    }
  }

  ghost predicate SameTriple(c: Candidate, d: Candidate) {
    c.userId == d.userId && c.eventKey == d.eventKey && c.urgency == d.urgency
  }

  /** A candidate's key between its user id and its urgency. */
  function Middle(c: Candidate): string { [NUL] + c.eventKey }

  /** `d`'s user id goes on after `c`'s with a piece that begins with NUL, and the rest is `d`'s event. */
  predicate Absorbs(c: Candidate, d: Candidate) {
    var n := |d.userId| - |c.userId|;
    && c.urgency == d.urgency && 0 < n <= |Middle(c)|
    && d.userId == c.userId + Middle(c)[..n] && Middle(d) == Middle(c)[n..]
  }

  lemma KeyParts(c: Candidate, d: Candidate)
    ensures KeyOf(c) == KeyOf(d) <==> c.urgency == d.urgency && c.userId + Middle(c) == d.userId + Middle(d)
  {
    assert KeyOf(c) == (c.userId + Middle(c)) + ([NUL] + UrgencyText(c.urgency));
    assert KeyOf(d) == (d.userId + Middle(d)) + ([NUL] + UrgencyText(d.urgency));
    if KeyOf(c) == KeyOf(d) {
      UrgencyKey(c.userId + Middle(c), c.urgency, d.userId + Middle(d), d.urgency);
    }
  }

  lemma LongerUserId(c: Candidate, d: Candidate)
    requires |c.userId| < |d.userId|
    ensures c.urgency == d.urgency && c.userId + Middle(c) == d.userId + Middle(d) <==> Absorbs(c, d)
  {
    var n := |d.userId| - |c.userId|;
    var s, t := c.userId + Middle(c), d.userId + Middle(d);
    if s == t {
      assert |Middle(d)| > 0;
      assert d.userId == t[..|d.userId|] == s[..|d.userId|];
      assert Middle(d) == t[|d.userId|..] == s[|d.userId|..];
      assert s[..|d.userId|] == c.userId + Middle(c)[..n];
    }
  }

  lemma EqualUserIds(c: Candidate, d: Candidate)
    requires |c.userId| == |d.userId|
    ensures c.userId + Middle(c) == d.userId + Middle(d) <==> c.userId == d.userId && c.eventKey == d.eventKey
  {
    var s, t := c.userId + Middle(c), d.userId + Middle(d);
    if s == t {
      assert c.userId == s[..|c.userId|] && d.userId == t[..|d.userId|];
      assert c.eventKey == s[|c.userId| + 1..] && d.eventKey == t[|d.userId| + 1..];
    }
  }

  /** Exactly when two candidates share a batch, for arbitrary ids. */
  lemma KeysCollideIff(c: Candidate, d: Candidate)
    ensures KeyOf(c) == KeyOf(d) <==> SameTriple(c, d) || Absorbs(c, d) || Absorbs(d, c)
  {
    hide KeyOf, Middle;
    KeyParts(c, d);
    if |c.userId| < |d.userId| {
      LongerUserId(c, d);
    } else if |d.userId| < |c.userId| {
      LongerUserId(d, c);
    } else {
      EqualUserIds(c, d);
    }
  }

  /** Two users that share a batch. */
  lemma NulMergesUsers(t: int)
    ensures var c, d := Candidate("n", "u", "e\0f", t, Normal), Candidate("m", "u\0e", "f", t, Normal);
            c.userId != d.userId && Absorbs(c, d) && KeyOf(c) == KeyOf(d)
  {
    var c, d := Candidate("n", "u", "e\0f", t, Normal), Candidate("m", "u\0e", "f", t, Normal);
    assert d.userId == c.userId + Middle(c)[..2] && Middle(d) == Middle(c)[2..];
    KeysCollideIff(c, d);
  }

  /** `batch` is what the candidates with this key make: their ids, at one of their times, none of the others'
      being the greater text, nor later as far as its year has four digits. */
  ghost predicate BatchesKey(batch: Batch, key: string, cs: seq<Candidate>, now: int, policy: Policy) {
    && (exists c :: c in cs && KeyOf(c) == key && batch.userId == c.userId && batch.eventKey == c.eventKey)
    && NoDuplicates(batch.notificationIds)
    && (forall id :: id in batch.notificationIds <==> exists c :: c in cs && KeyOf(c) == key && c.notificationId == id)
    && (exists c :: c in cs && KeyOf(c) == key && OwnTime(c, now, policy) == batch.deliverAfter)
    && (forall c :: c in cs && KeyOf(c) == key ==> !TextAfter(OwnTime(c, now, policy), batch.deliverAfter))
    && (forall c :: c in cs && KeyOf(c) == key && FourDigit(c, now, policy) ==> OwnTime(c, now, policy) <= batch.deliverAfter)
  }

  lemma BatchOfKey(cs: seq<Candidate>, key: string, now: int, policy: Policy)
    requires Filter(cs, HasKey(key)) != []
    ensures BatchesKey(BatchOf(Filter(cs, HasKey(key)), now, policy), key, cs, now, policy)
  {
    hide OwnTime, LatestTime, FourDigit, TextAfter, KeyOf, Filter, Distinct;
    var same := Filter(cs, HasKey(key));
    FilterMembers(cs, HasKey(key));
    LatestIsLastText(same, now, policy);
    if c :| c in same && FourDigit(c, now, policy) {
      LatestOfFourDigits(same, now, policy);
    }
    assert same[0] in same;
    IdsOfMembers(same);
    assert forall c :: c in same <==> c in cs && KeyOf(c) == key;
  }

  lemma IdsOfMembers(cs: seq<Candidate>)
    ensures forall id :: id in NotificationIds(cs) <==> exists c :: c in cs && c.notificationId == id
  {
    forall id ensures id in NotificationIds(cs) <==> exists c :: c in cs && c.notificationId == id {
      if id in NotificationIds(cs) {
        var i :| 0 <= i < |cs| && NotificationIds(cs)[i] == id;
        assert cs[i] in cs;
      }
      if c :| c in cs && c.notificationId == id {
        var i :| 0 <= i < |cs| && cs[i] == c;
        assert NotificationIds(cs)[i] == id;
      }
    }
  }

  /** Every batch of the plan is what one key's candidates make, and every candidate's key has exactly one batch,
      in order of first appearance. */
  lemma PlanBatchesKeys(cs: seq<Candidate>, now: int, policy: Policy)
    ensures var keys := Distinct(Keys(cs));
      && |Plan(cs, now, policy)| == |keys| && NoDuplicates(keys)
      && (forall i :: 0 <= i < |keys| ==> BatchesKey(Plan(cs, now, policy)[i], keys[i], cs, now, policy))
      && (forall c :: c in cs ==> KeyOf(c) in keys)
  {
    hide BatchOf, Distinct, BatchesKey, KeyOf, Filter, Plan;
    var keys := Distinct(Keys(cs));
    forall i | 0 <= i < |keys| ensures BatchesKey(Plan(cs, now, policy)[i], keys[i], cs, now, policy) {
      PlanAt(cs, i, now, policy);
      BatchOfKey(cs, keys[i], now, policy);
    }
    forall c | c in cs ensures KeyOf(c) in keys {
      var i :| 0 <= i < |cs| && cs[i] == c;
      assert Keys(cs)[i] == KeyOf(c);
    }
  }

  /** No two users or events of the input share a key. */
  ghost predicate KeysAreTriples(cs: seq<Candidate>) {
    forall c, d :: c in cs && d in cs && KeyOf(c) == KeyOf(d) ==> SameTriple(c, d)
  }

  lemma NulFreeKeysAreTriples(cs: seq<Candidate>)
    requires forall c :: c in cs ==> NUL !in c.userId
    ensures KeysAreTriples(cs)
  {
    hide KeyOf;
    forall c, d | c in cs && d in cs && KeyOf(c) == KeyOf(d) ensures SameTriple(c, d) {
      KeyIsTriple(c, d);
    }
  }

  /** `batch` is what the candidates like `c` make. */
  ghost predicate BatchesLike(batch: Batch, c: Candidate, cs: seq<Candidate>, now: int, policy: Policy) {
    && batch.userId == c.userId && batch.eventKey == c.eventKey
    && NoDuplicates(batch.notificationIds)
    && (forall id :: id in batch.notificationIds <==> exists d :: d in cs && SameTriple(c, d) && d.notificationId == id)
    && (exists d :: d in cs && SameTriple(c, d) && OwnTime(d, now, policy) == batch.deliverAfter)
    && (forall d :: d in cs && SameTriple(c, d) ==> !TextAfter(OwnTime(d, now, policy), batch.deliverAfter))
    && (forall d :: d in cs && SameTriple(c, d) && FourDigit(d, now, policy) ==> OwnTime(d, now, policy) <= batch.deliverAfter)
  }

  lemma KeyBatchIsLike(batch: Batch, c: Candidate, cs: seq<Candidate>, now: int, policy: Policy)
    requires c in cs && KeysAreTriples(cs) && BatchesKey(batch, KeyOf(c), cs, now, policy)
    ensures BatchesLike(batch, c, cs, now, policy)
  {
    hide OwnTime, TextAfter, FourDigit, KeyOf;
    forall d | d in cs ensures KeyOf(d) == KeyOf(c) <==> SameTriple(c, d) {
      SameTripleSameKey(c, d);
    }
  }

  lemma SameTripleSameKey(c: Candidate, d: Candidate)
    ensures SameTriple(c, d) ==> KeyOf(c) == KeyOf(d)
  {
  }

  /** With keys that tell the triples apart, every batch of the plan belongs to one (user, event, urgency) ... */
  lemma PlanBatchIsOneTriple(cs: seq<Candidate>, i: nat, now: int, policy: Policy) returns (c: Candidate)
    requires i < |Plan(cs, now, policy)| && KeysAreTriples(cs)
    ensures c in cs && KeyOf(c) == Distinct(Keys(cs))[i] && BatchesLike(Plan(cs, now, policy)[i], c, cs, now, policy)
  {
    hide Distinct, BatchesKey, BatchesLike, KeyOf, Plan, KeysAreTriples;
    var keys := Distinct(Keys(cs));
    assert keys[i] in keys;
    var j :| 0 <= j < |cs| && Keys(cs)[j] == keys[i];
    c := cs[j];
    PlanBatchesKeys(cs, now, policy);
    KeyBatchIsLike(Plan(cs, now, policy)[i], c, cs, now, policy);
  }

  /** ... and every candidate's triple has exactly one batch, in order of first appearance. */
  lemma PlanCoversEveryTriple(cs: seq<Candidate>, c: Candidate, now: int, policy: Policy) returns (i: nat)
    requires c in cs && KeysAreTriples(cs)
    ensures i < |Plan(cs, now, policy)| && BatchesLike(Plan(cs, now, policy)[i], c, cs, now, policy)
    ensures forall j :: 0 <= j < |Plan(cs, now, policy)| && j != i ==> Distinct(Keys(cs))[j] != KeyOf(c)
  {
    hide Distinct, BatchesKey, BatchesLike, KeyOf, Plan, KeysAreTriples;
    var keys := Distinct(Keys(cs));
    PlanBatchesKeys(cs, now, policy);
    i :| 0 <= i < |keys| && keys[i] == KeyOf(c);
    KeyBatchIsLike(Plan(cs, now, policy)[i], c, cs, now, policy);
  }

  /** Two batches with the same ids at the same time, as text. */
  ghost predicate SameBatch(a: Batch, b: Batch) {
    && DateTexts.Iso(a.deliverAfter) == DateTexts.Iso(b.deliverAfter)
    && forall id :: id in a.notificationIds <==> id in b.notificationIds
  }

  /** Reordering the candidates changes no batch's ids or time: each batch of one plan has its like in the other,
      for the same key and, when keys tell the triples apart, for the same user and event. */
  lemma PlanIgnoresOrder(cs: seq<Candidate>, ds: seq<Candidate>, i: nat, now: int, policy: Policy) returns (j: nat)
    requires multiset(cs) == multiset(ds) && i < |Plan(cs, now, policy)|
    ensures j < |Plan(ds, now, policy)| && Distinct(Keys(cs))[i] == Distinct(Keys(ds))[j]
    ensures var a, b := Plan(cs, now, policy)[i], Plan(ds, now, policy)[j];
      SameBatch(a, b) && (KeysAreTriples(cs) ==> a.userId == b.userId && a.eventKey == b.eventKey)
  {
    hide Distinct, BatchesKey, KeyOf, Plan, KeysAreTriples, SameBatch;
    forall c ensures c in cs <==> c in ds {
      assert c in multiset(cs) <==> c in multiset(ds);
    }
    PlanBatchesKeys(cs, now, policy);
    PlanBatchesKeys(ds, now, policy);
    var key := Distinct(Keys(cs))[i];
    assert key in Distinct(Keys(cs));
    var k :| 0 <= k < |cs| && Keys(cs)[k] == key;
    assert cs[k] in ds;
    j :| 0 <= j < |Distinct(Keys(ds))| && Distinct(Keys(ds))[j] == key;
    SameKeySameBatch(Plan(cs, now, policy)[i], Plan(ds, now, policy)[j], key, cs, ds, now, policy);
  }

  lemma SameKeySameBatch(a: Batch, b: Batch, key: string, cs: seq<Candidate>, ds: seq<Candidate>, now: int, policy: Policy)
    requires forall c :: c in cs <==> c in ds
    requires BatchesKey(a, key, cs, now, policy) && BatchesKey(b, key, ds, now, policy)
    ensures SameBatch(a, b) && (KeysAreTriples(cs) ==> a.userId == b.userId && a.eventKey == b.eventKey)
  {
    hide OwnTime, FourDigit, KeyOf, DateTexts.Iso, TextOrder.Before;
    TextOrder.BeforeIsTotal(DateTexts.Iso(a.deliverAfter), DateTexts.Iso(b.deliverAfter));
  }

  /** Urgent candidates never wait for quiet hours. */
  lemma UrgentIgnoresQuietHours(c: Candidate, now: int, policy: Policy, other: Option<QuietHours>)
    requires c.urgency.High?
    ensures OwnTime(c, now, policy) == OwnTime(c, now, policy.(quietHours := other))
  {
  }
}
