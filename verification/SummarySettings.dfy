/** Retrying a board-summary change: the request that failed is sent again when the same change is asked for. */
module SummarySettings {
  import opened Lists
  import opened Retries

  datatype MetricKind = Distribution | Sum
  datatype Metric = Metric(id: string, kind: MetricKind, columnKey: string)
  datatype Direction = Earlier | Later

  datatype Intent =
    | Add(metric: Metric)
    | Remove(metricId: string)
    | MoveMetric(metricId: string, direction: Direction)

  datatype Request = Request(requestId: string, intent: Intent)

  datatype Reply = Replied(requestId: string, ok: bool) | Threw

  function KindText(kind: MetricKind): string {
    match kind case Distribution => "distribution" case Sum => "sum"
  }

  function DirectionText(direction: Direction): string {
    match direction case Earlier => "-1" case Later => "1"
  }

  function KindColumn(kind: MetricKind, columnKey: string): string { KindText(kind) + (":" + columnKey) }

  function IntentKey(intent: Intent): string {
    match intent
    case Add(m) => "add:" + (m.id + (":" + KindColumn(m.kind, m.columnKey)))
    case Remove(id) => "remove:" + id
    case MoveMetric(id, direction) => "move:" + (id + (":" + DirectionText(direction)))
  }

  /** The changes the popover offers: it names an added metric after its kind and column. */
  predicate Offered(intent: Intent) {
    intent.Add? ==> intent.metric.id == KindColumn(intent.metric.kind, intent.metric.columnKey)
  }

  class SummaryEditor {
    var submitting: bool
    var retry: Option<(string, Request)>
    /** The request on its way, with the key it was submitted under. */
    var sending: Option<(string, Request)>
    ghost var calls: seq<Call<string, Intent>>

    ghost predicate Valid() reads this {
      && Disciplined(calls)
      && (submitting <==> sending.Some?)
      && (sending.Some? ==> calls != [] && Describes(calls[|calls| - 1], sending.value))
      && (!submitting && retry.Some? ==> calls != [] && Describes(calls[|calls| - 1], retry.value))
      && (!submitting && calls != [] ==> (calls[|calls| - 1].settled <==> retry.None?))
    }

    constructor ()
      ensures Valid() && !submitting && retry.None? && calls == []
    {
      submitting, retry, sending, calls := false, None, None, [];
    }

    /** `busy` is the caller's own pending flag; `freshId` is a new random id. */
    method Submit(intent: Intent, canEdit: bool, busy: bool, freshId: string) returns (request: Option<Request>)
      requires Valid() && Unused(calls, freshId)
      modifies this
      ensures Valid() && retry == old(retry)
      ensures request.Some? <==> canEdit && !busy && !old(submitting)
      ensures request.None? ==> calls == old(calls) && submitting == old(submitting)
      ensures request.Some? ==>
        && submitting && IntentKey(request.value.intent) == IntentKey(intent)
        && request.value == (if old(retry).Some? && old(retry).value.0 == IntentKey(intent)
                             then old(retry).value.1 else Request(freshId, intent))
        && (Offered(intent) && (old(retry).Some? ==> Offered(old(retry).value.1.intent)) ==> request.value.intent == intent)
        && calls == old(calls) + [Call(IntentKey(intent), request.value.requestId, request.value.intent, false)]
    {
      if !canEdit || busy || submitting {
        return None;
      }
      var key := IntentKey(intent);
      var chosen := if retry.Some? && retry.value.0 == key then retry.value.1 else Request(freshId, intent);
      if Offered(intent) && Offered(chosen.intent) && IntentKey(intent) == IntentKey(chosen.intent) {
        OfferedKeysAreDistinct(intent, chosen.intent);
      }
      ghost var call := Call(key, chosen.requestId, chosen.intent, false);
      SendKeepsDiscipline(calls, call);
      calls := calls + [call];
      submitting := true;
      sending := Some((key, chosen));
      return Some(chosen);
    }

    /** Only an ok answer to this very request forgets it. */
    method Finish(reply: Reply)
      requires Valid() && submitting
      modifies this
      ensures Valid() && !submitting
      ensures var settled := reply == Replied(old(sending).value.1.requestId, true);
              && retry == (if settled then None else old(sending))
              && calls == Answered(old(calls), settled)
    {
      var key, request := sending.value.0, sending.value.1;
      match reply {
        case Replied(id, ok) =>
          if id != request.requestId || !ok {
            retry := Some((key, request));
          } else {
            retry := None;
          }
        case Threw =>
          retry := Some((key, request));
      }
      submitting, sending := false, None;
      AnswerKeepsDiscipline(calls, retry.None?);
      calls := Answered(calls, retry.None?);
    }
  }

  ghost predicate Describes(call: Call<string, Intent>, entry: (string, Request)) {
    call.ask == entry.0 == IntentKey(entry.1.intent) && call.requestId == entry.1.requestId && call.payload == entry.1.intent
  }

  // ---- When the key tells changes apart ----

  lemma Behind(prefix: string, s: string, t: string)
    requires prefix + s == prefix + t
    ensures s == t
  {
    assert s == (prefix + s)[|prefix|..] && t == (prefix + t)[|prefix|..];
  }

  lemma KindKey(a: MetricKind, b: MetricKind, x: string, y: string)
    requires KindColumn(a, x) == KindColumn(b, y)
    ensures a == b && x == y
  {
    assert KindColumn(a, x)[0] == KindText(a)[0] && KindColumn(b, y)[0] == KindText(b)[0];
    Behind(KindText(a), ":" + x, ":" + y);
    Behind(":", x, y);
  }

  lemma DirectionKey(a: Direction, b: Direction, x: string, y: string)
    requires x + (":" + DirectionText(a)) == y + (":" + DirectionText(b))
    ensures a == b && x == y
  {
    var s, t := x + (":" + DirectionText(a)), y + (":" + DirectionText(b));
    assert s[|s| - 2] == if a.Earlier? then '-' else ':';
    assert t[|t| - 2] == if b.Earlier? then '-' else ':';
    assert a == b;
    assert |x| == |y|;
    assert x == s[..|x|] && y == t[..|y|];
  }

  lemma Doubled(s: string, t: string)
    requires s + (":" + s) == t + (":" + t)
    ensures s == t
  {
    assert |s| == |t|;
    assert s == (s + (":" + s))[..|s|] && t == (t + (":" + t))[..|t|];
  }

  lemma FirstLetter(intent: Intent)
    ensures IntentKey(intent) != []
    ensures IntentKey(intent)[0] == if intent.Add? then 'a' else if intent.Remove? then 'r' else 'm'
  {
  }

  /** For every change the popover offers, a retry is never mistaken for another change. */
  lemma OfferedKeysAreDistinct(a: Intent, b: Intent)
    requires Offered(a) && Offered(b)
    ensures IntentKey(a) == IntentKey(b) <==> a == b
  {
    if IntentKey(a) == IntentKey(b) {
      FirstLetter(a);
      FirstLetter(b);
      match a {
        case Add(m) =>
          Behind("add:", m.id + (":" + m.id), b.metric.id + (":" + b.metric.id));
          Doubled(m.id, b.metric.id);
          KindKey(m.kind, b.metric.kind, m.columnKey, b.metric.columnKey);
        case Remove(id) => Behind("remove:", id, b.metricId);
        case MoveMetric(id, direction) =>
          Behind("move:", id + (":" + DirectionText(direction)), b.metricId + (":" + DirectionText(b.direction)));
          DirectionKey(direction, b.direction, id, b.metricId);
      }
    }
  }

  /** `m`'s key after its id. */
  function Tail(m: Metric): string { ":" + KindColumn(m.kind, m.columnKey) }

  /** `b`'s id goes on after `a`'s with a piece of `a`'s kind and column, and the rest reads as `b`'s own. */
  predicate Absorbs(a: Metric, b: Metric) {
    var n := |b.id| - |a.id|;
    0 < n <= |Tail(a)| && b.id == a.id + Tail(a)[..n] && Tail(b) == Tail(a)[n..]
  }

  lemma LongerId(a: Metric, b: Metric)
    requires |a.id| < |b.id|
    ensures a.id + Tail(a) == b.id + Tail(b) <==> Absorbs(a, b)
  {
    var n := |b.id| - |a.id|;
    var s, t := a.id + Tail(a), b.id + Tail(b);
    if s == t {
      assert b.id == t[..|b.id|] == s[..|b.id|];
      assert Tail(b) == t[|b.id|..] == s[|b.id|..];
      assert |Tail(b)| > 0;
      assert s[..|b.id|] == a.id + Tail(a)[..n];
    }
  }

  /** Exactly when the keys of two added metrics with arbitrary ids coincide. */
  lemma AddKeysCollideIff(a: Metric, b: Metric)
    ensures IntentKey(Add(a)) == IntentKey(Add(b)) <==> a == b || Absorbs(a, b) || Absorbs(b, a)
  {
    if a.id + Tail(a) == b.id + Tail(b) {
      SameTailed(a, b);
    }
    if IntentKey(Add(a)) == IntentKey(Add(b)) {
      Behind("add:", a.id + Tail(a), b.id + Tail(b));
    }
    if |a.id| < |b.id| {
      LongerId(a, b);
    } else if |b.id| < |a.id| {
      LongerId(b, a);
    }
  }

  lemma SameTailed(a: Metric, b: Metric)
    requires a.id + Tail(a) == b.id + Tail(b)
    ensures |a.id| == |b.id| ==> a == b
  {
    if |a.id| == |b.id| {
      assert a.id == (a.id + Tail(a))[..|a.id|] && b.id == (b.id + Tail(b))[..|b.id|];
      Behind(a.id, Tail(a), Tail(b));
      Behind(":", KindColumn(a.kind, a.columnKey), KindColumn(b.kind, b.columnKey));
      KindKey(a.kind, b.kind, a.columnKey, b.columnKey);
    }
  }

  /** Such a pair: retrying the second would send the first again. */
  lemma CollidingKeys()
    ensures var a, b := Metric("x", Sum, "y:sum:z"), Metric("x:sum:y", Sum, "z");
            a != b && IntentKey(Add(a)) == IntentKey(Add(b)) && !Offered(Add(a))
  {
    assert IntentKey(Add(Metric("x", Sum, "y:sum:z"))) == "add:x:sum:y:sum:z";
    assert IntentKey(Add(Metric("x:sum:y", Sum, "z"))) == "add:x:sum:y:sum:z";
  }
}
