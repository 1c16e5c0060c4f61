/** The notification worker: a batch handler that defers or sends, under redelivery, retries and lost time. */
module NotifyWorker {
  import opened Lists
  import opened DeliveryPolicy

  /** A job's payload; a missing text field is empty. */
  datatype JobData = JobData(messageId: string, userId: string, eventKey: string, createdAt: Option<int>, urgency: Option<Urgency>)

  datatype Status = Queued | Sent | Failed | Canceled
  datatype Message = Message(channel: string, status: Status)

  datatype SendResult = SendOk(providerMessageId: string) | SendFailed(retryable: bool)

  /** `providers` lists the channels each provider supports, in order. */
  datatype Config = Config(policy: Option<Policy>, defers: bool, providers: seq<set<string>>)

  datatype Outcome = WasSent(providerMessageId: string) | WasFailed | WasInvalid | Threw

  datatype SendRecord = SendRecord(messageId: string, provider: nat, ok: bool)
  datatype Timed = Timed(data: JobData, at: int)

  /** One job as the queue hands it over, with the clock and the provider's answer should it be sent. */
  datatype Delivery = Delivery(data: JobData, clock: int, answer: SendResult)

  /** The stored messages, the payloads ever put on the queue, and what the worker did. */
  datatype System = System(
    messages: map<string, Message>,
    known: set<JobData>,
    sends: seq<SendRecord>,
    handed: seq<Timed>,
    deferred: seq<Timed>)

  const EMPTY_SYSTEM := System(map[], {}, [], [], [])

  predicate HasMetadata(data: JobData) {
    data.userId != "" && data.eventKey != "" && data.createdAt.Some? && data.urgency.Some?
  }

  /** The first provider that supports the channel. */
  function ResolveProvider(providers: seq<set<string>>, channel: string): (p: Option<nat>)
    ensures p.Some? ==> p.value < |providers| && channel in providers[p.value]
                        && forall i :: 0 <= i < p.value ==> channel !in providers[i]
    ensures p.None? ==> forall i :: 0 <= i < |providers| ==> channel !in providers[i]
  {
    if providers == [] then None
    else if channel in providers[0] then Some(0)
    else match ResolveProvider(providers[1..], channel) case None => None case Some(i) => Some(i + 1)
  }

  /** Only a message that is still queued is loaded. */
  predicate Loads(sys: System, id: string) { id in sys.messages && sys.messages[id].status == Queued }

  function SetStatus(sys: System, id: string, status: Status): System
    requires id in sys.messages
  {
    sys.(messages := sys.messages[id := sys.messages[id].(status := status)])
  }

  function Process(config: Config, sys: System, data: JobData, answer: SendResult): (System, Outcome) {
    var id := data.messageId;
    if id == "" then (sys, WasInvalid)
    else if !Loads(sys, id) then (sys, WasFailed)
    else
      match ResolveProvider(config.providers, sys.messages[id].channel)
      case None => (SetStatus(sys, id, Failed), WasFailed)
      case Some(provider) =>
        var tried := sys.(sends := sys.sends + [SendRecord(id, provider, answer.SendOk?)]);
        match answer
        case SendOk(pid) => (SetStatus(tried, id, Sent), WasSent(pid))
        case SendFailed(retryable) => if retryable then (tried, Threw) else (SetStatus(tried, id, Failed), WasFailed)
  }

  function CandidateOf(data: JobData): Candidate
    requires HasMetadata(data)
  {
    Candidate(data.messageId, data.userId, data.eventKey, data.createdAt.value, data.urgency.value)
  }

  /** The handler plans this job before sending it. */
  predicate Plans(config: Config, data: JobData) { config.policy.Some? && config.defers && HasMetadata(data) }

  function HandleJob(config: Config, sys: System, d: Delivery): (System, Outcome) {
    if Plans(config, d.data) && OwnTime(CandidateOf(d.data), d.clock, config.policy.value) > d.clock then
      var until := OwnTime(CandidateOf(d.data), d.clock, config.policy.value);
      (sys.(known := sys.known + {d.data}, deferred := sys.deferred + [Timed(d.data, until)]), WasFailed)
    else
      Process(config, sys.(handed := sys.handed + [Timed(d.data, d.clock)]), d.data, d.answer)
  }

  /** The jobs in order; a throw leaves the rest for the queue to hand over again. */
  function HandleBatch(config: Config, sys: System, ds: seq<Delivery>): (System, bool)
    decreases |ds|
  {
    if ds == [] then (sys, false)
    else
      var (next, outcome) := HandleJob(config, sys, ds[0]);
      if outcome.Threw? then (next, true) else HandleBatch(config, next, ds[1..])
  }

  class Worker {
    const config: Config
    var messages: map<string, Message>
    ghost var sys: System

    ghost predicate Valid() reads this { sys.messages == messages }

    constructor (config: Config)
      ensures Valid() && this.config == config && sys == EMPTY_SYSTEM
    {
      this.config, messages, sys := config, map[], EMPTY_SYSTEM;
    }

    /** Refuses a job without the fields the delivery policy needs. */
    method Enqueue(data: JobData) returns (accepted: bool)
      requires Valid()
      modifies this`sys
      ensures Valid() && accepted == HasMetadata(data)
      ensures sys == Step(config, old(sys), Enqueued(data))
    {
      if data.userId == "" || data.eventKey == "" || data.createdAt.None? || data.urgency.None? {
        return false;
      }
      sys := sys.(known := sys.known + {data});
      return true;
    }

    method ProcessNotifyJob(data: JobData, answer: SendResult) returns (outcome: Outcome)
      requires Valid()
      modifies this
      ensures Valid() && (sys, outcome) == Process(config, old(sys), data, answer)
    {
      var id := data.messageId;
      if id == "" {
        return WasInvalid;
      }
      if id !in messages || messages[id].status != Queued {
        return WasFailed;
      }
      var provider := ResolveProvider(config.providers, messages[id].channel);
      if provider.None? {
        messages := messages[id := messages[id].(status := Failed)];
        outcome := WasFailed;
      } else {
        sys := sys.(sends := sys.sends + [SendRecord(id, provider.value, answer.SendOk?)]);
        match answer {
          case SendOk(pid) =>
            messages := messages[id := messages[id].(status := Sent)];
            outcome := WasSent(pid);
          case SendFailed(retryable) =>
            if retryable {
              outcome := Threw;
            } else {
              messages := messages[id := messages[id].(status := Failed)];
              outcome := WasFailed;
            }
        }
      }
      sys := sys.(messages := messages);
    }

    method Handle(jobs: seq<Delivery>) returns (threw: bool)
      requires Valid()
      modifies this
      ensures Valid() && (sys, threw) == HandleBatch(config, old(sys), jobs)
    {
      hide OwnTime, Plan, Process;
      for i := 0 to |jobs|
        invariant Valid() && HandleBatch(config, sys, jobs[i..]) == HandleBatch(config, old(sys), jobs)
      {
        var job := jobs[i];
        assert jobs[i..][0] == job && jobs[i..][1..] == jobs[i + 1..];
        var until := job.clock;
        if config.policy.Some? && config.defers && HasMetadata(job.data) {
          var batches := PlanNotificationDelivery([CandidateOf(job.data)], job.clock, config.policy.value);
          PlanOfOne(CandidateOf(job.data), job.clock, config.policy.value);
          until := batches[0].deliverAfter;
        }
        if until > job.clock {
          sys := sys.(known := sys.known + {job.data}, deferred := sys.deferred + [Timed(job.data, until)]);
        } else {
          sys := sys.(handed := sys.handed + [Timed(job.data, job.clock)]);
          var outcome := ProcessNotifyJob(job.data, job.answer);
          if outcome.Threw? {
            return true;
          }
        }
      }
      threw := false;
    }
  }

  lemma PlanOfOne(c: Candidate, now: int, policy: Policy)
    ensures Plan([c], now, policy) == [Batch(c.userId, c.eventKey, [c.notificationId], OwnTime(c, now, policy))]
  {
    hide OwnTime, LatestTime, KeyOf, BatchOf;
    assert Keys([c]) == [KeyOf(c)];
    assert [KeyOf(c)][..0] == [] && Distinct([KeyOf(c)]) == [KeyOf(c)];
    FilterCons(c, [], HasKey(KeyOf(c)));
    assert [c] + [] == [c];
    PlanAt([c], 0, now, policy);
    OneMore([], c, now, policy);
    assert [] + [c] == [c];
  }

  // ---- Every history ----

  datatype Event =
    | MessageStored(id: string, channel: string)
    | MessageCanceled(id: string)
    | Enqueued(data: JobData)
    | BatchHandled(deliveries: seq<Delivery>)

  /** The queue hands over only what was put on it, any number of times; a stored message is new. */
  ghost predicate Possible(sys: System, event: Event) {
    match event
    case MessageStored(id, _) => id !in sys.messages
    case MessageCanceled(id) => Loads(sys, id)
    case Enqueued(_) => true
    case BatchHandled(ds) => forall i :: 0 <= i < |ds| ==> ds[i].data in sys.known
  }

  ghost function Step(config: Config, sys: System, event: Event): System
    requires Possible(sys, event)
  {
    match event
    case MessageStored(id, channel) => sys.(messages := sys.messages[id := Message(channel, Queued)])
    case MessageCanceled(id) => SetStatus(sys, id, Canceled)
    case Enqueued(data) => if HasMetadata(data) then sys.(known := sys.known + {data}) else sys
    case BatchHandled(ds) => HandleBatch(config, sys, ds).0
  }

  ghost predicate IsRun(config: Config, states: seq<System>, events: seq<Event>) {
    && |states| == |events| + 1 && states[0] == EMPTY_SYSTEM
    && forall i :: 0 <= i < |events| ==> Possible(states[i], events[i]) && states[i + 1] == Step(config, states[i], events[i])
  }

  /** The exact condition for handing a job to the sender. */
  ghost predicate Ready(data: JobData, at: int, policy: Policy) {
    HasMetadata(data) && OwnTime(CandidateOf(data), at, policy) <= at
  }

  ghost predicate SentOnce(sys: System) {
    && (forall i, j :: 0 <= i < j < |sys.sends| && sys.sends[i].ok && sys.sends[j].ok ==>
          sys.sends[i].messageId != sys.sends[j].messageId)
    && (forall i :: 0 <= i < |sys.sends| && sys.sends[i].ok ==>
          sys.sends[i].messageId in sys.messages && sys.messages[sys.sends[i].messageId].status == Sent)
    && (forall id :: id in sys.messages && sys.messages[id].status == Sent ==>
          exists i :: 0 <= i < |sys.sends| && sys.sends[i].ok && sys.sends[i].messageId == id)
  }

  ghost predicate OnTime(config: Config, sys: System) {
    && (forall data :: data in sys.known ==> HasMetadata(data))
    && (config.policy.Some? && config.defers ==>
          forall i :: 0 <= i < |sys.handed| ==> Ready(sys.handed[i].data, sys.handed[i].at, config.policy.value))
  }

  /** A status that has left «queued» never changes again. */
  ghost predicate StatusesKept(a: System, b: System) {
    forall id :: id in a.messages ==>
      && id in b.messages && b.messages[id].channel == a.messages[id].channel
      && (a.messages[id].status != Queued ==> b.messages[id].status == a.messages[id].status)
  }

  lemma SetStatusKeeps(sys: System, id: string, status: Status)
    requires SentOnce(sys) && Loads(sys, id) && status != Sent
    ensures SentOnce(SetStatus(sys, id, status)) && StatusesKept(sys, SetStatus(sys, id, status))
  {
    var after := SetStatus(sys, id, status);
    forall x | x in after.messages && after.messages[x].status == Sent
      ensures exists i :: 0 <= i < |after.sends| && after.sends[i].ok && after.sends[i].messageId == x
    {
      assert x in sys.messages && sys.messages[x].status == Sent;
    }
  }

  lemma SendKeeps(sys: System, record: SendRecord)
    requires SentOnce(sys) && Loads(sys, record.messageId)
    ensures var tried := sys.(sends := sys.sends + [record]);
            var after := if record.ok then SetStatus(tried, record.messageId, Sent) else tried;
            SentOnce(after) && StatusesKept(sys, after)
  {
    var tried := sys.(sends := sys.sends + [record]);
    var after := if record.ok then SetStatus(tried, record.messageId, Sent) else tried;
    forall x | x in after.messages && after.messages[x].status == Sent
      ensures exists i :: 0 <= i < |after.sends| && after.sends[i].ok && after.sends[i].messageId == x
    {
      if x == record.messageId {
        assert after.sends[|sys.sends|] == record;
      } else {
        var i :| 0 <= i < |sys.sends| && sys.sends[i].ok && sys.sends[i].messageId == x;
        assert after.sends[i] == sys.sends[i];
      }
    }
  }

  lemma ProcessKeeps(config: Config, sys: System, data: JobData, answer: SendResult)
    requires SentOnce(sys)
    ensures var after := Process(config, sys, data, answer).0;
            SentOnce(after) && StatusesKept(sys, after) && after.known == sys.known && after.handed == sys.handed
  {
    hide SentOnce, StatusesKept;
    var id := data.messageId;
    if id != "" && Loads(sys, id) {
      var provider := ResolveProvider(config.providers, sys.messages[id].channel);
      if provider.None? {
        SetStatusKeeps(sys, id, Failed);
      } else {
        var record := SendRecord(id, provider.value, answer.SendOk?);
        SendKeeps(sys, record);
        if answer.SendFailed? && !answer.retryable {
          var tried := sys.(sends := sys.sends + [record]);
          SetStatusKeeps(tried, id, Failed);
          KeptTwice(sys, tried, SetStatus(tried, id, Failed));
        }
      }
    } else {
      KeptSame(sys);
    }
  }

  lemma KeptSame(a: System)
    ensures StatusesKept(a, a)
  {
  }

  lemma KeptTwice(a: System, b: System, c: System)
    requires StatusesKept(a, b) && StatusesKept(b, c)
    ensures StatusesKept(a, c)
  {
  }

  lemma {:induction false} BatchKeeps(config: Config, sys: System, ds: seq<Delivery>)
    requires SentOnce(sys) && OnTime(config, sys) && forall i :: 0 <= i < |ds| ==> ds[i].data in sys.known
    ensures var after := HandleBatch(config, sys, ds).0;
            SentOnce(after) && OnTime(config, after) && StatusesKept(sys, after)
    decreases |ds|
  {
    if ds == [] {
      KeptSame(sys);
    } else {
      JobKeeps(config, sys, ds[0]);
      var (next, outcome) := HandleJob(config, sys, ds[0]);
      if !outcome.Threw? {
        BatchKeeps(config, next, ds[1..]);
        KeptTwice(sys, next, HandleBatch(config, sys, ds).0);
      }
    }
  }

  lemma JobKeeps(config: Config, sys: System, d: Delivery)
    requires SentOnce(sys) && OnTime(config, sys) && d.data in sys.known
    ensures var after := HandleJob(config, sys, d).0;
            SentOnce(after) && OnTime(config, after) && StatusesKept(sys, after) && after.known == sys.known
  {
    assert sys.known + {d.data} == sys.known;
    var handed := sys.(handed := sys.handed + [Timed(d.data, d.clock)]);
    ProcessKeeps(config, handed, d.data, d.answer);
  }

  lemma StepKeeps(config: Config, sys: System, event: Event)
    requires SentOnce(sys) && OnTime(config, sys) && Possible(sys, event)
    ensures var after := Step(config, sys, event);
            SentOnce(after) && OnTime(config, after) && StatusesKept(sys, after)
  {
    match event {
      case MessageStored(_, _) =>
      case MessageCanceled(id) => SetStatusKeeps(sys, id, Canceled);
      case Enqueued(_) =>
      case BatchHandled(ds) => BatchKeeps(config, sys, ds);
    }
  }

  lemma {:induction false} RunKeeps(config: Config, states: seq<System>, events: seq<Event>, n: nat)
    requires IsRun(config, states, events) && n < |states|
    ensures SentOnce(states[n]) && OnTime(config, states[n])
  {
    hide Step;
    if n > 0 {
      RunKeeps(config, states, events, n - 1);
      assert Possible(states[n - 1], events[n - 1]) && states[n - 1 + 1] == Step(config, states[n - 1], events[n - 1]);
      StepKeeps(config, states[n - 1], events[n - 1]);
    }
  }

  /** Across any batches, retries and deferrals each message is sent successfully at most once, and exactly when
      its status says so. */
  lemma EachMessageSentAtMostOnce(config: Config, states: seq<System>, events: seq<Event>, n: nat)
    requires IsRun(config, states, events) && n < |states|
    ensures SentOnce(states[n])
  {
    RunKeeps(config, states, events, n);
  }

  /** ... and its status leaves «queued» at most once. */
  lemma {:induction false} StatusLeavesQueuedOnce(config: Config, states: seq<System>, events: seq<Event>, m: nat, n: nat)
    requires IsRun(config, states, events) && m <= n < |states|
    ensures StatusesKept(states[m], states[n])
    decreases n
  {
    hide Step, StatusesKept;
    if m == n {
      KeptSame(states[m]);
    } else {
      StatusLeavesQueuedOnce(config, states, events, m, n - 1);
      RunKeeps(config, states, events, n - 1);
      assert Possible(states[n - 1], events[n - 1]) && states[n - 1 + 1] == Step(config, states[n - 1], events[n - 1]);
      StepKeeps(config, states[n - 1], events[n - 1]);
      KeptTwice(states[m], states[n - 1], states[n]);
    }
  }

  /** A job is retried exactly after a retryable answer from a provider, and then its message stays queued. */
  lemma RetryLeavesQueued(config: Config, sys: System, data: JobData, answer: SendResult)
    ensures var (after, outcome) := Process(config, sys, data, answer);
            outcome.Threw? <==>
              data.messageId != "" && Loads(sys, data.messageId) && answer == SendFailed(true)
              && ResolveProvider(config.providers, sys.messages[data.messageId].channel).Some?
    ensures Process(config, sys, data, answer).1.Threw? ==> Process(config, sys, data, answer).0.messages == sys.messages
  {
  }

  /** What being ready means: the window is over, the clock is past zero, and no quiet hours that can end are on. */
  lemma ReadyIff(data: JobData, at: int, policy: Policy)
    requires HasMetadata(data)
    ensures var window := match policy.bundleWindowMinutes case None => 60 case Some(w) => w;
            Ready(data, at, policy) <==>
              && data.createdAt.value + window * MINUTE <= at && 0 <= at
              && (data.urgency.value.High? || policy.quietHours.None?
                  || !IsQuiet(at, policy.quietHours.value, policy.offset)
                  || !(0 <= policy.quietHours.value.endHour < 24))
  {
    if policy.quietHours.Some? && IsQuiet(at, policy.quietHours.value, policy.offset) {
      QuietEndIsFound(at, policy.quietHours.value, policy.offset);
    }
  }

  /** Over every history a planned job reaches the sender only after its window and, unless urgent, outside quiet hours. */
  lemma NeverSentEarly(config: Config, states: seq<System>, events: seq<Event>, n: nat, i: nat)
    requires IsRun(config, states, events) && n < |states| && i < |states[n].handed|
    requires config.policy.Some? && config.defers
    requires config.policy.value.quietHours.Some? ==> 0 <= config.policy.value.quietHours.value.endHour < 24
    ensures var policy := config.policy.value;
            var handed := states[n].handed[i];
            var window := match policy.bundleWindowMinutes case None => 60 case Some(w) => w;
            && HasMetadata(handed.data)
            && handed.data.createdAt.value + window * MINUTE <= handed.at
            && (handed.data.urgency.value.Normal? && policy.quietHours.Some? ==>
                  !IsQuiet(handed.at, policy.quietHours.value, policy.offset))
  {
    RunKeeps(config, states, events, n);
    ReadyIff(states[n].handed[i].data, states[n].handed[i].at, config.policy.value);
  }

  lemma WaitsForItsTime(data: JobData, now: int, policy: Policy)
    requires HasMetadata(data) && 0 <= now
    ensures var window := match policy.bundleWindowMinutes case None => 60 case Some(w) => w;
            var until := OwnTime(CandidateOf(data), now, policy);
            && 0 <= until && data.createdAt.value + window * MINUTE <= until
            && (data.urgency.value.Normal? && policy.quietHours.Some? ==>
                  var end := NextQuietEnd(now, policy.quietHours.value, policy.offset);
                  end.Some? ==> end.value <= until)
  {
  }

  /** Once the window is over, the only thing left to wait for is the end of the quiet hours. */
  lemma WaitsOnlyForQuietEnd(data: JobData, now: int, policy: Policy)
    requires HasMetadata(data) && 0 <= now
    requires var window := match policy.bundleWindowMinutes case None => 60 case Some(w) => w;
             data.createdAt.value + window * MINUTE <= now
    ensures Ready(data, OwnTime(CandidateOf(data), now, policy), policy)
  {
    var until := OwnTime(CandidateOf(data), now, policy);
    if policy.quietHours.Some? && data.urgency.value.Normal? && IsQuiet(now, policy.quietHours.value, policy.offset) {
      QuietEndIsFound(now, policy.quietHours.value, policy.offset);
      var end := NextQuietEnd(now, policy.quietHours.value, policy.offset);
      if end.Some? {
        assert until == end.value;
      }
    }
    ReadyIff(data, until, policy);
  }

  /** Deliveries of one job, each but the first at exactly the time the one before asked for when it deferred the job;
      the system may have changed in between. */
  ghost predicate ResumedExactly(config: Config, systems: seq<System>, ds: seq<Delivery>) {
    && |systems| == |ds| > 0
    && forall i :: 0 <= i && i + 1 < |ds| ==>
         && ds[i + 1].data == ds[i].data
         && HandleJob(config, systems[i], ds[i]).0.deferred == systems[i].deferred + [Timed(ds[i].data, ds[i + 1].clock)]
  }

  /** The delivery goes to the sender, at its own clock. */
  ghost predicate HandedOver(config: Config, sys: System, d: Delivery) {
    HandleJob(config, sys, d) == Process(config, sys.(handed := sys.handed + [Timed(d.data, d.clock)]), d.data, d.answer)
  }

  lemma ProcessDefersNothing(config: Config, sys: System, data: JobData, answer: SendResult)
    ensures Process(config, sys, data, answer).0.deferred == sys.deferred
    ensures Process(config, sys, data, answer).0.handed == sys.handed
  {
  }

  /** One delivery either asks for the job's own time or goes to the sender. */
  lemma DefersIff(config: Config, sys: System, d: Delivery)
    requires Plans(config, d.data)
    ensures var until := OwnTime(CandidateOf(d.data), d.clock, config.policy.value);
      if Ready(d.data, d.clock, config.policy.value) then
        HandedOver(config, sys, d) && HandleJob(config, sys, d).0.deferred == sys.deferred
      else HandleJob(config, sys, d).0.deferred == sys.deferred + [Timed(d.data, until)]
  {
    hide OwnTime, Process;
    ProcessDefersNothing(config, sys.(handed := sys.handed + [Timed(d.data, d.clock)]), d.data, d.answer);
  }

  lemma ResumedAt(config: Config, systems: seq<System>, ds: seq<Delivery>, i: nat)
    requires ResumedExactly(config, systems, ds) && Plans(config, ds[0].data) && i + 1 < |ds|
    requires ds[i].data == ds[0].data
    ensures ds[i + 1].data == ds[0].data
    ensures !Ready(ds[i].data, ds[i].clock, config.policy.value)
    ensures ds[i + 1].clock == OwnTime(CandidateOf(ds[0].data), ds[i].clock, config.policy.value)
  {
    hide OwnTime, HandleJob;
    assert ds[i + 1].data == ds[i].data;
    DefersIff(config, systems[i], ds[i]);
    var before := systems[i].deferred;
    var after := HandleJob(config, systems[i], ds[i]).0.deferred;
    assert after == before + [Timed(ds[i].data, ds[i + 1].clock)];
    assert after[|before|] == Timed(ds[i].data, ds[i + 1].clock);
  }

  /** What makes it true: the second requested time is always ready, the first one for urgent jobs. */
  lemma SecondTimeIsReady(data: JobData, now: int, policy: Policy)
    requires HasMetadata(data) && 0 <= now
    ensures var first := OwnTime(CandidateOf(data), now, policy);
      && Ready(data, OwnTime(CandidateOf(data), first, policy), policy)
      && (data.urgency.value.High? ==> Ready(data, first, policy))
  {
    var first := OwnTime(CandidateOf(data), now, policy);
    WaitsForItsTime(data, now, policy);
    WaitsOnlyForQuietEnd(data, first, policy);
    ReadyIff(data, first, policy);
  }

  lemma ReadyIsLast(config: Config, systems: seq<System>, ds: seq<Delivery>, i: nat)
    requires ResumedExactly(config, systems, ds) && Plans(config, ds[0].data) && i < |ds|
    requires ds[i].data == ds[0].data && Ready(ds[i].data, ds[i].clock, config.policy.value)
    ensures |ds| == i + 1 && HandedOver(config, systems[i], ds[i])
  {
    hide Ready, HandleJob;
    DefersIff(config, systems[i], ds[i]);
    if i + 1 < |ds| {
      ResumedAt(config, systems, ds, i);
    }
  }

  /** Handed back exactly when asked for, a job is deferred at most twice, an urgent one at most once:
      the delivery after that goes to the sender. */
  lemma DeferredAtMostTwice(config: Config, systems: seq<System>, ds: seq<Delivery>)
    requires ResumedExactly(config, systems, ds) && Plans(config, ds[0].data) && 0 <= ds[0].clock
    ensures var most := if ds[0].data.urgency.value.High? then 1 else 2;
      && |ds| <= most + 1
      && (|ds| == most + 1 ==> HandedOver(config, systems[most], ds[most]))
  {
    assert |systems| == |ds| > 0 && HasMetadata(ds[0].data);
    hide OwnTime, HandleJob, ResumedExactly, Ready, Plans, HandedOver, HasMetadata, CandidateOf;
    SecondTimeIsReady(ds[0].data, ds[0].clock, config.policy.value);
    if |ds| > 1 {
      ResumedAt(config, systems, ds, 0);
      if ds[0].data.urgency.value.High? {
        ReadyIsLast(config, systems, ds, 1);
      } else if |ds| > 2 {
        ResumedAt(config, systems, ds, 1);
        ReadyIsLast(config, systems, ds, 2);
      }
    }
  }

  // ---- What one job and one batch do ----

  /** A message is tried exactly when it is named, still queued and some provider supports its channel. */
  predicate Tried(config: Config, sys: System, id: string) {
    id != "" && Loads(sys, id) && exists i :: 0 <= i < |config.providers| && sys.messages[id].channel in config.providers[i]
  }

  /** The first provider for its channel gets it, once; it ends sent, stays queued for a retry, or fails,
      also when no provider supports it. Nothing else changes. */
  lemma ProcessingDoes(config: Config, sys: System, data: JobData, answer: SendResult)
    ensures var (after, outcome) := Process(config, sys, data, answer);
      var id := data.messageId;
      && after.known == sys.known && after.handed == sys.handed && after.deferred == sys.deferred
      && (forall other :: other in after.messages <==> other in sys.messages)
      && (forall other :: other in sys.messages && other != id ==> after.messages[other] == sys.messages[other])
      && (id == "" || !Loads(sys, id) ==> after == sys)
      && (Tried(config, sys, id) ==>
            exists provider: nat :: FirstFor(config, sys.messages[id].channel, provider)
              && after.sends == sys.sends + [SendRecord(id, provider, answer.SendOk?)])
      && (!Tried(config, sys, id) ==> after.sends == sys.sends && !outcome.Threw?)
      && (id != "" && Loads(sys, id) ==>
            after.messages[id] == sys.messages[id].(status :=
              if !Tried(config, sys, id) then Failed
              else match answer case SendOk(_) => Sent case SendFailed(retryable) => if retryable then Queued else Failed))
  {
    var id := data.messageId;
    if id != "" && Loads(sys, id) {
      var p := ResolveProvider(config.providers, sys.messages[id].channel);
      assert p.Some? ==> FirstFor(config, sys.messages[id].channel, p.value);
    }
  }

  predicate FirstFor(config: Config, channel: string, provider: nat) {
    && provider < |config.providers| && channel in config.providers[provider]
    && forall i :: 0 <= i < provider ==> channel !in config.providers[i]
  }

  /** The handler holds a delivery back: the policy and the queue are there, the job has its fields, and it is not due. */
  predicate Waits(config: Config, d: Delivery) {
    && config.policy.Some? && config.defers
    && d.data.userId != "" && d.data.eventKey != "" && d.data.createdAt.Some? && d.data.urgency.Some?
    && !Due(CandidateOf(d.data), d.clock, config.policy.value, d.clock)
  }

  /** Put back for the earliest instant at which it is due. */
  ghost predicate PutBack(config: Config, entry: Timed, d: Delivery)
    requires Waits(config, d)
  {
    var c, policy := CandidateOf(d.data), config.policy.value;
    && entry.data == d.data && d.clock < entry.at && Due(c, d.clock, policy, entry.at)
    && forall t: int :: Due(c, d.clock, policy, t) ==> entry.at <= t
  }

  /** One delivery is put back once or handed over once, and not both; without policy, queue or fields it is handed over. */
  lemma JobIsPutBackOrHanded(config: Config, sys: System, d: Delivery)
    ensures var (after, outcome) := HandleJob(config, sys, d);
      if Waits(config, d) then
        && after.handed == sys.handed && after.messages == sys.messages && after.sends == sys.sends && !outcome.Threw?
        && |after.deferred| == |sys.deferred| + 1 && after.deferred[..|sys.deferred|] == sys.deferred
        && PutBack(config, after.deferred[|sys.deferred|], d) && d.data in after.known
      else
        && HandedOver(config, sys, d) && after.deferred == sys.deferred
        && after.handed == sys.handed + [Timed(d.data, d.clock)]
  {
    hide OwnTime, Process, Due;
    if Plans(config, d.data) {
      var c, policy := CandidateOf(d.data), config.policy.value;
      OwnTimeIsEarliest(c, d.clock, policy, d.clock);
      forall t: int ensures Due(c, d.clock, policy, t) ==> OwnTime(c, d.clock, policy) <= t {
        OwnTimeIsEarliest(c, d.clock, policy, t);
      }
    }
    ProcessDefersNothing(config, sys.(handed := sys.handed + [Timed(d.data, d.clock)]), d.data, d.answer);
  }

  /** The handler's states from job to job: each of the first jobs handled, the last one the thrower if there is one. */
  ghost predicate HandlesInOrder(config: Config, states: seq<System>, ds: seq<Delivery>, threw: bool) {
    && 0 < |states| <= |ds| + 1
    && (!threw ==> |states| == |ds| + 1) && (threw ==> |states| > 1)
    && forall i :: 0 <= i && i + 1 < |states| ==>
         && states[i + 1] == HandleJob(config, states[i], ds[i]).0
         && (HandleJob(config, states[i], ds[i]).1.Threw? <==> threw && i + 2 == |states|)
  }

  /** A batch handles its jobs one after the other: all of them, or up to the first that throws. */
  lemma {:induction false} BatchHandlesJobs(config: Config, sys: System, ds: seq<Delivery>) returns (states: seq<System>)
    ensures var (after, threw) := HandleBatch(config, sys, ds);
      HandlesInOrder(config, states, ds, threw) && states[0] == sys && states[|states| - 1] == after
    decreases |ds|
  {
    hide HandleJob;
    if ds == [] {
      states := [sys];
    } else {
      var (next, outcome) := HandleJob(config, sys, ds[0]);
      if outcome.Threw? {
        states := [sys, next];
      } else {
        var rest := BatchHandlesJobs(config, next, ds[1..]);
        states := [sys] + rest;
        var threw := HandleBatch(config, sys, ds).1;
        forall i | 0 <= i && i + 1 < |states|
          ensures states[i + 1] == HandleJob(config, states[i], ds[i]).0
          ensures HandleJob(config, states[i], ds[i]).1.Threw? <==> threw && i + 2 == |states|
        {
          if i > 0 {
            assert rest[i - 1 + 1] == HandleJob(config, rest[i - 1], ds[1..][i - 1]).0;
          }
        }
      }
    }
  }

  function HandedEntries(config: Config, ds: seq<Delivery>): seq<Timed> {
    if ds == [] then []
    else
      var last := ds[|ds| - 1];
      HandedEntries(config, ds[..|ds| - 1]) + if Waits(config, last) then [] else [Timed(last.data, last.clock)]
  }

  /** `entries` are the deliveries held back, in order, each for its earliest instant. */
  ghost predicate DeferredEntries(config: Config, ds: seq<Delivery>, entries: seq<Timed>) {
    if ds == [] then entries == []
    else
      var last := ds[|ds| - 1];
      if Waits(config, last) then
        && entries != [] && PutBack(config, entries[|entries| - 1], last)
        && DeferredEntries(config, ds[..|ds| - 1], entries[..|entries| - 1])
      else DeferredEntries(config, ds[..|ds| - 1], entries)
  }

  lemma {:induction false} EntriesAfter(config: Config, states: seq<System>, ds: seq<Delivery>, threw: bool, n: nat)
    requires HandlesInOrder(config, states, ds, threw) && n < |states|
    ensures states[n].handed == states[0].handed + HandedEntries(config, ds[..n])
    ensures states[0].deferred <= states[n].deferred
    ensures DeferredEntries(config, ds[..n], states[n].deferred[|states[0].deferred|..])
  {
    hide HandleJob, Waits, PutBack;
    if n == 0 {
      assert ds[..0] == [];
      assert states[0].deferred[|states[0].deferred|..] == [];
    } else {
      EntriesAfter(config, states, ds, threw, n - 1);
      assert states[n - 1 + 1] == HandleJob(config, states[n - 1], ds[n - 1]).0;
      JobIsPutBackOrHanded(config, states[n - 1], ds[n - 1]);
      assert ds[..n][..n - 1] == ds[..n - 1] && ds[..n][n - 1] == ds[n - 1];
      var from, before, after := |states[0].deferred|, states[n - 1].deferred, states[n].deferred;
      if Waits(config, ds[n - 1]) {
        assert after[..|before|][from..] == after[from..][..|after| - from - 1];
      }
    }
  }

  /** Nothing in a batch is dropped: without a throw every delivery was put back or handed over, exactly once and in
      order; with one, those up to the thrower, which was handed over and answered retryable as the first. */
  lemma NoJobIsDropped(config: Config, sys: System, ds: seq<Delivery>) returns (m: nat)
    ensures var (after, threw) := HandleBatch(config, sys, ds);
      && m <= |ds| && (!threw ==> m == |ds|)
      && (threw ==> 0 < m && !Waits(config, ds[m - 1]) && ds[m - 1].answer == SendFailed(true))
      && after.handed == sys.handed + HandedEntries(config, ds[..m])
      && sys.deferred <= after.deferred && DeferredEntries(config, ds[..m], after.deferred[|sys.deferred|..])
  {
    hide HandleJob, Waits, PutBack, HandleBatch, Process;
    var states := BatchHandlesJobs(config, sys, ds);
    var threw := HandleBatch(config, sys, ds).1;
    m := |states| - 1;
    EntriesAfter(config, states, ds, threw, m);
    if threw {
      assert states[m - 1 + 1] == HandleJob(config, states[m - 1], ds[m - 1]).0;
      var d, before := ds[m - 1], states[m - 1];
      JobIsPutBackOrHanded(config, before, d);
      RetryLeavesQueued(config, before.(handed := before.handed + [Timed(d.data, d.clock)]), d.data, d.answer);
    }
  }
}
