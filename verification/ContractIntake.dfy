/** Starting work for a company: one form, an existing-company start and a new-company request, and lost answers. */
module ContractIntake {
  import opened Lists
  import opened Retries

  /** The existing-company form without its request id. */
  datatype Start = Start(companyId: string, boardId: string, groupId: Option<string>)

  /** The new-company form without its request id, as text. */
  type NewForm = string

  datatype NewRequest = NewRequest(id: string, payload: NewForm, confirmed: bool, uncertain: bool)
  datatype ExistingRequest = ExistingRequest(id: string, payload: Start)

  datatype StartAnswer = StartOk | StartRejected | StartUncertain | StartThrew
  datatype NewAnswer = NewOk | NewRejected | NewConflict | NewUnknown | NewThrew

  /** What the mounted form remembers. `existingSeq` and `newSeq` number the last result of each action. */
  datatype Form = Form(
    existing: Option<ExistingRequest>,
    existingInFlight: bool,
    newRequest: Option<NewRequest>,
    confirmedCompany: Option<string>,
    resultSeq: nat,
    existingSeq: nat,
    newSeq: nat,
    dismissedThrough: nat)

  const EMPTY_FORM := Form(None, false, None, None, 0, 0, 0, 0)

  predicate NewUncertain(form: Form) { form.newRequest.Some? && form.newRequest.value.uncertain }

  datatype Event =
    | Confirm(companyId: string)
    | SubmitExisting(start: Start, liveCount: nat, freshId: string)
    | RetryExisting(start: Start, freshId: string)
    | ExistingAnswered(startAnswer: StartAnswer)
    | SubmitNew(newForm: NewForm, freshId: string)
    | NewAnswered(newAnswer: NewAnswer)

  /** The form together with everything it has sent. `outstanding` holds unanswered new-company submissions,
      oldest first; `edited` and `overlapped` record that a submission changed a kept request's content,
      or left while another was unanswered. */
  datatype World = World(
    form: Form,
    calls: seq<Call<Start, Start>>,
    newSent: seq<Sent<NewForm>>,
    outstanding: seq<Sent<NewForm>>,
    edited: bool,
    overlapped: bool)

  const EMPTY_WORLD := World(EMPTY_FORM, [], [], [], false, false)

  /** A start is let through: nothing unresolved except this very request. */
  predicate MayStart(form: Form, start: Start) {
    !NewUncertain(form) && !form.existingInFlight && (form.existing.Some? ==> form.existing.value.payload == start)
  }

  function StampExisting(w: World, start: Start, freshId: string): World {
    if !MayStart(w.form, start) then w
    else
      var request := if w.form.existing.Some? then w.form.existing.value else ExistingRequest(freshId, start);
      w.(form := w.form.(existing := Some(request), existingInFlight := true),
         calls := w.calls + [Call(start, request.id, start, false)])
  }

  /** The question «one more for this company?» is asked instead of sending. */
  predicate AsksFirst(form: Form, start: Start, liveCount: nat) {
    var retrying := form.existing.Some? && form.existing.value.payload == start;
    var waitingOnOther := NewUncertain(form) || (form.existing.Some? && form.existing.value.payload != start);
    liveCount > 0 && form.confirmedCompany != Some(start.companyId) && !retrying && !waitingOnOther
  }

  predicate MaySubmitNew(form: Form, payload: NewForm) {
    form.existing.None? && (NewUncertain(form) ==> form.newRequest.value.payload == payload)
  }

  predicate MintsNew(form: Form, payload: NewForm) {
    form.newRequest.None? || (form.newRequest.value.confirmed && form.newRequest.value.payload != payload)
  }

  /** The branch that breaks «one key, one content»: the key is kept, the content is not what it was minted with. */
  predicate EditsKeptRequest(form: Form, payload: NewForm) {
    MaySubmitNew(form, payload) && !MintsNew(form, payload) && form.newRequest.value.payload != payload
  }

  function StampNew(w: World, payload: NewForm, freshId: string): World {
    if !MaySubmitNew(w.form, payload) then w
    else
      var request := if MintsNew(w.form, payload) then NewRequest(freshId, payload, false, false) else w.form.newRequest.value;
      var sent := Sent(request.id, payload);
      w.(form := w.form.(newRequest := Some(request.(uncertain := true))),
         newSent := w.newSent + [sent],
         outstanding := w.outstanding + [sent],
         edited := w.edited || EditsKeptRequest(w.form, payload),
         overlapped := w.overlapped || w.outstanding != [])
  }

  function AnswerNew(w: World, answer: NewAnswer): World
    requires w.outstanding != []
  {
    var sent := w.outstanding[0];
    var seqNo := w.form.resultSeq + 1;
    var next :=
      if answer.NewThrew? || w.form.newRequest.None? then w.form.newRequest
      else
        var known := w.form.newRequest.value.(uncertain := answer.NewUnknown?);
        Some(if answer.NewOk? && known.id == sent.requestId then known.(confirmed := true, payload := sent.payload) else known);
    w.(outstanding := w.outstanding[1..],
       form := w.form.(newRequest := next, resultSeq := seqNo, newSeq := seqNo,
                       dismissedThrough := if answer.NewOk? then seqNo else w.form.dismissedThrough))
  }

  function AnswerExisting(w: World, answer: StartAnswer): World
    requires w.calls != []
  {
    var settled := answer.StartOk? || answer.StartRejected?;
    var seqNo := w.form.resultSeq + 1;
    w.(calls := Answered(w.calls, settled),
       form := w.form.(existing := if settled then None else w.form.existing, existingInFlight := false,
                       resultSeq := seqNo, existingSeq := seqNo,
                       dismissedThrough := if answer.StartOk? then seqNo else w.form.dismissedThrough))
  }

  /** Answers come only to requests on their way, and random ids are new. */
  ghost predicate Possible(w: World, event: Event) {
    match event
    case Confirm(_) => true
    case SubmitExisting(_, _, freshId) => Unused(w.calls, freshId)
    case RetryExisting(_, freshId) => Unused(w.calls, freshId)
    case ExistingAnswered(_) => w.form.existingInFlight && w.calls != []
    case SubmitNew(_, freshId) => UnusedNew(w.newSent, freshId)
    case NewAnswered(_) => w.outstanding != []
  }

  ghost predicate UnusedNew(sent: seq<Sent<NewForm>>, id: string) {
    forall i :: 0 <= i < |sent| ==> sent[i].requestId != id
  }

  ghost function Step(w: World, event: Event): World
    requires Possible(w, event)
  {
    match event
    case Confirm(companyId) => w.(form := w.form.(confirmedCompany := Some(companyId)))
    case SubmitExisting(start, liveCount, freshId) =>
      var w' := w.(form := w.form.(confirmedCompany := None));
      if AsksFirst(w.form, start, liveCount) then w' else StampExisting(w', start, freshId)
    case RetryExisting(start, freshId) => StampExisting(w, start, freshId)
    case ExistingAnswered(answer) => AnswerExisting(w, answer)
    case SubmitNew(payload, freshId) => StampNew(w, payload, freshId)
    case NewAnswered(answer) => AnswerNew(w, answer)
  }

  /** A history: the worlds before, between and after the events. */
  ghost predicate IsRun(worlds: seq<World>, events: seq<Event>) {
    && |worlds| == |events| + 1 && worlds[0] == EMPTY_WORLD
    && forall i :: 0 <= i < |events| ==> Possible(worlds[i], events[i]) && worlds[i + 1] == Step(worlds[i], events[i])
  }

  // ---- The form as the component keeps it ----

  class IntakeForm {
    var existing: Option<ExistingRequest>
    var existingInFlight: bool
    var newRequest: Option<NewRequest>
    var confirmedCompany: Option<string>
    var resultSeq: nat
    var existingSeq: nat
    var newSeq: nat
    var dismissedThrough: nat
    ghost var world: World

    ghost predicate Valid() reads this {
      world.form == Form(existing, existingInFlight, newRequest, confirmedCompany, resultSeq, existingSeq, newSeq, dismissedThrough)
    }

    constructor ()
      ensures Valid() && world == EMPTY_WORLD
    {
      existing, existingInFlight, newRequest, confirmedCompany := None, false, None, None;
      resultSeq, existingSeq, newSeq, dismissedThrough := 0, 0, 0, 0;
      world := EMPTY_WORLD;
    }

    method ConfirmAdditional(companyId: string)
      requires Valid()
      modifies this
      ensures Valid() && world == Step(old(world), Confirm(companyId))
    {
      confirmedCompany := Some(companyId);
      world := Step(world, Confirm(companyId));
    }

    method GuardExistingStart(start: Start, liveCount: nat, freshId: string) returns (sent: Option<string>)
      requires Valid() && Possible(world, SubmitExisting(start, liveCount, freshId))
      modifies this
      ensures Valid() && world == Step(old(world), SubmitExisting(start, liveCount, freshId))
      ensures SentIs(sent, old(world).calls, world.calls)
    {
      ghost var before := world;
      var confirmed := confirmedCompany == Some(start.companyId);
      confirmedCompany := None;
      var retrying := existing.Some? && existing.value.payload == start;
      var waitingOnOther := (newRequest.Some? && newRequest.value.uncertain)
        || (existing.Some? && existing.value.payload != start);
      world := world.(form := world.form.(confirmedCompany := None));
      sent := None;
      if !(liveCount > 0 && !confirmed && !retrying && !waitingOnOther) {
        sent := StampExistingRequest(start, freshId);
      }
      assert world == Step(before, SubmitExisting(start, liveCount, freshId));
    }

    method StampExistingRequest(start: Start, freshId: string) returns (sent: Option<string>)
      requires Valid() && Unused(world.calls, freshId)
      modifies this
      ensures Valid() && world == StampExisting(old(world), start, freshId)
      ensures SentIs(sent, old(world).calls, world.calls)
    {
      ghost var before := world;
      if newRequest.Some? && newRequest.value.uncertain {
        return None;
      }
      if existingInFlight {
        return None;
      }
      if existing.Some? && existing.value.payload != start {
        return None;
      }
      if existing.None? {
        existing := Some(ExistingRequest(freshId, start));
      }
      existingInFlight := true;
      sent := Some(existing.value.id);
      world := StampExisting(before, start, freshId);
    }

    method ExistingAction(answer: StartAnswer)
      requires Valid() && Possible(world, ExistingAnswered(answer))
      modifies this
      ensures Valid() && world == Step(old(world), ExistingAnswered(answer))
    {
      ghost var before := world;
      if answer.StartOk? || answer.StartRejected? {
        existing := None;
      }
      existingInFlight := false;
      resultSeq := resultSeq + 1;
      if answer.StartOk? {
        dismissedThrough := resultSeq;
      }
      existingSeq := resultSeq;
      world := Step(before, ExistingAnswered(answer));
    }

    method StampNewRequest(payload: NewForm, freshId: string) returns (sent: Option<string>)
      requires Valid() && Possible(world, SubmitNew(payload, freshId))
      modifies this
      ensures Valid() && world == Step(old(world), SubmitNew(payload, freshId))
      ensures sent.Some? <==> MaySubmitNew(old(world).form, payload)
      ensures sent.Some? ==> world.newSent == old(world).newSent + [Sent(sent.value, payload)]
    {
      ghost var before := world;
      if existing.Some? {
        return None;
      }
      if newRequest.Some? && newRequest.value.uncertain && newRequest.value.payload != payload {
        return None;
      }
      if newRequest.None? || (newRequest.value.confirmed && newRequest.value.payload != payload) {
        newRequest := Some(NewRequest(freshId, payload, false, false));
      }
      newRequest := Some(newRequest.value.(uncertain := true));
      sent := Some(newRequest.value.id);
      world := Step(before, SubmitNew(payload, freshId));
    }

    /** `submitted` is the form data the answered submission carried. */
    method NewCompanyAction(answer: NewAnswer, submitted: Sent<NewForm>)
      requires Valid() && Possible(world, NewAnswered(answer)) && submitted == world.outstanding[0]
      modifies this
      ensures Valid() && world == Step(old(world), NewAnswered(answer))
    {
      ghost var before := world;
      if !answer.NewThrew? && newRequest.Some? {
        newRequest := Some(newRequest.value.(uncertain := answer.NewUnknown?));
        if answer.NewOk? && newRequest.value.id == submitted.requestId {
          newRequest := Some(newRequest.value.(confirmed := true, payload := submitted.payload));
        }
      }
      resultSeq := resultSeq + 1;
      if answer.NewOk? {
        dismissedThrough := resultSeq;
      }
      newSeq := resultSeq;
      world := Step(before, NewAnswered(answer));
    }
  }

  /** What a submission handler reports is what went out. */
  ghost predicate SentIs(sent: Option<string>, before: seq<Call<Start, Start>>, after: seq<Call<Start, Start>>) {
    if sent.None? then after == before
    else |after| == |before| + 1 && after[|before|].requestId == sent.value
  }

  // ---- Every run ----

  /** While a start is unanswered or unclear, only that start is sent again. */
  ghost predicate Patient(calls: seq<Call<Start, Start>>) {
    forall i :: 0 <= i && i + 1 < |calls| && !calls[i].settled ==> calls[i + 1].ask == calls[i].ask
  }

  ghost predicate ExistingInv(w: World) {
    var form := w.form;
    && Disciplined(w.calls) && Patient(w.calls)
    && (form.existing.Some? <==> w.calls != [] && !w.calls[|w.calls| - 1].settled)
    && (form.existing.Some? ==>
          var last := w.calls[|w.calls| - 1];
          last.requestId == form.existing.value.id && last.ask == last.payload == form.existing.value.payload)
    && (form.existingInFlight ==> form.existing.Some?)
  }

  /** The kept new-company request was sent under its id with the content it remembers. */
  ghost predicate KeptWasSent(w: World) {
    if w.form.newRequest.None? then w.newSent == []
    else exists i :: 0 <= i < |w.newSent| && w.newSent[i] == Sent(w.form.newRequest.value.id, w.form.newRequest.value.payload)
  }

  ghost predicate NewInv(w: World) {
    && KeptWasSent(w)
    && (OneIdOnePayload(w.newSent) <==> !w.edited)
    && (forall i :: 0 <= i < |w.outstanding| ==> w.outstanding[i] in w.newSent)
  }

  /** Without overlapping submissions, an open one keeps the request uncertain, and nothing existing is open beside it. */
  ghost predicate ApartInv(w: World) {
    !w.overlapped ==>
      && |w.outstanding| <= 1
      && (w.outstanding != [] ==> NewUncertain(w.form) && w.outstanding[0].requestId == w.form.newRequest.value.id)
      && !(w.form.existing.Some? && NewUncertain(w.form))
  }

  ghost predicate Inv(w: World) { ExistingInv(w) && NewInv(w) && ApartInv(w) }

  lemma StampExistingKeeps(w: World, start: Start, freshId: string)
    requires Inv(w) && Unused(w.calls, freshId)
    ensures Inv(StampExisting(w, start, freshId))
  {
    hide Disciplined, OneIdOnePayload;
    if MayStart(w.form, start) {
      var w' := StampExisting(w, start, freshId);
      SendKeepsDiscipline(w.calls, w'.calls[|w.calls|]);
      assert Patient(w'.calls);
    }
  }

  lemma AnswerExistingKeeps(w: World, answer: StartAnswer)
    requires Inv(w) && w.form.existingInFlight && w.calls != []
    ensures Inv(AnswerExisting(w, answer))
  {
    AnswerKeepsDiscipline(w.calls, answer.StartOk? || answer.StartRejected?);
  }

  lemma OneIdSnoc(sent: seq<Sent<NewForm>>, next: Sent<NewForm>, witness_: int)
    requires UnusedNew(sent, next.requestId) ||
             (0 <= witness_ < |sent| && sent[witness_].requestId == next.requestId)
    ensures OneIdOnePayload(sent + [next]) <==>
            OneIdOnePayload(sent) && (UnusedNew(sent, next.requestId) || sent[witness_].payload == next.payload)
  {
    var more := sent + [next];
    assert forall i :: 0 <= i < |sent| ==> more[i] == sent[i];
    assert more[|sent|] == next;
    if OneIdOnePayload(more) {
      forall i, j | 0 <= i < |sent| && 0 <= j < |sent| && sent[i].requestId == sent[j].requestId
        ensures sent[i].payload == sent[j].payload
      {
        assert more[i].payload == more[j].payload;
      }
    }
  }

  lemma StampNewKeeps(w: World, payload: NewForm, freshId: string)
    requires Inv(w) && UnusedNew(w.newSent, freshId)
    ensures Inv(StampNew(w, payload, freshId))
  {
    if MaySubmitNew(w.form, payload) {
      var w' := StampNew(w, payload, freshId);
      var sent := w'.newSent[|w.newSent|];
      if MintsNew(w.form, payload) {
        OneIdSnoc(w.newSent, sent, 0);
        assert w'.newSent[|w.newSent|] == Sent(freshId, payload);
      } else {
        var kept := w.form.newRequest.value;
        var i :| 0 <= i < |w.newSent| && w.newSent[i] == Sent(kept.id, kept.payload);
        OneIdSnoc(w.newSent, sent, i);
        assert w'.newSent[i] == Sent(kept.id, kept.payload);
      }
    }
  }

  lemma AnswerNewKeeps(w: World, answer: NewAnswer)
    requires Inv(w) && w.outstanding != []
    ensures Inv(AnswerNew(w, answer))
  {
    assert w.outstanding[0] in w.newSent;
    var w' := AnswerNew(w, answer);
    assert forall i :: 0 <= i < |w'.outstanding| ==> w'.outstanding[i] == w.outstanding[i + 1];
  }

  lemma ConfirmationIsFree(w: World, confirmed: Option<string>)
    requires Inv(w)
    ensures Inv(w.(form := w.form.(confirmedCompany := confirmed)))
  {
  }

  lemma StepKeeps(w: World, event: Event)
    requires Inv(w) && Possible(w, event)
    ensures Inv(Step(w, event))
  {
    match event {
      case Confirm(companyId) => ConfirmationIsFree(w, Some(companyId));
      case SubmitExisting(start, liveCount, freshId) =>
        ConfirmationIsFree(w, None);
        StampExistingKeeps(w.(form := w.form.(confirmedCompany := None)), start, freshId);
      case RetryExisting(start, freshId) => StampExistingKeeps(w, start, freshId);
      case ExistingAnswered(answer) => AnswerExistingKeeps(w, answer);
      case SubmitNew(payload, freshId) => StampNewKeeps(w, payload, freshId);
      case NewAnswered(answer) => AnswerNewKeeps(w, answer);
    }
  }

  ghost predicate SeqInv(form: Form) {
    form.existingSeq <= form.resultSeq && form.newSeq <= form.resultSeq && form.dismissedThrough <= form.resultSeq
  }

  lemma StepKeepsSeq(w: World, event: Event)
    requires SeqInv(w.form) && Possible(w, event)
    ensures SeqInv(Step(w, event).form)
  {
  }

  lemma EmptyInv()
    ensures Inv(EMPTY_WORLD) && SeqInv(EMPTY_WORLD.form)
  {
  }

  lemma {:induction false} EveryRunKeeps(worlds: seq<World>, events: seq<Event>, n: nat)
    requires IsRun(worlds, events) && n < |worlds|
    ensures Inv(worlds[n]) && SeqInv(worlds[n].form)
  {
    hide Inv, SeqInv, Step;
    if n == 0 {
      EmptyInv();
    } else {
      var before, event := worlds[n - 1], events[n - 1];
      EveryRunKeeps(worlds, events, n - 1);
      assert Possible(before, event) && worlds[n - 1 + 1] == Step(before, event);
      StepKeeps(before, event);
      StepKeepsSeq(before, event);
    }
  }

  // ---- The new-company flow, told by what was sent and answered ----

  /** The answers to new-company submissions; the k-th answers the k-th one sent. */
  function NewAnswers(events: seq<Event>): seq<NewAnswer> {
    if events == [] then []
    else
      var last := events[|events| - 1];
      NewAnswers(events[..|events| - 1]) + if last.NewAnswered? then [last.newAnswer] else []
  }

  /** The last of the first `n` answers that was ok and to a submission under this key. */
  function LastOk(sent: seq<Sent<NewForm>>, answers: seq<NewAnswer>, id: string, n: nat): (k: Option<nat>)
    requires n <= |answers| <= |sent|
    ensures k.Some? ==> k.value < n && answers[k.value].NewOk? && sent[k.value].requestId == id
    ensures forall j :: (if k.Some? then k.value else -1) < j < n ==> !(answers[j].NewOk? && sent[j].requestId == id)
  {
    if n == 0 then None
    else if answers[n - 1].NewOk? && sent[n - 1].requestId == id then Some(n - 1)
    else LastOk(sent, answers, id, n - 1)
  }

  /** The first submission under this key. */
  function FirstUnder(sent: seq<Sent<NewForm>>, id: string): (k: Option<nat>)
    ensures k.Some? ==> k.value < |sent| && sent[k.value].requestId == id
    ensures forall j :: 0 <= j < (if k.Some? then k.value else |sent|) ==> sent[j].requestId != id
  {
    if sent == [] then None
    else
      var last := |sent| - 1;
      match FirstUnder(sent[..last], id)
      case Some(k) => Some(k)
      case None => if sent[last].requestId == id then Some(last) else None
  }

  function LastKey(sent: seq<Sent<NewForm>>): string
    requires sent != []
  {
    sent[|sent| - 1].requestId
  }

  /** A submission sent under the last key was answered ok. */
  predicate LastKeyOk(sent: seq<Sent<NewForm>>, answers: seq<NewAnswer>)
    requires |answers| <= |sent| && sent != []
  {
    LastOk(sent, answers, LastKey(sent), |answers|).Some?
  }

  /** The content the last key stands for: the one confirmed last, or else the one it was first sent with. */
  function LastContent(sent: seq<Sent<NewForm>>, answers: seq<NewAnswer>): NewForm
    requires |answers| <= |sent| && sent != []
  {
    match LastOk(sent, answers, LastKey(sent), |answers|)
    case Some(k) => sent[k].payload
    case None => sent[FirstUnder(sent, LastKey(sent)).value].payload
  }

  /** The kept request is the one the log describes. */
  ghost predicate KeptMatchesLog(w: World, answers: seq<NewAnswer>) {
    var sent := w.newSent;
    && |answers| <= |sent| && w.outstanding == sent[|answers|..]
    && (w.form.newRequest.Some? <==> sent != [])
    && (sent != [] ==>
          var kept := w.form.newRequest.value;
          kept.id == LastKey(sent) && kept.confirmed == LastKeyOk(sent, answers) && kept.payload == LastContent(sent, answers))
  }

  lemma {:induction false} LastOkSnoc(sent: seq<Sent<NewForm>>, next: Sent<NewForm>, answers: seq<NewAnswer>, id: string, n: nat)
    requires n <= |answers| <= |sent|
    ensures LastOk(sent + [next], answers, id, n) == LastOk(sent, answers, id, n)
  {
    if n > 0 {
      LastOkSnoc(sent, next, answers, id, n - 1);
    }
  }

  lemma {:induction false} LastOkAnswer(sent: seq<Sent<NewForm>>, answers: seq<NewAnswer>, answer: NewAnswer, id: string, n: nat)
    requires n <= |answers| < |sent|
    ensures LastOk(sent, answers + [answer], id, n) == LastOk(sent, answers, id, n)
  {
    if n > 0 {
      LastOkAnswer(sent, answers, answer, id, n - 1);
    }
  }

  lemma FirstUnderSnoc(sent: seq<Sent<NewForm>>, next: Sent<NewForm>, id: string)
    ensures FirstUnder(sent + [next], id) ==
            if FirstUnder(sent, id).Some? then FirstUnder(sent, id)
            else if next.requestId == id then Some(|sent|) else None
  {
    assert (sent + [next])[..|sent|] == sent;
  }

  lemma StampMatchesLog(w: World, answers: seq<NewAnswer>, payload: NewForm, freshId: string)
    requires KeptMatchesLog(w, answers) && UnusedNew(w.newSent, freshId)
    ensures KeptMatchesLog(StampNew(w, payload, freshId), answers)
  {
    hide LastOk, FirstUnder;
    if MaySubmitNew(w.form, payload) {
      var next := Sent(if MintsNew(w.form, payload) then freshId else w.form.newRequest.value.id, payload);
      LastOkSnoc(w.newSent, next, answers, next.requestId, |answers|);
      FirstUnderSnoc(w.newSent, next, next.requestId);
    }
  }

  lemma AnswerMatchesLog(w: World, answers: seq<NewAnswer>, answer: NewAnswer)
    requires KeptMatchesLog(w, answers) && w.outstanding != []
    ensures KeptMatchesLog(AnswerNew(w, answer), answers + [answer])
  {
    var sent, more := w.newSent, answers + [answer];
    LastOkAnswer(sent, answers, answer, LastKey(sent), |answers|);
    assert LastOk(sent, more, LastKey(sent), |more|) ==
           if answer.NewOk? && sent[|answers|].requestId == LastKey(sent) then Some(|answers|)
           else LastOk(sent, more, LastKey(sent), |answers|);
    assert sent[|answers|..][1..] == sent[|more|..];
  }

  /** Only the two new-company events touch that flow. */
  lemma StartsLeaveNewAlone(w: World, event: Event)
    requires Possible(w, event) && !event.SubmitNew? && !event.NewAnswered?
    ensures var after := Step(w, event);
      after.newSent == w.newSent && after.outstanding == w.outstanding && after.form.newRequest == w.form.newRequest
  {
  }

  /** Over every run the kept request is the one told by what was sent and answered: its key, whether that key was
      answered ok, and the content it stands for. */
  lemma {:induction false} RunMatchesLog(worlds: seq<World>, events: seq<Event>, n: nat)
    requires IsRun(worlds, events) && n < |worlds|
    ensures KeptMatchesLog(worlds[n], NewAnswers(events[..n]))
  {
    hide KeptMatchesLog, Step;
    if n == 0 {
      assert events[..0] == [];
      EmptyMatchesLog();
    } else {
      var before, event := worlds[n - 1], events[n - 1];
      RunMatchesLog(worlds, events, n - 1);
      assert events[..n][..n - 1] == events[..n - 1];
      assert Possible(before, event) && worlds[n - 1 + 1] == Step(before, event);
      StepMatchesLog(before, NewAnswers(events[..n - 1]), event);
      assert NewAnswers(events[..n - 1]) + [] == NewAnswers(events[..n - 1]);
    }
  }

  lemma EmptyMatchesLog()
    ensures KeptMatchesLog(EMPTY_WORLD, [])
  {
  }

  lemma StepMatchesLog(w: World, answers: seq<NewAnswer>, event: Event)
    requires KeptMatchesLog(w, answers) && Possible(w, event)
    ensures KeptMatchesLog(Step(w, event), answers + if event.NewAnswered? then [event.newAnswer] else [])
  {
    assert answers + [] == answers;
    match event {
      case SubmitNew(payload, freshId) => StampMatchesLog(w, answers, payload, freshId);
      case NewAnswered(answer) => AnswerMatchesLog(w, answers, answer);
      case _ =>
        hide LastOk, FirstUnder;
        StartsLeaveNewAlone(w, event);
    }
  }

  /** A submission that goes out carries a fresh key exactly when nothing was sent before, or when the last key was
      answered ok and the content differs from the one confirmed; otherwise it carries the last key. */
  lemma FreshKeyIff(worlds: seq<World>, events: seq<Event>, n: nat)
    requires IsRun(worlds, events) && n < |events| && events[n].SubmitNew? && worlds[n + 1].newSent != worlds[n].newSent
    ensures var sent, answers, content := worlds[n].newSent, NewAnswers(events[..n]), events[n].newForm;
      && |answers| <= |sent|
      && worlds[n + 1].newSent == sent + [Sent(
           if sent == [] || (LastKeyOk(sent, answers) && content != LastContent(sent, answers)) then events[n].freshId
           else LastKey(sent), content)]
  {
    RunMatchesLog(worlds, events, n);
    hide LastOk, FirstUnder, LastContent;
  }

  /** Changes the content of a key that no answer confirmed. */
  predicate ChangesUnconfirmed(sent: seq<Sent<NewForm>>, answers: seq<NewAnswer>, content: NewForm) {
    0 < |sent| && |answers| <= |sent| && !LastKeyOk(sent, answers) && content != LastContent(sent, answers)
  }

  /** The submission of event `i` went out and did so. */
  ghost predicate ChangedAt(worlds: seq<World>, events: seq<Event>, i: nat)
    requires |worlds| == |events| + 1 && i < |events|
  {
    && events[i].SubmitNew? && worlds[i + 1].newSent != worlds[i].newSent
    && ChangesUnconfirmed(worlds[i].newSent, NewAnswers(events[..i]), events[i].newForm)
  }

  /** Each new-company key carries one content exactly when no submission that went out changed the content after
      rejected, conflicting, unclear or outstanding answers only. */
  lemma OneContentIffNoneChanged(worlds: seq<World>, events: seq<Event>, n: nat)
    requires IsRun(worlds, events) && n < |worlds|
    ensures OneIdOnePayload(worlds[n].newSent) <==> forall i :: 0 <= i < n ==> !ChangedAt(worlds, events, i)
  {
    EveryRunKeeps(worlds, events, n);
    EditedIff(worlds, events, n);
    InvTellsEdited(worlds[n]);
    hide OneIdOnePayload, Inv, ChangedAt, EditsKeptRequest, IsRun;
    if worlds[n].edited {
      var i :| 0 <= i < n && events[i].SubmitNew? && EditsKeptRequest(worlds[i].form, events[i].newForm);
      EditIsChange(worlds, events, i);
    } else {
      forall i | 0 <= i < n ensures !ChangedAt(worlds, events, i) {
        if events[i].SubmitNew? {
          EditIsChange(worlds, events, i);
        } else {
          OnlySubmissionsChange(worlds, events, i);
        }
      }
    }
  }

  lemma OnlySubmissionsChange(worlds: seq<World>, events: seq<Event>, i: nat)
    requires |worlds| == |events| + 1 && i < |events|
    ensures ChangedAt(worlds, events, i) ==> events[i].SubmitNew?
  {
  }

  lemma InvTellsEdited(w: World)
    requires Inv(w)
    ensures OneIdOnePayload(w.newSent) <==> !w.edited
  {
  }

  lemma EditIsChange(worlds: seq<World>, events: seq<Event>, i: nat)
    requires IsRun(worlds, events) && i < |events| && events[i].SubmitNew?
    ensures EditsKeptRequest(worlds[i].form, events[i].newForm) <==> ChangedAt(worlds, events, i)
  {
    RunMatchesLog(worlds, events, i);
    hide LastOk, FirstUnder, LastContent;
    assert worlds[i + 1] == Step(worlds[i], events[i]);
    var w := worlds[i];
    if MaySubmitNew(w.form, events[i].newForm) {
      assert |worlds[i + 1].newSent| == |w.newSent| + 1;
    }
  }

  /** The event leaves the result of a submission open, or closes it. */
  ghost predicate Opens(worlds: seq<World>, events: seq<Event>, i: nat)
    requires |worlds| == |events| + 1 && i < |events|
  {
    worlds[i + 1].newSent != worlds[i].newSent || events[i] == NewAnswered(NewUnknown)
  }

  predicate Closes(event: Event) {
    event == NewAnswered(NewOk) || event == NewAnswered(NewRejected) || event == NewAnswered(NewConflict)
  }

  ghost predicate OpenSince(worlds: seq<World>, events: seq<Event>, i: nat, n: nat)
    requires |worlds| == |events| + 1 && i < n <= |events|
  {
    Opens(worlds, events, i) && forall j :: i < j < n ==> !Closes(events[j])
  }

  lemma StepOpens(w: World, event: Event)
    requires Inv(w) && Possible(w, event)
    ensures var after := Step(w, event);
      NewUncertain(after.form) <==>
        after.newSent != w.newSent || event == NewAnswered(NewUnknown) || (NewUncertain(w.form) && !Closes(event))
  {
    hide Disciplined, Patient, OneIdOnePayload, ApartInv;
    if event.SubmitNew? && MaySubmitNew(w.form, event.newForm) {
      assert |Step(w, event).newSent| == |w.newSent| + 1;
    }
    if event.NewAnswered? {
      assert w.outstanding[0] in w.newSent;
    }
  }

  /** The result of a new company is uncertain exactly since it was sent or answered without an outcome, until an
      answer with an outcome. */
  lemma {:induction false} UncertainIff(worlds: seq<World>, events: seq<Event>, n: nat)
    requires IsRun(worlds, events) && n < |worlds|
    ensures NewUncertain(worlds[n].form) <==> exists i :: 0 <= i < n && OpenSince(worlds, events, i, n)
  {
    hide Step, NewUncertain, Closes, Inv;
    if n == 0 {
      assert !NewUncertain(EMPTY_WORLD.form) by { NothingUncertain(); }
    } else {
      UncertainIff(worlds, events, n - 1);
      EveryRunKeeps(worlds, events, n - 1);
      assert Possible(worlds[n - 1], events[n - 1]) && worlds[n - 1 + 1] == Step(worlds[n - 1], events[n - 1]);
      StepOpens(worlds[n - 1], events[n - 1]);
      if NewUncertain(worlds[n].form) {
        if Opens(worlds, events, n - 1) {
          assert OpenSince(worlds, events, n - 1, n);
        } else {
          var i :| 0 <= i < n - 1 && OpenSince(worlds, events, i, n - 1);
          assert OpenSince(worlds, events, i, n);
        }
      }
      if i :| 0 <= i < n && OpenSince(worlds, events, i, n) {
        if i < n - 1 {
          assert OpenSince(worlds, events, i, n - 1);
        }
      }
    }
  }

  lemma NothingUncertain()
    ensures !NewUncertain(EMPTY_WORLD.form)
  {
  }

  /** A new-company submission goes out exactly when no start is unresolved and, while the result is uncertain,
      its content is the one the last key stands for. */
  lemma NewGoesOutIff(worlds: seq<World>, events: seq<Event>, n: nat)
    requires IsRun(worlds, events) && n < |events| && events[n].SubmitNew?
    ensures var w, answers := worlds[n], NewAnswers(events[..n]);
      && |answers| <= |w.newSent| && (NewUncertain(w.form) ==> w.newSent != [])
      && (worlds[n + 1].newSent != w.newSent <==>
          w.form.existing.None? && (NewUncertain(w.form) ==> events[n].newForm == LastContent(w.newSent, answers)))
  {
    RunMatchesLog(worlds, events, n);
    hide LastOk, FirstUnder, LastContent;
    if MaySubmitNew(worlds[n].form, events[n].newForm) {
      assert |worlds[n + 1].newSent| == |worlds[n].newSent| + 1;
    }
  }

  // ---- The existing-company flow, told by what was sent and answered ----

  /** A start leaves exactly when the new company is not uncertain, no start is in flight, an unresolved one is the same,
      and for a new one by picking a company on the tab the question was answered; it then carries the unresolved
      request's key or a fresh one. Only the picked submission uses the confirmation up. */
  lemma StartGoesOutIff(w: World, event: Event)
    requires Possible(w, event) && (event.SubmitExisting? || event.RetryExisting?)
    ensures var after, start, freshKey := Step(w, event), event.start, event.freshId;
      var asked := event.SubmitExisting? && event.liveCount > 0 && w.form.confirmedCompany != Some(start.companyId);
      var goes := !NewUncertain(w.form) && !w.form.existingInFlight
                  && (if w.form.existing.Some? then w.form.existing.value.payload == start else !asked);
      && after.form.confirmedCompany == (if event.SubmitExisting? then None else w.form.confirmedCompany)
      && after.calls == w.calls + (if goes then
           [Call(start, if w.form.existing.Some? then w.form.existing.value.id else freshKey, start, false)] else [])
      && (after.form.existing.Some? <==> w.form.existing.Some? || goes)
      && (after.form.existingInFlight <==> w.form.existingInFlight || goes)
  {
    assert w.calls + [] == w.calls;
  }

  ghost predicate StartSince(worlds: seq<World>, events: seq<Event>, i: nat, n: nat)
    requires |worlds| == |events| + 1 && i < n <= |events|
  {
    |worlds[i + 1].calls| > |worlds[i].calls| && forall j :: i < j < n ==> !SettlesStart(events[j])
  }

  lemma StepUnresolved(w: World, event: Event)
    requires Inv(w) && Possible(w, event)
    ensures var after := Step(w, event);
      after.form.existing.Some? <==> |after.calls| > |w.calls| || (w.form.existing.Some? && !SettlesStart(event))
  {
    hide Disciplined, Patient, NewInv, ApartInv;
  }

  /** A start is unresolved exactly since it went out, until an answer that is ok or rejected. */
  lemma {:induction false} UnresolvedIff(worlds: seq<World>, events: seq<Event>, n: nat)
    requires IsRun(worlds, events) && n < |worlds|
    ensures worlds[n].form.existing.Some? <==> exists i :: 0 <= i < n && StartSince(worlds, events, i, n)
  {
    hide Step, SettlesStart, Inv;
    if n > 0 {
      UnresolvedIff(worlds, events, n - 1);
      EveryRunKeeps(worlds, events, n - 1);
      assert Possible(worlds[n - 1], events[n - 1]) && worlds[n - 1 + 1] == Step(worlds[n - 1], events[n - 1]);
      StepUnresolved(worlds[n - 1], events[n - 1]);
      if worlds[n].form.existing.Some? {
        if |worlds[n].calls| > |worlds[n - 1].calls| {
          assert StartSince(worlds, events, n - 1, n);
        } else {
          var i :| 0 <= i < n - 1 && StartSince(worlds, events, i, n - 1);
          assert StartSince(worlds, events, i, n);
        }
      }
      if i :| 0 <= i < n && StartSince(worlds, events, i, n) {
        if i < n - 1 {
          assert StartSince(worlds, events, i, n - 1);
        }
      }
    }
  }

  ghost predicate ConfirmedSince(events: seq<Event>, companyId: string, i: nat, n: nat)
    requires i < n <= |events|
  {
    events[i] == Confirm(companyId) && forall j :: i < j < n ==> !events[j].Confirm? && !events[j].SubmitExisting?
  }

  lemma StepConfirms(w: World, event: Event, companyId: string)
    requires Possible(w, event)
    ensures Step(w, event).form.confirmedCompany == Some(companyId) <==>
            event == Confirm(companyId) ||
            (w.form.confirmedCompany == Some(companyId) && !event.Confirm? && !event.SubmitExisting?)
  {
  }

  /** A company is confirmed exactly since the user said so, until another confirmation or the next picked submission. */
  lemma {:induction false} ConfirmedIff(worlds: seq<World>, events: seq<Event>, companyId: string, n: nat)
    requires IsRun(worlds, events) && n < |worlds|
    ensures worlds[n].form.confirmedCompany == Some(companyId) <==>
            exists i :: 0 <= i < n && ConfirmedSince(events, companyId, i, n)
  {
    hide Step;
    if n > 0 {
      ConfirmedIff(worlds, events, companyId, n - 1);
      assert Possible(worlds[n - 1], events[n - 1]) && worlds[n - 1 + 1] == Step(worlds[n - 1], events[n - 1]);
      StepConfirms(worlds[n - 1], events[n - 1], companyId);
      if worlds[n].form.confirmedCompany == Some(companyId) {
        if events[n - 1] == Confirm(companyId) {
          assert ConfirmedSince(events, companyId, n - 1, n);
        } else {
          var i :| 0 <= i < n - 1 && ConfirmedSince(events, companyId, i, n - 1);
          assert ConfirmedSince(events, companyId, i, n);
        }
      }
      if i :| 0 <= i < n && ConfirmedSince(events, companyId, i, n) {
        if i < n - 1 {
          assert ConfirmedSince(events, companyId, i, n - 1);
        }
      }
    }
  }

  /** A new key leaves exactly when the previous one was answered ok or rejected. */
  ghost predicate NewKeyOnlyOnceAnswered(calls: seq<Call<Start, Start>>) {
    forall i :: 0 <= i && i + 1 < |calls| ==> (calls[i].requestId != calls[i + 1].requestId <==> calls[i].settled)
  }

  lemma RunOfTwo(calls: seq<Call<Start, Start>>, i: nat)
    requires i + 1 < |calls|
    ensures OneRun(calls, i, i + 1) <==> !calls[i].settled && calls[i].ask == calls[i + 1].ask
  {
  }

  lemma PatientKeys(calls: seq<Call<Start, Start>>)
    requires Disciplined(calls) && Patient(calls)
    ensures NewKeyOnlyOnceAnswered(calls)
  {
    hide OneRun;
    forall i | 0 <= i && i + 1 < |calls| ensures calls[i].requestId != calls[i + 1].requestId <==> calls[i].settled {
      RunOfTwo(calls, i);
    }
  }

  /** Existing-company starts over every run, with any requests lost on the way: a new key only after an answer
      that settles the previous one, each key with one content, and one row for each key that arrived. */
  lemma StartsNeverDuplicate(worlds: seq<World>, events: seq<Event>, n: nat, arrived: seq<bool>)
    requires IsRun(worlds, events) && n < |worlds| && |arrived| == |worlds[n].calls|
    ensures NewKeyOnlyOnceAnswered(worlds[n].calls) && OneIdOnePayload(Wire(worlds[n].calls))
    ensures var server := Serve(Wire(worlds[n].calls), arrived);
            server.refused == 0 && server.effects == |server.store|
  {
    hide Disciplined, OneIdOnePayload, Serve, Patient, NewKeyOnlyOnceAnswered;
    EveryRunKeeps(worlds, events, n);
    PatientKeys(worlds[n].calls);
    DisciplinedNeverDuplicates(worlds[n].calls, arrived);
    WireHasOnePayload(worlds[n].calls);
  }

  lemma WireHasOnePayload(calls: seq<Call<Start, Start>>)
    requires Disciplined(calls)
    ensures OneIdOnePayload(Wire(calls))
  {
    forall i, j | 0 <= i < |calls| && 0 <= j < |calls| && Wire(calls)[i].requestId == Wire(calls)[j].requestId
      ensures Wire(calls)[i].payload == Wire(calls)[j].payload
    {
      var a, b := if i <= j then i else j, if i <= j then j else i;
      assert calls[a].requestId == calls[b].requestId;
    }
  }

  /** New-company requests over every run: each key carries one content exactly when no submission
      edited a kept request, and then the server never sees a key reused. */
  lemma NewKeysCarryOneContentIff(worlds: seq<World>, events: seq<Event>, n: nat, arrived: seq<bool>)
    requires IsRun(worlds, events) && n < |worlds| && |arrived| == |worlds[n].newSent|
    ensures OneIdOnePayload(worlds[n].newSent) <==> !worlds[n].edited
    ensures !worlds[n].edited ==>
      var server := Serve(worlds[n].newSent, arrived);
      server.refused == 0 && server.effects == |server.store|
  {
    EveryRunKeeps(worlds, events, n);
    if !worlds[n].edited {
      OneEffectPerId(worlds[n].newSent, arrived);
    }
  }

  lemma {:induction false} EditedIff(worlds: seq<World>, events: seq<Event>, n: nat)
    requires IsRun(worlds, events) && n < |worlds|
    ensures worlds[n].edited <==>
            exists i :: 0 <= i < n && events[i].SubmitNew? && EditsKeptRequest(worlds[i].form, events[i].newForm)
  {
    if n > 0 {
      EditedIff(worlds, events, n - 1);
      assert worlds[n - 1 + 1] == Step(worlds[n - 1], events[n - 1]);
    }
  }

  lemma {:induction false} OverlappedIff(worlds: seq<World>, events: seq<Event>, n: nat)
    requires IsRun(worlds, events) && n < |worlds|
    ensures worlds[n].overlapped <==>
            exists i :: 0 <= i < n && events[i].SubmitNew? && MaySubmitNew(worlds[i].form, events[i].newForm) && worlds[i].outstanding != []
  {
    if n > 0 {
      OverlappedIff(worlds, events, n - 1);
      assert worlds[n - 1 + 1] == Step(worlds[n - 1], events[n - 1]);
    }
  }

  // ---- When the two flows wait for each other ----

  /** An unresolved start and an uncertain new company. */
  predicate BothUnresolved(w: World) { w.form.existing.Some? && NewUncertain(w.form) }

  /** An unresolved start beside an unanswered new-company submission. */
  predicate Beside(w: World) { w.form.existing.Some? && w.outstanding != [] }

  /** The missing guard: a new start is let through while a new-company submission is unanswered. */
  ghost predicate StartsBeside(w: World, event: Event)
    requires Possible(w, event)
  {
    w.outstanding != [] && w.form.existing.None? && Step(w, event).form.existing.Some?
  }

  predicate SettlesStart(event: Event) {
    event.ExistingAnswered? && (event.startAnswer.StartOk? || event.startAnswer.StartRejected?)
  }

  /** Only an answer takes one of the two away. */
  predicate Releases(event: Event) {
    SettlesStart(event) || (event.NewAnswered? && !event.newAnswer.NewUnknown? && !event.newAnswer.NewThrew?)
  }

  /** One step: the flows come to wait for each other exactly by an answer without an outcome to a submission
      with an unresolved start beside it. */
  lemma LockStepIff(w: World, event: Event)
    requires Inv(w) && Possible(w, event)
    ensures BothUnresolved(Step(w, event)) <==>
            (Beside(w) && event == NewAnswered(NewUnknown)) || (BothUnresolved(w) && !Releases(event))
    ensures Beside(Step(w, event)) <==>
            StartsBeside(w, event) ||
            (Beside(w) && !SettlesStart(event) && !(event.NewAnswered? && |w.outstanding| == 1))
  {
    hide Disciplined, Patient, OneIdOnePayload, ApartInv;
    if event.NewAnswered? {
      assert w.outstanding[0] in w.newSent;
    }
  }

  /** Over every run, exactly when the two flows wait for each other. */
  lemma {:induction false} LockedIff(worlds: seq<World>, events: seq<Event>, n: nat)
    requires IsRun(worlds, events) && n < |worlds|
    ensures BothUnresolved(worlds[n]) <==>
            exists i :: 0 <= i < n && LocksSince(worlds, events, i, n)
  {
    hide Step, BothUnresolved, Releases, Beside;
    if n == 0 {
      NothingBoth();
    } else {
      LockedIff(worlds, events, n - 1);
      EveryRunKeeps(worlds, events, n - 1);
      assert Possible(worlds[n - 1], events[n - 1]) && worlds[n - 1 + 1] == Step(worlds[n - 1], events[n - 1]);
      LockStepIff(worlds[n - 1], events[n - 1]);
      if BothUnresolved(worlds[n]) {
        if Beside(worlds[n - 1]) && events[n - 1] == NewAnswered(NewUnknown) {
          assert LocksSince(worlds, events, n - 1, n);
        } else {
          var i :| 0 <= i < n - 1 && LocksSince(worlds, events, i, n - 1);
          assert LocksSince(worlds, events, i, n);
        }
      }
      if i :| 0 <= i < n && LocksSince(worlds, events, i, n) {
        if i < n - 1 {
          assert LocksSince(worlds, events, i, n - 1);
        }
      }
    }
  }

  /** Event `i` is such an answer and nothing up to world `n` released either flow. */
  ghost predicate LocksSince(worlds: seq<World>, events: seq<Event>, i: nat, n: nat)
    requires |worlds| == |events| + 1 && i < n < |worlds|
  {
    && Beside(worlds[i]) && events[i] == NewAnswered(NewUnknown)
    && forall j :: i < j < n ==> !Releases(events[j])
  }

  lemma NothingBoth()
    ensures !BothUnresolved(EMPTY_WORLD) && !Beside(EMPTY_WORLD)
  {
  }

  /** A run in which no start is let through beside an unanswered submission never gets there. */
  lemma {:induction false} GuardedStartsNeverLock(worlds: seq<World>, events: seq<Event>, n: nat)
    requires IsRun(worlds, events) && n < |worlds|
    requires forall i :: 0 <= i < n ==> !StartsBeside(worlds[i], events[i])
    ensures !Beside(worlds[n]) && !BothUnresolved(worlds[n])
  {
    hide Step, BothUnresolved, Beside, StartsBeside;
    if n == 0 {
      NothingBoth();
    } else {
      GuardedStartsNeverLock(worlds, events, n - 1);
      EveryRunKeeps(worlds, events, n - 1);
      assert worlds[n - 1 + 1] == Step(worlds[n - 1], events[n - 1]);
      LockStepIff(worlds[n - 1], events[n - 1]);
    }
  }

  /** An unresolved start and an uncertain new company never wait on each other,
      as long as no two new-company submissions are open at once: then no start is let through beside one. */
  lemma NeverBothUnresolved(worlds: seq<World>, events: seq<Event>, n: nat)
    requires IsRun(worlds, events) && n < |worlds| && !worlds[n].overlapped
    ensures !BothUnresolved(worlds[n])
    ensures n < |events| ==> !StartsBeside(worlds[n], events[n])
  {
    EveryRunKeeps(worlds, events, n);
  }

  /** The flows wait for each other and no answer is to come. */
  predicate Dead(w: World) { BothUnresolved(w) && !w.form.existingInFlight && w.outstanding == [] }

  /** Then nothing is ever sent again, whatever the user does. */
  lemma {:induction false} DeadStaysDead(worlds: seq<World>, events: seq<Event>, m: nat, n: nat)
    requires IsRun(worlds, events) && m <= n < |worlds| && Dead(worlds[m])
    ensures Dead(worlds[n]) && worlds[n].calls == worlds[m].calls && worlds[n].newSent == worlds[m].newSent
    decreases n
  {
    if m < n {
      DeadStaysDead(worlds, events, m, n - 1);
      assert Possible(worlds[n - 1], events[n - 1]) && worlds[n - 1 + 1] == Step(worlds[n - 1], events[n - 1]);
    }
  }

  /** While the result of a submission is unknown, resubmitting the same content passes exactly when
      that submission did not edit the kept request. */
  lemma RetryOfUnknownPassesIff(w: World, payload: NewForm, freshId: string, answer: NewAnswer)
    requires Inv(w) && UnusedNew(w.newSent, freshId) && w.outstanding == []
    requires MaySubmitNew(w.form, payload) && (answer.NewUnknown? || answer.NewThrew?)
    ensures var after := AnswerNew(StampNew(w, payload, freshId), answer);
            && NewUncertain(after.form)
            && (MaySubmitNew(after.form, payload) <==> !EditsKeptRequest(w.form, payload))
            && (forall other :: MaySubmitNew(after.form, other) <==> other == after.form.newRequest.value.payload)
  {
  }

  /** Submit P, be refused, edit to Q and lose the answer: key «k» went out with P and with Q,
      Q cannot be sent again, and only P, which the server now refuses, passes. */
  lemma EditedResubmissionTrace()
    ensures var w1 := StampNew(EMPTY_WORLD, "P", "k");
            var w2 := AnswerNew(w1, NewRejected);
            var w3 := StampNew(w2, "Q", "m");
            var w4 := AnswerNew(w3, NewThrew);
            && w4.newSent == [Sent("k", "P"), Sent("k", "Q")] && w4.edited && !w4.overlapped
            && !MaySubmitNew(w4.form, "Q") && MaySubmitNew(w4.form, "P")
            && Serve(StampNew(w4, "P", "m").newSent, [false, true, true]).refused == 1
  {
    var w5 := StampNew(AnswerNew(StampNew(AnswerNew(StampNew(EMPTY_WORLD, "P", "k"), NewRejected), "Q", "m"), NewThrew), "P", "m");
    assert w5.newSent == [] + [Sent("k", "P")] + [Sent("k", "Q")] + [Sent("k", "P")];
    ReuseIsRefused("k", "P", "Q");
  }

  /** The server that got Q under the key refuses P under it. */
  lemma ReuseIsRefused(k: string, p: NewForm, q: NewForm)
    requires p != q
    ensures Serve([] + [Sent(k, p)] + [Sent(k, q)] + [Sent(k, p)], [false, true, true]).refused == 1
  {
    ServeSnoc<NewForm>([], [], Sent(k, p), false);
    ServeSnoc([] + [Sent(k, p)], [] + [false], Sent(k, q), true);
    ServeSnoc([] + [Sent(k, p)] + [Sent(k, q)], [] + [false] + [true], Sent(k, p), true);
    assert [] + [false] + [true] + [true] == [false, true, true];
  }

  /** A double click, a refusal of the first, a start of an existing company, then two lost answers:
      each flow waits for the other and neither can be retried. */
  lemma OverlapCanLockBothFlows(start: Start)
    ensures var w1 := StampNew(StampNew(EMPTY_WORLD, "P", "k"), "P", "m");
            var w2 := AnswerNew(w1, NewRejected);
            var w3 := StampExisting(w2, start, "e");
            var w4 := AnswerNew(AnswerExisting(w3, StartThrew), NewUnknown);
            && w4.overlapped && Dead(w4)
            && (forall other :: !MayStart(w4.form, other)) && (forall payload :: !MaySubmitNew(w4.form, payload))
  {
  }

  /** Picking a company already on the tab starts it under a new key only right after the user confirmed that company,
      and one confirmation serves one submission. */
  lemma FurtherStartNeedsConfirmation(w: World, start: Start, liveCount: nat, freshId: string)
    requires Inv(w) && Unused(w.calls, freshId)
    ensures var after := Step(w, SubmitExisting(start, liveCount, freshId));
            && after.form.confirmedCompany.None?
            && (|after.calls| > |w.calls| && after.calls[|w.calls|].requestId == freshId && liveCount > 0 ==>
                  w.form.confirmedCompany == Some(start.companyId))
  {
    var after := Step(w, SubmitExisting(start, liveCount, freshId));
    if w.form.existing.Some? {
      assert w.calls[|w.calls| - 1].requestId != freshId;
    }
  }

  /** The retry form of a result asks nothing: it starts under a new key exactly when nothing is unresolved,
      and leaves the confirmation as it was. */
  lemma RetryFormStartsIff(w: World, start: Start, freshId: string)
    requires Inv(w) && Unused(w.calls, freshId)
    ensures var after := Step(w, RetryExisting(start, freshId));
            && after.form.confirmedCompany == w.form.confirmedCompany
            && (after.calls == w.calls + [Call(start, freshId, start, false)] <==> w.form.existing.None? && !NewUncertain(w.form))
  {
    hide Disciplined, Patient, NewInv, ApartInv;
    var after := Step(w, RetryExisting(start, freshId));
    if w.form.existing.Some? {
      assert w.calls[|w.calls| - 1].requestId != freshId;
      if |after.calls| > |w.calls| {
        assert after.calls[|w.calls|].requestId == w.form.existing.value.id;
      }
    }
  }

  predicate ExistingShown(form: Form) { form.existingSeq > form.dismissedThrough }
  predicate NewShown(form: Form) { form.newSeq > form.dismissedThrough }

  /** A success hides every result so far; any other answer is shown and leaves the other flow's result as it was. */
  lemma ResultsOnScreen(worlds: seq<World>, events: seq<Event>, n: nat)
    requires IsRun(worlds, events) && n < |events|
    ensures var form, form' := worlds[n].form, worlds[n + 1].form;
            match events[n]
            case ExistingAnswered(a) =>
              if a.StartOk? then !ExistingShown(form') && !NewShown(form')
              else ExistingShown(form') && (NewShown(form') <==> NewShown(form))
            case NewAnswered(a) =>
              if a.NewOk? then !ExistingShown(form') && !NewShown(form')
              else NewShown(form') && (ExistingShown(form') <==> ExistingShown(form))
            case _ => (ExistingShown(form') <==> ExistingShown(form)) && (NewShown(form') <==> NewShown(form))
  {
    EveryRunKeeps(worlds, events, n);
  }
}
