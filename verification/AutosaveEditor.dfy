/** The cell editor that saves itself on blur or Enter: the credit-score and the founding-date cell share it. */
module AutosaveEditor {
  import opened Lists

  /** The answer of the save action; a thrown call answers not ok with a message. */
  datatype Reply = Reply(ok: bool, message: string)

  datatype Phase = Idle | Saving | Locked
  datatype Problem = NoProblem | BadValue | Failed(message: string)

  /** What the editor is, without its bookkeeping: `external` is the value last received. */
  datatype View = View(external: string, baseline: string, draft: string, edited: bool, phase: Phase,
    problem: Problem, sent: seq<string>, answers: seq<Reply>)

  datatype Event =
    | Receive(value: string)
    | Type(text: string)
    | Leave(valid: bool)
    | Enter(valid: bool)
    | Answer(reply: Reply)

  function Fresh(external: string): View {
    View(external, external, external, false, Idle, NoProblem, [], [])
  }

  /** The input is disabled while a save is pending, and only then does an answer come. */
  predicate Possible(v: View, e: Event) {
    match e
    case Receive(_) => true
    case Type(_) => v.phase != Saving
    case Leave(_) => true
    case Enter(_) => v.phase != Saving
    case Answer(_) => v.phase == Saving && v.sent != []
  }

  function Send(v: View): View {
    v.(phase := Saving, problem := NoProblem, sent := v.sent + [v.draft])
  }

  function Next(v: View, e: Event): View
    requires Possible(v, e)
  {
    match e
    case Receive(value) =>
      if value == v.external then v
      else v.(external := value, baseline := value, draft := if v.edited then v.draft else value)
    case Type(text) => v.(draft := text, edited := text != v.baseline, problem := NoProblem)
    case Leave(valid) =>
      if !v.edited || v.phase != Idle then v
      else if !valid then v.(problem := BadValue)
      else Send(v)
    case Enter(valid) =>
      if !valid then v.(problem := BadValue, phase := Idle)
      else if !v.edited || v.phase != Idle then v
      else Send(v)
    case Answer(reply) =>
      var w := v.(answers := v.answers + [reply], phase := if reply.ok || reply.message != "" then Idle else Locked);
      if reply.ok then w.(baseline := v.sent[|v.sent| - 1], edited := false, problem := NoProblem)
      else w.(problem := if reply.message != "" then Failed(reply.message) else NoProblem)
  }

  class Editor {
    var external: string
    var baseline: string
    var attempted: Option<string>
    var dirty: bool
    var submitting: bool
    var armed: bool
    var attempt: nat
    var consumed: nat
    var draft: string
    var constraintError: bool
    var dismissed: nat
    var pending: bool
    /** The state the save action returned last, and the attempt it was stamped with. */
    var state: Reply
    var stateAttempt: nat
    ghost var sent: seq<string>
    ghost var answers: seq<Reply>

    /** A failure is on show until it is dismissed. */
    predicate ActionError() reads this {
      !pending && !state.ok && state.message != "" && stateAttempt > dismissed
    }

    ghost function Shown(): View reads this {
      View(external, baseline, draft, dirty,
        if pending then Saving else if submitting then Locked else Idle,
        if constraintError then BadValue else if ActionError() then Failed(state.message) else NoProblem,
        sent, answers)
    }

    /** Between events: one save at most is open and every answer has been taken in once. */
    ghost predicate Valid() reads this {
      && !armed
      && attempt == |sent| && stateAttempt == |answers|
      && |sent| == |answers| + (if pending then 1 else 0)
      && consumed == stateAttempt
      && dismissed <= stateAttempt
      && (answers != [] ==> state == answers[|answers| - 1])
      && (answers == [] ==> state == Reply(false, ""))
      && (!dirty ==> draft == baseline)
      && (pending ==> submitting && dirty && !constraintError && dismissed == stateAttempt
                      && attempted == Some(draft) && draft == sent[|sent| - 1])
    }

    constructor (value: string)
      ensures Valid() && Shown() == Fresh(value)
    {
      external, baseline, draft := value, value, value;
      attempted, dirty, submitting, armed := None, false, false, false;
      attempt, consumed, dismissed, constraintError := 0, 0, 0, false;
      pending, state, stateAttempt := false, Reply(false, ""), 0;
      sent, answers := [], [];
    }

    /** The board was refreshed and the cell rendered with this value. */
    method ReceiveValue(value: string)
      requires Valid()
      modifies this`external, this`baseline, this`draft
      ensures Valid() && Shown() == Next(old(Shown()), Receive(value))
    {
      if value == external {
        return;
      }
      external := value;
      if value == baseline {
        return;
      }
      baseline := value;
      if !dirty {
        draft := value;
      }
    }

    method Change(text: string)
      requires Valid() && !pending
      modifies this`draft, this`constraintError, this`dismissed, this`dirty
      ensures Valid() && Shown() == Next(old(Shown()), Type(text))
    {
      draft := text;
      constraintError := false;
      dismissed := stateAttempt;
      dirty := text != baseline;
    }

    method BeginSubmit()
      modifies this`constraintError, this`dismissed, this`submitting, this`attempt, this`attempted
      ensures !constraintError && submitting && attempted == Some(draft)
      ensures dismissed == old(attempt) && attempt == old(attempt) + 1
    {
      constraintError := false;
      dismissed := attempt;
      submitting := true;
      attempt := attempt + 1;
      attempted := Some(draft);
    }

    /** The browser refused the value. */
    method Invalid()
      modifies this`armed, this`submitting, this`constraintError
      ensures !armed && !submitting && constraintError
    {
      armed := false;
      submitting := false;
      constraintError := true;
    }

    /** The submit event; what is not prevented goes out at once and leaves the editor pending. */
    method Submit()
      requires !pending && (if armed then attempt == |sent| + 1 else attempt == |sent|)
      modifies this`armed, this`constraintError, this`dismissed, this`submitting, this`attempt, this`attempted,
        this`pending, this`sent
      ensures !armed
      ensures pending <==> old(armed) || (old(dirty) && !old(submitting))
      ensures sent == if pending then old(sent) + [draft] else old(sent)
      ensures !old(armed) && pending ==>
        !constraintError && submitting && attempted == Some(draft) && dismissed == old(attempt) && attempt == old(attempt) + 1
      ensures old(armed) || !pending ==>
        constraintError == old(constraintError) && submitting == old(submitting) && attempted == old(attempted)
        && dismissed == old(dismissed) && attempt == old(attempt)
    {
      if armed {
        armed := false;
      } else {
        if !dirty || submitting {
          return;
        }
        BeginSubmit();
      }
      pending := true;
      sent := sent + [draft];
    }

    method LeaveField(valid: bool)
      requires Valid()
      modifies this
      ensures Valid() && Shown() == Next(old(Shown()), Leave(valid))
    {
      if !dirty || submitting {
        return;
      }
      if !valid {
        Invalid();
        return;
      }
      BeginSubmit();
      armed := true;
      Submit();
    }

    method PressEnter(valid: bool)
      requires Valid() && !pending
      modifies this
      ensures Valid() && Shown() == Next(old(Shown()), Enter(valid))
    {
      if valid {
        Submit();
      } else {
        Invalid();
      }
    }

    /** The effect that takes an answer in; it may run any number of times. */
    method TakeAnswer()
      modifies this`consumed, this`baseline, this`attempted, this`dirty, this`submitting
      ensures var news := !pending && old(attempted).Some? && stateAttempt == attempt && stateAttempt > old(consumed);
        && consumed == (if news then stateAttempt else old(consumed))
        && baseline == (if news && state.ok then old(attempted).value else old(baseline))
        && attempted == (if news && state.ok then None else old(attempted))
        && dirty == (old(dirty) && !(news && state.ok))
        && submitting == (old(submitting) && !(news && (state.ok || state.message != "")))
      ensures old(consumed) == stateAttempt ==> unchanged(this)
    {
      if pending || attempted.None? || stateAttempt != attempt || stateAttempt <= consumed {
        return;
      }
      consumed := stateAttempt;
      if state.ok {
        baseline := attempted.value;
        attempted := None;
        dirty := false;
        submitting := false;
        return;
      }
      if state.message != "" {
        submitting := false;
      }
    }

    method ReceiveAnswer(reply: Reply)
      requires Valid() && pending
      modifies this
      ensures Valid() && Shown() == Next(old(Shown()), Answer(reply))
    {
      state, stateAttempt, pending := reply, attempt, false;
      answers := answers + [reply];
      assert attempted == Some(draft) && consumed < stateAttempt == attempt;
      TakeAnswer();
      assert draft == old(sent[|sent| - 1]);
      assert baseline == if reply.ok then draft else old(baseline);
      assert Valid();
    }
  }

  // ---- Every run, told by its events alone ----

  ghost predicate IsRun(views: seq<View>, events: seq<Event>) {
    && |views| == |events| + 1
    && views[0] == Fresh(views[0].external)
    && forall n :: 0 <= n < |events| ==> Possible(views[n], events[n]) && views[n + 1] == Next(views[n], events[n])
  }

  lemma RunPrefix(views: seq<View>, events: seq<Event>)
    requires IsRun(views, events) && events != []
    ensures IsRun(views[..|events|], events[..|events| - 1])
  {
  }

  function LastReceived(first: string, events: seq<Event>): string {
    if events == [] then first
    else
      var before, e := events[..|events| - 1], events[|events| - 1];
      if e.Receive? then e.value else LastReceived(first, before)
  }

  function LastTyped(first: string, events: seq<Event>): string {
    if events == [] then first
    else
      var before, e := events[..|events| - 1], events[|events| - 1];
      if e.Type? then e.text else LastTyped(first, before)
  }

  /** The newest value known to be stored: a changed refresh, or what was typed last when a save was confirmed. */
  function LastKnown(first: string, events: seq<Event>): string {
    if events == [] then first
    else
      var before, e := events[..|events| - 1], events[|events| - 1];
      if e.Receive? && e.value != LastReceived(first, before) then e.value
      else if e.Answer? && e.reply.ok then LastTyped(first, before)
      else LastKnown(first, before)
  }

  /** The last typing differed from the value known then and no save was confirmed since. */
  predicate Unsaved(first: string, events: seq<Event>) {
    events != [] &&
    var before, e := events[..|events| - 1], events[|events| - 1];
    if e.Type? then e.text != LastKnown(first, before)
    else !(e.Answer? && e.reply.ok) && Unsaved(first, before)
  }

  ghost predicate MatchesLog(v: View, first: string, events: seq<Event>) {
    && v.external == LastReceived(first, events)
    && v.baseline == LastKnown(first, events)
    && v.edited == Unsaved(first, events)
    && v.draft == if Unsaved(first, events) then LastTyped(first, events) else LastKnown(first, events)
  }

  ghost predicate Orderly(v: View) {
    && |v.sent| == |v.answers| + (if v.phase == Saving then 1 else 0)
    && (v.phase == Saving ==> v.edited && v.draft == v.sent[|v.sent| - 1])
  }

  lemma LogsGrow(first: string, before: seq<Event>, e: Event)
    ensures var events := before + [e];
      && LastReceived(first, events) == (if e.Receive? then e.value else LastReceived(first, before))
      && LastTyped(first, events) == (if e.Type? then e.text else LastTyped(first, before))
      && LastKnown(first, events) ==
           (if e.Receive? && e.value != LastReceived(first, before) then e.value
            else if e.Answer? && e.reply.ok then LastTyped(first, before)
            else LastKnown(first, before))
      && Unsaved(first, events) ==
           (if e.Type? then e.text != LastKnown(first, before)
            else !(e.Answer? && e.reply.ok) && Unsaved(first, before))
  {
    var events := before + [e];
    assert events[..|events| - 1] == before && events[|events| - 1] == e;
  }

  lemma StepMatchesLog(v: View, e: Event, first: string, before: seq<Event>)
    requires MatchesLog(v, first, before) && Orderly(v) && Possible(v, e)
    ensures MatchesLog(Next(v, e), first, before + [e]) && Orderly(Next(v, e))
  {
    hide LastReceived, LastTyped, LastKnown, Unsaved;
    LogsGrow(first, before, e);
  }

  /** What the editor shows is a function of its history: a typed text stands until it is confirmed or retyped,
      whatever is received meanwhile, and otherwise the newest stored value shows. At most one save is open. */
  lemma {:induction false} EditorMatchesLog(views: seq<View>, events: seq<Event>)
    requires IsRun(views, events)
    ensures MatchesLog(views[|events|], views[0].external, events) && Orderly(views[|events|])
  {
    if events != [] {
      var n := |events| - 1;
      RunPrefix(views, events);
      EditorMatchesLog(views[..|events|], events[..n]);
      StepMatchesLog(views[n], events[n], views[0].external, events[..n]);
      assert events == events[..n] + [events[n]];
      assert views[n + 1] == Next(views[n], events[n]);
    }
  }

  /** Whatever a step sends is what the user typed last, never a refreshed value, and nothing else is open. */
  lemma OnlyTypedTextIsSent(views: seq<View>, events: seq<Event>, e: Event)
    requires IsRun(views, events) && Possible(views[|events|], e)
    ensures var v := views[|events|];
      var first := views[0].external;
      if Unsaved(first, events) && v.phase == Idle && (e == Leave(true) || e == Enter(true))
      then Next(v, e).sent == v.sent + [LastTyped(first, events)] && |v.sent| == |v.answers|
      else Next(v, e).sent == v.sent
  {
    EditorMatchesLog(views, events);
  }

  /** A confirmed save makes what was sent the stored value and the draft; a failed one leaves the draft as sent. */
  lemma AnswerSettlesTheDraft(views: seq<View>, events: seq<Event>, reply: Reply)
    requires IsRun(views, events) && views[|events|].phase == Saving
    ensures var v := views[|events|];
      && Possible(v, Answer(reply))
      && var w := Next(v, Answer(reply));
      && w.draft == v.sent[|v.sent| - 1]
      && (reply.ok ==> w.baseline == w.draft && !w.edited && w.phase == Idle)
      && (!reply.ok ==> w.edited && w.baseline == v.baseline)
      && ((Next(w, Leave(true)).sent == v.sent + [w.draft]) <==> !reply.ok && reply.message != "")
  {
    EditorMatchesLog(views, events);
    var v := views[|events|];
    var w := Next(v, Answer(reply));
    assert w.phase != Saving;
    if !(!reply.ok && reply.message != "") {
      assert Next(w, Leave(true)) == w;
      assert |v.sent + [w.draft]| != |w.sent|;
    }
  }

  // ---- The problem on show ----

  /** The browser refused the value: on Enter, or on leaving an edited field with nothing submitted. */
  predicate Refuses(v: View, e: Event) { e == Enter(false) || (e == Leave(false) && v.edited && v.phase == Idle) }

  /** Typing, sending and answers put an end to the problem on show. */
  predicate Clears(v: View, e: Event)
    requires Possible(v, e)
  {
    e.Type? || e.Answer? || Next(v, e).sent != v.sent
  }

  predicate Fails(e: Event, message: string) { e == Answer(Reply(false, message)) && message != "" }

  lemma ProblemStep(v: View, e: Event, message: string)
    requires Possible(v, e)
    ensures Next(v, e).problem == BadValue <==> Refuses(v, e) || (v.problem == BadValue && !Clears(v, e))
    ensures message != "" ==> (Next(v, e).problem == Failed(message) <==>
              Fails(e, message) || (v.problem == Failed(message) && !Clears(v, e) && !Refuses(v, e)))
    ensures v.problem != Failed("") ==> Next(v, e).problem != Failed("")
  {
    assert |v.sent + [v.draft]| > |v.sent|;
  }

  ghost predicate RefusedSince(views: seq<View>, events: seq<Event>, i: nat, n: nat)
    requires IsRun(views, events) && i < n <= |events|
  {
    Refuses(views[i], events[i]) && forall j :: i < j < n ==> !Clears(views[j], events[j])
  }

  ghost predicate FailedSince(views: seq<View>, events: seq<Event>, message: string, i: nat, n: nat)
    requires IsRun(views, events) && i < n <= |events|
  {
    Fails(events[i], message) && forall j :: i < j < n ==> !Clears(views[j], events[j]) && !Refuses(views[j], events[j])
  }

  /** Over every run the editor complains of the value exactly since the browser refused it, until the user types,
      something is sent or an answer comes. */
  lemma {:induction false} BadValueIff(views: seq<View>, events: seq<Event>, n: nat)
    requires IsRun(views, events) && n <= |events|
    ensures views[n].problem == BadValue <==> exists i :: 0 <= i < n && RefusedSince(views, events, i, n)
  {
    hide Next, Refuses, Clears;
    if n > 0 {
      BadValueIff(views, events, n - 1);
      assert Possible(views[n - 1], events[n - 1]) && views[n - 1 + 1] == Next(views[n - 1], events[n - 1]);
      ProblemStep(views[n - 1], events[n - 1], "");
      if views[n].problem == BadValue {
        if Refuses(views[n - 1], events[n - 1]) {
          assert RefusedSince(views, events, n - 1, n);
        } else {
          var i :| 0 <= i < n - 1 && RefusedSince(views, events, i, n - 1);
          assert RefusedSince(views, events, i, n);
        }
      }
      if i :| 0 <= i < n && RefusedSince(views, events, i, n) {
        if i < n - 1 {
          assert RefusedSince(views, events, i, n - 1);
        }
      }
    }
  }

  /** And it shows a failure exactly since it was answered with that message, until one of these or a refusal. */
  lemma {:induction false} FailureShownIff(views: seq<View>, events: seq<Event>, n: nat, message: string)
    requires IsRun(views, events) && n <= |events| && message != ""
    ensures views[n].problem == Failed(message) <==> exists i :: 0 <= i < n && FailedSince(views, events, message, i, n)
  {
    hide Next, Refuses, Clears, Fails;
    if n > 0 {
      FailureShownIff(views, events, n - 1, message);
      assert Possible(views[n - 1], events[n - 1]) && views[n - 1 + 1] == Next(views[n - 1], events[n - 1]);
      ProblemStep(views[n - 1], events[n - 1], message);
      if views[n].problem == Failed(message) {
        if Fails(events[n - 1], message) {
          assert FailedSince(views, events, message, n - 1, n);
        } else {
          var i :| 0 <= i < n - 1 && FailedSince(views, events, message, i, n - 1);
          assert FailedSince(views, events, message, i, n);
        }
      }
      if i :| 0 <= i < n && FailedSince(views, events, message, i, n) {
        if i < n - 1 {
          assert FailedSince(views, events, message, i, n - 1);
        }
      }
    }
  }

  ghost predicate SilentSince(views: seq<View>, events: seq<Event>, i: nat, n: nat)
    requires i < n <= |events|
  {
    events[i] == Answer(Reply(false, "")) && forall j :: i < j < n ==> events[j] != Enter(false)
  }

  lemma LockStep(v: View, e: Event)
    requires Possible(v, e)
    ensures Next(v, e).phase == Locked <==> e == Answer(Reply(false, "")) || (v.phase == Locked && e != Enter(false))
  {
  }

  /** Over every run the editor is locked exactly since an answer failed without a message, until Enter is pressed on a
      value the browser refuses; it is saving exactly while an answer is missing. */
  lemma {:induction false} PhaseIff(views: seq<View>, events: seq<Event>, n: nat)
    requires IsRun(views, events) && n <= |events|
    ensures views[n].phase == Locked <==> exists i :: 0 <= i < n && SilentSince(views, events, i, n)
    ensures views[n].phase == Saving <==> |views[n].sent| > |views[n].answers|
  {
    assert IsRun(views[..n + 1], events[..n]);
    EditorMatchesLog(views[..n + 1], events[..n]);
    hide Next;
    if n > 0 {
      PhaseIff(views, events, n - 1);
      assert Possible(views[n - 1], events[n - 1]) && views[n - 1 + 1] == Next(views[n - 1], events[n - 1]);
      LockStep(views[n - 1], events[n - 1]);
      if views[n].phase == Locked {
        if events[n - 1] == Answer(Reply(false, "")) {
          assert SilentSince(views, events, n - 1, n);
        } else {
          var i :| 0 <= i < n - 1 && SilentSince(views, events, i, n - 1);
          assert SilentSince(views, events, i, n);
        }
      }
      if i :| 0 <= i < n && SilentSince(views, events, i, n) {
        if i < n - 1 {
          assert SilentSince(views, events, i, n - 1);
        }
      }
    }
  }

  ghost predicate Follows(views: seq<View>, events: seq<Event>) {
    && |views| == |events| + 1
    && forall n :: 0 <= n < |events| ==> Possible(views[n], events[n]) && views[n + 1] == Next(views[n], events[n])
  }

  /** After a failure without a message nothing is ever saved again, until Enter is pressed on a value the browser refuses. */
  lemma {:induction false} SilentFailureLocks(views: seq<View>, events: seq<Event>)
    requires Follows(views, events) && views[0].phase == Locked
    ensures (forall n :: 0 <= n < |events| ==> events[n] != Enter(false)) <==> AllLocked(views)
    ensures AllLocked(views) ==> views[|events|].sent == views[0].sent
  {
    if events != [] {
      var n := |events| - 1;
      SilentFailureLocks(views[..|events|], events[..n]);
      assert views[n + 1] == Next(views[n], events[n]);
      assert forall k :: 0 <= k < n ==> events[..n][k] == events[k];
      if AllLocked(views) {
        assert AllLocked(views[..|events|]);
      }
    }
  }

  ghost predicate AllLocked(views: seq<View>) {
    forall n :: 0 <= n < |views| ==> views[n].phase == Locked
  }
}
