/** The bulk note dialog's request ids: one for each content and row, so that retries write no second note. */
module NoteRequests {
  import opened Lists
  import opened BulkDialogs
  import opened Retries

  /** The pair that is turned into the request key. */
  datatype Content = Content(kind: string, body: string)

  /** One note on its way. */
  datatype Note = Note(content: Content, itemId: string)

  datatype Request = Request(itemIds: seq<string>, content: Content, requestIds: map<string, string>)

  const MAX_BODY := 2000

  /** Two notes share a request id exactly when content and row are the same. */
  ghost predicate OneIdPerNote(sent: seq<Sent<Note>>) {
    forall i, j :: 0 <= i < |sent| && 0 <= j < |sent| ==>
      (sent[i].requestId == sent[j].requestId <==> sent[i].payload == sent[j].payload)
  }

  /** Every row has an id under every content asked for, and no id serves twice. */
  ghost predicate WellKept(requests: map<Content, map<string, string>>, reviewed: seq<string>) {
    && (forall c, id :: c in requests && id in reviewed ==> id in requests[c])
    && (forall c, d, x, y :: c in requests && d in requests && x in requests[c] && y in requests[d] && requests[c][x] == requests[d][y] ==>
          c == d && x == y)
  }

  ghost predicate Recorded(requests: map<Content, map<string, string>>, sent: seq<Sent<Note>>) {
    forall i :: 0 <= i < |sent| ==>
      && sent[i].payload.content in requests
      && sent[i].payload.itemId in requests[sent[i].payload.content]
      && requests[sent[i].payload.content][sent[i].payload.itemId] == sent[i].requestId
  }

  lemma RecordedHaveOneId(requests: map<Content, map<string, string>>, reviewed: seq<string>, sent: seq<Sent<Note>>)
    requires WellKept(requests, reviewed) && Recorded(requests, sent)
    ensures OneIdPerNote(sent)
  {
    forall i, j | 0 <= i < |sent| && 0 <= j < |sent|
      ensures sent[i].requestId == sent[j].requestId <==> sent[i].payload == sent[j].payload
    {
      var p, q := sent[i].payload, sent[j].payload;
      if sent[i].requestId == sent[j].requestId {
        assert requests[p.content][p.itemId] == requests[q.content][q.itemId];
      }
    }
  }

  /** New random ids, one for each reviewed row. */
  ghost predicate FreshFor(newIds: map<string, string>, reviewed: seq<string>, requests: map<Content, map<string, string>>) {
    && (forall id :: id in newIds <==> id in reviewed)
    && (forall x, y :: x in newIds && y in newIds && newIds[x] == newIds[y] ==> x == y)
    && (forall c, x, y :: c in requests && x in requests[c] && y in newIds ==> requests[c][x] != newIds[y])
  }

  lemma EveryRowHasAnId(requests: map<Content, map<string, string>>, reviewed: seq<string>, c: Content)
    requires WellKept(requests, reviewed) && c in requests
    ensures forall id :: id in reviewed ==> id in requests[c]
  {
  }

  lemma AddingKeeps(requests: map<Content, map<string, string>>, c: Content, newIds: map<string, string>, reviewed: seq<string>,
      sent: seq<Sent<Note>>)
    requires WellKept(requests, reviewed) && c !in requests && FreshFor(newIds, reviewed, requests) && Recorded(requests, sent)
    ensures WellKept(requests[c := newIds], reviewed) && Recorded(requests[c := newIds], sent)
  {
    AddingKeepsIds(requests, c, newIds, reviewed);
    hide WellKept, FreshFor;
    assert Recorded(requests[c := newIds], sent);
  }

  lemma AddingKeepsIds(requests: map<Content, map<string, string>>, c: Content, newIds: map<string, string>, reviewed: seq<string>)
    requires WellKept(requests, reviewed) && c !in requests && FreshFor(newIds, reviewed, requests)
    ensures WellKept(requests[c := newIds], reviewed)
  {
    var more := requests[c := newIds];
    forall d, e, x, y | d in more && e in more && x in more[d] && y in more[e] && more[d][x] == more[e][y]
      ensures d == e && x == y
    {
      if d != c && e != c {
        assert requests[d][x] == requests[e][y];
      }
    }
  }

  function Notes(ids: seq<string>, content: Content, requestIds: map<string, string>): (sent: seq<Sent<Note>>)
    requires forall id :: id in ids ==> id in requestIds
    ensures |sent| == |ids|
    ensures forall i :: 0 <= i < |ids| ==> sent[i] == Sent(requestIds[ids[i]], Note(content, ids[i]))
  {
    seq(|ids|, i requires 0 <= i < |ids| => Sent(requestIds[ids[i]], Note(content, ids[i])))
  }

  class NoteDialog {
    const reviewed: seq<string>
    var result: Option<Summary>
    var noteRequests: map<Content, map<string, string>>
    ghost var sent: seq<Sent<Note>>

    function State(): Dialog reads this`result { Dialog(reviewed, result, []) }

    ghost predicate Valid() reads this {
      Balanced(State()) && WellKept(noteRequests, reviewed) && Recorded(noteRequests, sent)
    }

    constructor (targets: seq<string>)
      requires NoDuplicates(targets)
      ensures Valid() && State() == Open(targets) && sent == [] && noteRequests == map[]
    {
      reviewed, result, noteRequests, sent := targets, None, map[], [];
      new;
      OpenBalanced(targets);
    }

    /** The rows still to be written. */
    function Ids(): seq<string> reads this`result {
      if result.Some? then Filter(reviewed, NotOkIn(result.value.results)) else reviewed
    }

    /** `trimmed` is the trimmed body; `newIds` are new ids, used only for a content not asked for before. */
    method Apply(kind: string, trimmed: string, newIds: map<string, string>) returns (request: Option<Request>)
      requires Valid() && FreshFor(newIds, reviewed, noteRequests)
      modifies this`noteRequests, this`sent
      ensures Valid() && OneIdPerNote(sent)
      ensures request.Some? <==> 0 < |trimmed| <= MAX_BODY && Ids() != []
      ensures request.None? ==> noteRequests == old(noteRequests) && sent == old(sent)
      ensures request.Some? ==>
        && request.value.itemIds == Ids() && request.value.content == Content(kind, trimmed)
        && request.value.requestIds ==
             (if Content(kind, trimmed) in old(noteRequests) then old(noteRequests)[Content(kind, trimmed)] else newIds)
        && noteRequests == old(noteRequests)[Content(kind, trimmed) := request.value.requestIds]
        && (forall id :: id in Ids() ==> id in request.value.requestIds)
        && sent == old(sent) + Notes(Ids(), Content(kind, trimmed), request.value.requestIds)
    {
      hide Balanced, WellKept, Recorded, FreshFor, OneIdPerNote, Ids;
      RecordedHaveOneId(noteRequests, reviewed, sent);
      if trimmed == "" || |trimmed| > MAX_BODY {
        return None;
      }
      var ids := Ids();
      if |ids| == 0 {
        return None;
      }
      var content := Content(kind, trimmed);
      if content !in noteRequests {
        AddingKeeps(noteRequests, content, newIds, reviewed, sent);
        noteRequests := noteRequests[content := newIds];
      }
      var requestIds := noteRequests[content];
      IdsReviewed();
      EveryRowHasAnId(noteRequests, reviewed, content);
      assert forall id :: id in ids ==> id in requestIds;
      SendingRecords(noteRequests, content, ids, sent);
      sent := sent + Notes(ids, content, requestIds);
      RecordedHaveOneId(noteRequests, reviewed, sent);
      assert noteRequests == old(noteRequests)[content := requestIds];
      return Some(Request(ids, content, requestIds));
    }

    /** They are the reviewed rows without an ok answer, in the order reviewed, each once. */
    lemma IdsWait()
      requires Valid()
      ensures Ids() == Filter(reviewed, Among(Todo(State()))) && multiset(Ids()) == multiset(Todo(State()))
    {
      SubmittedAlike(State());
      if result.None? {
        FilterAll(reviewed, Among(reviewed));
      }
    }

    lemma IdsReviewed()
      ensures forall id :: id in Ids() ==> id in reviewed
    {
      if result.Some? {
        FilterMembers(reviewed, NotOkIn(result.value.results));
      }
    }

    /** One entry came back for each row sent. */
    method Answered(next: seq<Entry>)
      requires Valid() && Possible(State(), BulkDialogs.Apply(next))
      modifies this`result
      ensures Valid() && State() == Next(old(State()), BulkDialogs.Apply(next))
    {
      StepBalances(State(), BulkDialogs.Apply(next));
      result := Some(Summarize((if result.Some? then Filter(result.value.results, Okay()) else []) + next));
    }
  }

  lemma SendingRecords(requests: map<Content, map<string, string>>, content: Content, ids: seq<string>, sent: seq<Sent<Note>>)
    requires Recorded(requests, sent) && content in requests && forall id :: id in ids ==> id in requests[content]
    ensures Recorded(requests, sent + Notes(ids, content, requests[content]))
  {
  }

  /** The notes among the first `n` sent that reached the server. */
  ghost function Arrived(sent: seq<Sent<Note>>, arrived: seq<bool>): set<Note>
    requires |arrived| == |sent|
  {
    set i | 0 <= i < |sent| && arrived[i] :: sent[i].payload
  }

  /** Whatever is lost and retried, the server writes each content on each row once. */
  lemma {:induction false} EachNoteWrittenOnce(sent: seq<Sent<Note>>, arrived: seq<bool>)
    requires OneIdPerNote(sent) && |arrived| == |sent|
    ensures var server := Serve(sent, arrived); server.refused == 0 && server.effects == |Arrived(sent, arrived)|
  {
    hide Arrived, OneIdPerNote, OneIdOnePayload;
    OneIdGivesOnePayload(sent);
    OneEffectPerId(sent, arrived);
    if sent == [] {
      NoneArrived(sent, arrived);
    } else {
      var last := |sent| - 1;
      var s, a := sent[..last], arrived[..last];
      FewerNotes(sent);
      EachNoteWrittenOnce(s, a);
      ArrivedGrows(sent, arrived);
      SeenIff(sent, arrived);
      assert sent == s + [sent[last]] && arrived == a + [arrived[last]];
      ServeSnoc(s, a, sent[last], arrived[last]);
      OneMore(Arrived(s, a), sent[last].payload);
    }
  }

  lemma OneMore(notes: set<Note>, note: Note)
    ensures |notes + {note}| == |notes| + if note in notes then 0 else 1
  {
    if note in notes {
      assert notes + {note} == notes;
    }
  }

  lemma NoneArrived(sent: seq<Sent<Note>>, arrived: seq<bool>)
    requires sent == [] && arrived == []
    ensures Arrived(sent, arrived) == {}
  {
  }

  lemma FewerNotes(sent: seq<Sent<Note>>)
    requires OneIdPerNote(sent) && sent != []
    ensures OneIdPerNote(sent[..|sent| - 1])
  {
  }

  lemma OneIdGivesOnePayload(sent: seq<Sent<Note>>)
    requires OneIdPerNote(sent)
    ensures OneIdOnePayload(sent)
  {
  }

  lemma ArrivedGrows(sent: seq<Sent<Note>>, arrived: seq<bool>)
    requires |arrived| == |sent| > 0
    ensures var last := |sent| - 1;
      Arrived(sent, arrived) == Arrived(sent[..last], arrived[..last]) + (if arrived[last] then {sent[last].payload} else {})
  {
    var last := |sent| - 1;
    forall note ensures note in Arrived(sent, arrived) <==>
      note in Arrived(sent[..last], arrived[..last]) || (arrived[last] && note == sent[last].payload)
    {
      if i :| 0 <= i < last && arrived[i] && sent[i].payload == note {
        assert sent[..last][i] == sent[i] && arrived[..last][i];
      }
      if i :| 0 <= i < last && arrived[..last][i] && sent[..last][i].payload == note {
        assert sent[i] == sent[..last][i] && arrived[i];
      }
    }
  }

  /** The last id is known to the server already exactly when its note has arrived before. */
  lemma SeenIff(sent: seq<Sent<Note>>, arrived: seq<bool>)
    requires OneIdPerNote(sent) && |arrived| == |sent| > 0
    ensures var last := |sent| - 1;
      sent[last].requestId in Serve(sent[..last], arrived[..last]).store <==>
      sent[last].payload in Arrived(sent[..last], arrived[..last])
  {
    var last := |sent| - 1;
    var s, a := sent[..last], arrived[..last];
    hide Serve;
    OneIdGivesOnePayload(s);
    OneEffectPerId(s, a);
    if sent[last].requestId in Serve(s, a).store {
      var i :| 0 <= i < |s| && a[i] && s[i].requestId == sent[last].requestId;
      assert sent[i].requestId == sent[last].requestId;
    }
    if sent[last].payload in Arrived(s, a) {
      var i :| 0 <= i < |s| && a[i] && s[i].payload == sent[last].payload;
      assert sent[i].payload == sent[last].payload;
    }
  }
}
