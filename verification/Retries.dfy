/** Requests that keep their id until an answer settles them, and a server that keeps one effect per id. */
module Retries {
  import opened Lists

  /** One request as it was sent: what the user asked, what went over the wire, and whether its answer
      released the request id. */
  datatype Call<A, P> = Call(ask: A, requestId: string, payload: P, settled: bool)

  /** Calls i..j repeat one unsettled ask. */
  ghost predicate OneRun<A, P>(calls: seq<Call<A, P>>, i: nat, j: nat) {
    forall k :: i <= k < j && k + 1 < |calls| ==> !calls[k].settled && calls[k].ask == calls[k + 1].ask
  }

  /** Two calls share an id exactly when they belong to one run of retries, and then they carry one payload. */
  ghost predicate Disciplined<A(!new), P(!new)>(calls: seq<Call<A, P>>) {
    forall i, j :: 0 <= i <= j < |calls| ==>
      && (calls[i].requestId == calls[j].requestId <==> OneRun(calls, i, j))
      && (calls[i].requestId == calls[j].requestId ==> calls[i].ask == calls[j].ask && calls[i].payload == calls[j].payload)
  }

  ghost predicate Unused<A, P>(calls: seq<Call<A, P>>, requestId: string) {
    forall i :: 0 <= i < |calls| ==> calls[i].requestId != requestId
  }

  /** What a next call must look like. */
  ghost predicate Follows<A(!new), P(!new)>(calls: seq<Call<A, P>>, next: Call<A, P>) {
    if calls != [] && !calls[|calls| - 1].settled && calls[|calls| - 1].ask == next.ask
    then next.requestId == calls[|calls| - 1].requestId && next.payload == calls[|calls| - 1].payload
    else Unused(calls, next.requestId)
  }

  lemma RunSnoc<A(!new), P(!new)>(calls: seq<Call<A, P>>, next: Call<A, P>, i: nat)
    requires i < |calls|
    ensures var last := calls[|calls| - 1];
            OneRun(calls + [next], i, |calls|) <==>
            OneRun(calls, i, |calls| - 1) && !last.settled && last.ask == next.ask
  {
    var more := calls + [next];
    assert forall k :: 0 <= k < |calls| ==> more[k] == calls[k];
    if OneRun(more, i, |calls|) {
      assert !more[|calls| - 1].settled && more[|calls| - 1].ask == more[|calls| - 1 + 1].ask;
      forall k | i <= k < |calls| - 1 && k + 1 < |calls| ensures !calls[k].settled && calls[k].ask == calls[k + 1].ask {
        assert !more[k].settled && more[k].ask == more[k + 1].ask;
      }
    }
  }

  lemma RunPrefix<A(!new), P(!new)>(calls: seq<Call<A, P>>, next: Call<A, P>, i: nat, j: nat)
    requires i <= j < |calls|
    ensures OneRun(calls + [next], i, j) <==> OneRun(calls, i, j)
  {
    var more := calls + [next];
    if OneRun(more, i, j) {
      forall k | i <= k < j && k + 1 < |calls| ensures !calls[k].settled && calls[k].ask == calls[k + 1].ask {
        assert !more[k].settled && more[k].ask == more[k + 1].ask;
      }
    }
    if OneRun(calls, i, j) {
      forall k | i <= k < j && k + 1 < |more| ensures !more[k].settled && more[k].ask == more[k + 1].ask {
        assert !calls[k].settled && calls[k].ask == calls[k + 1].ask;
      }
    }
  }

  /** Sending one more call keeps the discipline. */
  lemma SendKeepsDiscipline<A(!new), P(!new)>(calls: seq<Call<A, P>>, next: Call<A, P>)
    requires Disciplined(calls) && Follows(calls, next)
    ensures Disciplined(calls + [next])
  {
    var more := calls + [next];
    forall i, j | 0 <= i <= j < |more|
      ensures (more[i].requestId == more[j].requestId <==> OneRun(more, i, j))
        && (more[i].requestId == more[j].requestId ==> more[i].ask == more[j].ask && more[i].payload == more[j].payload)
    {
      if j < |calls| {
        RunPrefix(calls, next, i, j);
      } else if i < |calls| {
        RunSnoc(calls, next, i);
        var last := |calls| - 1;
        assert calls[i].requestId == calls[last].requestId <==> OneRun(calls, i, last);
      }
    }
  }

  /** The calls once the last one is answered. */
  function Answered<A, P>(calls: seq<Call<A, P>>, settled: bool): (r: seq<Call<A, P>>)
    requires calls != []
    ensures |r| == |calls| && r[|r| - 1] == calls[|calls| - 1].(settled := settled)
  {
    calls[|calls| - 1 := calls[|calls| - 1].(settled := settled)]
  }

  /** So does learning the answer to the last one. */
  lemma AnswerKeepsDiscipline<A(!new), P(!new)>(calls: seq<Call<A, P>>, settled: bool)
    requires Disciplined(calls) && calls != []
    ensures Disciplined(Answered(calls, settled))
  {
    var last := |calls| - 1;
    var more := Answered(calls, settled);
    assert forall k :: 0 <= k < last ==> more[k] == calls[k];
    forall i, j | 0 <= i <= j < |more|
      ensures (more[i].requestId == more[j].requestId <==> OneRun(more, i, j))
        && (more[i].requestId == more[j].requestId ==> more[i].ask == more[j].ask && more[i].payload == more[j].payload)
    {
      assert calls[i].requestId == calls[j].requestId <==> OneRun(calls, i, j);
      assert OneRun(calls, i, j) <==> OneRun(more, i, j) by {
        if OneRun(calls, i, j) {
          forall k | i <= k < j && k + 1 < |more| ensures !more[k].settled && more[k].ask == more[k + 1].ask {
            assert !calls[k].settled && calls[k].ask == calls[k + 1].ask;
          }
        }
        if OneRun(more, i, j) {
          forall k | i <= k < j && k + 1 < |calls| ensures !calls[k].settled && calls[k].ask == calls[k + 1].ask {
            assert !more[k].settled && more[k].ask == more[k + 1].ask;
          }
        }
      }
    }
  }

  // ---- A server that remembers what each id asked for ----

  datatype Sent<P> = Sent(requestId: string, payload: P)

  /** `refused` counts ids that came back with another payload. */
  datatype Server<P> = Server(store: map<string, P>, effects: nat, refused: nat)

  function Handle<P(==)>(server: Server<P>, sent: Sent<P>): Server<P> {
    if sent.requestId !in server.store then
      Server(server.store[sent.requestId := sent.payload], server.effects + 1, server.refused)
    else if server.store[sent.requestId] == sent.payload then server
    else server.(refused := server.refused + 1)
  }

  /** The server after a run of requests of which some never arrived; answers may be lost without a trace here. */
  function Serve<P(==)>(sent: seq<Sent<P>>, arrived: seq<bool>): Server<P>
    requires |arrived| == |sent|
  {
    if sent == [] then Server(map[], 0, 0)
    else
      var last := |sent| - 1;
      var before := Serve(sent[..last], arrived[..last]);
      if arrived[last] then Handle(before, sent[last]) else before
  }

  lemma ServeSnoc<P>(sent: seq<Sent<P>>, arrived: seq<bool>, next: Sent<P>, here: bool)
    requires |arrived| == |sent|
    ensures Serve(sent + [next], arrived + [here]) ==
            if here then Handle(Serve(sent, arrived), next) else Serve(sent, arrived)
  {
    assert (sent + [next])[..|sent|] == sent && (arrived + [here])[..|sent|] == arrived;
  }

  ghost predicate OneIdOnePayload<P>(sent: seq<Sent<P>>) {
    forall i, j :: 0 <= i < |sent| && 0 <= j < |sent| && sent[i].requestId == sent[j].requestId ==>
      sent[i].payload == sent[j].payload
  }

  /** When every id is sent with one payload the server never sees an id reused,
      and keeps exactly one effect for each id that arrived. */
  lemma {:induction false} OneEffectPerId<P>(sent: seq<Sent<P>>, arrived: seq<bool>)
    requires |arrived| == |sent| && OneIdOnePayload(sent)
    ensures var server := Serve(sent, arrived);
            && server.refused == 0
            && server.effects == |server.store|
            && (forall id :: id in server.store <==> exists i :: 0 <= i < |sent| && arrived[i] && sent[i].requestId == id)
            && (forall i :: 0 <= i < |sent| && sent[i].requestId in server.store ==> server.store[sent[i].requestId] == sent[i].payload)
  {
    if sent != [] {
      var last := |sent| - 1;
      var before := Serve(sent[..last], arrived[..last]);
      OneEffectPerId(sent[..last], arrived[..last]);
      var server := Serve(sent, arrived);
      forall id ensures id in server.store <==> exists i :: 0 <= i < |sent| && arrived[i] && sent[i].requestId == id {
        if id in before.store {
          var i :| 0 <= i < last && arrived[..last][i] && sent[..last][i].requestId == id;
          assert arrived[i] && sent[i].requestId == id;
        }
        if i :| 0 <= i < |sent| && arrived[i] && sent[i].requestId == id {
          if i < last {
            assert arrived[..last][i] && sent[..last][i].requestId == id;
          }
        }
      }
      forall i | 0 <= i < |sent| && sent[i].requestId in server.store
        ensures server.store[sent[i].requestId] == sent[i].payload
      {
        if sent[i].requestId in before.store {
          var j :| 0 <= j < last && arrived[..last][j] && sent[..last][j].requestId == sent[i].requestId;
          assert sent[..last][j] == sent[j];
          assert before.store[sent[j].requestId] == sent[j].payload;
        }
      }
    }
  }

  function Wire<A, P>(calls: seq<Call<A, P>>): (sent: seq<Sent<P>>)
    ensures |sent| == |calls|
    ensures forall i :: 0 <= i < |calls| ==> sent[i] == Sent(calls[i].requestId, calls[i].payload)
  {
    seq(|calls|, i requires 0 <= i < |calls| => Sent(calls[i].requestId, calls[i].payload))
  }

  /** A disciplined client against such a server: no refusal and one effect per id, whatever is lost. */
  lemma DisciplinedNeverDuplicates<A(!new), P(!new)>(calls: seq<Call<A, P>>, arrived: seq<bool>)
    requires Disciplined(calls) && |arrived| == |calls|
    ensures var server := Serve(Wire(calls), arrived);
            && server.refused == 0 && server.effects == |server.store|
            && forall i :: 0 <= i < |calls| && arrived[i] ==>
                 calls[i].requestId in server.store && server.store[calls[i].requestId] == calls[i].payload
  {
    var sent := Wire(calls);
    forall i, j | 0 <= i < |sent| && 0 <= j < |sent| && sent[i].requestId == sent[j].requestId
      ensures sent[i].payload == sent[j].payload
    {
      var a, b := if i <= j then i else j, if i <= j then j else i;
      assert calls[a].requestId == calls[b].requestId;
    }
    OneEffectPerId(sent, arrived);
    forall i | 0 <= i < |calls| && arrived[i]
      ensures calls[i].requestId in Serve(sent, arrived).store && Serve(sent, arrived).store[calls[i].requestId] == calls[i].payload
    {
      assert sent[i].requestId == calls[i].requestId;
    }
  }
}
