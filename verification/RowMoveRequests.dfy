/** Saving row moves: one call in flight, a request id kept while the answer is unknown, and the order version held. */
module RowMoveRequests {
  import opened Lists
  import opened Retries

  /** The move as the user asked for it; its text form is the intent key. */
  datatype Target = Target(itemId: string, groupId: Option<string>, beforeItemId: Option<string>)

  /** The body of the request next to its id. */
  datatype Body = Body(target: Target, expectedVersion: int)

  datatype Intent = Intent(key: Target, requestId: string, expectedVersion: int)

  datatype Answer = Saved(version: int) | Refused(stale: bool) | Thrown

  class RowMover {
    var held: int
    var latestProp: int
    var inFlight: bool
    var intent: Option<Intent>
    /** Every call so far, the open one last. */
    ghost var calls: seq<Call<Target, Body>>

    ghost predicate Valid() reads this {
      && Disciplined(calls)
      && (inFlight ==> calls != [] && intent.Some? && !calls[|calls| - 1].settled)
      && (!inFlight ==> held >= latestProp)
      && (intent.Some? ==> calls != [] && Describes(calls[|calls| - 1], intent.value))
      && (calls != [] ==> (calls[|calls| - 1].settled <==> intent.None?))
    }

    constructor (version: int)
      ensures Valid() && calls == [] && held == version && latestProp == version && !inFlight
    {
      held, latestProp, inFlight, intent, calls := version, version, false, None, [];
    }

    /** The board came again with an order version. */
    method ReceiveVersion(next: int)
      requires Valid()
      modifies this`latestProp, this`held
      ensures Valid() && latestProp == next && held == if inFlight then old(held) else next
    {
      latestProp := next;
      if !inFlight {
        held := next;
      }
    }

    /** Starts a move unless one is being saved. `freshId` is a new random id. */
    method Begin(target: Target, freshId: string) returns (started: bool)
      requires Valid() && Unused(calls, freshId)
      modifies this`inFlight, this`intent, this`calls
      ensures Valid() && started == !old(inFlight) && inFlight
      ensures !started ==> calls == old(calls) && intent == old(intent)
      ensures started ==>
        var again := old(intent).Some? && old(intent).value.key == target;
        calls == old(calls) + [Call(target,
          if again then old(intent).value.requestId else freshId,
          Body(target, if again then old(intent).value.expectedVersion else held), false)]
    {
      if inFlight {
        return false;
      }
      inFlight := true;
      if intent.None? || intent.value.key != target {
        intent := Some(Intent(target, freshId, held));
      }
      ghost var call := Call(target, intent.value.requestId, Body(target, intent.value.expectedVersion), false);
      SendKeepsDiscipline(calls, call);
      calls := calls + [call];
      return true;
    }

    /** The open call ends: answered, refused or thrown. */
    method Finish(answer: Answer)
      requires Valid() && inFlight
      modifies this
      ensures Valid() && !inFlight && latestProp == old(latestProp)
      ensures held == Max(latestProp, if answer.Saved? then answer.version else old(held))
      ensures calls == Answered(old(calls), answer.Saved? || answer == Refused(true))
    {
      ghost var settled := answer.Saved? || answer == Refused(true);
      match answer {
        case Saved(version) =>
          intent := None;
          held := Max(version, latestProp);
        case Refused(stale) =>
          if stale {
            intent := None;
          }
        case Thrown =>
      }
      inFlight := false;
      held := Max(held, latestProp);
      AnswerKeepsDiscipline(calls, settled);
      calls := Answered(calls, settled);
    }
  }

  ghost predicate Describes(call: Call<Target, Body>, intent: Intent) {
    call.ask == intent.key && call.requestId == intent.requestId && call.payload == Body(intent.key, intent.expectedVersion)
  }
}
