/** Bulk duplication: the intent key that outlives the dialog, and how many copies a row can get. */
module DuplicateIntent {
  import opened Lists
  import opened BulkDialogs

  /** What passed between browser and server, in order: a row sent under a key, a row answered ok under it. */
  datatype Wire = Sent(key: string, itemId: string) | Confirmed(key: string, itemId: string)

  /** Position `m` after `i` confirms what `i` sent. */
  ghost predicate ConfirmedAfter(log: seq<Wire>, i: nat)
    requires i < |log| && log[i].Sent?
  {
    exists m :: i < m < |log| && log[m] == Confirmed(log[i].key, log[i].itemId)
  }

  /** A row is sent under another key only after it was answered ok under the earlier one. */
  ghost predicate KeysWaitForOk(log: seq<Wire>) {
    forall i, j :: 0 <= i < j < |log| && log[i].Sent? && log[j].Sent? && log[i].itemId == log[j].itemId && log[i].key != log[j].key ==>
      exists m :: i < m < j && log[m] == Confirmed(log[i].key, log[i].itemId)
  }

  /** Whatever was sent is answered ok since, or waits under the current key. */
  ghost predicate Settled(log: seq<Wire>, key: string, unresolved: set<string>) {
    forall i :: 0 <= i < |log| && log[i].Sent? ==>
      ConfirmedAfter(log, i) || (log[i].key == key && log[i].itemId in unresolved)
  }

  ghost predicate KeyUnused(log: seq<Wire>, key: string) {
    forall m :: 0 <= m < |log| ==> log[m].key != key
  }

  function SentAll(key: string, ids: seq<string>): (log: seq<Wire>)
    ensures |log| == |ids| && forall i :: 0 <= i < |ids| ==> log[i] == Sent(key, ids[i])
  {
    seq(|ids|, i requires 0 <= i < |ids| => Sent(key, ids[i]))
  }

  function ConfirmedAll(key: string, ids: seq<string>): (log: seq<Wire>)
    ensures |log| == |ids| && forall i :: 0 <= i < |ids| ==> log[i] == Confirmed(key, ids[i])
  {
    seq(|ids|, i requires 0 <= i < |ids| => Confirmed(key, ids[i]))
  }

  lemma StillConfirmed(log: seq<Wire>, more: seq<Wire>, i: nat)
    requires i < |log| && log[i].Sent? && ConfirmedAfter(log, i)
    ensures ConfirmedAfter(log + more, i)
  {
    var m :| i < m < |log| && log[m] == Confirmed(log[i].key, log[i].itemId);
    assert (log + more)[m] == log[m];
  }

  lemma SendingSettles(log: seq<Wire>, key: string, unresolved: set<string>, ids: seq<string>)
    requires Settled(log, key, unresolved)
    ensures Settled(log + SentAll(key, ids), key, unresolved + set id | id in ids)
  {
    hide ConfirmedAfter;
    var more := log + SentAll(key, ids);
    forall i | 0 <= i < |more| && more[i].Sent?
      ensures ConfirmedAfter(more, i) || (more[i].key == key && more[i].itemId in unresolved + set id | id in ids)
    {
      if i < |log| {
        if ConfirmedAfter(log, i) {
          StillConfirmed(log, SentAll(key, ids), i);
        }
      } else {
        assert more[i] == Sent(key, ids[i - |log|]);
      }
    }
  }

  lemma SendingWaits(log: seq<Wire>, key: string, unresolved: set<string>, ids: seq<string>)
    requires Settled(log, key, unresolved) && KeysWaitForOk(log)
    ensures KeysWaitForOk(log + SentAll(key, ids))
  {
    var more := log + SentAll(key, ids);
    forall i, j | 0 <= i < j < |more| && more[i].Sent? && more[j].Sent? && more[i].itemId == more[j].itemId && more[i].key != more[j].key
      ensures exists m :: i < m < j && more[m] == Confirmed(more[i].key, more[i].itemId)
    {
      if j < |log| {
        var m :| i < m < j && log[m] == Confirmed(log[i].key, log[i].itemId);
        assert more[m] == log[m];
      } else {
        assert more[j].key == key;
        assert i < |log|;
        assert ConfirmedAfter(log, i);
        var m :| i < m < |log| && log[m] == Confirmed(log[i].key, log[i].itemId);
        assert more[m] == log[m];
      }
    }
  }

  lemma ConfirmingSettles(log: seq<Wire>, key: string, unresolved: set<string>, ids: seq<string>)
    requires Settled(log, key, unresolved)
    ensures Settled(log + ConfirmedAll(key, ids), key, unresolved - set id | id in ids)
  {
    var more := log + ConfirmedAll(key, ids);
    forall i | 0 <= i < |more| && more[i].Sent?
      ensures ConfirmedAfter(more, i) || (more[i].key == key && more[i].itemId in unresolved - set id | id in ids)
    {
      assert i < |log|;
      if ConfirmedAfter(log, i) {
        StillConfirmed(log, ConfirmedAll(key, ids), i);
      } else if log[i].itemId in ids {
        var k :| 0 <= k < |ids| && ids[k] == log[i].itemId;
        assert more[|log| + k] == Confirmed(key, ids[k]);
      }
    }
  }

  lemma ConfirmingWaits(log: seq<Wire>, key: string, ids: seq<string>)
    requires KeysWaitForOk(log)
    ensures KeysWaitForOk(log + ConfirmedAll(key, ids))
  {
    var more := log + ConfirmedAll(key, ids);
    forall i, j | 0 <= i < j < |more| && more[i].Sent? && more[j].Sent? && more[i].itemId == more[j].itemId && more[i].key != more[j].key
      ensures exists m :: i < m < j && more[m] == Confirmed(more[i].key, more[i].itemId)
    {
      assert j < |log|;
      var m :| i < m < j && log[m] == Confirmed(log[i].key, log[i].itemId);
      assert more[m] == log[m];
    }
  }

  lemma AnyKeyNext(log: seq<Wire>, key: string, next: string)
    requires Settled(log, key, {})
    ensures Settled(log, next, {})
  {
  }

  lemma StillUnused(log: seq<Wire>, key: string, ids: seq<string>, freshKey: string)
    requires KeyUnused(log, freshKey) && freshKey != key
    ensures KeyUnused(log + ConfirmedAll(key, ids), freshKey)
  {
  }

  datatype Shown = Shown(dialog: Dialog, bulkKey: string)

  class DuplicateBar {
    var intentKey: string
    var unresolved: set<string>
    var shown: Option<Shown>
    var inFlight: bool
    ghost var log: seq<Wire>

    ghost predicate Valid() reads this {
      && KeysWaitForOk(log) && Settled(log, intentKey, unresolved)
      && (unresolved == {} ==> KeyUnused(log, intentKey))
      && (inFlight ==> shown.Some? && Todo(shown.value.dialog) != [] && forall id :: id in Todo(shown.value.dialog) ==> id in unresolved)
      && (shown.Some? ==> Balanced(shown.value.dialog))
      && (shown.Some? && Todo(shown.value.dialog) != [] ==> shown.value.bulkKey == intentKey)
      && (shown.Some? && shown.value.dialog.result.Some? ==> forall id :: id in Todo(shown.value.dialog) ==> id in unresolved)
    }

    constructor (key: string)
      ensures Valid() && intentKey == key && unresolved == {} && shown.None? && !inFlight && log == []
    {
      intentKey, unresolved, shown, inFlight, log := key, {}, None, false, [];
    }

    /** The dialog keeps the key it opened with. */
    method OpenDialog(targets: seq<string>)
      requires Valid() && shown.None? && NoDuplicates(targets)
      modifies this`shown
      ensures Valid() && shown == Some(Shown(Open(targets), intentKey))
    {
      OpenBalanced(targets);
      shown := Some(Shown(Open(targets), intentKey));
    }

    /** It stays open while a call runs. */
    method CloseDialog()
      requires Valid()
      modifies this`shown
      ensures Valid() && shown == if inFlight then old(shown) else None
    {
      if !inFlight {
        shown := None;
      }
    }

    method Start() returns (started: bool)
      requires Valid() && shown.Some?
      modifies this`inFlight, this`unresolved, this`log
      ensures Valid() && started == (!old(inFlight) && Todo(shown.value.dialog) != [])
      ensures !started ==> inFlight == old(inFlight) && unresolved == old(unresolved) && log == old(log)
      ensures started ==>
        var ids := Todo(shown.value.dialog);
        && inFlight && unresolved == old(unresolved) + (set id | id in ids)
        && log == old(log) + SentAll(intentKey, ids)
      ensures old(unresolved) == {} ==> KeyUnused(old(log), intentKey)
    {
      hide Balanced, KeysWaitForOk, Settled, Todo, KeyUnused;
      var ids := Todo(shown.value.dialog);
      if inFlight || |ids| == 0 {
        return false;
      }
      inFlight := true;
      SendingSettles(log, intentKey, unresolved, ids);
      SendingWaits(log, intentKey, unresolved, ids);
      log := log + SentAll(shown.value.bulkKey, ids);
      unresolved := unresolved + set id | id in ids;
      assert ids[0] in unresolved;
      return true;
    }

    /** The call came back with one entry for each row; `freshKey` is a new random key. */
    method Answered(results: seq<Entry>, freshKey: string)
      requires Valid() && inFlight && Covers(results, Todo(shown.value.dialog))
      requires freshKey != intentKey && KeyUnused(log, freshKey)
      modifies this
      ensures Valid() && !inFlight && shown.Some? && shown.value.dialog == Next(old(shown.value.dialog), Apply(results))
      ensures var done := IdsOf(Filter(results, Okay()));
        && log == old(log) + ConfirmedAll(old(intentKey), done)
        && unresolved == old(unresolved) - (set id | id in done)
        && intentKey == if unresolved == {} then freshKey else old(intentKey)
    {
      hide Balanced, KeysWaitForOk, Settled, Todo, Filter, Next, KeyUnused;
      var before := shown.value.dialog;
      var key := shown.value.bulkKey;
      var done := IdsOf(Filter(results, Okay()));
      StepBalances(before, Apply(results));
      FailingStillWait(before, results);
      shown := Some(Shown(Next(before, Apply(results)), key));
      ConfirmingSettles(log, intentKey, unresolved, done);
      ConfirmingWaits(log, intentKey, done);
      log := log + ConfirmedAll(key, done);
      unresolved := unresolved - set id | id in done;
      NothingWaits(Todo(shown.value.dialog), unresolved);
      if unresolved == {} {
        AnyKeyNext(log, intentKey, freshKey);
        StillUnused(old(log), key, done, freshKey);
        intentKey := freshKey;
      }
      inFlight := false;
    }

    /** The call threw: nothing is known of its rows. */
    method Threw()
      requires Valid() && inFlight
      modifies this`inFlight
      ensures Valid() && !inFlight
    {
      inFlight := false;
    }
  }

  lemma NothingWaits(ids: seq<string>, s: set<string>)
    requires forall id :: id in ids ==> id in s
    ensures s == {} ==> ids == []
  {
    if ids != [] {
      assert ids[0] in s;
    }
  }

  /** After an answer the waiting rows were submitted before and are not among the ones just done. */
  lemma FailingStillWait(d: Dialog, results: seq<Entry>)
    requires Balanced(d) && Todo(d) != [] && Covers(results, Todo(d))
    ensures var e := Next(d, Apply(results));
      e.result.Some? && forall id :: id in Todo(e) ==> id in Todo(d) && id !in IdsOf(Filter(results, Okay()))
  {
    hide Todo, Filter, Moved, Undoable;
    var e := Next(d, Apply(results));
    StepBalances(d, Apply(results));
    MergeSplits(d, results);
    MovedOnce(e);
    OkayOrFailing(results);
    forall id | id in Todo(e) ensures id in Todo(d) && id !in IdsOf(Filter(results, Okay())) {
      assert multiset(Todo(e))[id] > 0;
      assert id in multiset(IdsOf(results));
      assert id in IdsOf(Filter(results, Okay())) ==> id in Moved(e) && multiset(Moved(e))[id] > 0;
    }
  }

  // ---- Copies ----

  /** The keys a row was sent under, and those it was answered ok under. */
  ghost function KeysSent(log: seq<Wire>, id: string): set<string> {
    set i | 0 <= i < |log| && log[i].Sent? && log[i].itemId == id :: log[i].key
  }

  ghost function KeysConfirmed(log: seq<Wire>, id: string): set<string> {
    set i | 0 <= i < |log| && log[i].Confirmed? && log[i].itemId == id :: log[i].key
  }

  /** Only one key of a row can be without an ok answer. */
  lemma OneKeyUnconfirmed(log: seq<Wire>, id: string, k: string, l: string)
    requires KeysWaitForOk(log)
    requires k in KeysSent(log, id) - KeysConfirmed(log, id) && l in KeysSent(log, id) - KeysConfirmed(log, id)
    ensures k == l
  {
    var i :| 0 <= i < |log| && log[i] == Sent(k, id);
    var j :| 0 <= j < |log| && log[j] == Sent(l, id);
    hide KeysWaitForOk, KeysSent, KeysConfirmed;
    if k != l {
      if i < j {
        EarlierKeyConfirmed(log, i, j);
      } else {
        EarlierKeyConfirmed(log, j, i);
      }
    }
  }

  lemma EarlierKeyConfirmed(log: seq<Wire>, i: nat, j: nat)
    requires KeysWaitForOk(log) && i < j < |log| && log[i].Sent? && log[j].Sent?
    requires log[i].itemId == log[j].itemId && log[i].key != log[j].key
    ensures log[i].key in KeysConfirmed(log, log[i].itemId)
  {
    var m :| i < m < j && log[m] == Confirmed(log[i].key, log[i].itemId);
  }

  /** A server that copies a row at most once for each key makes at most one copy that was never confirmed:
      copies exceed the confirmed keys by one at most, whatever is lost, closed, reopened and retried. */
  lemma CopiesAreConfirmedButOne(log: seq<Wire>, id: string, copied: set<string>)
    requires KeysWaitForOk(log) && copied <= KeysSent(log, id)
    ensures |copied| <= |KeysConfirmed(log, id)| + 1
    ensures forall k, l :: k in copied && l in copied && k !in KeysConfirmed(log, id) && l !in KeysConfirmed(log, id) ==> k == l
  {
    hide KeysWaitForOk, KeysSent, KeysConfirmed;
    var sure := KeysConfirmed(log, id);
    var open := copied - sure;
    forall k, l | k in copied && l in copied && k !in sure && l !in sure ensures k == l {
      OneKeyUnconfirmed(log, id, k, l);
    }
    if open == {} {
      forall k | k in copied ensures k in sure {
        assert k !in open;
      }
      SubsetSize(copied, sure);
    } else {
      var k :| k in open;
      assert copied <= sure + {k};
      SubsetSize(copied, sure + {k});
    }
  }

  lemma {:induction false} SubsetSize(a: set<string>, b: set<string>)
    requires a <= b
    ensures |a| <= |b|
    decreases a
  {
    if a != {} {
      var x :| x in a;
      SubsetSize(a - {x}, b - {x});
    }
  }

  // ---- When a started row is copied anew ----

  /** What is confirmed was sent before, and reached the server. */
  ghost predicate Truthful(log: seq<Wire>, arrived: set<nat>) {
    forall m :: 0 <= m < |log| && log[m].Confirmed? ==>
      exists i :: 0 <= i < m && i in arrived && log[i] == Sent(log[m].key, log[m].itemId)
  }

  /** The server made a copy of the row under this key; it makes no second one. */
  ghost predicate Copied(log: seq<Wire>, arrived: set<nat>, key: string, id: string) {
    exists i :: 0 <= i < |log| && i in arrived && log[i] == Sent(key, id)
  }

  /** A row answered ok under the current key makes no further copy under it, and neither does a row that waits
      if its send arrived; any other row does. */
  lemma SwallowedIff(log: seq<Wire>, key: string, unresolved: set<string>, arrived: set<nat>, id: string)
    requires Settled(log, key, unresolved) && Truthful(log, arrived)
    ensures Confirmed(key, id) in log ==> Copied(log, arrived, key, id)
    ensures id !in unresolved ==> (Copied(log, arrived, key, id) <==> Confirmed(key, id) in log)
  {
    if Confirmed(key, id) in log {
      var m :| 0 <= m < |log| && log[m] == Confirmed(key, id);
    }
    if i :| 0 <= i < |log| && i in arrived && log[i] == Sent(key, id) {
      assert ConfirmedAfter(log, i) || id in unresolved;
    }
  }

  /** With nothing unresolved every started row gets a copy of its own. */
  lemma NothingWaitingNothingSwallowed(bar: DuplicateBar, arrived: set<nat>, id: string)
    requires bar.Valid() && bar.unresolved == {}
    ensures !Copied(bar.log, arrived, bar.intentKey, id) && Confirmed(bar.intentKey, id) !in bar.log
  {
    hide Balanced, KeysWaitForOk, Settled;
  }

  /** A started row that is not itself waiting makes no copy of its own exactly when another one waits and it was
      answered ok under the current key. */
  lemma SwallowedOnlyBesideWaiting(bar: DuplicateBar, arrived: set<nat>, id: string)
    requires bar.Valid() && Truthful(bar.log, arrived) && id !in bar.unresolved
    ensures Copied(bar.log, arrived, bar.intentKey, id) <==> bar.unresolved != {} && Confirmed(bar.intentKey, id) in bar.log
  {
    hide Balanced, KeysWaitForOk, Settled, KeyUnused, Copied;
    SwallowedIff(bar.log, bar.intentKey, bar.unresolved, arrived, id);
    if bar.unresolved == {} {
      NothingWaitingNothingSwallowed(bar, arrived, id);
    }
  }

  /** While another row of the same key waits, a second duplication of a finished row goes out under the old key again:
      two confirmations, one copy. */
  method SecondCopySwallowed(key: string, freshKey: string) returns (bar: DuplicateBar)
    requires freshKey != key
    ensures bar.log == [Sent(key, "a"), Sent(key, "b"), Confirmed(key, "a"), Sent(key, "a"), Confirmed(key, "a")]
  {
    hide *;
    var both, onlyA := ["a", "b"], ["a"];
    var first, second := [Entry("a", true), Entry("b", false)], [Entry("a", true)];
    TwoRows(first, second);
    bar := new DuplicateBar(key);
    bar.OpenDialog(both);
    var one := bar.Start();
    NotYetUsed(bar.log, key, freshKey);
    bar.Answered(first, freshKey);
    assert "b" in bar.unresolved;
    bar.CloseDialog();
    bar.OpenDialog(onlyA);
    var two := bar.Start();
    NotYetUsed(bar.log, key, freshKey);
    bar.Answered(second, freshKey);
  }

  lemma NotYetUsed(log: seq<Wire>, key: string, freshKey: string)
    requires freshKey != key && forall m :: 0 <= m < |log| ==> log[m].key == key
    ensures KeyUnused(log, freshKey)
  {
  }

  lemma TwoRows(first: seq<Entry>, second: seq<Entry>)
    requires first == [Entry("a", true), Entry("b", false)] && second == [Entry("a", true)]
    ensures NoDuplicates(["a", "b"]) && NoDuplicates(["a"])
    ensures Todo(Open(["a", "b"])) == ["a", "b"] && Todo(Open(["a"])) == ["a"]
    ensures Covers(first, ["a", "b"]) && Covers(second, ["a"])
    ensures IdsOf(Filter(first, Okay())) == ["a"] && IdsOf(Filter(second, Okay())) == ["a"]
  {
    assert IdsOf(first) == ["a", "b"] && IdsOf(second) == ["a"];
    var a, b := Entry("a", true), Entry("b", false);
    assert first == [a] + [b] && second == [a] + [] && [b] == [b] + [];
    FilterCons(b, [], Okay());
    FilterCons(a, [b], Okay());
    FilterCons(a, [], Okay());
    assert Filter(first, Okay()) == [a] && Filter(second, Okay()) == [a];
  }
}
