/** The bulk dialogs: results merged over retries, moved rows restored by undo, note requests kept per content. */
module BulkDialogs {
  import opened Lists

  datatype Entry = Entry(itemId: string, ok: bool)

  function Okay(): Entry -> bool { (e: Entry) => e.ok }
  function Failing(): Entry -> bool { (e: Entry) => !e.ok }
  function NotIn(restored: seq<string>): Entry -> bool { (e: Entry) => e.itemId !in restored }
  function Among(ids: seq<string>): string -> bool { (id: string) => id in ids }
  function NotOkIn(entries: seq<Entry>): string -> bool {
    (id: string) => !exists e :: e in entries && e.itemId == id && e.ok
  }

  function IdsOf(entries: seq<Entry>): (ids: seq<string>)
    ensures |ids| == |entries| && forall i :: 0 <= i < |entries| ==> ids[i] == entries[i].itemId
  {
    seq(|entries|, i requires 0 <= i < |entries| => entries[i].itemId)
  }

  lemma IdsAppend(a: seq<Entry>, b: seq<Entry>)
    ensures IdsOf(a + b) == IdsOf(a) + IdsOf(b)
  {
  }

  // ---- The server's answer ----

  const BULK_MAX_ITEMS := 100

  function NonEmpty(): string -> bool { (id: string) => id != "" }

  /** Distinct ids, the empty ones left out. */
  function Requested(itemIds: seq<string>): (ids: seq<string>)
    ensures NoDuplicates(ids) && forall id :: id in ids <==> id in itemIds && id != ""
  {
    FilterMembers(itemIds, NonEmpty());
    Distinct(Filter(itemIds, NonEmpty()))
  }

  /** A refused batch fails as a whole; else the first hundred are tried one by one and the rest fail. */
  method Answer(itemIds: seq<string>, refused: bool, succeeds: string -> bool) returns (results: seq<Entry>)
    ensures IdsOf(results) == Requested(itemIds)
    ensures forall i :: 0 <= i < |results| ==>
      (results[i].ok <==> !refused && i < BULK_MAX_ITEMS && succeeds(results[i].itemId))
  {
    var ids := Requested(itemIds);
    results := [];
    for i := 0 to |ids|
      invariant |results| == i
      invariant forall k :: 0 <= k < i ==>
        results[k] == Entry(ids[k], !refused && k < BULK_MAX_ITEMS && succeeds(ids[k]))
    {
      results := results + [Entry(ids[i], !refused && i < BULK_MAX_ITEMS && succeeds(ids[i]))];
    }
    assert forall k :: 0 <= k < |ids| ==> results[k].itemId == ids[k];
  }

  lemma CleanRequest(ids: seq<string>)
    requires NoDuplicates(ids) && "" !in ids
    ensures Requested(ids) == ids
  {
    FilterAll(ids, NonEmpty());
    DistinctOfDistinct(ids);
  }

  // ---- A dialog ----

  datatype Summary = Summary(ok: bool, applied: int, failed: int, results: seq<Entry>)

  /** `reviewed` holds the rows as they were when the dialog opened. */
  datatype Dialog = Dialog(reviewed: seq<string>, result: Option<Summary>, restored: seq<string>)

  datatype Event = Apply(results: seq<Entry>) | Undo(results: seq<Entry>)

  function Open(reviewed: seq<string>): Dialog { Dialog(reviewed, None, []) }

  /** The rows the next apply submits. */
  function Todo(d: Dialog): seq<string> {
    if d.result.Some? then IdsOf(Filter(d.result.value.results, Failing())) else d.reviewed
  }

  /** The rows the next undo submits. */
  function Undoable(d: Dialog): seq<string> {
    if d.result.Some? then IdsOf(Filter(Filter(d.result.value.results, Okay()), NotIn(d.restored))) else []
  }

  function Kept(d: Dialog): seq<Entry> {
    if d.result.Some? then Filter(d.result.value.results, Okay()) else []
  }

  function Summarize(results: seq<Entry>): Summary {
    var applied := |Filter(results, Okay())|;
    Summary(applied == |results|, applied, |results| - applied, results)
  }

  /** One entry for each submitted row, in any order. */
  ghost predicate Covers(results: seq<Entry>, ids: seq<string>) {
    multiset(IdsOf(results)) == multiset(ids)
  }

  /** The buttons are disabled while a call runs and when nothing is left to do. */
  ghost predicate Possible(d: Dialog, e: Event) {
    match e
    case Apply(results) => Todo(d) != [] && Covers(results, Todo(d))
    case Undo(results) => Undoable(d) != [] && Covers(results, Undoable(d))
  }

  function Next(d: Dialog, e: Event): Dialog {
    match e
    case Apply(results) => d.(result := Some(Summarize(Kept(d) + results)))
    case Undo(results) => d.(restored := d.restored + IdsOf(Filter(results, Okay())))
  }

  class BulkDialog {
    const reviewed: seq<string>
    var result: Option<Summary>
    var restored: seq<string>

    function State(): Dialog reads this { Dialog(reviewed, result, restored) }

    constructor (targets: seq<string>)
      ensures State() == Open(targets)
    {
      reviewed, result, restored := targets, None, [];
    }

    method ApplyAnswered(next: seq<Entry>)
      modifies this`result
      ensures State() == Next(old(State()), Apply(next))
    {
      var results := (if result.Some? then Filter(result.value.results, Okay()) else []) + next;
      var applied := |Filter(results, Okay())|;
      result := Some(Summary(applied == |results|, applied, |results| - applied, results));
    }

    method UndoAnswered(next: seq<Entry>)
      modifies this`restored
      ensures State() == Next(old(State()), Undo(next))
    {
      restored := restored + IdsOf(Filter(next, Okay()));
    }
  }

  // ---- Each row in one place ----

  lemma {:induction false} OkayOrFailingCount(entries: seq<Entry>, id: string)
    ensures multiset(IdsOf(entries))[id] ==
            multiset(IdsOf(Filter(entries, Okay())))[id] + multiset(IdsOf(Filter(entries, Failing())))[id]
  {
    if entries != [] {
      var head, rest := [entries[0]], entries[1..];
      OkayOrFailingCount(rest, id);
      assert entries == head + rest;
      IdsAppend(head, rest);
      FilterCons(entries[0], rest, Okay());
      FilterCons(entries[0], rest, Failing());
      if entries[0].ok {
        IdsAppend(head, Filter(rest, Okay()));
      } else {
        IdsAppend(head, Filter(rest, Failing()));
      }
    }
  }

  lemma OkayOrFailing(entries: seq<Entry>)
    ensures multiset(IdsOf(entries)) ==
            multiset(IdsOf(Filter(entries, Okay()))) + multiset(IdsOf(Filter(entries, Failing())))
  {
    hide Filter;
    forall id {
      OkayOrFailingCount(entries, id);
    }
  }

  lemma KeptAreOkay(d: Dialog)
    ensures Filter(Kept(d), Okay()) == Kept(d) && Filter(Kept(d), Failing()) == []
  {
    if d.result.Some? {
      FilterMembers(d.result.value.results, Okay());
      FilterAll(Kept(d), Okay());
      FilterNone(Kept(d), Failing());
    }
  }

  /** Rows answered ok so far, in the order of the answers. */
  function Moved(d: Dialog): seq<string> { IdsOf(Kept(d)) }

  /** Merging keeps the rows already ok and puts the new answers after them. */
  lemma MergeSplits(d: Dialog, results: seq<Entry>)
    ensures var e := Next(d, Apply(results));
      && Moved(e) == Moved(d) + IdsOf(Filter(results, Okay()))
      && Todo(e) == IdsOf(Filter(results, Failing()))
  {
    hide Filter;
    KeptAreOkay(d);
    FilterAppend(Kept(d), results, Okay());
    FilterAppend(Kept(d), results, Failing());
    IdsAppend(Kept(d), Filter(results, Okay()));
    assert [] + Filter(results, Failing()) == Filter(results, Failing());
  }

  /** An undo restores exactly the rows answered ok, after those restored before and in the order of the answers;
      it moves none. */
  lemma UndoRestores(d: Dialog, results: seq<Entry>)
    ensures var e := Next(d, Undo(results));
      && e.restored == d.restored + IdsOf(Filter(results, Okay()))
      && (forall id :: id in e.restored <==> id in d.restored || Entry(id, true) in results)
      && e.reviewed == d.reviewed && e.result == d.result
  {
    var oks := Filter(results, Okay());
    FilterMembers(results, Okay());
    forall id ensures id in IdsOf(oks) <==> Entry(id, true) in results {
      if id in IdsOf(oks) {
        var i :| 0 <= i < |oks| && IdsOf(oks)[i] == id;
        assert oks[i] in oks && oks[i] == Entry(id, true);
      }
      if Entry(id, true) in results {
        var i :| 0 <= i < |oks| && oks[i] == Entry(id, true);
        assert IdsOf(oks)[i] == id;
      }
    }
  }

  /** Every reviewed row waits or was moved, once; restored rows were moved, once; the counts fit. */
  ghost predicate Balanced(d: Dialog) {
    && NoDuplicates(d.reviewed)
    && multiset(Moved(d)) + multiset(Todo(d)) == multiset(d.reviewed)
    && NoDuplicates(d.restored)
    && (forall id :: id in d.restored ==> id in Moved(d))
    && (d.result.Some? ==> d.result.value == Summarize(d.result.value.results)
                           && multiset(IdsOf(d.result.value.results)) == multiset(d.reviewed))
  }

  lemma OpenBalanced(reviewed: seq<string>)
    requires NoDuplicates(reviewed)
    ensures Balanced(Open(reviewed))
  {
    assert Moved(Open(reviewed)) == [];
  }

  lemma UndoableIs(d: Dialog)
    ensures forall id :: id in Undoable(d) <==> id in Moved(d) && id !in d.restored
  {
    var kept := Kept(d);
    FilterMembers(kept, NotIn(d.restored));
    if d.result.Some? {
      var left := Filter(kept, NotIn(d.restored));
      forall id ensures id in IdsOf(left) <==> id in IdsOf(kept) && id !in d.restored {
        if id in IdsOf(left) {
          var i :| 0 <= i < |left| && left[i].itemId == id;
          assert left[i] in left && left[i] in kept;
        }
        if id in IdsOf(kept) && id !in d.restored {
          var i :| 0 <= i < |kept| && kept[i].itemId == id;
          assert kept[i] in kept && kept[i] in left;
        }
      }
    }
  }

  lemma ApplyBalances(d: Dialog, results: seq<Entry>)
    requires Balanced(d) && Possible(d, Apply(results))
    ensures Balanced(Next(d, Apply(results)))
  {
    hide Filter, Todo, NoDuplicates, Kept;
    var e := Next(d, Apply(results));
    MergeSplits(d, results);
    OkayOrFailing(results);
    IdsAppend(Kept(d), results);
    assert IdsOf(e.result.value.results) == Moved(d) + IdsOf(results);
  }

  lemma UndoBalances(d: Dialog, results: seq<Entry>)
    requires Balanced(d) && Possible(d, Undo(results))
    ensures Balanced(Next(d, Undo(results)))
  {
    hide Filter, Todo, Kept, Moved, Undoable;
    var e := Next(d, Undo(results));
    assert Moved(e) == Moved(d) && Todo(e) == Todo(d) by { SameResult(d, results); }
    UndoneOnce(d, results);
  }

  lemma SameResult(d: Dialog, results: seq<Entry>)
    ensures var e := Next(d, Undo(results)); Moved(e) == Moved(d) && Todo(e) == Todo(d)
  {
  }

  lemma UndoneOnce(d: Dialog, results: seq<Entry>)
    requires Balanced(d) && Possible(d, Undo(results))
    ensures var more := IdsOf(Filter(results, Okay()));
      NoDuplicates(d.restored + more) && forall id :: id in more ==> id in Moved(d) && id !in d.restored
  {
    hide Filter, Todo, Kept, Moved, Undoable;
    var more := IdsOf(Filter(results, Okay()));
    UndoableIs(d);
    OkayOrFailing(results);
    MovedOnce(d);
    UndoableOnce(d);
    forall id | id in more ensures id in Moved(d) && id !in d.restored {
      assert multiset(more)[id] > 0;
      assert id in multiset(Undoable(d));
    }
    forall id ensures multiset(more)[id] <= 1 {
      assert multiset(more)[id] <= multiset(Undoable(d))[id];
    }
    CountedOnce(more);
    AppendOnce(d.restored, more);
  }

  lemma CountedOnce(s: seq<string>)
    requires forall id :: multiset(s)[id] <= 1
    ensures NoDuplicates(s)
  {
    forall i, j | 0 <= i < j < |s| ensures s[i] != s[j] {
      TwiceCounts(s, i, j);
    }
  }

  lemma TwiceCounts(s: seq<string>, i: nat, j: nat)
    requires i < j < |s|
    ensures s[i] == s[j] ==> multiset(s)[s[i]] >= 2
  {
    assert s == s[..i] + [s[i]] + s[i + 1..j] + [s[j]] + s[j + 1..];
  }

  lemma AppendOnce(a: seq<string>, b: seq<string>)
    requires NoDuplicates(a) && NoDuplicates(b) && forall x :: x in b ==> x !in a
    ensures NoDuplicates(a + b)
  {
    forall i, j | 0 <= i < j < |a + b| ensures (a + b)[i] != (a + b)[j] {
      if i < |a| <= j {
        assert b[j - |a|] in b;
      }
    }
  }

  lemma MovedOnce(d: Dialog)
    requires Balanced(d)
    ensures forall id :: multiset(Moved(d))[id] + multiset(Todo(d))[id] <= 1
  {
    hide Todo, Moved;
    forall id ensures multiset(Moved(d))[id] + multiset(Todo(d))[id] <= 1 {
      CountAtMostOne(d.reviewed, id);
      assert (multiset(Moved(d)) + multiset(Todo(d)))[id] <= 1;
    }
  }

  lemma {:induction false} FilterCounts(entries: seq<Entry>, p: Entry -> bool, id: string)
    ensures multiset(IdsOf(Filter(entries, p)))[id] <= multiset(IdsOf(entries))[id]
  {
    if entries != [] {
      var head, rest := [entries[0]], entries[1..];
      FilterCounts(rest, p, id);
      assert entries == head + rest;
      IdsAppend(head, rest);
      FilterCons(entries[0], rest, p);
      IdsAppend(head, Filter(rest, p));
    }
  }

  lemma UndoableOnce(d: Dialog)
    requires Balanced(d)
    ensures forall id :: multiset(Undoable(d))[id] <= 1
  {
    MovedOnce(d);
    forall id ensures multiset(Undoable(d))[id] <= 1 {
      if d.result.Some? {
        FilterCounts(Kept(d), NotIn(d.restored), id);
      }
    }
  }

  lemma ListedFailing(results: seq<Entry>, id: string)
    requires Entry(id, false) in results
    ensures multiset(IdsOf(Filter(results, Failing())))[id] > 0
  {
    FilterMembers(results, Failing());
    var fails := Filter(results, Failing());
    var i :| 0 <= i < |fails| && fails[i] == Entry(id, false);
    assert IdsOf(fails)[i] == id;
  }

  lemma ListedOkay(results: seq<Entry>, id: string)
    ensures Entry(id, true) in results ==> multiset(IdsOf(Filter(results, Okay())))[id] > 0
  {
    if Entry(id, true) in results {
      OkayListed(results, id);
    }
  }

  /** A row whose undo failed can be undone again; one whose undo succeeded cannot. */
  lemma FailedUndoStays(d: Dialog, results: seq<Entry>, id: string)
    requires Balanced(d) && Possible(d, Undo(results))
    ensures var e := Next(d, Undo(results));
      && (Entry(id, false) in results ==> id in Undoable(e))
      && (Entry(id, true) in results ==> id !in Undoable(e))
      && (id in Undoable(e) <==> id in Undoable(d) && Entry(id, true) !in results)
  {
    hide Filter, Todo, Kept, Moved, Undoable, Balanced, NoDuplicates;
    var e := Next(d, Undo(results));
    UndoRestores(d, results);
    UndoableIs(d);
    UndoableIs(e);
    SameResult(d, results);
    if Entry(id, false) in results {
      UndoableOnce(d);
      OkayOrFailing(results);
      ListedFailing(results, id);
      assert id in multiset(Undoable(d));
      ListedOkay(results, id);
      assert Entry(id, true) in results ==> multiset(Undoable(d))[id] >= 2;
    }
  }

  lemma StepBalances(d: Dialog, e: Event)
    requires Balanced(d) && Possible(d, e)
    ensures Balanced(Next(d, e))
  {
    match e {
      case Apply(results) => ApplyBalances(d, results);
      case Undo(results) => UndoBalances(d, results);
    }
  }

  /** In a balanced dialog every reviewed row is in exactly one of the three places, no other row is anywhere,
      and applied and failed add up to the number reviewed. */
  lemma EachRowInOnePlace(d: Dialog)
    requires Balanced(d)
    ensures forall id :: id in d.reviewed <==> (id in Todo(d) || id in Undoable(d) || id in d.restored)
    ensures forall id :: id in Todo(d) ==> id !in Undoable(d) && id !in d.restored
    ensures forall id :: id in Undoable(d) ==> id !in d.restored
    ensures |Todo(d)| + |Undoable(d)| + |d.restored| == |d.reviewed|
    ensures d.result.Some? ==>
      var r := d.result.value;
      r.applied + r.failed == |r.results| == |d.reviewed| && r.failed == |Todo(d)| && (r.ok <==> Todo(d) == [])
  {
    hide Filter, Todo, Kept, Moved, Undoable, NoDuplicates;
    MovedOnce(d);
    UndoableIs(d);
    forall id ensures id in d.reviewed <==> (id in Todo(d) || id in Undoable(d) || id in d.restored) {
      assert id in d.reviewed <==> id in multiset(d.reviewed);
      assert id in Todo(d) <==> id in multiset(Todo(d));
      assert id in Moved(d) <==> id in multiset(Moved(d));
    }
    forall id | id in Todo(d) ensures id !in Moved(d) {
      assert multiset(Todo(d))[id] > 0;
      assert id in Moved(d) ==> multiset(Moved(d))[id] > 0;
    }
    assert |multiset(Moved(d)) + multiset(Todo(d))| == |Moved(d)| + |Todo(d)|;
    assert |multiset(d.reviewed)| == |d.reviewed|;
    MovedSplits(d);
    if d.result.Some? {
      CountsFit(d);
      assert |multiset(IdsOf(d.result.value.results))| == |IdsOf(d.result.value.results)|;
    }
  }

  lemma CountsFit(d: Dialog)
    requires d.result.Some? && d.result.value == Summarize(d.result.value.results)
    ensures d.result.value.applied == |Moved(d)|
  {
  }

  lemma MovedSplits(d: Dialog)
    requires Balanced(d)
    ensures |Moved(d)| == |Undoable(d)| + |d.restored|
  {
    hide Filter, Todo, Kept, Moved, Undoable;
    MovedOnce(d);
    UndoableOnce(d);
    UndoableIs(d);
    CountedOnce(Moved(d));
    CountedOnce(Undoable(d));
    var both := Undoable(d) + d.restored;
    AppendOnce(Undoable(d), d.restored);
    assert forall id :: id in both <==> id in Moved(d);
    SameSize(both, Moved(d));
  }

  lemma {:induction false} SetSize(s: seq<string>)
    requires NoDuplicates(s)
    ensures |set x | x in s| == |s|
  {
    if s != [] {
      var last := |s| - 1;
      SetSize(s[..last]);
      assert s == s[..last] + [s[last]];
      assert (set x | x in s) == (set x | x in s[..last]) + {s[last]};
    }
  }

  lemma SameSize(a: seq<string>, b: seq<string>)
    requires NoDuplicates(a) && NoDuplicates(b) && forall x :: x in a <==> x in b
    ensures |a| == |b|
  {
    SetSize(a);
    SetSize(b);
    assert (set x | x in a) == (set x | x in b);
  }

  /** What the server answers is one entry for each submitted row, both for a retry and for an undo. */
  lemma AnswersCover(d: Dialog, results: seq<Entry>)
    requires Balanced(d) && "" !in d.reviewed
    ensures IdsOf(results) == Requested(Todo(d)) ==> Covers(results, Todo(d))
    ensures IdsOf(results) == Requested(Undoable(d)) ==> Covers(results, Undoable(d))
  {
    hide Todo, Undoable, Moved;
    EachRowInOnePlace(d);
    MovedOnce(d);
    UndoableOnce(d);
    CountedOnce(Todo(d));
    CountedOnce(Undoable(d));
    CleanRequest(Todo(d));
    CleanRequest(Undoable(d));
  }

  // ---- Whole runs ----

  ghost predicate IsRun(states: seq<Dialog>, events: seq<Event>) {
    && |states| == |events| + 1
    && NoDuplicates(states[0].reviewed) && states[0] == Open(states[0].reviewed)
    && forall n :: 0 <= n < |events| ==> Possible(states[n], events[n]) && states[n + 1] == Next(states[n], events[n])
  }

  /** Through any mix of retries and undos. */
  lemma {:induction false} EveryRunBalances(states: seq<Dialog>, events: seq<Event>, n: nat)
    requires IsRun(states, events) && n <= |events|
    ensures Balanced(states[n]) && states[n].reviewed == states[0].reviewed
  {
    hide Balanced, NoDuplicates, Possible;
    if n == 0 {
      OpenBalanced(states[0].reviewed);
    } else {
      EveryRunBalances(states, events, n - 1);
      assert states[n - 1 + 1] == Next(states[n - 1], events[n - 1]);
      StepBalances(states[n - 1], events[n - 1]);
    }
  }

  lemma {:induction false} MovedStays(states: seq<Dialog>, events: seq<Event>, m: nat, n: nat)
    requires IsRun(states, events) && m <= n <= |events|
    ensures forall id :: id in Moved(states[m]) ==> id in Moved(states[n])
    ensures forall id :: id in states[m].restored ==> id in states[n].restored
    decreases n - m
  {
    hide NoDuplicates, Possible, Moved, Todo, Filter;
    if m < n {
      MovedStays(states, events, m, n - 1);
      assert states[n - 1 + 1] == Next(states[n - 1], events[n - 1]);
      if events[n - 1].Apply? {
        MergeSplits(states[n - 1], events[n - 1].results);
      } else {
        SameResult(states[n - 1], events[n - 1].results);
      }
    }
  }

  /** A row answered ok is never submitted again, and a restored one neither moved nor restored again. */
  lemma SettledRowsStaySettled(states: seq<Dialog>, events: seq<Event>, m: nat, n: nat, id: string)
    requires IsRun(states, events) && m < n < |events| && Entry(id, true) in events[m].results
    ensures events[m].Apply? ==> id !in Todo(states[n])
    ensures events[m].Undo? ==> id !in Todo(states[n]) && id !in Undoable(states[n])
  {
    hide NoDuplicates, Possible, Moved, Todo, Undoable, Filter, Balanced;
    EveryRunBalances(states, events, n);
    EachRowInOnePlace(states[n]);
    UndoableIs(states[n]);
    MovedStays(states, events, m + 1, n);
    OkayListed(events[m].results, id);
    assert states[m + 1] == Next(states[m], events[m]);
    if events[m].Apply? {
      MergeSplits(states[m], events[m].results);
    }
  }

  lemma OkayListed(results: seq<Entry>, id: string)
    requires Entry(id, true) in results
    ensures id in IdsOf(Filter(results, Okay()))
  {
    FilterMembers(results, Okay());
    var oks := Filter(results, Okay());
    var i :| 0 <= i < |oks| && oks[i] == Entry(id, true);
    assert IdsOf(oks)[i] == id;
  }

  /** The archive and link dialogs submit the reviewed rows that still wait, and the note dialog the reviewed rows
      without an ok entry: the same rows, each once. */
  lemma SubmittedAlike(d: Dialog)
    requires Balanced(d)
    ensures multiset(Filter(d.reviewed, Among(Todo(d)))) == multiset(Todo(d))
    ensures d.result.Some? ==> Filter(d.reviewed, NotOkIn(d.result.value.results)) == Filter(d.reviewed, Among(Todo(d)))
  {
    var todo := Filter(d.reviewed, Among(Todo(d)));
    EachRowInOnePlace(d);
    MovedOnce(d);
    FilterMembers(d.reviewed, Among(Todo(d)));
    FilterNoDuplicates(d.reviewed, Among(Todo(d)));
    CountedOnce(Todo(d));
    SameCounts(todo, Todo(d));
    if d.result.Some? {
      forall id | id in d.reviewed ensures NotOkIn(d.result.value.results)(id) == Among(Todo(d))(id) {
        WaitingIffNotOk(d, id);
      }
      FilterAgrees(d.reviewed, NotOkIn(d.result.value.results), Among(Todo(d)));
    }
  }

  lemma WaitingIffNotOk(d: Dialog, id: string)
    requires Balanced(d) && d.result.Some? && id in d.reviewed
    ensures NotOkIn(d.result.value.results)(id) <==> id in Todo(d)
  {
    hide Todo, Undoable, NoDuplicates;
    var results := d.result.value.results;
    EachRowInOnePlace(d);
    UndoableIs(d);
    FilterMembers(results, Okay());
    if !NotOkIn(results)(id) {
      OkayListed(results, id);
    }
    if id in Moved(d) {
      var i :| 0 <= i < |Kept(d)| && Kept(d)[i].itemId == id;
      assert Kept(d)[i] in results;
    }
    MovedOnce(d);
    if id in Todo(d) {
      assert multiset(Todo(d))[id] > 0;
      assert multiset(Moved(d))[id] == 0;
    }
  }

  lemma {:induction false} FilterAgrees(s: seq<string>, p: string -> bool, q: string -> bool)
    requires forall x :: x in s ==> p(x) == q(x)
    ensures Filter(s, p) == Filter(s, q)
  {
    if s != [] {
      assert s[0] in s;
      assert forall x :: x in s[1..] ==> x in s;
      FilterAgrees(s[1..], p, q);
    }
  }

  lemma SameCounts(a: seq<string>, b: seq<string>)
    requires NoDuplicates(a) && NoDuplicates(b) && forall x :: x in a <==> x in b
    ensures multiset(a) == multiset(b)
  {
    forall x ensures multiset(a)[x] == multiset(b)[x] {
      CountAtMostOne(a, x);
      CountAtMostOne(b, x);
      assert x in a <==> x in multiset(a);
      assert x in b <==> x in multiset(b);
    }
  }
}
