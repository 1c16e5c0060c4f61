/** Saved cells laid over the server's rows until the server catches up, against a log of saves and snapshots. */
module CellOverlay {
  import opened Lists

  /** A parsed `updated_at`; None when it is missing or unreadable. */
  type Version = Option<int>

  datatype Row = Row(id: string, boardId: string, groupId: Option<string>, sortOrder: int, version: Version,
    values: map<string, string>, statuses: Option<map<string, string>>)

  datatype SavedRow = SavedRow(item: Row, staleSeen: nat)
  datatype SavedMessage = SavedMessage(message: Option<string>, version: Version, failed: bool, staleSeen: nat)
  datatype CellKey = CellKey(itemId: string, columnKey: string)

  datatype Overlay = Overlay(rows: seq<Row>, saved: map<string, SavedRow>, messages: map<CellKey, SavedMessage>)

  /** The version the server's rows give a row; None when the row is not there either. */
  function VersionOf(rows: seq<Row>, id: string): Version {
    if rows == [] then None
    else if rows[|rows| - 1].id == id then rows[|rows| - 1].version
    else VersionOf(rows[..|rows| - 1], id)
  }

  predicate CaughtUp(server: Version, saved: Version) {
    server.Some? && saved.Some? && server.value >= saved.value
  }

  predicate StrictlyOlder(server: Version, saved: Version) {
    server.Some? && saved.Some? && server.value < saved.value
  }

  function SavedAhead(rows: seq<Row>, saved: map<string, SavedRow>): map<string, Row> {
    map id | id in saved && !CaughtUp(VersionOf(rows, id), saved[id].item.version) :: saved[id].item
  }

  function Merge(row: Row, saved: Row): Row {
    row.(groupId := saved.groupId, sortOrder := saved.sortOrder, values := row.values + saved.values,
         statuses := if saved.statuses.Some? then saved.statuses else row.statuses)
  }

  /** Lays saved rows over the server's; a row that went to another board disappears. */
  function ApplySaved(rows: seq<Row>, saved: map<string, Row>): seq<Row> {
    if rows == [] then []
    else
      (if rows[0].id !in saved then [rows[0]]
       else if saved[rows[0].id].boardId != rows[0].boardId then []
       else [Merge(rows[0], saved[rows[0].id])])
      + ApplySaved(rows[1..], saved)
  }

  predicate KeepAhead(rows: seq<Row>, id: string, version: Version, staleSeen: nat) {
    var server := VersionOf(rows, id);
    if server.None? || version.None? then false
    else !CaughtUp(server, version) && staleSeen < 1
  }

  predicate KeepMessage(rows: seq<Row>, key: CellKey, entry: SavedMessage) {
    if entry.failed then
      var server := VersionOf(rows, key.itemId);
      server.Some? && entry.version.Some? && server.value <= entry.version.value
    else KeepAhead(rows, key.itemId, entry.version, entry.staleSeen)
  }

  function Reconcile(overlay: Overlay, rows: seq<Row>): Overlay {
    Overlay(
      rows,
      map id | id in overlay.saved && KeepAhead(rows, id, overlay.saved[id].item.version, overlay.saved[id].staleSeen) ::
        overlay.saved[id].(staleSeen := overlay.saved[id].staleSeen + 1),
      map key | key in overlay.messages && KeepMessage(rows, key, overlay.messages[key]) ::
        if overlay.messages[key].failed then overlay.messages[key]
        else overlay.messages[key].(staleSeen := overlay.messages[key].staleSeen + 1))
  }

  /** What can happen to the overlay: a save answered ok (perhaps refusing this cell), a save that failed,
      new rows from the server. */
  datatype Event =
    | Saved(cell: CellKey, item: Row, rejected: bool, note: Option<string>)
    | Failed(cell: CellKey, note: Option<string>)
    | Snapshot(rows: seq<Row>)

  /** The board's overlay state; `log` remembers what happened since it was mounted with `initial`. */
  class CellSaves {
    var overlay: Overlay
    ghost const initial: seq<Row>
    ghost var log: seq<Event>

    ghost predicate Valid() reads this { overlay == Replay(initial, log) }

    constructor (rows: seq<Row>)
      ensures Valid() && initial == rows && log == []
    {
      initial, log := rows, [];
      overlay := Overlay(rows, map[], map[]);
    }

    method SaveSucceeded(cell: CellKey, item: Row, rejected: bool, note: Option<string>)
      requires Valid()
      modifies this
      ensures Valid() && log == old(log) + [Saved(cell, item, rejected, note)]
    {
      overlay := overlay.(
        saved := overlay.saved[cell.itemId := SavedRow(item, 0)],
        messages := overlay.messages[cell := SavedMessage(note, item.version, rejected, 0)]);
      log := log + [Saved(cell, item, rejected, note)];
    }

    method SaveFailed(cell: CellKey, note: Option<string>)
      requires Valid()
      modifies this
      ensures Valid() && log == old(log) + [Failed(cell, note)]
    {
      var before := VersionOf(overlay.rows, cell.itemId);
      overlay := overlay.(messages := overlay.messages[cell := SavedMessage(note, before, true, 0)]);
      log := log + [Failed(cell, note)];
    }

    method ReceiveRows(rows: seq<Row>)
      requires Valid()
      modifies this
      ensures Valid() && log == old(log) + [Snapshot(rows)]
    {
      overlay := Reconcile(overlay, rows);
      log := log + [Snapshot(rows)];
    }

    /** The rows the board draws, and the note under a cell, are what the log says. */
    method Show(cell: CellKey) returns (rows: seq<Row>, note: Option<string>)
      requires Valid()
      ensures rows == ShownBy(initial, log) && Draws(rows, CurrentRows(initial, log), initial, log)
      ensures note == NoteBy(initial, log, cell)
    {
      rows := ApplySaved(overlay.rows, SavedAhead(overlay.rows, overlay.saved));
      note := if cell in overlay.messages then overlay.messages[cell].message else None;
      ReplayMatchesLog(initial, log);
      ShownMatchesLog(initial, log);
      SavedValuesShow(initial, log);
    }
  }

  function Step(overlay: Overlay, event: Event): Overlay {
    match event
    case Saved(cell, item, rejected, note) =>
      overlay.(saved := overlay.saved[cell.itemId := SavedRow(item, 0)],
               messages := overlay.messages[cell := SavedMessage(note, item.version, rejected, 0)])
    case Failed(cell, note) =>
      overlay.(messages := overlay.messages[cell := SavedMessage(note, VersionOf(overlay.rows, cell.itemId), true, 0)])
    case Snapshot(rows) => Reconcile(overlay, rows)
  }

  function Replay(initial: seq<Row>, log: seq<Event>): Overlay {
    if log == [] then Overlay(initial, map[], map[])
    else Step(Replay(initial, log[..|log| - 1]), log[|log| - 1])
  }

  // ---- The log specification ----

  /** The server's snapshots in a stretch of the log. */
  function Snapshots(log: seq<Event>): seq<seq<Row>> {
    if log == [] then []
    else (if log[0].Snapshot? then [log[0].rows] else []) + Snapshots(log[1..])
  }

  function CurrentRows(initial: seq<Row>, log: seq<Event>): seq<Row> {
    var shots := Snapshots(log);
    if shots == [] then initial else shots[|shots| - 1]
  }

  /** The last save of a row answered ok. */
  function LastSave(log: seq<Event>, id: string): (k: Option<nat>)
    ensures k.Some? ==> k.value < |log| && log[k.value].Saved? && log[k.value].cell.itemId == id
    ensures forall j :: (if k.Some? then k.value else -1) < j < |log| ==> !(log[j].Saved? && log[j].cell.itemId == id)
  {
    if log == [] then None
    else if log[|log| - 1].Saved? && log[|log| - 1].cell.itemId == id then Some(|log| - 1)
    else LastSave(log[..|log| - 1], id)
  }

  /** The last attempt to save a cell. */
  function LastAttempt(log: seq<Event>, cell: CellKey): (k: Option<nat>)
    ensures k.Some? ==> k.value < |log| && !log[k.value].Snapshot? && log[k.value].cell == cell
    ensures forall j :: (if k.Some? then k.value else -1) < j < |log| ==> !(!log[j].Snapshot? && log[j].cell == cell)
  {
    if log == [] then None
    else if !log[|log| - 1].Snapshot? && log[|log| - 1].cell == cell then Some(|log| - 1)
    else LastAttempt(log[..|log| - 1], cell)
  }

  /** A saved version outlives no snapshot, or one that still carries a known, strictly older version. */
  predicate Outlives(version: Version, id: string, shots: seq<seq<Row>>) {
    |shots| == 0 || (|shots| == 1 && StrictlyOlder(VersionOf(shots[0], id), version))
  }

  /** A failure stays until a snapshot carries a newer version of its row, or none that can be read. */
  predicate FailureStands(version: Version, id: string, shots: seq<seq<Row>>) {
    forall i :: 0 <= i < |shots| ==>
      version.Some? && VersionOf(shots[i], id).Some? && VersionOf(shots[i], id).value <= version.value
  }

  function SavedBy(log: seq<Event>, id: string): Option<SavedRow> {
    match LastSave(log, id)
    case None => None
    case Some(k) =>
      var shots := Snapshots(log[k + 1..]);
      if Outlives(log[k].item.version, id, shots) then Some(SavedRow(log[k].item, |shots|)) else None
  }

  /** The entry an attempt at position `k` left, after the snapshots since. */
  function EntryOf(initial: seq<Row>, log: seq<Event>, cell: CellKey, k: nat): Option<SavedMessage>
    requires k < |log| && !log[k].Snapshot?
  {
    var shots := Snapshots(log[k + 1..]);
    var event := log[k];
    var version := if event.Failed? then VersionOf(CurrentRows(initial, log[..k]), cell.itemId) else event.item.version;
    if event.Failed? || event.rejected then
      if FailureStands(version, cell.itemId, shots) then Some(SavedMessage(event.note, version, true, 0)) else None
    else
      if Outlives(version, cell.itemId, shots) then Some(SavedMessage(event.note, version, false, |shots|)) else None
  }

  function MessageBy(initial: seq<Row>, log: seq<Event>, cell: CellKey): Option<SavedMessage> {
    match LastAttempt(log, cell)
    case None => None
    case Some(k) => EntryOf(initial, log, cell, k)
  }

  function NoteBy(initial: seq<Row>, log: seq<Event>, cell: CellKey): Option<string> {
    match MessageBy(initial, log, cell) case None => None case Some(entry) => entry.message
  }

  /** The saved item a row shows instead of the server's, if any:
      no snapshot since the save and the server has not caught up, or one snapshot that is strictly older. */
  function ShownItem(initial: seq<Row>, log: seq<Event>, id: string): Option<Row> {
    match LastSave(log, id)
    case None => None
    case Some(k) =>
      var item := log[k].item;
      var shots := Snapshots(log[k + 1..]);
      if (|shots| == 0 && !CaughtUp(VersionOf(CurrentRows(initial, log), id), item.version))
        || (|shots| == 1 && StrictlyOlder(VersionOf(shots[0], id), item.version))
      then Some(item) else None
  }

  function ShowRows(rows: seq<Row>, initial: seq<Row>, log: seq<Event>): seq<Row> {
    if rows == [] then []
    else
      (match ShownItem(initial, log, rows[0].id)
       case None => [rows[0]]
       case Some(item) => if item.boardId != rows[0].boardId then [] else [Merge(rows[0], item)])
      + ShowRows(rows[1..], initial, log)
  }

  function ShownBy(initial: seq<Row>, log: seq<Event>): seq<Row> {
    ShowRows(CurrentRows(initial, log), initial, log)
  }

  // ---- What a drawn row looks like ----

  /** A row disappears when its saved item went to another board. */
  ghost function StaysHere(initial: seq<Row>, log: seq<Event>): Row -> bool {
    (r: Row) => match ShownItem(initial, log, r.id) case None => true case Some(item) => item.boardId == r.boardId
  }

  /** `drawn` is the server's row as it came, or with a saved item laid over it: the saved columns show the saved
      values, the other columns the server's; place and statuses follow the item; the rest is the server's. */
  ghost predicate DrawnAs(drawn: Row, server: Row, item: Option<Row>) {
    match item
    case None => drawn == server
    case Some(saved) =>
      && drawn.id == server.id && drawn.boardId == server.boardId && drawn.version == server.version
      && drawn.groupId == saved.groupId && drawn.sortOrder == saved.sortOrder
      && (forall k :: k in drawn.values <==> k in saved.values || k in server.values)
      && (forall k :: k in saved.values ==> drawn.values[k] == saved.values[k])
      && (forall k :: k in server.values && k !in saved.values ==> drawn.values[k] == server.values[k])
      && (saved.statuses.Some? ==> drawn.statuses == saved.statuses)
      && (saved.statuses.None? ==> drawn.statuses == server.statuses)
  }

  /** The drawn rows are the server's rows that stay, in order, each drawn as its shown item says. */
  ghost predicate Draws(drawn: seq<Row>, rows: seq<Row>, initial: seq<Row>, log: seq<Event>) {
    var kept := Filter(rows, StaysHere(initial, log));
    && |drawn| == |kept|
    && forall i :: 0 <= i < |kept| ==> DrawnAs(drawn[i], kept[i], ShownItem(initial, log, kept[i].id))
  }

  lemma LaidOver(row: Row, item: Option<Row>)
    ensures DrawnAs(if item.Some? then Merge(row, item.value) else row, row, item)
  {
  }

  lemma DrawsOneMore(first: Row, drawn: seq<Row>, row: Row, rows: seq<Row>, initial: seq<Row>, log: seq<Event>)
    requires StaysHere(initial, log)(row) && DrawnAs(first, row, ShownItem(initial, log, row.id))
    requires Draws(drawn, rows, initial, log)
    ensures Draws([first] + drawn, [row] + rows, initial, log)
  {
    hide StaysHere, DrawnAs, ShownItem, Filter;
    FilterCons(row, rows, StaysHere(initial, log));
  }

  lemma DrawsOneLess(drawn: seq<Row>, row: Row, rows: seq<Row>, initial: seq<Row>, log: seq<Event>)
    requires !StaysHere(initial, log)(row) && Draws(drawn, rows, initial, log)
    ensures Draws(drawn, [row] + rows, initial, log)
  {
    hide StaysHere, DrawnAs, ShownItem, Filter;
    FilterCons(row, rows, StaysHere(initial, log));
    var kept := Filter(rows, StaysHere(initial, log));
    assert [] + kept == kept;
  }

  lemma {:induction false} RowsDrawn(rows: seq<Row>, initial: seq<Row>, log: seq<Event>)
    ensures Draws(ShowRows(rows, initial, log), rows, initial, log)
  {
    if rows == [] {
      assert Filter(rows, StaysHere(initial, log)) == [];
    } else {
      RowsDrawn(rows[1..], initial, log);
      hide ShownItem, DrawnAs, Merge, Draws;
      var item, rest := ShownItem(initial, log, rows[0].id), ShowRows(rows[1..], initial, log);
      assert [rows[0]] + rows[1..] == rows;
      LaidOver(rows[0], item);
      if StaysHere(initial, log)(rows[0]) {
        DrawsOneMore(if item.Some? then Merge(rows[0], item.value) else rows[0], rest, rows[0], rows[1..], initial, log);
      } else {
        DrawsOneLess(rest, rows[0], rows[1..], initial, log);
        assert [] + rest == rest;
      }
    }
  }

  /** The board draws the current server rows with every saved value that still shows, over every history. */
  lemma SavedValuesShow(initial: seq<Row>, log: seq<Event>)
    ensures Draws(ShownBy(initial, log), CurrentRows(initial, log), initial, log)
  {
    RowsDrawn(CurrentRows(initial, log), initial, log);
  }

  /** Right after a save is answered ok the saved value shows, unless the server has that version already
      or the row left the board. */
  lemma SaveShowsAtOnce(initial: seq<Row>, log: seq<Event>, cell: CellKey, item: Row, rejected: bool, note: Option<string>)
    ensures ShownItem(initial, log + [Saved(cell, item, rejected, note)], cell.itemId) ==
            if CaughtUp(VersionOf(CurrentRows(initial, log), cell.itemId), item.version) then None else Some(item)
  {
    var event := Saved(cell, item, rejected, note);
    LastSaveSnoc(log, event, cell.itemId);
    RowsSnoc(initial, log, event);
    LogSnoc(log, event);
    assert Snapshots([]) == [];
  }

  /** For rows with distinct ids the version looked up is the row's own. */
  lemma {:induction false} VersionIsTheRows(rows: seq<Row>, i: nat)
    requires i < |rows| && forall j, k :: 0 <= j < k < |rows| ==> rows[j].id != rows[k].id
    ensures VersionOf(rows, rows[i].id) == rows[i].version
  {
    if i < |rows| - 1 {
      VersionIsTheRows(rows[..|rows| - 1], i);
    }
  }

  // ---- The incremental overlay refines the log ----

  lemma {:induction false} SnapshotsSnoc(log: seq<Event>, event: Event)
    ensures Snapshots(log + [event]) == Snapshots(log) + if event.Snapshot? then [event.rows] else []
  {
    if log == [] {
      assert log + [event] == [event];
    } else {
      SnapshotsSnoc(log[1..], event);
      assert (log + [event])[1..] == log[1..] + [event];
    }
  }

  lemma LogSnoc(log: seq<Event>, event: Event)
    ensures (log + [event])[..|log|] == log && (log + [event])[|log|] == event
  {
  }

  lemma OutlivesSnoc(version: Version, id: string, shots: seq<seq<Row>>, rows: seq<Row>)
    ensures Outlives(version, id, shots + [rows]) <==>
            Outlives(version, id, shots) && KeepAhead(rows, id, version, |shots|)
  {
  }

  lemma FailureStandsSnoc(version: Version, id: string, shots: seq<seq<Row>>, rows: seq<Row>)
    ensures FailureStands(version, id, shots + [rows]) <==>
            FailureStands(version, id, shots)
            && version.Some? && VersionOf(rows, id).Some? && VersionOf(rows, id).value <= version.value
  {
    var more := shots + [rows];
    if FailureStands(version, id, more) {
      assert forall i :: 0 <= i < |shots| ==> more[i] == shots[i];
      assert more[|shots|] == rows;
    }
  }

  lemma LastSaveSnoc(log: seq<Event>, event: Event, id: string)
    ensures LastSave(log + [event], id) ==
            if event.Saved? && event.cell.itemId == id then Some(|log|) else LastSave(log, id)
    ensures LastSave(log, id).Some? ==>
            var k := LastSave(log, id).value;
            (log + [event])[k] == log[k] && (log + [event])[k + 1..] == log[k + 1..] + [event]
    ensures (log + [event])[|log| + 1..] == []
  {
    LogSnoc(log, event);
    assert LastSave(log + [event], id) ==
           if event.Saved? && event.cell.itemId == id then Some(|log|) else LastSave((log + [event])[..|log|], id);
    hide LastSave;
  }

  lemma LastAttemptSnoc(log: seq<Event>, event: Event, cell: CellKey)
    ensures LastAttempt(log + [event], cell) ==
            if !event.Snapshot? && event.cell == cell then Some(|log|) else LastAttempt(log, cell)
    ensures LastAttempt(log, cell).Some? ==>
            var k := LastAttempt(log, cell).value;
            && (log + [event])[k] == log[k] && (log + [event])[..k] == log[..k]
            && (log + [event])[k + 1..] == log[k + 1..] + [event]
    ensures (log + [event])[|log| + 1..] == []
  {
    LogSnoc(log, event);
  }

  /** What one more event does to the spec of a row. */
  lemma SavedBySnoc(log: seq<Event>, event: Event, id: string)
    ensures SavedBy(log + [event], id) ==
      if event.Saved? && event.cell.itemId == id then Some(SavedRow(event.item, 0))
      else
        var before := SavedBy(log, id);
        if !event.Snapshot? || before.None? then before
        else if KeepAhead(event.rows, id, before.value.item.version, before.value.staleSeen)
        then Some(before.value.(staleSeen := before.value.staleSeen + 1)) else None
  {
    LastSaveSnoc(log, event, id);
    if LastSave(log, id).Some? {
      var k := LastSave(log, id).value;
      var shots := Snapshots(log[k + 1..]);
      SnapshotsSnoc(log[k + 1..], event);
      if event.Snapshot? {
        OutlivesSnoc(log[k].item.version, id, shots, event.rows);
      } else {
        assert shots + [] == shots;
      }
    }
  }

  lemma EntryAfter(initial: seq<Row>, log: seq<Event>, event: Event, cell: CellKey, k: nat)
    requires k < |log| && !log[k].Snapshot?
    ensures (log + [event])[k] == log[k]
    ensures var before := EntryOf(initial, log, cell, k);
      EntryOf(initial, log + [event], cell, k) ==
        if !event.Snapshot? || before.None? then before
        else if KeepMessage(event.rows, cell, before.value)
        then Some(if before.value.failed then before.value else before.value.(staleSeen := before.value.staleSeen + 1))
        else None
  {
    hide Outlives, FailureStands, KeepAhead, VersionOf, Snapshots, CurrentRows;
    var shots := Snapshots(log[k + 1..]);
    var version := if log[k].Failed? then VersionOf(CurrentRows(initial, log[..k]), cell.itemId) else log[k].item.version;
    assert (log + [event])[k + 1..] == log[k + 1..] + [event] && (log + [event])[..k] == log[..k];
    SnapshotsSnoc(log[k + 1..], event);
    if event.Snapshot? {
      OutlivesSnoc(version, cell.itemId, shots, event.rows);
      FailureStandsSnoc(version, cell.itemId, shots, event.rows);
    } else {
      assert shots + [] == shots;
    }
  }

  /** What one more event does to the spec of a cell's note. */
  lemma MessageBySnoc(initial: seq<Row>, log: seq<Event>, event: Event, cell: CellKey)
    ensures MessageBy(initial, log + [event], cell) ==
      if event.Saved? && event.cell == cell then Some(SavedMessage(event.note, event.item.version, event.rejected, 0))
      else if event.Failed? && event.cell == cell then
        Some(SavedMessage(event.note, VersionOf(CurrentRows(initial, log), cell.itemId), true, 0))
      else
        var before := MessageBy(initial, log, cell);
        if !event.Snapshot? || before.None? then before
        else if KeepMessage(event.rows, cell, before.value)
        then Some(if before.value.failed then before.value else before.value.(staleSeen := before.value.staleSeen + 1))
        else None
  {
    hide KeepMessage, VersionOf, CurrentRows, LastAttempt;
    LastAttemptSnoc(log, event, cell);
    if !event.Snapshot? && event.cell == cell {
      LogSnoc(log, event);
    } else if LastAttempt(log, cell).Some? {
      EntryAfter(initial, log, event, cell, LastAttempt(log, cell).value);
    }
  }

  lemma RowsSnoc(initial: seq<Row>, log: seq<Event>, event: Event)
    ensures CurrentRows(initial, log + [event]) == if event.Snapshot? then event.rows else CurrentRows(initial, log)
  {
    SnapshotsSnoc(log, event);
    assert !event.Snapshot? ==> Snapshots(log) + [] == Snapshots(log);
  }

  ghost predicate Matches(overlay: Overlay, initial: seq<Row>, log: seq<Event>) {
    && overlay.rows == CurrentRows(initial, log)
    && (forall id :: if id in overlay.saved then SavedBy(log, id) == Some(overlay.saved[id]) else SavedBy(log, id) == None)
    && (forall cell :: if cell in overlay.messages then MessageBy(initial, log, cell) == Some(overlay.messages[cell])
                       else MessageBy(initial, log, cell) == None)
  }

  /** The overlay kept step by step is the one the log describes, over every history. */
  lemma {:induction false} ReplayMatchesLog(initial: seq<Row>, log: seq<Event>)
    ensures Matches(Replay(initial, log), initial, log)
  {
    if log != [] {
      var past, event := log[..|log| - 1], log[|log| - 1];
      assert log == past + [event];
      ReplayMatchesLog(initial, past);
      RowsSnoc(initial, past, event);
      StepMatchesSaved(initial, past, event);
      StepMatchesMessages(initial, past, event);
    }
  }

  lemma StepMatchesSaved(initial: seq<Row>, past: seq<Event>, event: Event)
    requires Matches(Replay(initial, past), initial, past)
    ensures var saved := Step(Replay(initial, past), event).saved;
            forall id :: SavedBy(past + [event], id) == if id in saved then Some(saved[id]) else None
  {
    hide Replay, CurrentRows, MessageBy, KeepMessage, KeepAhead, SavedBy;
    var saved := Step(Replay(initial, past), event).saved;
    forall id ensures SavedBy(past + [event], id) == if id in saved then Some(saved[id]) else None {
      SavedBySnoc(past, event, id);
    }
  }

  lemma StepMatchesMessages(initial: seq<Row>, past: seq<Event>, event: Event)
    requires Matches(Replay(initial, past), initial, past)
    ensures var messages := Step(Replay(initial, past), event).messages;
            forall cell :: MessageBy(initial, past + [event], cell) == if cell in messages then Some(messages[cell]) else None
  {
    hide Replay, CurrentRows, SavedBy, KeepMessage, KeepAhead, MessageBy, VersionOf;
    var messages := Step(Replay(initial, past), event).messages;
    forall cell ensures MessageBy(initial, past + [event], cell) == if cell in messages then Some(messages[cell]) else None {
      MessageBySnoc(initial, past, event, cell);
    }
  }

  lemma {:induction false} ShownRows(rows: seq<Row>, initial: seq<Row>, log: seq<Event>, ahead: map<string, Row>)
    requires forall id :: ShownItem(initial, log, id) == if id in ahead then Some(ahead[id]) else None
    ensures ApplySaved(rows, ahead) == ShowRows(rows, initial, log)
  {
    if rows != [] {
      ShownRows(rows[1..], initial, log, ahead);
      assert ShownItem(initial, log, rows[0].id) == if rows[0].id in ahead then Some(ahead[rows[0].id]) else None;
    }
  }

  lemma {:induction false} LastShot(log: seq<Event>, k: nat)
    requires k <= |log|
    ensures var shots := Snapshots(log[k..]);
            shots != [] ==> Snapshots(log) != [] && Snapshots(log)[|Snapshots(log)| - 1] == shots[|shots| - 1]
    decreases k
  {
    if k > 0 {
      assert log[k - 1..] == [log[k - 1]] + log[k..];
      LastShot(log, k - 1);
    } else {
      assert log[0..] == log;
    }
  }

  /** What the board draws is what the log describes. */
  lemma ShownMatchesLog(initial: seq<Row>, log: seq<Event>)
    ensures var overlay := Replay(initial, log);
            ApplySaved(overlay.rows, SavedAhead(overlay.rows, overlay.saved)) == ShownBy(initial, log)
  {
    var overlay := Replay(initial, log);
    var ahead := SavedAhead(overlay.rows, overlay.saved);
    ReplayMatchesLog(initial, log);
    hide Replay, ApplySaved, ShowRows, MessageBy, VersionOf;
    forall id ensures ShownItem(initial, log, id) == if id in ahead then Some(ahead[id]) else None {
      assert SavedBy(log, id) == if id in overlay.saved then Some(overlay.saved[id]) else None;
      if LastSave(log, id).Some? {
        LastShot(log, LastSave(log, id).value + 1);
      }
    }
    ShownRows(overlay.rows, initial, log, ahead);
  }

  lemma ReplaySnoc(initial: seq<Row>, log: seq<Event>, event: Event)
    ensures Replay(initial, log + [event]) == Step(Replay(initial, log), event)
  {
    LogSnoc(log, event);
  }

  /** Two snapshots without a save in between leave only failures on screen: the server wins. */
  lemma TwoSnapshotsEmptyTheOverlay(initial: seq<Row>, log: seq<Event>, first: seq<Row>, second: seq<Row>)
    ensures var overlay := Replay(initial, log + [Snapshot(first), Snapshot(second)]);
            && overlay.saved == map[]
            && (forall cell :: cell in overlay.messages ==> overlay.messages[cell].failed)
            && ShownBy(initial, log + [Snapshot(first), Snapshot(second)]) == second
  {
    hide ShownBy, ShowRows, VersionOf, CurrentRows, ShownItem;
    var log1 := log + [Snapshot(first)];
    var log2 := log + [Snapshot(first), Snapshot(second)];
    assert log2 == log1 + [Snapshot(second)];
    var overlay := Replay(initial, log2);
    ReplaySnoc(initial, log, Snapshot(first));
    ReplaySnoc(initial, log1, Snapshot(second));
    ShownMatchesLog(initial, log2);
    NothingAhead(second);
    hide Replay;
  }

  lemma {:induction false} NothingAhead(rows: seq<Row>)
    ensures ApplySaved(rows, map[]) == rows
  {
    if rows != [] {
      NothingAhead(rows[1..]);
    }
  }
}
