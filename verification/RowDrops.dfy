/** Dropping a row on a filtered list, and moving it with the keyboard. */
module RowDrops {
  import opened Lists
  import opened RowMoves
  import opened RowMoveLaws

  /** `findIndex` by row id. */
  function IndexOfId(rows: seq<Row>, id: string): (at: Option<nat>)
    ensures at.Some? ==> at.value < |rows| && rows[at.value].id == id
    ensures at.None? <==> forall r :: r in rows ==> r.id != id
  {
    if rows == [] then None
    else
      assert rows == [rows[0]] + rows[1..];
      if rows[0].id == id then Some(0)
      else match IndexOfId(rows[1..], id) case None => None case Some(i) => Some(i + 1)
  }

  /** `visibleRows[index]`, undefined outside the list. */
  function AnchorAt(visible: seq<Row>, index: int): Option<string> {
    if 0 <= index < |visible| then Some(visible[index].id) else None
  }

  /** Index on the filtered list -> index on the whole group without the moving row. */
  function ToFullIndex(full: seq<Row>, visible: seq<Row>, visibleIndex: int, id: string): nat {
    var without := Filter(full, IdIsNot(id));
    match AnchorAt(visible, visibleIndex)
    case None => |without|
    case Some(anchor) =>
      match IndexOfId(without, anchor) case None => |without| case Some(at) => at
  }

  /** A board filter looks at a row's values, never at its place. */
  ghost predicate IgnoresPlace(p: Row -> bool) {
    forall r: Row, g: Option<string>, o: int :: p(r.(groupId := g, sortOrder := o)) == p(r)
  }

  /** `ids` is `base` with `id` put directly before `anchor`, or at the end without an anchor. */
  ghost predicate PutBefore(ids: seq<string>, base: seq<string>, anchor: Option<string>, id: string) {
    match anchor
    case None => ids == base + [id]
    case Some(a) => exists k :: 0 <= k < |base| && base[k] == a && ids == InsertAt(base, k, id)
  }

  lemma {:induction false} FilterDistinct(rows: seq<Row>, p: Row -> bool)
    requires UniqueIds(rows)
    ensures UniqueIds(Filter(rows, p))
  {
    if rows != [] {
      UniqueTail(rows);
      FilterDistinct(rows[1..], p);
      FilterMembers(rows[1..], p);
      IdsCons(rows[0], Filter(rows[1..], p));
      forall r | r in Filter(rows[1..], p) ensures r.id != rows[0].id {
        var i :| 0 <= i < |rows[1..]| && rows[1..][i] == r;
        assert Ids(rows[1..])[i] == r.id;
      }
    }
  }

  lemma BlockDistinct(rows: seq<Row>, key: string)
    requires UniqueIds(rows)
    ensures UniqueIds(Block(rows, key))
  {
    FilterDistinct(rows, InGroup(key));
    SortedIds(Filter(rows, InGroup(key)));
    DistinctByMultiset(Ids(Filter(rows, InGroup(key))), Ids(Block(rows, key)));
  }

  /** The move a drop asks for. The guard of the drop handler refuses a row dropped on itself. */
  function DropMove(rows: seq<Row>, groupId: Option<string>, p: Row -> bool, visibleIndex: int, id: string): RowAction {
    var full := Block(rows, GroupKeyOf(groupId));
    Move(id, groupId, ToFullIndex(full, Filter(full, p), visibleIndex, id))
  }

  lemma FullIndexOfAnchor(full: seq<Row>, visible: seq<Row>, visibleIndex: int, id: string)
    requires AnchorAt(visible, visibleIndex) != Some(id)
    requires forall r :: r in visible ==> r in full
    ensures var without := Filter(full, IdIsNot(id));
            var at := ToFullIndex(full, visible, visibleIndex, id);
            match AnchorAt(visible, visibleIndex)
            case None => at == |without|
            case Some(anchor) => at < |without| && without[at].id == anchor
  {
    FilterMembers(full, IdIsNot(id));
    if 0 <= visibleIndex < |visible| {
      assert visible[visibleIndex] in full;
    }
  }

  /** The drop puts the row directly before its anchor in the full order of the group, hidden rows included. */
  lemma DropLandsBeforeAnchor(rows: seq<Row>, groupId: Option<string>, p: Row -> bool, i: int, id: string)
    requires id in Ids(rows)
    requires AnchorAt(Filter(Block(rows, GroupKeyOf(groupId)), p), i) != Some(id)
    ensures var key := GroupKeyOf(groupId);
            var full := Block(rows, key);
            PutBefore(Ids(Block(Reduce(rows, DropMove(rows, groupId, p, i, id)), key)),
                      Ids(Filter(full, IdIsNot(id))), AnchorAt(Filter(full, p), i), id)
  {
    var key := GroupKeyOf(groupId);
    var full := Block(rows, key);
    var visible := Filter(full, p);
    var at := ToFullIndex(full, visible, i, id);
    FilterMembers(full, p);
    FullIndexOfAnchor(full, visible, i, id);
    BlockWithout(rows, id, key);
    MoveNumbersTarget(rows, id, groupId, at);
    var base := Ids(Filter(full, IdIsNot(id)));
    assert Clamp(at, |base|) == at;
    if AnchorAt(visible, i).Some? {
      assert base[at] == AnchorAt(visible, i).value;
    } else {
      assert InsertAt(base, at, id) == base + [id];
    }
  }

  lemma {:induction false} FilterIds(a: seq<Row>, b: seq<Row>, p: Row -> bool)
    requires Ids(a) == Ids(b) && IgnoresPlace(p)
    requires forall i :: 0 <= i < |a| ==> b[i] == a[i].(groupId := b[i].groupId, sortOrder := b[i].sortOrder)
    ensures Ids(Filter(a, p)) == Ids(Filter(b, p))
    decreases |a|
  {
    if a != [] {
      assert |a| == |Ids(a)| == |Ids(b)| == |b|;
      assert Ids(a[1..]) == Ids(a)[1..] == Ids(b)[1..] == Ids(b[1..]);
      FilterIds(a[1..], b[1..], p);
      assert a[0].id == Ids(a)[0] == Ids(b)[0] == b[0].id;
      assert p(b[0]) == p(a[0].(groupId := b[0].groupId, sortOrder := b[0].sortOrder)) == p(a[0]);
      IdsCons(a[0], Filter(a[1..], p));
      IdsCons(b[0], Filter(b[1..], p));
    }
  }

  /** Splicing a visible row in before `rest` commutes with the filter. */
  lemma FilterSplice(s: seq<Row>, at: nat, x: Row, p: Row -> bool)
    requires at <= |s| && p(x)
    ensures var before := Filter(s[..at], p);
            && Filter(s, p) == before + Filter(s[at..], p)
            && Filter(InsertAt(s, at, x), p) == InsertAt(Filter(s, p), |before|, x)
  {
    assert s == s[..at] + s[at..];
    FilterAppend(s[..at], s[at..], p);
    FilterAppend(s[..at], [x] + s[at..], p);
    assert InsertAt(s, at, x) == s[..at] + ([x] + s[at..]);
    assert ([x] + s[at..])[1..] == s[at..];
  }

  // ---- Moving through a filter ----

  lemma VisibleSiblings(rows: seq<Row>, id: string, key: string, p: Row -> bool)
    ensures Filter(Siblings(rows, id, key), p) == Siblings(Filter(rows, p), id, key)
  {
    var rest := Filter(rows, IdIsNot(id));
    SortFilterCommutes(Filter(rest, InGroup(key)), p);
    FilterCommutes(rest, InGroup(key), p);
    FilterCommutes(rows, IdIsNot(id), p);
  }

  lemma VisibleBlock(rows: seq<Row>, key: string, p: Row -> bool)
    ensures Filter(Block(rows, key), p) == Block(Filter(rows, p), key)
  {
    SortFilterCommutes(Filter(rows, InGroup(key)), p);
    FilterCommutes(rows, InGroup(key), p);
  }

  lemma SameRow(rows: seq<Row>, a: Row, b: Row)
    requires UniqueIds(rows) && a in rows && b in rows && a.id == b.id
    ensures a == b
  {
    var i :| 0 <= i < |rows| && rows[i] == a;
    var j :| 0 <= j < |rows| && rows[j] == b;
    assert Ids(rows)[i] == Ids(rows)[j];
  }

  /** The visible index of the anchor counts exactly the visible rows before its full index. */
  lemma AnchorThroughFilter(full: seq<Row>, p: Row -> bool, i: int, id: string)
    requires UniqueIds(full)
    requires AnchorAt(Filter(full, p), i) != Some(id)
    ensures var without := Filter(full, IdIsNot(id));
            var visible := Filter(full, p);
            var at := ToFullIndex(full, visible, i, id);
            at <= |without| && ToFullIndex(visible, visible, i, id) == |Filter(without[..at], p)|
  {
    var without := Filter(full, IdIsNot(id));
    var visible := Filter(full, p);
    var at := ToFullIndex(full, visible, i, id);
    FilterMembers(full, p);
    FilterMembers(full, IdIsNot(id));
    FilterCommutes(full, IdIsNot(id), p);
    FullIndexOfAnchor(full, visible, i, id);
    FullIndexOfAnchor(visible, visible, i, id);
    if 0 <= i < |visible| {
      SameRow(full, without[at], visible[i]);
      FilterAtIndex(without, at, p);
      FilterDistinct(full, IdIsNot(id));
      FilterDistinct(without, p);
      var kept := Filter(without, p);
      var k, k' := |Filter(without[..at], p)|, ToFullIndex(visible, visible, i, id);
      assert Ids(kept)[k] == Ids(kept)[k'];
    } else {
      assert without[..at] == without;
    }
  }

  lemma FilterAtIndex(s: seq<Row>, at: nat, p: Row -> bool)
    requires at < |s| && p(s[at])
    ensures var k := |Filter(s[..at], p)|;
            k < |Filter(s, p)| && Filter(s, p)[k] == s[at]
  {
    assert s == s[..at] + s[at..];
    FilterAppend(s[..at], s[at..], p);
  }

  lemma FindInShown(rows: seq<Row>, p: Row -> bool, id: string)
    requires UniqueIds(rows) && id in Ids(rows) && p(FindRow(rows, id).value)
    ensures id in Ids(Filter(rows, p))
  {
    FilterMembers(rows, p);
    var r := FindRow(rows, id).value;
    var k :| 0 <= k < |Filter(rows, p)| && Filter(rows, p)[k] == r;
    assert Ids(Filter(rows, p))[k] == id;
  }

  lemma PlacedVisible(rows: seq<Row>, id: string, groupId: Option<string>, at: nat, p: Row -> bool)
    requires id in Ids(rows) && IgnoresPlace(p)
    requires at <= |Siblings(rows, id, GroupKeyOf(groupId))|
    ensures Ids(Filter(Placed(rows, id, groupId, at), p)) ==
            Ids(Filter(InsertAt(Siblings(rows, id, GroupKeyOf(groupId)), at, FindRow(rows, id).value), p))
  {
    var spliced := InsertAt(Siblings(rows, id, GroupKeyOf(groupId)), at, FindRow(rows, id).value);
    var placed := Placed(rows, id, groupId, at);
    assert |placed| == |spliced|;
    assert Ids(spliced) == Ids(placed);
    FilterIds(spliced, placed, p);
  }

  lemma InsertIds(s: seq<Row>, at: nat, x: Row)
    requires at <= |s|
    ensures Ids(InsertAt(s, at, x)) == InsertAt(Ids(s), at, x.id)
  {
  }

  lemma InsertThroughFilter(s: seq<Row>, at: nat, x: Row, p: Row -> bool)
    requires at <= |s| && p(x)
    ensures var ids := Ids(Filter(s, p));
            var k := |Filter(s[..at], p)|;
            k <= |ids| && Ids(Filter(InsertAt(s, at, x), p)) == InsertAt(ids, k, x.id)
  {
    FilterSplice(s, at, x, p);
    InsertIds(Filter(s, p), |Filter(s[..at], p)|, x);
  }

  /** The target block of a drop, seen through the filter. */
  lemma DroppedBlockVisible(rows: seq<Row>, groupId: Option<string>, p: Row -> bool, i: int, id: string)
    requires UniqueIds(rows) && id in Ids(rows) && IgnoresPlace(p) && p(FindRow(rows, id).value)
    requires AnchorAt(Filter(Block(rows, GroupKeyOf(groupId)), p), i) != Some(id)
    ensures var full := Block(rows, GroupKeyOf(groupId));
            var visible := Filter(full, p);
            var ids := Ids(Siblings(Filter(rows, p), id, GroupKeyOf(groupId)));
            var at' := ToFullIndex(visible, visible, i, id);
            at' <= |ids| && Ids(Filter(Placed(rows, id, groupId, ToFullIndex(full, visible, i, id)), p)) == InsertAt(ids, at', id)
  {
    var key := GroupKeyOf(groupId);
    var full := Block(rows, key);
    var siblings := Siblings(rows, id, key);
    var at := ToFullIndex(full, Filter(full, p), i, id);
    assert at <= |siblings| && ToFullIndex(Filter(full, p), Filter(full, p), i, id) == |Filter(siblings[..at], p)| by {
      BlockWithout(rows, id, key);
      BlockDistinct(rows, key);
      AnchorThroughFilter(full, p, i, id);
    }
    PlacedVisible(rows, id, groupId, at, p);
    InsertThroughFilter(siblings, at, FindRow(rows, id).value, p);
    VisibleSiblings(rows, id, key, p);
  }

  /** Dropping then filtering shows the same order, in every block, as filtering then dropping. */
  lemma DropCommutesWithFilter(rows: seq<Row>, groupId: Option<string>, p: Row -> bool, i: int, id: string, key: string)
    requires UniqueIds(rows) && id in Ids(rows) && IgnoresPlace(p) && p(FindRow(rows, id).value)
    requires AnchorAt(Filter(Block(rows, GroupKeyOf(groupId)), p), i) != Some(id)
    ensures var visible := Filter(Block(rows, GroupKeyOf(groupId)), p);
            Ids(Filter(Block(Reduce(rows, DropMove(rows, groupId, p, i, id)), key), p)) ==
            Ids(Block(Reduce(Filter(rows, p), Move(id, groupId, ToFullIndex(visible, visible, i, id))), key))
  {
    var full := Block(rows, GroupKeyOf(groupId));
    var at' := ToFullIndex(Filter(full, p), Filter(full, p), i, id);
    FindInShown(rows, p, id);
    MoveBlocks(rows, id, groupId, ToFullIndex(full, Filter(full, p), i, id), key);
    MoveBlocks(Filter(rows, p), id, groupId, at', key);
    VisibleSiblings(rows, id, key, p);
    if key == GroupKeyOf(groupId) {
      PlacedIds(Filter(rows, p), id, groupId, at');
      DroppedBlockVisible(rows, groupId, p, i, id);
    }
  }

  /** The filtered target block after a drop: the row directly before its anchor among the visible rows. */
  lemma DropVisibleOrder(rows: seq<Row>, groupId: Option<string>, p: Row -> bool, i: int, id: string)
    requires UniqueIds(rows) && id in Ids(rows) && IgnoresPlace(p) && p(FindRow(rows, id).value)
    requires AnchorAt(Filter(Block(rows, GroupKeyOf(groupId)), p), i) != Some(id)
    ensures var key := GroupKeyOf(groupId);
            var visible := Filter(Block(rows, key), p);
            PutBefore(Ids(Filter(Block(Reduce(rows, DropMove(rows, groupId, p, i, id)), key), p)),
                      Ids(Filter(visible, IdIsNot(id))), AnchorAt(visible, i), id)
  {
    var key := GroupKeyOf(groupId);
    var full := Block(rows, key);
    var visible := Filter(full, p);
    hide Filter, Reduce, Block, Siblings, UniqueIds, IgnoresPlace, Placed, IdIsNot;
    var at' := ToFullIndex(visible, visible, i, id);
    MoveBlocks(rows, id, groupId, ToFullIndex(full, visible, i, id), key);
    DroppedBlockVisible(rows, groupId, p, i, id);
    BlockWithout(Filter(rows, p), id, key);
    VisibleBlock(rows, key, p);
    FullIndexOfAnchor(visible, visible, i, id);
    var base := Ids(Filter(visible, IdIsNot(id)));
    if AnchorAt(visible, i).Some? {
      assert base[at'] == AnchorAt(visible, i).value;
    } else {
      assert InsertAt(base, at', id) == base + [id];
    }
  }

  // ---- Keyboard moves ----

  datatype Direction = Up | Down

  /** The move a key press asks for, or none when the row cannot go further.
      The block is looked up by its group, and the ungrouped block has none. */
  function KeyboardMove(rows: seq<Row>, groupId: Option<string>, p: Row -> bool, id: string, direction: Direction): Option<RowAction> {
    var block := Block(rows, GroupKeyOf(groupId));
    var visible := Filter(block, p);
    match IndexOfId(visible, id)
    case None => None
    case Some(at) =>
      var target: int := if direction.Up? then at - 1 else at + 2;
      if target < 0 || target > |visible| then None
      else
        var full := if groupId.Some? then block else [];
        Some(Move(id, groupId, ToFullIndex(full, visible, target, id)))
  }

  function Swap(ids: seq<string>, k: nat): seq<string>
    requires k + 1 < |ids|
  {
    ids[k := ids[k + 1]][k + 1 := ids[k]]
  }

  function VisibleIds(rows: seq<Row>, groupId: Option<string>, p: Row -> bool): seq<string> {
    Ids(Filter(Block(rows, GroupKeyOf(groupId)), p))
  }

  lemma {:induction false} WithoutIds(rows: seq<Row>, at: nat)
    requires UniqueIds(rows) && at < |rows|
    ensures Ids(Filter(rows, IdIsNot(rows[at].id))) == Ids(rows)[..at] + Ids(rows)[at + 1..]
  {
    var id := rows[at].id;
    forall i | 0 <= i < |rows| && i != at ensures rows[i].id != id {
      assert Ids(rows)[i] != Ids(rows)[at];
    }
    PlacedWithout(rows, id, at);
    assert Ids(rows[..at] + rows[at + 1..]) == Ids(rows)[..at] + Ids(rows)[at + 1..];
  }

  lemma InsertionPoint(ids: seq<string>, base: seq<string>, at: nat, target: nat, k: nat)
    requires NoDuplicates(ids) && at < |ids| && target < |ids| && target != at
    requires base == ids[..at] + ids[at + 1..] && k < |base| && base[k] == ids[target]
    ensures k == if target < at then target else target - 1
  {
    assert base[k] == ids[if k < at then k else k + 1];
  }

  lemma PutBeforeIsSwap(ids: seq<string>, at: nat, direction: Direction, after: seq<string>)
    requires NoDuplicates(ids) && at < |ids|
    requires if direction.Up? then 1 <= at else at + 1 < |ids|
    requires var target := if direction.Up? then at - 1 else at + 2;
             PutBefore(after, ids[..at] + ids[at + 1..], if target < |ids| then Some(ids[target]) else None, ids[at])
    ensures after == Swap(ids, if direction.Up? then at - 1 else at)
  {
    var base := ids[..at] + ids[at + 1..];
    var target := if direction.Up? then at - 1 else at + 2;
    if target < |ids| {
      var k :| 0 <= k < |base| && base[k] == ids[target] && after == InsertAt(base, k, ids[at]);
      InsertionPoint(ids, base, at, target, k);
      ReinsertedIsSwap(ids, at, k);
    } else {
      ReinsertedIsSwap(ids, at, at + 1);
      assert InsertAt(base, at + 1, ids[at]) == base + [ids[at]];
    }
  }

  lemma ReinsertedIsSwap(ids: seq<string>, at: nat, k: int)
    requires at < |ids| && 0 <= k < |ids| && (k == at - 1 || k == at + 1)
    ensures InsertAt(ids[..at] + ids[at + 1..], k, ids[at]) == Swap(ids, if k < at then k else at)
  {
  }

  lemma {:induction false} IndexIs(rows: seq<Row>, at: nat)
    requires UniqueIds(rows) && at < |rows|
    ensures IndexOfId(rows, rows[at].id) == Some(at)
  {
    var found := IndexOfId(rows, rows[at].id);
    assert rows[at] in rows;
    assert Ids(rows)[found.value] == Ids(rows)[at];
  }

  /** Where the row and its anchor stand among the visible rows before a key press. */
  ghost predicate CanStep(length: nat, at: nat, direction: Direction) {
    at < length && if direction.Up? then 1 <= at else at + 1 < length
  }

  function Stepped(at: nat, direction: Direction): int {
    if direction.Up? then at - 1 else at + 1
  }

  lemma DropNextToSwaps(rows: seq<Row>, group: string, p: Row -> bool, at: nat, direction: Direction)
    requires UniqueIds(rows) && IgnoresPlace(p)
    requires CanStep(|VisibleIds(rows, Some(group), p)|, at, direction)
    ensures var ids := VisibleIds(rows, Some(group), p);
            var target := if direction.Up? then at - 1 else at + 2;
            VisibleIds(Reduce(rows, DropMove(rows, Some(group), p, target, ids[at])), Some(group), p) ==
            Swap(ids, if direction.Up? then at - 1 else at)
  {
    var full := Block(rows, group);
    var visible := Filter(full, p);
    var target := if direction.Up? then at - 1 else at + 2;
    assert UniqueIds(visible) by {
      BlockDistinct(rows, group);
      FilterDistinct(full, p);
    }
    VisibleRow(rows, group, p, at);
    assert target < |visible| ==> Ids(visible)[target] != Ids(visible)[at];
    DropVisibleOrder(rows, Some(group), p, target, visible[at].id);
    WithoutIds(visible, at);
    PutBeforeIsSwap(Ids(visible), at, direction,
      VisibleIds(Reduce(rows, DropMove(rows, Some(group), p, target, visible[at].id)), Some(group), p));
  }

  lemma KeyboardIsDrop(rows: seq<Row>, group: string, p: Row -> bool, at: nat, direction: Direction)
    requires UniqueIds(rows) && at < |VisibleIds(rows, Some(group), p)|
    ensures var ids := VisibleIds(rows, Some(group), p);
            KeyboardMove(rows, Some(group), p, ids[at], direction) ==
            if CanStep(|ids|, at, direction)
            then Some(DropMove(rows, Some(group), p, if direction.Up? then at - 1 else at + 2, ids[at]))
            else None
  {
    BlockDistinct(rows, group);
    FilterDistinct(Block(rows, group), p);
    IndexIs(Filter(Block(rows, group), p), at);
  }

  /** A possible key press in a real group swaps the row with its visible neighbour. */
  lemma KeyboardSwapsNeighbours(rows: seq<Row>, group: string, p: Row -> bool, at: nat, direction: Direction)
    requires UniqueIds(rows) && IgnoresPlace(p)
    requires at < |VisibleIds(rows, Some(group), p)|
    ensures var ids := VisibleIds(rows, Some(group), p);
            var move := KeyboardMove(rows, Some(group), p, ids[at], direction);
            && (move.Some? <==> CanStep(|ids|, at, direction))
            && (move.Some? ==> VisibleIds(Reduce(rows, move.value), Some(group), p) ==
                               Swap(ids, if direction.Up? then at - 1 else at))
  {
    KeyboardIsDrop(rows, group, p, at, direction);
    if CanStep(|VisibleIds(rows, Some(group), p)|, at, direction) {
      DropNextToSwaps(rows, group, p, at, direction);
    }
  }

  lemma VisibleRow(rows: seq<Row>, group: string, p: Row -> bool, at: nat)
    requires UniqueIds(rows) && at < |Filter(Block(rows, group), p)|
    ensures var r := Filter(Block(rows, group), p)[at];
            r.id in Ids(rows) && FindRow(rows, r.id) == Some(r) && p(r)
  {
    var r := Filter(Block(rows, group), p)[at];
    FilterMembers(Block(rows, group), p);
    SortSorts(Filter(rows, InGroup(group)));
    FilterMembers(rows, InGroup(group));
    assert r in Filter(Block(rows, group), p);
    assert r in rows;
    var i :| 0 <= i < |rows| && rows[i] == r;
    assert Ids(rows)[i] == r.id;
    SameRow(rows, r, FindRow(rows, r.id).value);
  }

  lemma MoveKeepsUniqueIds(rows: seq<Row>, id: string, groupId: Option<string>, index: int)
    requires UniqueIds(rows) && id in Ids(rows)
    ensures UniqueIds(Reduce(rows, Move(id, groupId, index)))
  {
    MoveConservesRows(rows, id, groupId, index);
    DistinctByMultiset(Ids(rows), Ids(Reduce(rows, Move(id, groupId, index))));
  }

  function Opposite(direction: Direction): Direction { if direction.Up? then Down else Up }

  lemma StepBack(ids: seq<string>, at: nat, direction: Direction)
    requires CanStep(|ids|, at, direction)
    ensures var k := if direction.Up? then at - 1 else at;
            var swapped := Swap(ids, k);
            && swapped[Stepped(at, direction)] == ids[at]
            && CanStep(|swapped|, Stepped(at, direction), Opposite(direction))
            && Swap(swapped, k) == ids
  {
  }

  lemma KeyboardKeepsUniqueIds(rows: seq<Row>, group: string, p: Row -> bool, at: nat, direction: Direction)
    requires UniqueIds(rows) && at < |VisibleIds(rows, Some(group), p)|
    ensures var move := KeyboardMove(rows, Some(group), p, VisibleIds(rows, Some(group), p)[at], direction);
            move.Some? ==> UniqueIds(Reduce(rows, move.value))
  {
    var id := VisibleIds(rows, Some(group), p)[at];
    var move := KeyboardMove(rows, Some(group), p, id, direction);
    if move.Some? {
      VisibleRow(rows, group, p, at);
      MoveKeepsUniqueIds(rows, id, Some(group), move.value.index);
    }
  }

  /** Up then down, or down then up, restores what the user sees in a real group. */
  lemma KeyboardUndo(rows: seq<Row>, group: string, p: Row -> bool, at: nat, direction: Direction, move: RowAction)
    requires UniqueIds(rows) && IgnoresPlace(p) && at < |VisibleIds(rows, Some(group), p)|
    requires KeyboardMove(rows, Some(group), p, VisibleIds(rows, Some(group), p)[at], direction) == Some(move)
    ensures var ids := VisibleIds(rows, Some(group), p);
            var once := Reduce(rows, move);
            var back := KeyboardMove(once, Some(group), p, ids[at], Opposite(direction));
            back.Some? && VisibleIds(Reduce(once, back.value), Some(group), p) == ids
  {
    var once := Reduce(rows, move);
    KeyboardSwapsNeighbours(rows, group, p, at, direction);
    KeyboardKeepsUniqueIds(rows, group, p, at, direction);
    StepBack(VisibleIds(rows, Some(group), p), at, direction);
    KeyboardSwapsNeighbours(once, group, p, Stepped(at, direction), Opposite(direction));
  }

  // ---- The ungrouped block ----

  lemma AtTopIffFirst(base: seq<string>, anchor: Option<string>, id: string)
    requires id !in base && (anchor.None? ==> base != [])
    ensures PutBefore([id] + base, base, anchor, id) <==> anchor.Some? && base != [] && base[0] == anchor.value
  {
    assert [id] + base == InsertAt(base, 0, id) || base == [];
    forall k | 0 < k < |base| ensures [id] + base != InsertAt(base, k, id) {
      assert base[0] in base;
      assert InsertAt(base, k, id)[0] == base[0];
    }
    if anchor.None? {
      assert ([id] + base)[|base|] == base[|base| - 1];
      assert (base + [id])[|base|] == id;
    }
  }

  lemma NoFullRows(visible: seq<Row>, index: int, id: string)
    ensures ToFullIndex([], visible, index, id) == 0
  {
  }

  lemma UngroupedKeyPress(rows: seq<Row>, p: Row -> bool, at: nat, direction: Direction)
    requires UniqueIds(rows) && CanStep(|VisibleIds(rows, None, p)|, at, direction)
    ensures var id := VisibleIds(rows, None, p)[at];
            KeyboardMove(rows, None, p, id, direction) == Some(Move(id, None, 0)) && id in Ids(rows)
  {
    hide Filter, Block, UniqueIds, IdIsNot, ToFullIndex;
    var full := Block(rows, UNGROUPED_KEY);
    var visible := Filter(full, p);
    NoFullRows(visible, if direction.Up? then at - 1 else at + 2, visible[at].id);
    BlockDistinct(rows, UNGROUPED_KEY);
    FilterDistinct(full, p);
    IndexIs(visible, at);
    VisibleRow(rows, UNGROUPED_KEY, p, at);
  }

  lemma TopOfBlock(rows: seq<Row>, id: string)
    requires id in Ids(rows)
    ensures Ids(Block(Reduce(rows, Move(id, None, 0)), UNGROUPED_KEY)) ==
            [id] + Ids(Filter(Block(rows, UNGROUPED_KEY), IdIsNot(id)))
  {
    hide Filter, Block, Reduce, Siblings, IdIsNot;
    MoveNumbersTarget(rows, id, None, 0);
    BlockWithout(rows, id, UNGROUPED_KEY);
    var base := Ids(Filter(Block(rows, UNGROUPED_KEY), IdIsNot(id)));
    assert InsertAt(base, 0, id) == [id] + base;
  }

  /** The block lookup fails for the ungrouped block, so the key press asks for its top ... */
  lemma UngroupedMoveJumpsToTop(rows: seq<Row>, p: Row -> bool, at: nat, direction: Direction)
    requires UniqueIds(rows) && CanStep(|VisibleIds(rows, None, p)|, at, direction)
    ensures var id := VisibleIds(rows, None, p)[at];
            KeyboardMove(rows, None, p, id, direction) == Some(Move(id, None, 0))
    ensures var id := VisibleIds(rows, None, p)[at];
            Ids(Block(Reduce(rows, Move(id, None, 0)), UNGROUPED_KEY)) ==
            [id] + Ids(Filter(Block(rows, UNGROUPED_KEY), IdIsNot(id)))
  {
    hide *;
    UngroupedKeyPress(rows, p, at, direction);
    assert at < |VisibleIds(rows, None, p)| by { StepInside(|VisibleIds(rows, None, p)|, at, direction); }
    TopOfBlock(rows, VisibleIds(rows, None, p)[at]);
  }

  lemma StepInside(length: nat, at: nat, direction: Direction)
    requires CanStep(length, at, direction)
    ensures at < length
  {
  }

  lemma OtherRowsRemain(rows: seq<Row>, at: nat, other: nat, full: seq<Row>)
    requires UniqueIds(rows) && at < |rows| && other < |rows| && at != other
    requires forall r :: r in rows ==> r in full
    ensures Ids(Filter(full, IdIsNot(rows[at].id))) != []
    ensures rows[at].id !in Ids(Filter(full, IdIsNot(rows[at].id)))
  {
    var rest := Filter(full, IdIsNot(rows[at].id));
    FilterMembers(full, IdIsNot(rows[at].id));
    assert forall i :: 0 <= i < |rest| ==> rest[i] in rest;
    assert Ids(rows)[at] != Ids(rows)[other];
    assert rows[other] in Filter(full, IdIsNot(rows[at].id));
  }

  /** ... whatever the anchor: the row lands before its anchor exactly when that anchor is the first other row. */
  lemma UngroupedMoveLandsRightIff(rows: seq<Row>, p: Row -> bool, at: nat, direction: Direction)
    requires UniqueIds(rows) && CanStep(|VisibleIds(rows, None, p)|, at, direction)
    ensures var visible := Filter(Block(rows, UNGROUPED_KEY), p);
            var id := visible[at].id;
            var base := Ids(Filter(Block(rows, UNGROUPED_KEY), IdIsNot(id)));
            var anchor := AnchorAt(visible, if direction.Up? then at - 1 else at + 2);
            PutBefore(Ids(Block(Reduce(rows, Move(id, None, 0)), UNGROUPED_KEY)), base, anchor, id) <==>
            anchor.Some? && base != [] && base[0] == anchor.value
  {
    var full := Block(rows, UNGROUPED_KEY);
    var visible := Filter(full, p);
    var id := visible[at].id;
    UngroupedMoveJumpsToTop(rows, p, at, direction);
    BlockDistinct(rows, UNGROUPED_KEY);
    FilterDistinct(full, p);
    FilterMembers(full, p);
    OtherRowsRemain(visible, at, Stepped(at, direction), full);
    AtTopIffFirst(Ids(Filter(full, IdIsNot(id))), AnchorAt(visible, if direction.Up? then at - 1 else at + 2), id);
  }
}
