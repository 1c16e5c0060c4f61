/** What the optimistic row moves keep, and why a drop through a filter means the same as on the full list. */
module RowMoveLaws {
  import opened Lists
  import opened RowMoves

  // ---- Conservation ----

  /** `r` is one of `rows` up to what a move of `id` to `groupId` may change. */
  ghost predicate ComesFrom(r: Row, rows: seq<Row>, id: string, groupId: Option<string>) {
    exists o :: o in rows && o.id == r.id && o.values == r.values
      && r.groupId == (if o.id == id then groupId else o.groupId)
      && (o.id == id || GroupKeyOf(o.groupId) == GroupKeyOf(groupId) || r == o)
  }

  lemma {:induction false} IdsSplit(rows: seq<Row>, p: Row -> bool, q: Row -> bool)
    requires forall r :: q(r) == !p(r)
    ensures multiset(Ids(rows)) == multiset(Ids(Filter(rows, p))) + multiset(Ids(Filter(rows, q)))
  {
    if rows != [] {
      IdsSplit(rows[1..], p, q);
      IdsCons(rows[0], rows[1..]);
      assert [rows[0]] + rows[1..] == rows;
      if p(rows[0]) {
        IdsCons(rows[0], Filter(rows[1..], p));
      } else {
        IdsCons(rows[0], Filter(rows[1..], q));
      }
    }
  }

  lemma IdsCons(r: Row, rows: seq<Row>)
    ensures Ids([r] + rows) == [r.id] + Ids(rows)
  {
  }

  lemma IdsAppend(a: seq<Row>, b: seq<Row>)
    ensures Ids(a + b) == Ids(a) + Ids(b)
  {
  }

  lemma UniqueTail(rows: seq<Row>)
    requires rows != [] && UniqueIds(rows)
    ensures UniqueIds(rows[1..]) && rows[0].id !in Ids(rows[1..])
  {
    assert forall i :: 0 <= i < |rows| - 1 ==> Ids(rows[1..])[i] == Ids(rows)[i + 1];
  }

  lemma {:induction false} IdsWithout(rows: seq<Row>, id: string)
    requires UniqueIds(rows) && id in Ids(rows)
    ensures multiset(Ids(rows)) == multiset(Ids(Filter(rows, IdIsNot(id)))) + multiset{id}
  {
    UniqueTail(rows);
    IdsCons(rows[0], rows[1..]);
    assert [rows[0]] + rows[1..] == rows;
    if rows[0].id == id {
      assert forall i :: 0 <= i < |rows[1..]| ==> rows[1..][i].id == Ids(rows[1..])[i];
      FilterAll(rows[1..], IdIsNot(id));
    } else {
      IdsWithout(rows[1..], id);
      IdsCons(rows[0], Filter(rows[1..], IdIsNot(id)));
    }
  }

  /** A move touches only the moved row's group and the order of the target group ... */
  lemma MoveKeepsContents(rows: seq<Row>, id: string, groupId: Option<string>, index: int)
    requires id in Ids(rows)
    ensures forall r :: r in Reduce(rows, Move(id, groupId, index)) ==> ComesFrom(r, rows, id, groupId)
  {
    var target := GroupKeyOf(groupId);
    var siblings := Siblings(rows, id, target);
    var at := Clamp(index, |siblings|);
    var placed := Placed(rows, id, groupId, index);
    SiblingsAre(rows, id, target);
    OthersAre(rows, id, target);
    forall i | 0 <= i < |placed| ensures ComesFrom(placed[i], rows, id, groupId) {
      if i == at {
        assert FindRow(rows, id).value in rows;
      } else {
        var o := siblings[if i < at then i else i - 1];
        assert o in siblings && placed[i] == o.(sortOrder := i);
      }
    }
  }

  lemma InsertAddsOne(ids: seq<string>, at: nat, id: string)
    requires at <= |ids|
    ensures multiset(InsertAt(ids, at, id)) == multiset(ids) + multiset{id}
  {
    assert ids == ids[..at] + ids[at..];
  }

  lemma RestSplits(rows: seq<Row>, id: string, key: string)
    ensures multiset(Ids(Filter(rows, IdIsNot(id)))) ==
            multiset(Ids(Siblings(rows, id, key))) + multiset(Ids(Filter(Filter(rows, IdIsNot(id)), NotInGroup(key))))
  {
    var rest := Filter(rows, IdIsNot(id));
    IdsSplit(rest, InGroup(key), NotInGroup(key));
    SortedIds(Filter(rest, InGroup(key)));
  }

  lemma MovedParts(rows: seq<Row>, id: string, groupId: Option<string>, index: int)
    requires id in Ids(rows)
    ensures FindRow(rows, id).Some?
    ensures Reduce(rows, Move(id, groupId, index)) ==
            Filter(Filter(rows, IdIsNot(id)), NotInGroup(GroupKeyOf(groupId))) + Placed(rows, id, groupId, index)
  {
  }

  /** ... and loses no row and makes none. */
  lemma MoveConservesRows(rows: seq<Row>, id: string, groupId: Option<string>, index: int)
    requires UniqueIds(rows) && id in Ids(rows)
    ensures multiset(Ids(Reduce(rows, Move(id, groupId, index)))) == multiset(Ids(rows))
  {
    hide Filter, Placed, Siblings, UniqueIds, Reduce, IdIsNot, NotInGroup, InsertAt;
    var key := GroupKeyOf(groupId);
    var ids := Ids(Siblings(rows, id, key));
    MovedParts(rows, id, groupId, index);
    PlacedIds(rows, id, groupId, index);
    InsertAddsOne(ids, Clamp(index, |ids|), id);
    IdsAppend(Filter(Filter(rows, IdIsNot(id)), NotInGroup(key)), Placed(rows, id, groupId, index));
    RestSplits(rows, id, key);
    IdsWithout(rows, id);
  }

  lemma {:induction false} InsertStableIds(x: Row, rows: seq<Row>)
    ensures multiset(Ids(InsertStable(x, rows))) == multiset(Ids(rows)) + multiset{x.id}
  {
    IdsCons(x, rows);
    if rows == [] || x.sortOrder <= rows[0].sortOrder {
    } else {
      InsertStableIds(x, rows[1..]);
      IdsCons(rows[0], rows[1..]);
      assert [rows[0]] + rows[1..] == rows;
      IdsCons(rows[0], InsertStable(x, rows[1..]));
    }
  }

  lemma {:induction false} SortedIds(rows: seq<Row>)
    ensures multiset(Ids(SortByOrder(rows))) == multiset(Ids(rows))
  {
    if rows != [] {
      SortedIds(rows[1..]);
      InsertStableIds(rows[0], SortByOrder(rows[1..]));
      IdsCons(rows[0], rows[1..]);
      assert [rows[0]] + rows[1..] == rows;
    }
  }

  lemma PlacedIds(rows: seq<Row>, id: string, groupId: Option<string>, index: int)
    requires id in Ids(rows)
    ensures var ids := Ids(Siblings(rows, id, GroupKeyOf(groupId)));
            Ids(Placed(rows, id, groupId, index)) == InsertAt(ids, Clamp(index, |ids|), id)
  {
  }

  /** The target block is numbered 0..n-1 with the moved row at the clamped index, in the order asked for. */
  lemma MoveNumbersTarget(rows: seq<Row>, id: string, groupId: Option<string>, index: int)
    requires id in Ids(rows)
    ensures var block := Block(Reduce(rows, Move(id, groupId, index)), GroupKeyOf(groupId));
            var ids := Ids(Siblings(rows, id, GroupKeyOf(groupId)));
            && Ids(block) == InsertAt(ids, Clamp(index, |ids|), id)
            && (forall i :: 0 <= i < |block| ==> block[i].sortOrder == i)
            && block[Clamp(index, |ids|)].groupId == groupId
  {
    MoveBlocks(rows, id, groupId, index, GroupKeyOf(groupId));
    PlacedIds(rows, id, groupId, index);
    ShapeOfPlaced(rows, id, groupId, index);
  }

  lemma ShapeOfPlaced(rows: seq<Row>, id: string, groupId: Option<string>, index: int)
    requires id in Ids(rows)
    ensures var placed := Placed(rows, id, groupId, index);
            && |placed| >= 1
            && (forall i :: 0 <= i < |placed| ==> placed[i].sortOrder == i)
            && placed[Clamp(index, |placed| - 1)].groupId == groupId
            && placed[Clamp(index, |placed| - 1)].id == id
            && (forall i :: 0 <= i < |placed| && i != Clamp(index, |placed| - 1) ==> placed[i].id != id)
  {
    var siblings := Siblings(rows, id, GroupKeyOf(groupId));
    SiblingsAre(rows, id, GroupKeyOf(groupId));
    assert forall i :: 0 <= i < |siblings| ==> siblings[i] in siblings;
  }

  // ---- Repeating and superseding a move ----

  lemma {:induction false} FindRowUnique(rows: seq<Row>, r: Row)
    requires r in rows && forall o :: o in rows && o.id == r.id ==> o == r
    ensures FindRow(rows, r.id) == Some(r)
  {
    if rows[0].id == r.id {
      assert rows[0] in rows;
    } else {
      assert rows == [rows[0]] + rows[1..];
      FindRowUnique(rows[1..], r);
    }
  }

  lemma PlacedWithout(placed: seq<Row>, id: string, at: nat)
    requires at < |placed| && placed[at].id == id
    requires forall i :: 0 <= i < |placed| && i != at ==> placed[i].id != id
    ensures Filter(placed, IdIsNot(id)) == placed[..at] + placed[at + 1..]
  {
    assert placed == placed[..at] + [placed[at]] + placed[at + 1..];
    FilterAll(placed[..at], IdIsNot(id));
    FilterAll(placed[at + 1..], IdIsNot(id));
    FilterDropsOne(placed[..at], placed[at], placed[at + 1..], IdIsNot(id));
  }

  lemma MovedRow(rows: seq<Row>, id: string, groupId: Option<string>, index: int)
    requires id in Ids(rows)
    ensures var placed := Placed(rows, id, groupId, index);
            FindRow(Reduce(rows, Move(id, groupId, index)), id) == Some(placed[Clamp(index, |placed| - 1)])
  {
    var placed := Placed(rows, id, groupId, index);
    ShapeOfPlaced(rows, id, groupId, index);
    OthersAre(rows, id, GroupKeyOf(groupId));
    FindRowUnique(Reduce(rows, Move(id, groupId, index)), placed[Clamp(index, |placed| - 1)]);
  }

  /** After a move, the rows outside the target group are found again unchanged. */
  lemma OthersAfterMove(rows: seq<Row>, id: string, groupId: Option<string>, index: int)
    requires id in Ids(rows)
    ensures var target := GroupKeyOf(groupId);
            Filter(Filter(Reduce(rows, Move(id, groupId, index)), IdIsNot(id)), NotInGroup(target)) ==
            Filter(Filter(rows, IdIsNot(id)), NotInGroup(target))
  {
    var target := GroupKeyOf(groupId);
    var others := Filter(Filter(rows, IdIsNot(id)), NotInGroup(target));
    var placed := Placed(rows, id, groupId, index);
    OthersAre(rows, id, target);
    PlacedInGroup(rows, id, groupId, index);
    FilterAppend(others, placed, IdIsNot(id));
    FilterAll(others, IdIsNot(id));
    var kept := Filter(placed, IdIsNot(id));
    FilterMembers(placed, IdIsNot(id));
    FilterAppend(others, kept, NotInGroup(target));
    FilterAll(others, NotInGroup(target));
    FilterNone(kept, NotInGroup(target));
    assert others + [] == others;
  }

  lemma PlacedAgain(rows: seq<Row>, id: string, groupId: Option<string>, index: int)
    requires id in Ids(rows)
    ensures var once := Reduce(rows, Move(id, groupId, index));
            FindRow(once, id).Some? && Placed(once, id, groupId, index) == Placed(rows, id, groupId, index)
  {
    var once := Reduce(rows, Move(id, groupId, index));
    var placed := Placed(rows, id, groupId, index);
    var at := Clamp(index, |placed| - 1);
    ShapeOfPlaced(rows, id, groupId, index);
    MovedRow(rows, id, groupId, index);
    BlockWithout(once, id, GroupKeyOf(groupId));
    MoveBlocks(rows, id, groupId, index, GroupKeyOf(groupId));
    PlacedWithout(placed, id, at);
    SplicedBack(placed, at, groupId);
  }

  lemma SplicedBack(placed: seq<Row>, at: nat, groupId: Option<string>)
    requires at < |placed| && placed[at].groupId == groupId
    requires forall i :: 0 <= i < |placed| ==> placed[i].sortOrder == i
    ensures Renumber(InsertAt(placed[..at] + placed[at + 1..], at, placed[at].(groupId := groupId))) == placed
  {
  }

  /** The same move twice is the same as once. */
  lemma MoveIsIdempotent(rows: seq<Row>, id: string, groupId: Option<string>, index: int)
    requires id in Ids(rows)
    ensures var move := Move(id, groupId, index);
            Reduce(Reduce(rows, move), move) == Reduce(rows, move)
  {
    OthersAfterMove(rows, id, groupId, index);
    PlacedAgain(rows, id, groupId, index);
  }

  lemma SplicedOut(placed: seq<Row>, ids: seq<string>, at: nat, id: string)
    requires at <= |ids| && Ids(placed) == InsertAt(ids, at, id)
    ensures Ids(placed[..at] + placed[at + 1..]) == ids
  {
    var out := Ids(placed[..at] + placed[at + 1..]);
    forall i | 0 <= i < |ids| ensures out[i] == ids[i] {
      assert out[i] == Ids(placed)[if i < at then i else i + 1];
    }
  }

  /** Taking the moved row out again leaves every block in the order it had without it. */
  lemma RestAfterMove(rows: seq<Row>, id: string, groupId: Option<string>, index: int, key: string)
    requires id in Ids(rows)
    ensures Ids(Siblings(Reduce(rows, Move(id, groupId, index)), id, key)) == Ids(Siblings(rows, id, key))
  {
    BlockWithout(Reduce(rows, Move(id, groupId, index)), id, key);
    MoveBlocks(rows, id, groupId, index, key);
    if key == GroupKeyOf(groupId) {
      var placed := Placed(rows, id, groupId, index);
      ShapeOfPlaced(rows, id, groupId, index);
      PlacedWithout(placed, id, Clamp(index, |placed| - 1));
      PlacedIds(rows, id, groupId, index);
      SplicedOut(placed, Ids(Siblings(rows, id, key)), Clamp(index, |placed| - 1), id);
    } else {
      BlockWithout(rows, id, key);
      FilterAbsorbs(Block(rows, key), IdIsNot(id), IdIsNot(id));
    }
  }

  /** A later move of the same row decides the order of every block alone. */
  lemma LaterMoveSupersedes(rows: seq<Row>, id: string, first: Option<string>, i: int, later: Option<string>, j: int, key: string)
    requires id in Ids(rows)
    ensures Ids(Block(Reduce(Reduce(rows, Move(id, first, i)), Move(id, later, j)), key)) ==
            Ids(Block(Reduce(rows, Move(id, later, j)), key))
  {
    var once := Reduce(rows, Move(id, first, i));
    MovedRow(rows, id, first, i);
    MoveBlocks(once, id, later, j, key);
    MoveBlocks(rows, id, later, j, key);
    RestAfterMove(rows, id, first, i, key);
    if key == GroupKeyOf(later) {
      PlacedIds(once, id, later, j);
      PlacedIds(rows, id, later, j);
    }
  }

  /** A value patch changes one column of one row and nothing else. */
  lemma PatchChangesOneValue(rows: seq<Row>, id: string, column: string, value: string, i: nat)
    requires i < |rows|
    ensures var after := Reduce(rows, Patch(id, column, value));
      && |after| == |rows| && after[i].id == rows[i].id
      && after[i].groupId == rows[i].groupId && after[i].sortOrder == rows[i].sortOrder
      && (rows[i].id != id ==> after[i] == rows[i])
      && (rows[i].id == id ==> column in after[i].values && after[i].values[column] == value)
      && (forall k :: k != column ==> (k in after[i].values <==> k in rows[i].values))
      && (forall k :: k != column && k in rows[i].values ==> after[i].values[k] == rows[i].values[k])
  {
  }

  lemma FoundIsListed(rows: seq<Row>, id: string)
    ensures FindRow(rows, id).Some? ==> id in Ids(rows)
  {
    if FindRow(rows, id).Some? {
      var i :| 0 <= i < |rows| && rows[i] == FindRow(rows, id).value;
      assert Ids(rows)[i] == id;
    }
  }

  /** A move of a row that is not on the board changes nothing. */
  lemma UnknownRowMovesNothing(rows: seq<Row>, id: string, groupId: Option<string>, index: int)
    requires id !in Ids(rows)
    ensures Reduce(rows, Move(id, groupId, index)) == rows
  {
    FoundIsListed(rows, id);
  }

  /** An index before the first place means the first, one behind the last means the last. */
  lemma MoveClampsItsIndex(rows: seq<Row>, id: string, groupId: Option<string>, index: int)
    ensures var n := |Siblings(rows, id, GroupKeyOf(groupId))|;
      && (index < 0 ==> Reduce(rows, Move(id, groupId, index)) == Reduce(rows, Move(id, groupId, 0)))
      && (index > n ==> Reduce(rows, Move(id, groupId, index)) == Reduce(rows, Move(id, groupId, n)))
  {
    hide Siblings, Filter;
  }
}
