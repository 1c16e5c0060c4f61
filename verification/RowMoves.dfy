/** Optimistic row moves of the board: the reducer, drop-index translation and the keyboard moves. */
module RowMoves {
  import opened Lists

  datatype Row = Row(id: string, groupId: Option<string>, sortOrder: int, values: map<string, string>)

  const UNGROUPED_KEY := "__ungrouped__"

  function GroupKeyOf(groupId: Option<string>): string {
    match groupId
    case None => UNGROUPED_KEY
    case Some(id) => id
  }

  function IdIsNot(id: string): Row -> bool { (r: Row) => r.id != id }
  function InGroup(key: string): Row -> bool { (r: Row) => GroupKeyOf(r.groupId) == key }
  function NotInGroup(key: string): Row -> bool { (r: Row) => GroupKeyOf(r.groupId) != key }

  function Ids(rows: seq<Row>): (ids: seq<string>)
    ensures |ids| == |rows| && forall i :: 0 <= i < |rows| ==> ids[i] == rows[i].id
  {
    seq(|rows|, i requires 0 <= i < |rows| => rows[i].id)
  }

  ghost predicate UniqueIds(rows: seq<Row>) { NoDuplicates(Ids(rows)) }

  // ---- The stable sort by sort_order ----

  ghost predicate Sorted(rows: seq<Row>) {
    forall i, j :: 0 <= i < j < |rows| ==> rows[i].sortOrder <= rows[j].sortOrder
  }

  /** `x` came before every row of `rows`, so it goes before equal positions. */
  function InsertStable(x: Row, rows: seq<Row>): seq<Row> {
    if rows == [] || x.sortOrder <= rows[0].sortOrder then [x] + rows
    else [rows[0]] + InsertStable(x, rows[1..])
  }

  function SortByOrder(rows: seq<Row>): seq<Row> {
    if rows == [] then [] else InsertStable(rows[0], SortByOrder(rows[1..]))
  }

  function AtOrder(k: int): Row -> bool { (r: Row) => r.sortOrder == k }

  lemma SortedCons(x: Row, rows: seq<Row>)
    requires Sorted(rows) && forall r :: r in rows ==> x.sortOrder <= r.sortOrder
    ensures Sorted([x] + rows)
  {
    assert forall i :: 0 <= i < |rows| ==> rows[i] in rows;
  }

  lemma {:induction false} InsertStableMembers(x: Row, rows: seq<Row>)
    ensures multiset(InsertStable(x, rows)) == multiset([x] + rows)
    ensures forall r :: r in InsertStable(x, rows) <==> r == x || r in rows
  {
    if rows == [] || x.sortOrder <= rows[0].sortOrder {
    } else {
      InsertStableMembers(x, rows[1..]);
      assert rows == [rows[0]] + rows[1..];
      assert [x] + rows == [x] + [rows[0]] + rows[1..];
    }
  }

  lemma {:induction false} InsertStableSorts(x: Row, rows: seq<Row>)
    requires Sorted(rows)
    ensures Sorted(InsertStable(x, rows))
  {
    if rows == [] {
    } else if x.sortOrder <= rows[0].sortOrder {
      assert forall i :: 0 <= i < |rows| ==> x.sortOrder <= rows[i].sortOrder;
      SortedCons(x, rows);
    } else {
      var tail := rows[1..];
      InsertStableSorts(x, tail);
      InsertStableMembers(x, tail);
      assert forall i :: 0 <= i < |tail| ==> tail[i] == rows[i + 1];
      SortedCons(rows[0], InsertStable(x, tail));
    }
  }

  /** The sort is a sorted permutation. */
  lemma {:induction false} SortSorts(rows: seq<Row>)
    ensures Sorted(SortByOrder(rows))
    ensures multiset(SortByOrder(rows)) == multiset(rows)
    ensures |SortByOrder(rows)| == |rows|
    ensures forall r :: r in SortByOrder(rows) <==> r in rows
  {
    if rows != [] {
      SortSorts(rows[1..]);
      InsertStableSorts(rows[0], SortByOrder(rows[1..]));
      InsertStableMembers(rows[0], SortByOrder(rows[1..]));
      assert rows == [rows[0]] + rows[1..];
    }
    assert |multiset(SortByOrder(rows))| == |multiset(rows)|;
  }

  lemma {:induction false} InsertStableFilter(x: Row, rows: seq<Row>, p: Row -> bool)
    requires Sorted(rows)
    ensures Filter(InsertStable(x, rows), p) ==
            if p(x) then InsertStable(x, Filter(rows, p)) else Filter(rows, p)
  {
    if rows == [] {
    } else if x.sortOrder <= rows[0].sortOrder {
      assert ([x] + rows)[1..] == rows;
      FilterMembers(rows, p);
      var kept := Filter(rows, p);
      if kept != [] {
        assert kept[0] in kept;
        var j :| 0 <= j < |rows| && rows[j] == kept[0];
      }
    } else {
      InsertStableFilter(x, rows[1..], p);
      assert ([rows[0]] + InsertStable(x, rows[1..]))[1..] == InsertStable(x, rows[1..]);
    }
  }

  /** Sorting commutes with every filter; with `AtOrder(k)` this is stability. */
  lemma {:induction false} SortFilterCommutes(rows: seq<Row>, p: Row -> bool)
    ensures Filter(SortByOrder(rows), p) == SortByOrder(Filter(rows, p))
  {
    if rows != [] {
      SortFilterCommutes(rows[1..], p);
      SortSorts(rows[1..]);
      InsertStableFilter(rows[0], SortByOrder(rows[1..]), p);
    }
  }

  lemma {:induction false} SortOfSorted(rows: seq<Row>)
    requires Sorted(rows)
    ensures SortByOrder(rows) == rows
  {
    if rows != [] {
      SortOfSorted(rows[1..]);
    }
  }

  /** Equal positions keep their array order. */
  lemma SortIsStable(rows: seq<Row>, k: int)
    ensures Filter(SortByOrder(rows), AtOrder(k)) == Filter(rows, AtOrder(k))
  {
    SortFilterCommutes(rows, AtOrder(k));
    FilterMembers(rows, AtOrder(k));
    var same := Filter(rows, AtOrder(k));
    assert forall i :: 0 <= i < |same| ==> same[i] in same;
    SortOfSorted(same);
  }

  // ---- The reducer ----

  datatype RowAction =
    | Move(itemId: string, groupId: Option<string>, index: int)
    | Patch(itemId: string, columnKey: string, value: string)

  function FindRow(rows: seq<Row>, id: string): (r: Option<Row>)
    ensures r.Some? ==> r.value in rows && r.value.id == id
    ensures r.None? ==> id !in Ids(rows)
  {
    if rows == [] then None
    else if rows[0].id == id then Some(rows[0])
    else
      assert rows == [rows[0]] + rows[1..];
      FindRow(rows[1..], id)
  }

  function Renumber(rows: seq<Row>): (r: seq<Row>)
    ensures |r| == |rows| && Ids(r) == Ids(rows)
    ensures forall i :: 0 <= i < |r| ==> r[i] == rows[i].(sortOrder := i)
  {
    seq(|rows|, i requires 0 <= i < |rows| => rows[i].(sortOrder := i))
  }

  function Siblings(rows: seq<Row>, id: string, key: string): seq<Row> {
    SortByOrder(Filter(Filter(rows, IdIsNot(id)), InGroup(key)))
  }

  /** The target group with the moving row spliced in and renumbered. */
  function Placed(rows: seq<Row>, id: string, groupId: Option<string>, index: int): seq<Row>
    requires FindRow(rows, id).Some?
  {
    var siblings := Siblings(rows, id, GroupKeyOf(groupId));
    Renumber(InsertAt(siblings, Clamp(index, |siblings|), FindRow(rows, id).value.(groupId := groupId)))
  }

  function Reduce(rows: seq<Row>, action: RowAction): seq<Row> {
    match action
    case Patch(id, column, value) =>
      seq(|rows|, i requires 0 <= i < |rows| =>
        if rows[i].id == id then rows[i].(values := rows[i].values[column := value]) else rows[i])
    case Move(id, groupId, index) =>
      match FindRow(rows, id)
      case None => rows
      case Some(_) =>
        Filter(Filter(rows, IdIsNot(id)), NotInGroup(GroupKeyOf(groupId))) + Placed(rows, id, groupId, index)
  }

  /** The rows of one block as the board draws them. */
  function Block(rows: seq<Row>, key: string): seq<Row> {
    SortByOrder(Filter(rows, InGroup(key)))
  }

  lemma BlockWithout(rows: seq<Row>, id: string, key: string)
    ensures Siblings(rows, id, key) == Filter(Block(rows, key), IdIsNot(id))
    ensures Siblings(rows, id, key) == Block(Filter(rows, IdIsNot(id)), key)
  {
    FilterCommutes(rows, IdIsNot(id), InGroup(key));
    SortFilterCommutes(Filter(rows, InGroup(key)), IdIsNot(id));
  }

  lemma SiblingsAre(rows: seq<Row>, id: string, key: string)
    ensures Sorted(Siblings(rows, id, key))
    ensures forall r :: r in Siblings(rows, id, key) <==> r in rows && r.id != id && GroupKeyOf(r.groupId) == key
  {
    SortSorts(Filter(Filter(rows, IdIsNot(id)), InGroup(key)));
    FilterMembers(rows, IdIsNot(id));
    FilterMembers(Filter(rows, IdIsNot(id)), InGroup(key));
  }

  /** The rows a move leaves alone. */
  lemma OthersAre(rows: seq<Row>, id: string, key: string)
    ensures forall r :: r in Filter(Filter(rows, IdIsNot(id)), NotInGroup(key)) <==>
                        r in rows && r.id != id && GroupKeyOf(r.groupId) != key
  {
    FilterMembers(rows, IdIsNot(id));
    FilterMembers(Filter(rows, IdIsNot(id)), NotInGroup(key));
  }

  lemma PlacedInGroup(rows: seq<Row>, id: string, groupId: Option<string>, index: int)
    requires FindRow(rows, id).Some?
    ensures Sorted(Placed(rows, id, groupId, index))
    ensures forall r :: r in Placed(rows, id, groupId, index) ==> GroupKeyOf(r.groupId) == GroupKeyOf(groupId)
  {
    var target := GroupKeyOf(groupId);
    var siblings := Siblings(rows, id, target);
    SiblingsAre(rows, id, target);
    var moved := FindRow(rows, id).value.(groupId := groupId);
    var spliced := InsertAt(siblings, Clamp(index, |siblings|), moved);
    forall i | 0 <= i < |spliced| ensures GroupKeyOf(spliced[i].groupId) == target {
      assert spliced[i] == moved || spliced[i] in siblings;
    }
  }

  /** Every block after a move: the target is renumbered around the row, the others only lose it. */
  lemma MoveBlocks(rows: seq<Row>, id: string, groupId: Option<string>, index: int, key: string)
    requires id in Ids(rows)
    ensures Block(Reduce(rows, Move(id, groupId, index)), key) ==
            if key == GroupKeyOf(groupId) then Placed(rows, id, groupId, index) else Siblings(rows, id, key)
  {
    var target := GroupKeyOf(groupId);
    var rest := Filter(rows, IdIsNot(id));
    var others := Filter(rest, NotInGroup(target));
    var placed := Placed(rows, id, groupId, index);
    PlacedInGroup(rows, id, groupId, index);
    FilterAppend(others, placed, InGroup(key));
    FilterMembers(rest, NotInGroup(target));
    if key == target {
      FilterNone(others, InGroup(key));
      FilterAll(placed, InGroup(key));
      assert [] + placed == placed;
      SortOfSorted(placed);
    } else {
      FilterNone(placed, InGroup(key));
      FilterAbsorbs(rest, NotInGroup(target), InGroup(key));
      assert Filter(rest, InGroup(key)) + [] == Filter(rest, InGroup(key));
    }
  }
}
