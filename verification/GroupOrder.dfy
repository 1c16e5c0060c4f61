/** Moving a group up or down past the groups folded out of sight. */
module GroupOrder {
  import opened Lists

  function IsFolded(folded: set<string>): string -> bool { (g: string) => g in folded }
  function IsShown(folded: set<string>): string -> bool { (g: string) => g !in folded }

  function IndexOf(groups: seq<string>, id: string): (at: int)
    ensures -1 <= at < |groups|
    ensures at >= 0 ==> groups[at] == id
    ensures at == -1 <==> id !in groups
  {
    if groups == [] then -1
    else if groups[0] == id then 0
    else
      assert groups == [groups[0]] + groups[1..];
      var at := IndexOf(groups[1..], id);
      if at < 0 then -1 else at + 1
  }

  function MoveItem(groups: seq<string>, from: nat, to: nat): seq<string>
    requires from < |groups| && to < |groups|
  {
    InsertAt(groups[..from] + groups[from + 1..], to, groups[from])
  }

  /** The first position from `i` on, in steps of `delta`, that is outside the list or shows a group. */
  function NextShown(groups: seq<string>, folded: set<string>, i: int, delta: int): (to: int)
    requires delta == 1 || delta == -1
    ensures 0 <= to < |groups| ==> groups[to] !in folded
    ensures delta == 1 ==> i <= to && (i < to ==> 0 <= i && to <= |groups|)
    ensures delta == -1 ==> to <= i && (to < i ==> -1 <= to && i < |groups|)
    ensures forall k :: 0 <= k < |groups| && (i <= k < to || to < k <= i) ==> groups[k] in folded
    decreases if delta == 1 then |groups| - i else i + 1
  {
    if 0 <= i < |groups| && groups[i] in folded then NextShown(groups, folded, i + delta, delta) else i
  }

  /** There is a shown neighbour to change places with. */
  predicate CanMove(groups: seq<string>, folded: set<string>, id: string, delta: int)
    requires delta == 1 || delta == -1
  {
    var from := IndexOf(groups, id);
    from >= 0 && 0 <= NextShown(groups, folded, from + delta, delta) < |groups|
  }

  function Moved(groups: seq<string>, folded: set<string>, id: string, delta: int): seq<string>
    requires delta == 1 || delta == -1
  {
    var from := IndexOf(groups, id);
    if CanMove(groups, folded, id, delta) then MoveItem(groups, from, NextShown(groups, folded, from + delta, delta))
    else groups
  }

  /** The loop that skips folded groups. */
  method FindTarget(groups: seq<string>, folded: set<string>, start: int, delta: int) returns (to: int)
    requires delta == 1 || delta == -1
    ensures to == NextShown(groups, folded, start, delta)
  {
    to := start;
    while 0 <= to < |groups| && groups[to] in folded
      invariant NextShown(groups, folded, to, delta) == NextShown(groups, folded, start, delta)
      decreases if delta == 1 then |groups| - to else to + 1
    {
      to := to + delta;
    }
  }

  class GroupList {
    var ordered: seq<string>
    var folded: set<string>
    /** The orders handed to the save action, oldest first. */
    var persisted: seq<seq<string>>

    constructor (groups: seq<string>)
      ensures ordered == groups && folded == {} && persisted == []
    {
      ordered, folded, persisted := groups, {}, [];
    }

    method MoveGroup(id: string, delta: int)
      requires delta == 1 || delta == -1
      modifies this`ordered, this`persisted
      ensures ordered == Moved(old(ordered), folded, id, delta)
      ensures persisted == if CanMove(old(ordered), folded, id, delta) then old(persisted) + [ordered] else old(persisted)
    {
      var groups := ordered;
      var from := IndexOf(groups, id);
      var to := FindTarget(groups, folded, from + delta, delta);
      if from < 0 || to < 0 || to >= |groups| || from == to {
        return;
      }
      var moved := groups[from];
      var next := groups[..from] + groups[from + 1..];
      next := InsertAt(next, to, moved);
      ordered := next;
      persisted := persisted + [next];
    }
  }

  // ---- What a move means for the groups on screen ----

  function Swapped(s: seq<string>, i: nat, j: nat): seq<string>
    requires i < |s| && j < |s|
  {
    s[i := s[j]][j := s[i]]
  }

  function Shown(groups: seq<string>, folded: set<string>): seq<string> { Filter(groups, IsShown(folded)) }

  lemma ShownAppend(a: seq<string>, b: seq<string>, folded: set<string>)
    ensures Shown(a + b, folded) == Shown(a, folded) + Shown(b, folded)
    ensures Filter(a + b, IsFolded(folded)) == Filter(a, IsFolded(folded)) + Filter(b, IsFolded(folded))
  {
    FilterAppend(a, b, IsShown(folded));
    FilterAppend(a, b, IsFolded(folded));
  }

  lemma ShownOne(g: string, folded: set<string>)
    ensures Shown([g], folded) == if g in folded then [] else [g]
    ensures Filter([g], IsFolded(folded)) == if g in folded then [g] else []
  {
    FilterCons(g, [], IsShown(folded));
    FilterCons(g, [], IsFolded(folded));
    assert [g] + [] == [g];
  }

  lemma CutAround(groups: seq<string>, from: nat, to: nat)
    requires from < to < |groups|
    ensures MoveItem(groups, from, to) == groups[..from] + groups[from + 1..to + 1] + [groups[from]] + groups[to + 1..]
    ensures MoveItem(groups, to, from) == groups[..from] + [groups[to]] + groups[from..to] + groups[to + 1..]
  {
    var rest := groups[..from] + groups[from + 1..];
    assert rest[..to] == groups[..from] + groups[from + 1..to + 1];
    assert rest[to..] == groups[to + 1..];
    var rest' := groups[..to] + groups[to + 1..];
    assert rest'[..from] == groups[..from];
    assert rest'[from..] == groups[from..to] + groups[to + 1..];
  }

  lemma RunBetween(groups: seq<string>, folded: set<string>, from: nat, to: nat)
    requires from < to < |groups| && forall k :: from < k < to ==> groups[k] in folded
    ensures var run := groups[from + 1..to];
      && (forall k :: 0 <= k < |run| ==> run[k] in folded)
      && groups[from + 1..to + 1] == run + [groups[to]] && groups[from..to] == [groups[from]] + run
  {
  }

  lemma SplitAt(groups: seq<string>, from: nat, to: nat)
    requires from < to < |groups|
    ensures groups == groups[..from] + ([groups[from]] + (groups[from + 1..to] + ([groups[to]] + groups[to + 1..])))
  {
  }

  lemma NestRight(a: seq<string>, b: seq<string>, c: seq<string>, d: seq<string>, e: seq<string>)
    ensures a + (b + c) + d + e == a + (b + (c + (d + e)))
  {
  }

  lemma NestMiddle(a: seq<string>, b: seq<string>, c: seq<string>, d: seq<string>, e: seq<string>)
    ensures a + b + (c + d) + e == a + (b + (c + (d + e)))
  {
  }

  /** A move down rewrites one stretch of the list: the group, the folded run and the shown neighbour. */
  lemma MoveDownShape(groups: seq<string>, folded: set<string>, id: string)
    returns (before: seq<string>, run: seq<string>, other: string, after: seq<string>)
    requires CanMove(groups, folded, id, 1)
    ensures other !in folded && (forall k :: 0 <= k < |run| ==> run[k] in folded)
    ensures groups == before + ([id] + (run + ([other] + after)))
    ensures Moved(groups, folded, id, 1) == before + (run + ([other] + ([id] + after)))
  {
    var from := IndexOf(groups, id);
    var to := NextShown(groups, folded, from + 1, 1);
    before, run, other, after := groups[..from], groups[from + 1..to], groups[to], groups[to + 1..];
    RunBetween(groups, folded, from, to);
    assert Moved(groups, folded, id, 1) == MoveItem(groups, from, to);
    hide IndexOf, NextShown, Moved, CanMove, MoveItem;
    CutAround(groups, from, to);
    SplitAt(groups, from, to);
    NestRight(before, run, [other], [id], after);
  }

  /** A move up does it the other way round; the folded run stays below. */
  lemma MoveUpShape(groups: seq<string>, folded: set<string>, id: string)
    returns (before: seq<string>, run: seq<string>, other: string, after: seq<string>)
    requires CanMove(groups, folded, id, -1)
    ensures other !in folded && (forall k :: 0 <= k < |run| ==> run[k] in folded)
    ensures groups == before + ([other] + (run + ([id] + after)))
    ensures Moved(groups, folded, id, -1) == before + ([id] + ([other] + (run + after)))
  {
    var from := IndexOf(groups, id);
    var to := NextShown(groups, folded, from - 1, -1);
    before, run, other, after := groups[..to], groups[to + 1..from], groups[to], groups[from + 1..];
    RunBetween(groups, folded, to, from);
    assert Moved(groups, folded, id, -1) == MoveItem(groups, from, to);
    hide IndexOf, NextShown, Moved, CanMove, MoveItem;
    CutAround(groups, to, from);
    SplitAt(groups, to, from);
    NestMiddle(before, [id], [other], run, after);
  }

  /** Keeping the shown (or the folded) groups of a stretch `a, x, run, y, b` in which `run` is folded. */
  lemma ScreenOf(a: seq<string>, x: seq<string>, run: seq<string>, y: seq<string>, b: seq<string>, p: string -> bool)
    ensures Filter(a + (x + (run + (y + b))), p) ==
            Filter(a, p) + (Filter(x, p) + (Filter(run, p) + (Filter(y, p) + Filter(b, p))))
  {
    FilterAppend(a, x + (run + (y + b)), p);
    FilterAppend(x, run + (y + b), p);
    FilterAppend(run, y + b, p);
    FilterAppend(y, b, p);
  }

  lemma Flatten(a: seq<string>, x: seq<string>, y: seq<string>, b: seq<string>)
    ensures a + (x + ([] + (y + b))) == a + x + y + b
    ensures a + ([] + (x + (y + b))) == a + x + y + b
    ensures a + (x + (y + ([] + b))) == a + x + y + b
  {
    assert [] + (y + b) == y + b;
    assert [] + (x + (y + b)) == x + (y + b);
    assert [] + b == b;
    assert a + (x + (y + b)) == a + x + y + b;
  }

  lemma RunIsFolded(run: seq<string>, folded: set<string>)
    requires forall k :: 0 <= k < |run| ==> run[k] in folded
    ensures Shown(run, folded) == [] && Filter(run, IsFolded(folded)) == run
  {
    FilterNone(run, IsShown(folded));
    FilterAll(run, IsFolded(folded));
  }

  /** The groups on screen before and after a move down: the group changes places with its shown neighbour. */
  lemma MoveDownOnScreen(groups: seq<string>, folded: set<string>, id: string)
    returns (before: seq<string>, other: string, after: seq<string>)
    requires CanMove(groups, folded, id, 1) && id !in folded
    ensures Shown(groups, folded) == before + [id] + [other] + after
    ensures Shown(Moved(groups, folded, id, 1), folded) == before + [other] + [id] + after
    ensures Filter(Moved(groups, folded, id, 1), IsFolded(folded)) == Filter(groups, IsFolded(folded))
  {
    hide Filter, Moved, CanMove, IsShown, IsFolded;
    var a, run, h, b := MoveDownShape(groups, folded, id);
    before, other, after := Shown(a, folded), h, Shown(b, folded);
    RunIsFolded(run, folded);
    ShownOne(id, folded);
    ShownOne(h, folded);
    Flatten(before, [id], [h], after);
    Flatten(before, [h], [id], after);
    ScreenOf(a, [id], run, [h], b, IsShown(folded));
    ScreenOf(a, run, [h], [id], b, IsShown(folded));
    ScreenOf(a, [id], run, [h], b, IsFolded(folded));
    ScreenOf(a, run, [h], [id], b, IsFolded(folded));
    assert [] + (run + ([] + Filter(b, IsFolded(folded)))) == run + ([] + ([] + Filter(b, IsFolded(folded))));
  }

  lemma MoveUpOnScreen(groups: seq<string>, folded: set<string>, id: string)
    returns (before: seq<string>, other: string, after: seq<string>)
    requires CanMove(groups, folded, id, -1) && id !in folded
    ensures Shown(groups, folded) == before + [other] + [id] + after
    ensures Shown(Moved(groups, folded, id, -1), folded) == before + [id] + [other] + after
    ensures Filter(Moved(groups, folded, id, -1), IsFolded(folded)) == Filter(groups, IsFolded(folded))
  {
    hide Filter, Moved, CanMove, IsShown, IsFolded;
    var a, run, h, b := MoveUpShape(groups, folded, id);
    RunIsFolded(run, folded);
    ShownOne(id, folded);
    ShownOne(h, folded);
    ScreenOf(a, [h], run, [id], b, IsShown(folded));
    ScreenOf(a, [id], [h], run, b, IsShown(folded));
    ScreenOf(a, [h], run, [id], b, IsFolded(folded));
    ScreenOf(a, [id], [h], run, b, IsFolded(folded));
    before, other, after := Shown(a, folded), h, Shown(b, folded);
    Flatten(before, [id], [h], after);
    Flatten(before, [h], [id], after);
  }

  /** A move neither loses nor makes a group. */
  lemma MovePermutes(groups: seq<string>, folded: set<string>, id: string, delta: int)
    requires delta == 1 || delta == -1
    ensures multiset(Moved(groups, folded, id, delta)) == multiset(groups)
  {
    if CanMove(groups, folded, id, delta) {
      if delta == 1 {
        var a, run, h, b := MoveDownShape(groups, folded, id);
      } else {
        var a, run, h, b := MoveUpShape(groups, folded, id);
      }
    }
  }

  lemma IndexIs(groups: seq<string>, k: nat)
    requires NoDuplicates(groups) && k < |groups|
    ensures IndexOf(groups, groups[k]) == k
  {
    var at := IndexOf(groups, groups[k]);
    assert groups[k] in groups;
  }

  lemma ShownAround(groups: seq<string>, folded: set<string>, k: nat)
    requires k < |groups| && groups[k] !in folded
    ensures Shown(groups, folded) == Shown(groups[..k], folded) + ([groups[k]] + Shown(groups[k + 1..], folded))
  {
    assert groups == groups[..k] + ([groups[k]] + groups[k + 1..]);
    ShownAppend(groups[..k], [groups[k]] + groups[k + 1..], folded);
    FilterCons(groups[k], groups[k + 1..], IsShown(folded));
  }

  /** Nothing shown is left in the direction of travel when the search runs off the list. */
  lemma NoNeighbour(groups: seq<string>, folded: set<string>, id: string, delta: int)
    requires (delta == 1 || delta == -1) && NoDuplicates(groups)
    requires id in groups && id !in folded && !CanMove(groups, folded, id, delta)
    ensures var shown := Shown(groups, folded);
            shown != [] && IndexOf(shown, id) == if delta == 1 then |shown| - 1 else 0
  {
    var from := IndexOf(groups, id);
    var shown := Shown(groups, folded);
    ShownAround(groups, folded, from);
    FilterNoDuplicates(groups, IsShown(folded));
    if delta == 1 {
      RunIsFolded(groups[from + 1..], folded);
      IndexIs(shown, |shown| - 1);
    } else {
      RunIsFolded(groups[..from], folded);
      IndexIs(shown, 0);
    }
  }

  lemma SwapTwo(before: seq<string>, x: string, y: string, after: seq<string>)
    requires NoDuplicates(before + [x] + [y] + after)
    ensures var s := before + [x] + [y] + after;
            && Swapped(s, |before|, |before| + 1) == Swapped(s, |before| + 1, |before|) == before + [y] + [x] + after
            && IndexOf(s, x) == |before| && IndexOf(s, y) == |before| + 1
  {
    var s := before + [x] + [y] + after;
    IndexIs(s, |before|);
    IndexIs(s, |before| + 1);
  }

  /** The move happens exactly when the group has a neighbour on screen, and then changes places with it. */
  lemma MoveSwapsShownNeighbour(groups: seq<string>, folded: set<string>, id: string, delta: int)
    requires (delta == 1 || delta == -1) && NoDuplicates(groups) && id in groups && id !in folded
    ensures var shown := Shown(groups, folded);
            var at := IndexOf(shown, id);
            && at >= 0
            && (CanMove(groups, folded, id, delta) <==> 0 <= at + delta < |shown|)
            && Shown(Moved(groups, folded, id, delta), folded) ==
               if 0 <= at + delta < |shown| then Swapped(shown, at, at + delta) else shown
  {
    FilterNoDuplicates(groups, IsShown(folded));
    if !CanMove(groups, folded, id, delta) {
      NoNeighbour(groups, folded, id, delta);
    } else if delta == 1 {
      var before, h, after := MoveDownOnScreen(groups, folded, id);
      SwapTwo(before, id, h, after);
    } else {
      var before, h, after := MoveUpOnScreen(groups, folded, id);
      SwapTwo(before, h, id, after);
    }
  }

  lemma SwappedBack(s: seq<string>, i: nat, j: nat, t: seq<string>)
    requires NoDuplicates(s) && i < |s| && j < |s| && t == Swapped(s, i, j)
    ensures IndexOf(t, s[i]) == j && Swapped(t, j, i) == s
  {
    DistinctByMultiset(s, t);
    IndexIs(t, j);
  }

  lemma MovedIsDistinct(groups: seq<string>, folded: set<string>, id: string, delta: int)
    requires (delta == 1 || delta == -1) && NoDuplicates(groups) && id in groups
    ensures NoDuplicates(Moved(groups, folded, id, delta)) && id in Moved(groups, folded, id, delta)
  {
    MovePermutes(groups, folded, id, delta);
    DistinctByMultiset(groups, Moved(groups, folded, id, delta));
    assert id in multiset(Moved(groups, folded, id, delta));
  }

  /** Where a possible move takes the group on screen, and that it can be taken back. */
  lemma StepOnScreen(groups: seq<string>, folded: set<string>, id: string, delta: int) returns (at: nat, to: nat)
    requires (delta == 1 || delta == -1) && NoDuplicates(groups) && id in groups && id !in folded
    requires CanMove(groups, folded, id, delta)
    ensures var shown := Shown(groups, folded);
            var shown' := Shown(Moved(groups, folded, id, delta), folded);
            && at < |shown| && to == at + delta && to < |shown| && shown[at] == id
            && shown' == Swapped(shown, at, to) && IndexOf(shown', id) == to && Swapped(shown', to, at) == shown
  {
    MoveSwapsShownNeighbour(groups, folded, id, delta);
    FilterNoDuplicates(groups, IsShown(folded));
    at := IndexOf(Shown(groups, folded), id);
    to := at + delta;
    SwappedBack(Shown(groups, folded), at, to, Shown(Moved(groups, folded, id, delta), folded));
  }

  /** Up then down, or down then up, restores the order on screen. */
  lemma MoveBackRestoresScreen(groups: seq<string>, folded: set<string>, id: string, delta: int, once: seq<string>)
    requires (delta == 1 || delta == -1) && NoDuplicates(groups) && id in groups && id !in folded
    requires CanMove(groups, folded, id, delta) && once == Moved(groups, folded, id, delta)
    ensures CanMove(once, folded, id, -delta)
    ensures Shown(Moved(once, folded, id, -delta), folded) == Shown(groups, folded)
  {
    var at, to := StepOnScreen(groups, folded, id, delta);
    MovedIsDistinct(groups, folded, id, delta);
    MoveSwapsShownNeighbour(once, folded, id, -delta);
  }

  /** Moving a group that is itself folded changes nothing on screen. */
  lemma FoldedMoveIsInvisible(groups: seq<string>, folded: set<string>, id: string, delta: int)
    requires (delta == 1 || delta == -1) && id in folded
    ensures Shown(Moved(groups, folded, id, delta), folded) == Shown(groups, folded)
  {
    if CanMove(groups, folded, id, delta) {
      ShownOne(id, folded);
      if delta == 1 {
        var a, run, h, b := MoveDownShape(groups, folded, id);
        RunIsFolded(run, folded);
        ScreenOf(a, [id], run, [h], b, IsShown(folded));
        ScreenOf(a, run, [h], [id], b, IsShown(folded));
      } else {
        var a, run, h, b := MoveUpShape(groups, folded, id);
        RunIsFolded(run, folded);
        ScreenOf(a, [h], run, [id], b, IsShown(folded));
        ScreenOf(a, [id], [h], run, b, IsShown(folded));
      }
    }
  }
}
