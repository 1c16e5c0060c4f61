/** Stock list operations shared by the models: the array methods the TypeScript code calls. */
module Lists {

  datatype Option<+T> = None | Some(value: T)

  /** `Array.prototype.filter`. */
  function Filter<T>(s: seq<T>, p: T -> bool): (r: seq<T>) {
    if s == [] then []
    else if p(s[0]) then [s[0]] + Filter(s[1..], p)
    else Filter(s[1..], p)
  }

  /** `splice(at, 0, x)`. */
  function InsertAt<T>(s: seq<T>, at: nat, x: T): (r: seq<T>)
    requires at <= |s|
  {
    s[..at] + [x] + s[at..]
  }

  /** `Math.max(0, Math.min(index, length))`. */
  function Clamp(index: int, length: nat): (at: nat)
    ensures at <= length
    ensures 0 <= index <= length ==> at == index
  {
    if index < 0 then 0 else if index > length then length else index
  }

  /** `Math.max`. */
  function Max(a: int, b: int): (m: int)
    ensures m >= a && m >= b && (m == a || m == b)
  {
    if a >= b then a else b
  }

  ghost predicate NoDuplicates<T>(s: seq<T>) {
    forall i, j :: 0 <= i < j < |s| ==> s[i] != s[j]
  }

  /** `[...new Set(s)]`: the entries in order of first appearance. */
  function Distinct<T(==,!new)>(s: seq<T>): (r: seq<T>)
    ensures NoDuplicates(r) && forall x :: x in r <==> x in s
  {
    if s == [] then []
    else
      var last := |s| - 1;
      assert s == s[..last] + [s[last]];
      var before := Distinct(s[..last]);
      if s[last] in before then before else before + [s[last]]
  }

  /** An entry comes before another exactly as its first appearance does. */
  lemma {:induction false} DistinctKeepsOrder<T(!new)>(s: seq<T>, i: nat, j: nat, b: nat)
    requires i < j < |Distinct(s)| && b < |s| && s[b] == Distinct(s)[j]
    ensures exists a :: 0 <= a < b && s[a] == Distinct(s)[i]
  {
    var last := |s| - 1;
    var before := Distinct(s[..last]);
    assert s == s[..last] + [s[last]];
    if b < last {
      assert s[..last][b] == s[b] && s[b] in s[..last];
      assert j < |before|;
      DistinctKeepsOrder(s[..last], i, j, b);
      var a :| 0 <= a < b && s[..last][a] == before[i];
      assert s[a] == Distinct(s)[i];
    } else {
      assert before[i] in before;
      var a :| 0 <= a < last && s[..last][a] == before[i];
      assert s[a] == Distinct(s)[i];
    }
  }

  lemma {:induction false} DistinctOfDistinct<T(!new)>(s: seq<T>)
    requires NoDuplicates(s)
    ensures Distinct(s) == s
  {
    if s != [] {
      var last := |s| - 1;
      DistinctOfDistinct(s[..last]);
      assert s == s[..last] + [s[last]];
    }
  }

  lemma FilterMembers<T(!new)>(s: seq<T>, p: T -> bool)
    ensures forall x :: x in Filter(s, p) <==> x in s && p(x)
  {
    if s != [] {
      FilterMembers(s[1..], p);
      assert s == [s[0]] + s[1..];
    }
  }

  lemma {:induction false} FilterAppend<T>(a: seq<T>, b: seq<T>, p: T -> bool)
    ensures Filter(a + b, p) == Filter(a, p) + Filter(b, p)
  {
    if a == [] {
      assert a + b == b;
    } else {
      var x, t := a[0], a[1..];
      FilterAppend(t, b, p);
      assert a + b == [x] + (t + b);
      FilterCons(x, t + b, p);
      FilterCons(x, t, p);
      assert [x] + t == a;
    }
  }

  lemma FilterCons<T>(x: T, s: seq<T>, p: T -> bool)
    ensures Filter([x] + s, p) == (if p(x) then [x] else []) + Filter(s, p)
  {
    assert ([x] + s)[1..] == s;
  }

  lemma {:induction false} FilterAll<T>(s: seq<T>, p: T -> bool)
    requires forall x :: x in s ==> p(x)
    ensures Filter(s, p) == s
  {
    if s != [] {
      assert s[0] in s;
      assert forall x :: x in s[1..] ==> x in s;
      FilterAll(s[1..], p);
    }
  }

  lemma {:induction false} FilterNone<T>(s: seq<T>, p: T -> bool)
    requires forall x :: x in s ==> !p(x)
    ensures Filter(s, p) == []
  {
    if s != [] {
      assert s[0] in s;
      assert forall x :: x in s[1..] ==> x in s;
      FilterNone(s[1..], p);
    }
  }

  lemma FilterDropsOne<T>(before: seq<T>, x: T, after: seq<T>, p: T -> bool)
    requires !p(x) && Filter(before, p) == before && Filter(after, p) == after
    ensures Filter(before + [x] + after, p) == before + after
  {
    hide Filter;
    FilterCons(x, after, p);
    assert [] + after == after;
    FilterAppend(before, [x] + after, p);
    assert before + [x] + after == before + ([x] + after);
  }

  lemma {:induction false} FilterCommutes<T>(s: seq<T>, p: T -> bool, q: T -> bool)
    ensures Filter(Filter(s, p), q) == Filter(Filter(s, q), p)
  {
    if s != [] {
      FilterCommutes(s[1..], p, q);
    }
  }

  /** Filtering by a weaker predicate first changes nothing. */
  lemma {:induction false} FilterAbsorbs<T(!new)>(s: seq<T>, p: T -> bool, q: T -> bool)
    requires forall x :: q(x) ==> p(x)
    ensures Filter(Filter(s, p), q) == Filter(s, q)
  {
    if s != [] {
      FilterAbsorbs(s[1..], p, q);
    }
  }

  lemma {:induction false} FilterNoDuplicates<T(!new)>(s: seq<T>, p: T -> bool)
    requires NoDuplicates(s)
    ensures NoDuplicates(Filter(s, p))
  {
    if s != [] {
      FilterNoDuplicates(s[1..], p);
      FilterMembers(s[1..], p);
      assert forall i :: 0 <= i < |s| - 1 ==> s[1..][i] == s[i + 1];
      assert s[0] !in s[1..];
      var rest := Filter(s[1..], p);
      assert forall i :: 0 <= i < |rest| ==> rest[i] in rest;
    }
  }

  /** A permutation of distinct entries is distinct. */
  lemma DistinctByMultiset<T>(a: seq<T>, b: seq<T>)
    requires NoDuplicates(a) && multiset(a) == multiset(b)
    ensures NoDuplicates(b)
  {
    forall i, j | 0 <= i < j < |b| ensures b[i] != b[j] {
      if b[i] == b[j] {
        assert b == b[..i] + [b[i]] + b[i + 1..j] + [b[j]] + b[j + 1..];
        assert multiset(b)[b[i]] >= 2;
        CountAtMostOne(a, b[i]);
      }
    }
  }

  lemma {:induction false} CountAtMostOne<T>(a: seq<T>, x: T)
    requires NoDuplicates(a)
    ensures multiset(a)[x] <= 1
  {
    if a != [] {
      assert a == [a[0]] + a[1..];
      CountAtMostOne(a[1..], x);
    }
  }
}
