// The query-set operations the views chain on a table: `filter(...)`,
// `get(...)` as `get_object_or_404` uses it, `first()`, and `order_by(...)` as a stable insertion sort under a total preorder, with the
// lexicographic order on names that `order_by('name')` uses.

module QuerySets {
  import opened Models

  /** `filter(...)`: the rows satisfying `p`, in table order. */
  function Filter<T(!new)>(s: seq<T>, p: T -> bool): (r: seq<T>)
    ensures |r| <= |s|
    ensures forall x :: x in r <==> x in s && p(x)
    ensures multiset(r) <= multiset(s)
  {
    if s == [] then []
    else
      assert s == s[..|s| - 1] + [s[|s| - 1]];
      Filter(s[..|s| - 1], p) + (if p(s[|s| - 1]) then [s[|s| - 1]] else [])
  }

  /** `filter(...)` keeps every row that satisfies the condition as often as
      the table holds it, and no other row. */
  lemma {:induction false} FilterCounts<T(!new)>(s: seq<T>, p: T -> bool)
    ensures forall x :: multiset(Filter(s, p))[x] == if p(x) then multiset(s)[x] else 0
  {
    if s != [] {
      var init, last := s[..|s| - 1], s[|s| - 1];
      FilterCounts(init, p);
      assert s == init + [last];
      assert multiset(s) == multiset(init) + multiset{last};
    }
  }

  /** Filtering a table with one more row at the end. */
  lemma FilterSnoc<T(!new)>(s: seq<T>, x: T, p: T -> bool)
    ensures Filter(s + [x], p) == Filter(s, p) + (if p(x) then [x] else [])
  {
    assert (s + [x])[..|s + [x]| - 1] == s;
  }

  /** `filter(...)` keeps table order: filtering a table made of two parts
      filters each part and keeps the first part's rows first. */
  lemma {:induction false} FilterAppend<T(!new)>(a: seq<T>, b: seq<T>, p: T -> bool)
    ensures Filter(a + b, p) == Filter(a, p) + Filter(b, p)
    decreases |b|
  {
    if b == [] {
      assert a + b == a;
    } else {
      var init, last := b[..|b| - 1], b[|b| - 1];
      assert b == init + [last];
      assert a + b == (a + init) + [last];
      var tail := if p(last) then [last] else [];
      FilterSnoc(a + init, last, p);
      FilterAppend(a, init, p);
      FilterSnoc(init, last, p);
      Regroup(Filter(a + b, p), Filter(a + init, p), Filter(a, p), Filter(init, p), Filter(b, p), tail);
    }
  }

  lemma Regroup<T>(whole: seq<T>, front: seq<T>, x: seq<T>, y: seq<T>, back: seq<T>, tail: seq<T>)
    requires whole == front + tail && front == x + y && back == y + tail
    ensures whole == x + back
  {
    assert (x + y) + tail == x + (y + tail);
  }

  /** The first row satisfying `p`, if any: a lookup by primary key. */
  function FirstWhere<T(!new)>(s: seq<T>, p: T -> bool): (r: Option<T>)
    ensures r.None? <==> forall x :: x in s ==> !p(x)
    ensures r.Some? ==> r.value in s && p(r.value)
  {
    if s == [] then None
    else if p(s[0]) then Some(s[0])
    else FirstWhere(s[1..], p)
  }

  /** How `get(...)` ends: no row matches (a 404), several match (an uncaught
      `MultipleObjectsReturned`), or exactly the row at `index` matches. */
  datatype Lookup = Missing | Ambiguous | Found(index: nat)

  function Get<T>(s: seq<T>, p: T -> bool): (l: Lookup)
    ensures l.Missing? <==> forall i :: 0 <= i < |s| ==> !p(s[i])
    ensures l.Found? ==> l.index < |s| && p(s[l.index]) && forall j :: 0 <= j < |s| && j != l.index ==> !p(s[j])
    ensures l.Ambiguous? ==> exists i, j :: 0 <= i < j < |s| && p(s[i]) && p(s[j])
  {
    if s == [] then Missing
    else
      var l := Get(s[..|s| - 1], p);
      if !p(s[|s| - 1]) then l
      else if l.Missing? then Found(|s| - 1)
      else Ambiguous
  }

  /** `get(...)` sees only which rows match: two tables whose rows match at the
      same positions give the same answer. */
  lemma GetSameMatches<T>(s: seq<T>, t: seq<T>, p: T -> bool)
    requires |s| == |t|
    requires forall i :: 0 <= i < |s| ==> p(s[i]) == p(t[i])
    ensures Get(s, p) == Get(t, p)
  {
    var a, b := Get(s, p), Get(t, p);
    if a.Ambiguous? {
      var i, j :| 0 <= i < j < |s| && p(s[i]) && p(s[j]);
      assert p(t[i]) && p(t[j]);
    } else if a.Found? && b.Found? {
      assert p(t[a.index]);
    }
  }

  /** `le` is total and transitive, so it can order any sequence. */
  ghost predicate TotalPreorder<T(!new)>(le: (T, T) -> bool) {
    && (forall x, y :: le(x, y) || le(y, x))
    && (forall x, y, z :: le(x, y) && le(y, z) ==> le(x, z))
  }

  predicate SortedBy<T>(s: seq<T>, le: (T, T) -> bool) {
    forall i, j :: 0 <= i < j < |s| ==> le(s[i], s[j])
  }

  /** Puts `x` before the first element it is not above. */
  function InsertBy<T>(x: T, s: seq<T>, le: (T, T) -> bool): (r: seq<T>)
    ensures multiset(r) == multiset(s) + multiset{x}
  {
    if s == [] then [x]
    else if le(x, s[0]) then [x] + s
    else
      assert s == [s[0]] + s[1..];
      [s[0]] + InsertBy(x, s[1..], le)
  }

  /** The rows of `s`, ordered by `le`. */
  function SortBy<T>(s: seq<T>, le: (T, T) -> bool): (r: seq<T>)
    ensures multiset(r) == multiset(s)
  {
    if s == [] then []
    else
      assert s == [s[0]] + s[1..];
      InsertBy(s[0], SortBy(s[1..], le), le)
  }

  lemma {:induction false} InsertBySorted<T(!new)>(x: T, s: seq<T>, le: (T, T) -> bool)
    requires TotalPreorder(le)
    requires SortedBy(s, le)
    ensures SortedBy(InsertBy(x, s, le), le)
  {
    if s != [] && !le(x, s[0]) {
      var tail := InsertBy(x, s[1..], le);
      InsertBySorted(x, s[1..], le);
      assert le(s[0], x);
      forall y | y in tail ensures le(s[0], y) {
        assert y in multiset(tail);
        if y != x {
          assert y in s[1..];
        }
      }
    }
  }

  /** Sorting yields an ordered permutation of its input. */
  lemma {:induction false} SortBySorted<T(!new)>(s: seq<T>, le: (T, T) -> bool)
    requires TotalPreorder(le)
    ensures SortedBy(SortBy(s, le), le)
    ensures multiset(SortBy(s, le)) == multiset(s)
  {
    if s != [] {
      SortBySorted(s[1..], le);
      InsertBySorted(s[0], SortBy(s[1..], le), le);
    }
  }

  /** Sorting keeps exactly the rows it was given. */
  lemma SortByMembers<T>(s: seq<T>, le: (T, T) -> bool)
    ensures forall x :: x in SortBy(s, le) <==> x in s
  {
    forall x ensures x in SortBy(s, le) <==> x in s {
      assert x in SortBy(s, le) <==> x in multiset(SortBy(s, le));
    }
  }

  /** Code-point lexicographic order on strings. */
  predicate NameLe(a: string, b: string) {
    a == [] || (b != [] && (a[0] < b[0] || (a[0] == b[0] && NameLe(a[1..], b[1..]))))
  }

  lemma {:induction false} NameLeTotal(a: string, b: string)
    ensures NameLe(a, b) || NameLe(b, a)
  {
    if a != [] && b != [] && a[0] == b[0] {
      NameLeTotal(a[1..], b[1..]);
    }
  }

  lemma {:induction false} NameLeTransitive(a: string, b: string, c: string)
    requires NameLe(a, b) && NameLe(b, c)
    ensures NameLe(a, c)
  {
    if a != [] && a[0] == b[0] && b[0] == c[0] {
      NameLeTransitive(a[1..], b[1..], c[1..]);
    }
  }

  lemma {:induction false} NameLeAntisymmetric(a: string, b: string)
    requires NameLe(a, b) && NameLe(b, a)
    ensures a == b
  {
    if a != [] {
      NameLeAntisymmetric(a[1..], b[1..]);
    }
  }
}
