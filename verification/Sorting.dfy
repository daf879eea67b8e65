/**
 Stable sorting, for the source's calls of Array.prototype.sort: what it gives for a
 strict total order, and for an order with ties.
 */
module Sorting {

  ghost predicate StrictOrder<T(!new)>(less: (T, T) -> bool) {
    && (forall x :: !less(x, x))
    && (forall x, y, z :: less(x, y) && less(y, z) ==> less(x, z))
    && (forall x, y :: less(x, y) || less(y, x) || x == y)
  }

  /** A comparator that may call different values equal. */
  ghost predicate PartialOrder<T(!new)>(less: (T, T) -> bool) {
    && (forall x :: !less(x, x))
    && (forall x, y, z :: less(x, y) && less(y, z) ==> less(x, z))
  }

  /** A comparator that sorts: being equal is transitive too. */
  ghost predicate WeakOrder<T(!new)>(less: (T, T) -> bool) {
    PartialOrder(less) && forall x, y, z :: less(x, z) ==> less(x, y) || less(y, z)
  }

  predicate Tied<T(==)>(less: (T, T) -> bool, x: T, y: T) {
    x != y && !less(x, y) && !less(y, x)
  }

  predicate Sorted<T(==)>(less: (T, T) -> bool, s: seq<T>) {
    forall i, j :: 0 <= i < j < |s| ==> less(s[i], s[j]) || s[i] == s[j]
  }

  /** Sorted without repetitions. */
  predicate Ascending<T>(less: (T, T) -> bool, s: seq<T>) {
    forall i, j :: 0 <= i < j < |s| ==> less(s[i], s[j])
  }

  function Elements<T>(s: seq<T>): set<T> {
    set x | x in s
  }

  function Insert<T>(less: (T, T) -> bool, x: T, s: seq<T>): (r: seq<T>)
    ensures multiset(r) == multiset(s) + multiset{x}
  {
    if s == [] then [x]
    else if less(s[0], x) then
      assert s == [s[0]] + s[1..];
      [s[0]] + Insert(less, x, s[1..])
    else [x] + s
  }

  function Sort<T>(less: (T, T) -> bool, s: seq<T>): (r: seq<T>)
    ensures multiset(r) == multiset(s)
  {
    if s == [] then []
    else
      assert s == [s[0]] + s[1..];
      Insert(less, s[0], Sort(less, s[1..]))
  }

  /** [...new Set(s)]: first occurrences, in order. */
  function Unique<T(==,!new)>(s: seq<T>): (r: seq<T>)
    ensures Elements(r) == Elements(s)
    ensures forall i, j :: 0 <= i < j < |r| ==> r[i] != r[j]
  {
    if s == [] then []
    else
      var front, last := s[..|s| - 1], s[|s| - 1];
      var rest := Unique(front);
      assert s == front + [last];
      assert forall x :: x in s <==> x in front || x == last;
      assert forall x :: x in rest <==> x in Elements(rest);
      assert forall x :: x in front <==> x in Elements(front);
      if last in rest then rest else rest + [last]
  }

  function SortedUnique<T(==,!new)>(less: (T, T) -> bool, s: seq<T>): seq<T> {
    Sort(less, Unique(s))
  }

  lemma {:induction false} InsertSorted<T(!new)>(less: (T, T) -> bool, x: T, s: seq<T>)
    requires StrictOrder(less) && Sorted(less, s)
    ensures Sorted(less, Insert(less, x, s))
  {
    if s != [] && less(s[0], x) {
      InsertSorted(less, x, s[1..]);
      var r := Insert(less, x, s[1..]);
      forall i | 0 <= i < |r| ensures less(s[0], r[i]) || s[0] == r[i] {
        assert r[i] in multiset(r);
        assert r[i] == x || r[i] in s[1..];
      }
    }
  }

  lemma {:induction false} SortSorted<T(!new)>(less: (T, T) -> bool, s: seq<T>)
    requires StrictOrder(less)
    ensures Sorted(less, Sort(less, s))
  {
    if s != [] {
      SortSorted(less, s[1..]);
      InsertSorted(less, s[0], Sort(less, s[1..]));
    }
  }

  lemma SameLeast<T(!new)>(less: (T, T) -> bool, s: seq<T>, t: seq<T>)
    requires StrictOrder(less) && Sorted(less, s) && Sorted(less, t) && multiset(s) == multiset(t)
    requires s != [] && t != []
    ensures s[0] == t[0]
  {
    assert s[0] in multiset(t) && t[0] in multiset(s);
    assert s[0] in t && t[0] in s;
  }

  /** There is one sorted arrangement of a multiset. */
  lemma {:induction false} SortedIsUnique<T(!new)>(less: (T, T) -> bool, s: seq<T>, t: seq<T>)
    requires StrictOrder(less) && Sorted(less, s) && Sorted(less, t) && multiset(s) == multiset(t)
    ensures s == t
  {
    if s == [] {
      assert |multiset(t)| == 0;
    } else {
      assert |multiset(t)| == |s|;
      SameLeast(less, s, t);
      assert s == [s[0]] + s[1..] && t == [t[0]] + t[1..];
      assert multiset(s[1..]) == multiset(s) - multiset{s[0]};
      assert multiset(t[1..]) == multiset(t) - multiset{t[0]};
      SortedIsUnique(less, s[1..], t[1..]);
    }
  }

  lemma SortedUniqueAscends<T(!new)>(less: (T, T) -> bool, s: seq<T>)
    requires StrictOrder(less)
    ensures Ascending(less, SortedUnique(less, s)) && Elements(SortedUnique(less, s)) == Elements(s)
  {
    var u, r := Unique(s), SortedUnique(less, s);
    SortSorted(less, u);
    SameElements(r, u);
    forall i, j | 0 <= i < j < |r| ensures r[i] != r[j] {
      DistinctKept(u, r, i, j);
    }
  }

  lemma SameElements<T>(s: seq<T>, t: seq<T>)
    requires multiset(s) == multiset(t)
    ensures Elements(s) == Elements(t)
  {
    forall x ensures x in s <==> x in t {
      assert x in s <==> x in multiset(s);
      assert x in t <==> x in multiset(t);
    }
  }

  lemma {:induction false} CountOfDistinct<T>(s: seq<T>, x: T)
    requires forall i, j :: 0 <= i < j < |s| ==> s[i] != s[j]
    ensures multiset(s)[x] <= 1
  {
    if s != [] {
      assert s == [s[0]] + s[1..];
      CountOfDistinct(s[1..], x);
      if s[0] == x { assert x !in s[1..]; }
    }
  }

  lemma DistinctKept<T>(s: seq<T>, t: seq<T>, i: nat, j: nat)
    requires forall i, j :: 0 <= i < j < |s| ==> s[i] != s[j]
    requires multiset(s) == multiset(t) && i < j < |t|
    ensures t[i] != t[j]
  {
    CountOfDistinct(s, t[i]);
    assert t == t[..i + 1] + t[i + 1..];
    assert multiset(t) == multiset(t[..i + 1]) + multiset(t[i + 1..]);
    assert t[i] in t[..i + 1] by { assert t[..i + 1][i] == t[i]; }
    assert t[j] in t[i + 1..] by { assert t[i + 1..][j - i - 1] == t[j]; }
  }

  lemma AscendingSorted<T(!new)>(less: (T, T) -> bool, s: seq<T>)
    requires StrictOrder(less) && Ascending(less, s)
    ensures Sorted(less, s) && forall i, j :: 0 <= i < j < |s| ==> s[i] != s[j]
  {
  }

  lemma {:induction false} DistinctMultiset<T>(s: seq<T>, t: seq<T>)
    requires forall i, j :: 0 <= i < j < |s| ==> s[i] != s[j]
    requires forall i, j :: 0 <= i < j < |t| ==> t[i] != t[j]
    requires Elements(s) == Elements(t)
    ensures multiset(s) == multiset(t)
  {
    forall x ensures multiset(s)[x] == multiset(t)[x] {
      CountOfDistinct(s, x);
      CountOfDistinct(t, x);
      assert x in s <==> x in Elements(s);
      assert x in t <==> x in Elements(t);
      assert x in s <==> x in multiset(s);
      assert x in t <==> x in multiset(t);
    }
  }

  /** There is one ascending arrangement of a set. */
  lemma AscendingIsUnique<T(!new)>(less: (T, T) -> bool, s: seq<T>, t: seq<T>)
    requires StrictOrder(less) && Ascending(less, s) && Ascending(less, t) && Elements(s) == Elements(t)
    ensures s == t
  {
    AscendingSorted(less, s);
    AscendingSorted(less, t);
    DistinctMultiset(s, t);
    SortedIsUnique(less, s, t);
  }

  /** Sorting without repetitions forgets order and repetition, and nothing else. */
  lemma SortedUniqueIsTheSet<T(!new)>(less: (T, T) -> bool, s: seq<T>, t: seq<T>)
    requires StrictOrder(less)
    ensures SortedUnique(less, s) == SortedUnique(less, t) <==> Elements(s) == Elements(t)
  {
    SortedUniqueAscends(less, s);
    SortedUniqueAscends(less, t);
    if Elements(s) == Elements(t) {
      AscendingIsUnique(less, SortedUnique(less, s), SortedUnique(less, t));
    }
  }

  lemma SortedUniqueElements<T(!new)>(less: (T, T) -> bool, s: seq<T>)
    ensures Elements(SortedUnique(less, s)) == Elements(s)
  {
    SameElements(SortedUnique(less, s), Unique(s));
  }

  /** No value comes after a greater one. */
  predicate InOrder<T>(less: (T, T) -> bool, s: seq<T>) {
    forall i, j :: 0 <= i < j < |s| ==> !less(s[j], s[i])
  }

  lemma NotBelow<T(!new)>(less: (T, T) -> bool, x: T, y: T, z: T)
    requires WeakOrder(less) && !less(x, y) && !less(y, z)
    ensures !less(x, z)
  {
  }

  lemma InsertStep<T>(less: (T, T) -> bool, x: T, y: T, s: seq<T>)
    ensures Insert(less, x, [y] + s) == if less(y, x) then [y] + Insert(less, x, s) else [x] + ([y] + s)
  {
    assert ([y] + s)[1..] == s;
  }

  lemma SortStep<T>(less: (T, T) -> bool, x: T, s: seq<T>)
    ensures Sort(less, [x] + s) == Insert(less, x, Sort(less, s))
  {
    assert ([x] + s)[1..] == s;
  }

  lemma {:induction false} InsertInOrder<T(!new)>(less: (T, T) -> bool, x: T, s: seq<T>)
    requires WeakOrder(less) && InOrder(less, s)
    ensures InOrder(less, Insert(less, x, s))
  {
    if s != [] {
      var r := Insert(less, x, s[1..]);
      InsertInOrder(less, x, s[1..]);
      if less(s[0], x) {
        forall j | 0 <= j < |r| ensures !less(r[j], s[0]) {
          assert r[j] in multiset(r);
          assert r[j] == x || r[j] in s[1..];
        }
      } else {
        forall j | 0 <= j < |s| ensures !less(s[j], x) {
          if j > 0 { NotBelow(less, s[j], s[0], x); }
        }
      }
    }
  }

  lemma {:induction false} SortInOrder<T(!new)>(less: (T, T) -> bool, s: seq<T>)
    requires WeakOrder(less)
    ensures InOrder(less, Sort(less, s))
  {
    if s != [] {
      SortInOrder(less, s[1..]);
      InsertInOrder(less, s[0], Sort(less, s[1..]));
    }
  }

  /** Tied values stay in the order in which they come. */
  lemma TiesStay<T(!new)>(less: (T, T) -> bool, x: T, y: T)
    requires Tied(less, x, y)
    ensures Sort(less, [x, y]) == [x, y] && SortedUnique(less, [x, y]) == [x, y]
  {
    assert [x, y][1..] == [y] && [y][1..] == [] && [x, y][..1] == [x] && [x][..0] == [];
    assert Sort(less, [y]) == [y];
    assert Unique([x]) == [x];
  }

  /** Orders that agree on the values sort them alike. */
  lemma {:induction false} SortAgrees<T>(less: (T, T) -> bool, less': (T, T) -> bool, s: seq<T>)
    requires forall x, y :: x in s && y in s ==> less(x, y) == less'(x, y)
    ensures Sort(less, s) == Sort(less', s)
  {
    if s != [] {
      SortAgrees(less, less', s[1..]);
      var rest := Sort(less, s[1..]);
      assert forall x :: x in rest ==> x in multiset(rest);
      InsertAgrees(less, less', s[0], rest);
    }
  }

  lemma {:induction false} InsertAgrees<T>(less: (T, T) -> bool, less': (T, T) -> bool, x: T, s: seq<T>)
    requires forall y :: y in s ==> less(y, x) == less'(y, x)
    ensures Insert(less, x, s) == Insert(less', x, s)
  {
    if s != [] { InsertAgrees(less, less', x, s[1..]); }
  }
}
