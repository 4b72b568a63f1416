/** The stable sort behind Array.prototype.sort and SQL's ORDER BY, ascending in an integer key. */
module Sorting {

  ghost predicate SortedBy<T>(key: T -> int, s: seq<T>) {
    forall i, j :: 0 <= i < j < |s| ==> key(s[i]) <= key(s[j])
  }

  function Insert<T(!new)>(key: T -> int, x: T, s: seq<T>): (r: seq<T>)
    ensures multiset(r) == multiset{x} + multiset(s)
    ensures forall y :: y in r <==> y == x || y in s
  {
    if s == [] || key(x) <= key(s[0]) then [x] + s
    else
      assert s == [s[0]] + s[1..];
      [s[0]] + Insert(key, x, s[1..])
  }

  function Sort<T(!new)>(key: T -> int, s: seq<T>): (r: seq<T>)
    ensures multiset(r) == multiset(s)
    ensures forall y :: y in r <==> y in s
  {
    if s == [] then []
    else
      assert s == [s[0]] + s[1..];
      Insert(key, s[0], Sort(key, s[1..]))
  }

  lemma {:induction false} InsertSorted<T(!new)>(key: T -> int, x: T, s: seq<T>)
    requires SortedBy(key, s)
    ensures SortedBy(key, Insert(key, x, s))
  {
    if !(s == [] || key(x) <= key(s[0])) {
      InsertSorted(key, x, s[1..]);
      var r := Insert(key, x, s);
      forall j | 0 < j < |r|
        ensures key(r[0]) <= key(r[j])
      {
        assert r[j] in Insert(key, x, s[1..]);
      }
      assert forall i, j :: 0 < i < j < |r| ==> key(r[i]) <= key(r[j]);
    }
  }

  lemma {:induction false} SortSorted<T(!new)>(key: T -> int, s: seq<T>)
    ensures SortedBy(key, Sort(key, s))
  {
    if s != [] {
      SortSorted(key, s[1..]);
      InsertSorted(key, s[0], Sort(key, s[1..]));
    }
  }

  predicate Distinct<T>(id: T -> string, s: seq<T>) {
    forall i, j :: 0 <= i < j < |s| ==> id(s[i]) != id(s[j])
  }

  lemma {:induction false} InsertDistinct<T(!new)>(key: T -> int, id: T -> string, x: T, s: seq<T>)
    requires Distinct(id, s) && forall y :: y in s ==> id(y) != id(x)
    ensures Distinct(id, Insert(key, x, s))
  {
    if !(s == [] || key(x) <= key(s[0])) {
      InsertDistinct(key, id, x, s[1..]);
      var r := Insert(key, x, s);
      forall j | 0 < j < |r|
        ensures id(r[0]) != id(r[j])
      {
        assert r[j] in Insert(key, x, s[1..]);
      }
    }
  }

  /** Sorting keeps identifiers distinct. */
  lemma {:induction false} SortDistinct<T(!new)>(key: T -> int, id: T -> string, s: seq<T>)
    requires Distinct(id, s)
    ensures Distinct(id, Sort(key, s))
  {
    if s != [] {
      SortDistinct(key, id, s[1..]);
      InsertDistinct(key, id, s[0], Sort(key, s[1..]));
    }
  }

  /** The elements with this key, in order. */
  function Having<T>(key: T -> int, s: seq<T>, k: int): seq<T> {
    if s == [] then [] else (if key(s[0]) == k then [s[0]] else []) + Having(key, s[1..], k)
  }

  lemma HavingCons<T>(key: T -> int, x: T, s: seq<T>, k: int)
    ensures Having(key, [x] + s, k) == (if key(x) == k then [x] else []) + Having(key, s, k)
  {
    assert ([x] + s)[1..] == s;
  }

  lemma {:induction false} InsertStable<T(!new)>(key: T -> int, x: T, s: seq<T>, k: int)
    ensures Having(key, Insert(key, x, s), k) == (if key(x) == k then [x] else []) + Having(key, s, k)
  {
    if s == [] || key(x) <= key(s[0]) {
      HavingCons(key, x, s, k);
    } else {
      InsertStable(key, x, s[1..], k);
      assert Insert(key, x, s) == [s[0]] + Insert(key, x, s[1..]);
      hide Insert;
      HavingCons(key, s[0], Insert(key, x, s[1..]), k);
    }
  }

  /** Elements with equal keys keep their order. */
  lemma {:induction false} SortStable<T(!new)>(key: T -> int, s: seq<T>, k: int)
    ensures Having(key, Sort(key, s), k) == Having(key, s, k)
  {
    if s != [] {
      SortStable(key, s[1..], k);
      InsertStable(key, s[0], Sort(key, s[1..]), k);
    }
  }
}
