/** Operations on sequences that several parts of the system share: sorting by an
    integer key (`Array.prototype.sort` with a subtracting comparator, and a
    database `sort` on one field), filtering, and distinctness. */
module Seqs {
  predicate Ordered(x: int, y: int, descending: bool) {
    if descending then x >= y else x <= y
  }

  predicate SortedOn<T>(s: seq<T>, key: T -> int, descending: bool) {
    forall i, j :: 0 <= i < j < |s| ==> Ordered(key(s[i]), key(s[j]), descending)
  }

  function InsertOn<T>(x: T, s: seq<T>, key: T -> int, descending: bool): (r: seq<T>)
    requires SortedOn(s, key, descending)
    ensures SortedOn(r, key, descending)
    ensures multiset(r) == multiset(s) + multiset{x}
    decreases |s|
  {
    if s == [] || Ordered(key(x), key(s[0]), descending) then [x] + s
    else
      var rest := InsertOn(x, s[1..], key, descending);
      assert s == [s[0]] + s[1..];
      InsertOnHead(x, s, rest, key, descending);
      [s[0]] + rest
  }

  /** The step of `InsertOn` past the head: the head may stand before everything the
      recursive call returns. */
  lemma InsertOnHead<T>(x: T, s: seq<T>, rest: seq<T>, key: T -> int, descending: bool)
    requires s != [] && !Ordered(key(x), key(s[0]), descending) && SortedOn(s, key, descending)
    requires SortedOn(rest, key, descending) && multiset(rest) == multiset(s[1..]) + multiset{x}
    ensures SortedOn([s[0]] + rest, key, descending)
  {
    var r := [s[0]] + rest;
    forall i, j | 0 <= i < j < |r| ensures Ordered(key(r[i]), key(r[j]), descending) {
      if i == 0 {
        var e := rest[j - 1];
        assert e in multiset(rest);
        if e != x {
          assert e in multiset(s[1..]);
          var k :| 0 <= k < |s[1..]| && s[1..][k] == e;
          assert s[k + 1] == e;
        }
      } else {
        assert r[i] == rest[i - 1] && r[j] == rest[j - 1];
      }
    }
  }

  /** The same elements, ordered by `key`. */
  function SortOn<T>(s: seq<T>, key: T -> int, descending: bool): (r: seq<T>)
    ensures SortedOn(r, key, descending)
    ensures multiset(r) == multiset(s)
    decreases |s|
  {
    if s == [] then []
    else
      assert s == [s[0]] + s[1..];
      InsertOn(s[0], SortOn(s[1..], key, descending), key, descending)
  }

  /** `s.filter(p)` */
  function Filter<T>(s: seq<T>, p: T -> bool): (r: seq<T>)
    ensures |r| <= |s|
    ensures forall i :: 0 <= i < |r| ==> p(r[i])
    ensures forall x :: x in s && p(x) ==> x in r
    ensures multiset(r) <= multiset(s)
    decreases |s|
  {
    if s == [] then []
    else
      assert s == [s[0]] + s[1..];
      (if p(s[0]) then [s[0]] else []) + Filter(s[1..], p)
  }

  /** `Filter` agrees on predicates that agree everywhere. */
  lemma {:induction false} FilterSame<T>(s: seq<T>, f: T -> bool, g: T -> bool)
    requires forall x :: f(x) == g(x)
    ensures Filter(s, f) == Filter(s, g)
    decreases |s|
  {
    if s != [] {
      FilterSame(s[1..], f, g);
    }
  }

  /** Filtering keeps exactly the elements that pass, as often as they occur. */
  lemma {:induction false} FilterCounts<T>(s: seq<T>, p: T -> bool, x: T)
    ensures multiset(Filter(s, p))[x] == if p(x) then multiset(s)[x] else 0
    decreases |s|
  {
    if s != [] {
      FilterCounts(s[1..], p, x);
      assert s == [s[0]] + s[1..];
    }
  }

  /** No value occurs twice. */
  predicate Distinct<T(==)>(s: seq<T>) {
    forall x :: x in s ==> multiset(s)[x] <= 1
  }

  lemma DistinctIndices<T>(s: seq<T>)
    requires Distinct(s)
    ensures forall i, j :: 0 <= i < j < |s| ==> s[i] != s[j]
  {
    forall i, j | 0 <= i < j < |s| ensures s[i] != s[j] {
      assert s == s[..j] + [s[j]] + s[j + 1..];
      assert s[i] in s[..j];
      assert multiset(s)[s[j]] == multiset(s[..j])[s[j]] + 1 + multiset(s[j + 1..])[s[j]];
    }
  }

  lemma {:induction false} DistinctOfIndices<T>(s: seq<T>)
    requires forall i, j :: 0 <= i < j < |s| ==> s[i] != s[j]
    ensures Distinct(s)
    decreases |s|
  {
    if s != [] {
      DistinctOfIndices(s[1..]);
      assert s == [s[0]] + s[1..];
      assert s[0] !in s[1..];
      forall x | x in s ensures multiset(s)[x] <= 1 {
        if x != s[0] {
          assert x in s[1..];
        }
      }
    }
  }
}
