/** Python's `sorted(xs, key=..., reverse=...)` and `list.sort`, which the core
    uses for the price sort of a product listing and for the ranking re-sort of
    full-text search results. Python's sort is stable in both directions: with
    `reverse=True` items with equal keys still keep their input order. The model
    is an insertion sort that keeps exactly that behaviour. */
module StableSort {

  /** Key `a` may come before key `b` in the requested direction. */
  predicate InOrder(a: real, b: real, desc: bool)
  {
    if desc then a >= b else a <= b
  }

  ghost predicate SortedBy<T>(s: seq<T>, key: T -> real, desc: bool)
  {
    forall i, j :: 0 <= i < j < |s| ==> InOrder(key(s[i]), key(s[j]), desc)
  }

  /** The items of `s` whose key is `k`, in the order `s` has them. */
  function WithKey<T>(s: seq<T>, key: T -> real, k: real): seq<T>
  {
    if s == [] then []
    else (if key(s[0]) == k then [s[0]] else []) + WithKey(s[1..], key, k)
  }

  /** Places `x` in front of the first item it may precede. */
  function Insert<T>(x: T, s: seq<T>, key: T -> real, desc: bool): seq<T>
  {
    if s == [] || InOrder(key(x), key(s[0]), desc) then [x] + s
    else [s[0]] + Insert(x, s[1..], key, desc)
  }

  /** `sorted(s, key=key, reverse=desc)` */
  function SortBy<T>(s: seq<T>, key: T -> real, desc: bool): seq<T>
  {
    if s == [] then [] else Insert(s[0], SortBy(s[1..], key, desc), key, desc)
  }

  lemma {:induction false} InsertPermutes<T>(x: T, s: seq<T>, key: T -> real, desc: bool)
    ensures multiset(Insert(x, s, key, desc)) == multiset([x] + s)
  {
    if s != [] && !InOrder(key(x), key(s[0]), desc) {
      InsertPermutes(x, s[1..], key, desc);
      assert s == [s[0]] + s[1..];
    }
  }

  lemma {:induction false} InsertMember<T>(x: T, s: seq<T>, key: T -> real, desc: bool, y: T)
    requires y in Insert(x, s, key, desc)
    ensures y == x || y in s
  {
    if s != [] && !InOrder(key(x), key(s[0]), desc) {
      if y != s[0] {
        InsertMember(x, s[1..], key, desc, y);
      }
    }
  }

  lemma {:induction false} InsertOrdered<T>(x: T, s: seq<T>, key: T -> real, desc: bool)
    requires SortedBy(s, key, desc)
    ensures SortedBy(Insert(x, s, key, desc), key, desc)
  {
    if s != [] && !InOrder(key(x), key(s[0]), desc) {
      var rest := Insert(x, s[1..], key, desc);
      InsertOrdered(x, s[1..], key, desc);
      forall j | 0 <= j < |rest| ensures InOrder(key(s[0]), key(rest[j]), desc) {
        InsertMember(x, s[1..], key, desc, rest[j]);
        if rest[j] != x {
          var k :| 0 <= k < |s[1..]| && s[1..][k] == rest[j];
          assert s[k + 1] == rest[j];
        }
      }
      ConsSorted(s[0], rest, key, desc);
    }
  }

  lemma ConsSorted<T>(h: T, rest: seq<T>, key: T -> real, desc: bool)
    requires SortedBy(rest, key, desc)
    requires forall j :: 0 <= j < |rest| ==> InOrder(key(h), key(rest[j]), desc)
    ensures SortedBy([h] + rest, key, desc)
  {
    var r := [h] + rest;
    forall i, j | 0 <= i < j < |r| ensures InOrder(key(r[i]), key(r[j]), desc) {
      assert r[j] == rest[j - 1];
      if i > 0 { assert r[i] == rest[i - 1]; }
    }
  }

  /** The result of `SortBy` is ordered by key in the requested direction and is
      a permutation of the input. */
  lemma {:induction false} SortBySorted<T>(s: seq<T>, key: T -> real, desc: bool)
    ensures multiset(SortBy(s, key, desc)) == multiset(s)
    ensures SortedBy(SortBy(s, key, desc), key, desc)
  {
    if s != [] {
      SortBySorted(s[1..], key, desc);
      InsertPermutes(s[0], SortBy(s[1..], key, desc), key, desc);
      InsertOrdered(s[0], SortBy(s[1..], key, desc), key, desc);
      assert s == [s[0]] + s[1..];
    }
  }

  lemma {:induction false} WithKeyAppend<T>(a: seq<T>, b: seq<T>, key: T -> real, k: real)
    ensures WithKey(a + b, key, k) == WithKey(a, key, k) + WithKey(b, key, k)
  {
    if a != [] {
      assert (a + b)[1..] == a[1..] + b;
      WithKeyAppend(a[1..], b, key, k);
    } else {
      assert a + b == b;
    }
  }

  lemma {:induction false} InsertStable<T>(x: T, s: seq<T>, key: T -> real, desc: bool, k: real)
    requires SortedBy(s, key, desc)
    ensures WithKey(Insert(x, s, key, desc), key, k)
         == (if key(x) == k then [x] else []) + WithKey(s, key, k)
  {
    if s == [] || InOrder(key(x), key(s[0]), desc) {
      assert ([x] + s)[1..] == s;
    } else {
      InsertStable(x, s[1..], key, desc, k);
      WithKeyAppend([s[0]], Insert(x, s[1..], key, desc), key, k);
      WithKeyAppend([s[0]], s[1..], key, k);
      assert s == [s[0]] + s[1..];
    }
  }

  /** Stability: for every key, the items carrying that key appear in the
      result in the same order as in the input. */
  lemma {:induction false} SortByStable<T>(s: seq<T>, key: T -> real, desc: bool, k: real)
    ensures WithKey(SortBy(s, key, desc), key, k) == WithKey(s, key, k)
  {
    if s != [] {
      SortByStable(s[1..], key, desc, k);
      SortBySorted(s[1..], key, desc);
      InsertStable(s[0], SortBy(s[1..], key, desc), key, desc, k);
    }
  }
}
