/**
 * `Array.prototype.sort` with a comparator, as the sales table and the
 * analytics dashboard use it. The comparator is given as a "strictly
 * before" relation `less`; the sort is a stable insertion sort, as the
 * ECMAScript sort is required to be stable.
 */
module Sorting {
  import opened Seqs

  /** `less` is a strict weak order: asymmetric, and "not before" is transitive. */
  ghost predicate StrictWeakOrder<T(!new)>(less: (T, T) -> bool)
  {
    && (forall a, b :: less(a, b) ==> !less(b, a))
    && (forall a, b, c :: !less(a, b) && !less(b, c) ==> !less(a, c))
  }

  /** No element is strictly before an element that precedes it. */
  predicate SortedBy<T>(less: (T, T) -> bool, s: seq<T>)
  {
    forall i, j :: 0 <= i < j < |s| ==> !less(s[j], s[i])
  }

  /** Inserts x before the first element that x is not after. */
  function Insert<T>(less: (T, T) -> bool, x: T, s: seq<T>): (r: seq<T>)
    ensures multiset(r) == multiset(s) + multiset{x}
    ensures |r| == |s| + 1
    decreases |s|
  {
    if s == [] || !less(s[0], x) then [x] + s
    else
      assert s == [s[0]] + s[1..];
      [s[0]] + Insert(less, x, s[1..])
  }

  function SortBy<T>(less: (T, T) -> bool, xs: seq<T>): (r: seq<T>)
    ensures multiset(r) == multiset(xs)
    ensures |r| == |xs|
    decreases |xs|
  {
    if xs == [] then []
    else
      assert xs == [xs[0]] + xs[1..];
      Insert(less, xs[0], SortBy(less, xs[1..]))
  }

  lemma {:induction false} InsertSorted<T(!new)>(less: (T, T) -> bool, x: T, s: seq<T>)
    requires StrictWeakOrder(less)
    requires SortedBy(less, s)
    ensures SortedBy(less, Insert(less, x, s))
    decreases |s|
  {
    var r := Insert(less, x, s);
    if s == [] || !less(s[0], x) {
      forall i, j | 0 <= i < j < |r| ensures !less(r[j], r[i]) {
        if i == 0 {
          assert r[j] == s[j - 1];
          assert !less(s[j - 1], s[0]) || j - 1 == 0;
        } else {
          assert r[i] == s[i - 1] && r[j] == s[j - 1];
        }
      }
    } else {
      InsertSorted(less, x, s[1..]);
      var rest := Insert(less, x, s[1..]);
      assert r == [s[0]] + rest;
      forall i, j | 0 <= i < j < |r| ensures !less(r[j], r[i]) {
        if i == 0 {
          var e := rest[j - 1];
          assert e in multiset(rest);
          assert e == x || e in multiset(s[1..]);
          if e != x {
            var k :| 0 <= k < |s[1..]| && s[1..][k] == e;
            assert s[k + 1] == e;
          }
        } else {
          assert r[i] == rest[i - 1] && r[j] == rest[j - 1];
        }
      }
    }
  }

  /** The sort result is ordered: together with the multiset ensures of SortBy, a sorted permutation. */
  lemma {:induction false} SortBySorted<T(!new)>(less: (T, T) -> bool, xs: seq<T>)
    requires StrictWeakOrder(less)
    ensures SortedBy(less, SortBy(less, xs))
    decreases |xs|
  {
    if xs != [] {
      SortBySorted(less, xs[1..]);
      InsertSorted(less, xs[0], SortBy(less, xs[1..]));
    }
  }

  lemma {:induction false} InsertDistinct<T, K>(less: (T, T) -> bool, key: T -> K, x: T, s: seq<T>)
    requires DistinctBy(key, s)
    requires forall i :: 0 <= i < |s| ==> key(s[i]) != key(x)
    ensures DistinctBy(key, Insert(less, x, s))
    decreases |s|
  {
    var r := Insert(less, x, s);
    if s != [] && less(s[0], x) {
      var tail := s[1..];
      forall i, j | 0 <= i < j < |tail| ensures key(tail[i]) != key(tail[j]) {
        assert tail[i] == s[i + 1] && tail[j] == s[j + 1];
      }
      forall i | 0 <= i < |tail| ensures key(tail[i]) != key(x) {
        assert tail[i] == s[i + 1];
      }
      InsertDistinct(less, key, x, tail);
      var rest := Insert(less, x, tail);
      assert r == [s[0]] + rest;
      forall j | 0 < j < |r| ensures key(r[0]) != key(r[j]) {
        var k := InsertElement(less, x, tail, j - 1);
        if k < |tail| {
          assert tail[k] == s[k + 1];
        }
      }
      forall i, j | 0 < i < j < |r| ensures key(r[i]) != key(r[j]) {
        assert r[i] == rest[i - 1] && r[j] == rest[j - 1];
      }
    } else {
      forall i, j | 0 <= i < j < |r| ensures key(r[i]) != key(r[j]) {
        assert r[j] == s[j - 1];
        if i > 0 { assert r[i] == s[i - 1]; }
      }
    }
  }

  /** Each element of an insertion is the inserted element (k == |s|) or the element of s at k. */
  lemma InsertElement<T>(less: (T, T) -> bool, x: T, s: seq<T>, j: nat) returns (k: nat)
    requires j < |s| + 1
    ensures k <= |s|
    ensures k == |s| ==> Insert(less, x, s)[j] == x
    ensures k < |s| ==> Insert(less, x, s)[j] == s[k]
  {
    var e := Insert(less, x, s)[j];
    assert e in multiset(Insert(less, x, s));
    if e == x {
      k := |s|;
    } else {
      assert e in multiset(s);
      k :| 0 <= k < |s| && s[k] == e;
    }
  }

  /** Sorting keeps distinct keys distinct. */
  lemma {:induction false} SortByDistinct<T, K>(less: (T, T) -> bool, key: T -> K, xs: seq<T>)
    requires DistinctBy(key, xs)
    ensures DistinctBy(key, SortBy(less, xs))
    decreases |xs|
  {
    if xs != [] {
      SortByDistinct(less, key, xs[1..]);
      var s := SortBy(less, xs[1..]);
      forall i | 0 <= i < |s| ensures key(s[i]) != key(xs[0]) {
        assert s[i] in multiset(xs[1..]);
        var k :| 0 <= k < |xs[1..]| && xs[1..][k] == s[i];
        assert xs[k + 1] == s[i];
      }
      InsertDistinct(less, key, xs[0], s);
    }
  }
}
