/**
 * The two list transforms the pages use everywhere: `filter` and a
 * `reduce` that adds up one numeric field.
 */
module Seqs {
  import opened Common

  /** `a` is obtained from `b` by deleting elements (order is kept). */
  predicate Subsequence<T(==)>(a: seq<T>, b: seq<T>)
    decreases |b|
  {
    if a == [] then true
    else if b == [] then false
    else if a[0] == b[0] then Subsequence(a[1..], b[1..])
    else Subsequence(a, b[1..])
  }

  lemma {:induction false} SubsequenceRefl<T>(a: seq<T>)
    ensures Subsequence(a, a)
    decreases |a|
  {
    if a != [] { SubsequenceRefl(a[1..]); }
  }

  /** `xs.filter(p)`. */
  function Filter<T(!new)>(p: T -> bool, xs: seq<T>): (r: seq<T>)
    ensures |r| <= |xs|
    ensures forall x :: x in r <==> x in xs && p(x)
    ensures forall x :: multiset(r)[x] == if p(x) then multiset(xs)[x] else 0
    ensures Subsequence(r, xs)
    ensures (forall i :: 0 <= i < |xs| ==> p(xs[i])) ==> r == xs
    decreases |xs|
  {
    if xs == [] then []
    else
      var rest := Filter(p, xs[1..]);
      FilterStep(p, xs, rest);
      if p(xs[0]) then [xs[0]] + rest else rest
  }

  /** One step of Filter: what holds of the filtered tail holds of the result for the whole list. */
  lemma FilterStep<T>(p: T -> bool, xs: seq<T>, rest: seq<T>)
    requires xs != []
    requires forall x :: multiset(rest)[x] == if p(x) then multiset(xs[1..])[x] else 0
    requires Subsequence(rest, xs[1..])
    requires (forall i :: 0 <= i < |xs| - 1 ==> p(xs[1..][i])) ==> rest == xs[1..]
    ensures var r := if p(xs[0]) then [xs[0]] + rest else rest;
            && (forall x :: multiset(r)[x] == if p(x) then multiset(xs)[x] else 0)
            && Subsequence(r, xs)
            && ((forall i :: 0 <= i < |xs| ==> p(xs[i])) ==> r == xs)
  {
    assert xs == [xs[0]] + xs[1..];
    assert multiset(xs) == multiset{xs[0]} + multiset(xs[1..]);
    if p(xs[0]) {
      var r := [xs[0]] + rest;
      assert r[1..] == rest;
      assert multiset(r) == multiset{xs[0]} + multiset(rest);
    }
  }

  /** `xs.reduce((sum, x) => sum + f(x), 0)`. */
  function Sum<T>(f: T -> int, xs: seq<T>): int
    decreases |xs|
  {
    if xs == [] then 0 else f(xs[0]) + Sum(f, xs[1..])
  }

  /** One step of Filter: the head is kept when it passes. */
  lemma FilterCons<T(!new)>(p: T -> bool, xs: seq<T>)
    requires xs != []
    ensures Filter(p, xs) == (if p(xs[0]) then [xs[0]] else []) + Filter(p, xs[1..])
  {
  }

  /** When nothing passes, Filter keeps nothing. */
  lemma {:induction false} FilterNone<T(!new)>(p: T -> bool, xs: seq<T>)
    requires forall i :: 0 <= i < |xs| ==> !p(xs[i])
    ensures Filter(p, xs) == []
    decreases |xs|
  {
    if xs != [] {
      FilterNone(p, xs[1..]);
    }
  }

  lemma {:induction false} SumAppend<T>(f: T -> int, a: seq<T>, b: seq<T>)
    ensures Sum(f, a + b) == Sum(f, a) + Sum(f, b)
    decreases |a|
  {
    if a != [] {
      assert (a + b)[0] == a[0] && (a + b)[1..] == a[1..] + b;
      SumAppend(f, a[1..], b);
      calc {
        Sum(f, a + b);
        f(a[0]) + Sum(f, a[1..] + b);
        f(a[0]) + Sum(f, a[1..]) + Sum(f, b);
      }
    } else {
      assert a + b == b;
    }
  }

  /** Adding the last element: the reduce read from the other end. */
  /** A sum is the sum of all but the last term, plus the last term. */
  lemma SumLast<T>(f: T -> int, xs: seq<T>)
    requires xs != []
    ensures Sum(f, xs) == Sum(f, xs[..|xs| - 1]) + f(xs[|xs| - 1])
  {
    assert xs[..|xs| - 1] + [xs[|xs| - 1]] == xs;
    SumSnoc(f, xs[..|xs| - 1], xs[|xs| - 1]);
  }

  /** Appending one element adds its term to a filtered sum exactly when it passes the filter. */
  lemma FilterSumSnoc<T(!new)>(f: T -> int, p: T -> bool, xs: seq<T>, x: T)
    ensures Sum(f, Filter(p, xs + [x])) == Sum(f, Filter(p, xs)) + (if p(x) then f(x) else 0)
  {
    FilterSnoc(p, xs, x);
    var before := Filter(p, xs);
    if p(x) {
      SumSnoc(f, before, x);
    } else {
      assert before + [] == before;
    }
  }

  lemma SumSnoc<T>(f: T -> int, xs: seq<T>, x: T)
    ensures Sum(f, xs + [x]) == Sum(f, xs) + f(x)
  {
    SumAppend(f, xs, [x]);
  }

  /** A sum of non-negative terms is non-negative. */
  lemma {:induction false} SumNonNegative<T>(f: T -> int, xs: seq<T>)
    requires forall i :: 0 <= i < |xs| ==> f(xs[i]) >= 0
    ensures Sum(f, xs) >= 0
    decreases |xs|
  {
    if xs != [] { SumNonNegative(f, xs[1..]); }
  }

  /** A sum of non-positive terms is non-positive. */
  lemma {:induction false} SumNonPositive<T>(f: T -> int, xs: seq<T>)
    requires forall i :: 0 <= i < |xs| ==> f(xs[i]) <= 0
    ensures Sum(f, xs) <= 0
    decreases |xs|
  {
    if xs != [] { SumNonPositive(f, xs[1..]); }
  }

  /**
   * Splitting a list by a predicate and its negation splits its sum:
   * what passes the filter and what fails it add up to the whole.
   */
  lemma {:induction false} SumPartition<T(!new)>(f: T -> int, p: T -> bool, q: T -> bool, xs: seq<T>)
    requires forall x :: q(x) == !p(x)
    ensures Sum(f, Filter(p, xs)) + Sum(f, Filter(q, xs)) == Sum(f, xs)
    decreases |xs|
  {
    if xs != [] {
      SumPartition(f, p, q, xs[1..]);
    }
  }

  /** Removing the element at index k takes its term out of the sum. */
  lemma SumRemoveAt<T>(f: T -> int, xs: seq<T>, k: nat)
    requires k < |xs|
    ensures Sum(f, xs) == f(xs[k]) + Sum(f, xs[..k] + xs[k + 1..])
  {
    assert xs == xs[..k] + [xs[k]] + xs[k + 1..];
    SumAppend(f, xs[..k] + [xs[k]], xs[k + 1..]);
    SumAppend(f, xs[..k], [xs[k]]);
    SumAppend(f, xs[..k], xs[k + 1..]);
  }

  /** A sum does not depend on the order of its terms. */
  lemma {:induction false} SumPermutation<T>(f: T -> int, a: seq<T>, b: seq<T>)
    requires multiset(a) == multiset(b)
    ensures Sum(f, a) == Sum(f, b)
    decreases |a|
  {
    if a == [] {
      assert |b| == |multiset(b)| == 0;
    } else {
      var k := PermutationTail(a, b);
      SumPermutation(f, a[1..], b[..k] + b[k + 1..]);
      SumRemoveAt(f, b, k);
    }
  }

  /** The head of a permutation sits at some k of the other list, and the rests are permutations. */
  lemma PermutationTail<T>(a: seq<T>, b: seq<T>) returns (k: nat)
    requires a != [] && multiset(a) == multiset(b)
    ensures k < |b| && b[k] == a[0]
    ensures multiset(a[1..]) == multiset(b[..k] + b[k + 1..])
  {
    k := IndexIn(a[0], b);
    SplitAt(a, 0);
    SplitAt(b, k);
    assert a[..0] + a[1..] == a[1..];
    CancelOne(multiset(a), multiset(b), a[0], multiset(a[1..]), multiset(b[..k] + b[k + 1..]));
  }

  /** Taking one element out of a list takes it out of the list's multiset. */
  lemma SplitAt<T>(xs: seq<T>, k: nat)
    requires k < |xs|
    ensures multiset(xs) == multiset(xs[..k] + xs[k + 1..]) + multiset{xs[k]}
  {
    assert xs == xs[..k] + [xs[k]] + xs[k + 1..];
  }

  /** Equal multisets, each with the same element taken out, are equal. */
  lemma CancelOne<T>(ma: multiset<T>, mb: multiset<T>, x: T, ra: multiset<T>, rb: multiset<T>)
    requires ma == mb && ma == ra + multiset{x} && mb == rb + multiset{x}
    ensures ra == rb
  {
    assert ra == ma - multiset{x};
  }

  /** An element of a list's multiset sits at some index of the list. */
  lemma IndexIn<T>(x: T, b: seq<T>) returns (k: nat)
    requires x in multiset(b)
    ensures k < |b| && b[k] == x
  {
    assert x in b;
    k :| 0 <= k < |b| && b[k] == x;
  }

  /** `xs.find(p)`: the first element satisfying p, if any. */
  function FindFirst<T>(p: T -> bool, xs: seq<T>): (r: Option<T>)
    ensures r.None? <==> forall i :: 0 <= i < |xs| ==> !p(xs[i])
    ensures r.Some? ==> exists i :: (0 <= i < |xs| && xs[i] == r.value && p(xs[i])
                                    && forall j :: 0 <= j < i ==> !p(xs[j]))
    decreases |xs|
  {
    if xs == [] then None
    else if p(xs[0]) then Some(xs[0])
    else
      var r := FindFirst(p, xs[1..]);
      assert r.Some? ==> exists i :: (0 <= i < |xs| && xs[i] == r.value && p(xs[i])
                                      && forall j :: 0 <= j < i ==> !p(xs[j])) by {
        if r.Some? {
          var i :| 0 <= i < |xs[1..]| && xs[1..][i] == r.value && p(xs[1..][i])
            && forall j :: 0 <= j < i ==> !p(xs[1..][j]);
          assert xs[i + 1] == r.value;
          forall j | 0 <= j < i + 1 ensures !p(xs[j]) {
            if j > 0 { assert xs[j] == xs[1..][j - 1]; }
          }
        }
      }
      r
  }

  /** No two elements share a key. */
  predicate DistinctBy<T, K(==)>(key: T -> K, s: seq<T>)
  {
    forall i, j :: 0 <= i < j < |s| ==> key(s[i]) != key(s[j])
  }

  /** Filtering keeps distinct keys distinct. */
  lemma {:induction false} FilterDistinct<T(!new), K>(p: T -> bool, key: T -> K, xs: seq<T>)
    requires DistinctBy(key, xs)
    ensures DistinctBy(key, Filter(p, xs))
    decreases |xs|
  {
    if xs != [] {
      FilterDistinct(p, key, xs[1..]);
      var rest := Filter(p, xs[1..]);
      if p(xs[0]) {
        var r := Filter(p, xs);
        assert r == [xs[0]] + rest;
        forall i, j | 0 <= i < j < |r| ensures key(r[i]) != key(r[j]) {
          assert r[j] == rest[j - 1] && r[j] in xs[1..];
          var k :| 0 <= k < |xs[1..]| && xs[1..][k] == r[j];
          assert xs[k + 1] == r[j];
          if i > 0 { assert r[i] == rest[i - 1]; }
        }
      }
    }
  }

  /** Replacing one element changes the sum by the difference of the two terms. */
  lemma SumUpdate<T>(f: T -> int, xs: seq<T>, k: nat, x: T)
    requires k < |xs|
    ensures Sum(f, xs[k := x]) == Sum(f, xs) - f(xs[k]) + f(x)
  {
    SumRemoveAt(f, xs, k);
    SumRemoveAt(f, xs[k := x], k);
    assert xs[k := x][..k] + xs[k := x][k + 1..] == xs[..k] + xs[k + 1..];
  }

  /** Sums of two functions that agree on every element are equal. */
  lemma {:induction false} SumCongruent<T>(f: T -> int, g: T -> int, xs: seq<T>)
    requires forall i :: 0 <= i < |xs| ==> f(xs[i]) == g(xs[i])
    ensures Sum(f, xs) == Sum(g, xs)
    decreases |xs|
  {
    if xs != [] { SumCongruent(f, g, xs[1..]); }
  }

  lemma DistinctTail<T, K>(key: T -> K, xs: seq<T>)
    requires DistinctBy(key, xs)
    requires xs != []
    ensures DistinctBy(key, xs[1..])
  {
    forall i, j | 0 <= i < j < |xs| - 1 ensures key(xs[1..][i]) != key(xs[1..][j]) {
      assert key(xs[i + 1]) != key(xs[j + 1]);
    }
  }

  /** Filtering by two predicates that agree everywhere gives the same list. */
  lemma {:induction false} FilterSamePredicate<T(!new)>(p: T -> bool, q: T -> bool, xs: seq<T>)
    requires forall x :: p(x) == q(x)
    ensures Filter(p, xs) == Filter(q, xs)
    decreases |xs|
  {
    if xs != [] { FilterSamePredicate(p, q, xs[1..]); }
  }

  /** Filtering a list with one more element at the end. */
  lemma {:induction false} FilterSnoc<T(!new)>(p: T -> bool, xs: seq<T>, x: T)
    ensures Filter(p, xs + [x]) == Filter(p, xs) + (if p(x) then [x] else [])
    decreases |xs|
  {
    var ys := xs + [x];
    var tail := if p(x) then [x] else [];
    if xs == [] {
      assert ys == [x] && ys[1..] == [];
      assert Filter(p, ys) == tail + Filter(p, []);
    } else {
      assert ys[0] == xs[0] && ys[1..] == xs[1..] + [x];
      FilterSnoc(p, xs[1..], x);
      var rest := Filter(p, xs[1..]);
      if p(xs[0]) {
        assert Filter(p, ys) == [xs[0]] + (rest + tail);
        assert Filter(p, xs) == [xs[0]] + rest;
        ConcatAssoc([xs[0]], rest, tail);
      }
    }
  }

  /** Filtering by p after a weaker q is filtering by p alone. */
  lemma {:induction false} FilterNarrower<T(!new)>(p: T -> bool, q: T -> bool, xs: seq<T>)
    requires forall x :: p(x) ==> q(x)
    ensures Filter(p, Filter(q, xs)) == Filter(p, xs)
    decreases |xs|
  {
    if xs != [] {
      FilterNarrower(p, q, xs[1..]);
      var rest := Filter(q, xs[1..]);
      if q(xs[0]) {
        var ys := [xs[0]] + rest;
        assert Filter(q, xs) == ys;
        assert ys[0] == xs[0] && ys[1..] == rest;
      }
    }
  }

  /** Concatenation is associative (proved apart, away from the facts about Filter). */
  lemma ConcatAssoc<T>(a: seq<T>, b: seq<T>, c: seq<T>)
    ensures a + (b + c) == (a + b) + c
  {
  }
}
