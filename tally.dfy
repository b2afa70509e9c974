/**
 * The dashboard's grouping idiom: an object used as a dictionary,
 * `acc[key] = acc[key] ? acc[key] + v : v`, read back with
 * `Object.entries`. Entries keep the order in which keys were first
 * added, so the dictionary is an association list of (key, value) pairs.
 */
module Tally {
  import opened Seqs
  import opened Sorting

  type Entries<K> = seq<(K, int)>

  function EntryKey<K>(e: (K, int)): K { e.0 }

  function EntryValue<K>(e: (K, int)): int { e.1 }

  /** `k in acc`. */
  predicate HasKey<K(==,!new)>(e: Entries<K>, k: K)
    decreases |e|
  {
    e != [] && (e[0].0 == k || HasKey(e[1..], k))
  }

  lemma {:induction false} HasKeyAt<K(!new)>(e: Entries<K>, k: K)
    ensures HasKey(e, k) <==> exists i :: 0 <= i < |e| && e[i].0 == k
    decreases |e|
  {
    if e != [] {
      HasKeyAt(e[1..], k);
      if exists i :: 0 <= i < |e| && e[i].0 == k {
        var i :| 0 <= i < |e| && e[i].0 == k;
        if i > 0 { assert e[1..][i - 1].0 == k; }
      }
      if exists i :: 0 <= i < |e[1..]| && e[1..][i].0 == k {
        var i :| 0 <= i < |e[1..]| && e[1..][i].0 == k;
        assert e[i + 1].0 == k;
      }
    }
  }

  /** No key occurs twice. */
  predicate DistinctKeys<K(==,!new)>(e: Entries<K>)
    decreases |e|
  {
    e == [] || (!HasKey(e[1..], e[0].0) && DistinctKeys(e[1..]))
  }

  /** The recursive definition agrees with the index-wise one used by sorting. */
  lemma {:induction false} DistinctKeysAt<K(!new)>(e: Entries<K>)
    requires DistinctKeys(e)
    ensures DistinctBy(EntryKey, e)
    decreases |e|
  {
    if e != [] {
      DistinctKeysAt(e[1..]);
      HasKeyAt(e[1..], e[0].0);
      forall i, j | 0 <= i < j < |e| ensures EntryKey(e[i]) != EntryKey(e[j]) {
        assert e[j] == e[1..][j - 1];
        if i > 0 { assert e[i] == e[1..][i - 1]; }
      }
    }
  }

  /** `acc[k] ?? 0`. */
  function Lookup<K(==,!new)>(e: Entries<K>, k: K): int
    decreases |e|
  {
    if e == [] then 0 else if e[0].0 == k then e[0].1 else Lookup(e[1..], k)
  }

  /**
   * `acc[k] = acc[k] ? acc[k] + v : v`. In JavaScript a present key whose
   * value is 0 is falsy and gets `v` instead of `0 + v`: the same number.
   */
  function Add<K(==,!new)>(e: Entries<K>, k: K, v: int): (r: Entries<K>)
    ensures Lookup(r, k) == Lookup(e, k) + v
    ensures forall k' :: k' != k ==> Lookup(r, k') == Lookup(e, k')
    ensures forall k' :: HasKey(r, k') <==> HasKey(e, k') || k' == k
    ensures HasKey(e, k) ==> |r| == |e|
    ensures !HasKey(e, k) ==> r == e + [(k, v)]
    ensures DistinctKeys(e) ==> DistinctKeys(r)
    decreases |e|
  {
    if e == [] then [(k, v)]
    else if e[0].0 == k then
      assert ([(k, e[0].1 + v)] + e[1..])[1..] == e[1..];
      [(k, e[0].1 + v)] + e[1..]
    else
      var rest := Add(e[1..], k, v);
      assert ([e[0]] + rest)[1..] == rest;
      assert !HasKey(e, k) ==> [e[0]] + rest == e + [(k, v)] by {
        if !HasKey(e, k) { assert e == [e[0]] + e[1..]; }
      }
      [e[0]] + rest
  }

  /** The values of the dictionary grow by exactly the amount added. */
  lemma {:induction false} AddTotal<K(!new)>(e: Entries<K>, k: K, v: int)
    ensures Sum(EntryValue, Add(e, k, v)) == Sum(EntryValue, e) + v
    decreases |e|
  {
    if e != [] && e[0].0 != k {
      AddTotal(e[1..], k, v);
      assert ([e[0]] + Add(e[1..], k, v))[1..] == Add(e[1..], k, v);
    } else if e != [] {
      assert ([(k, e[0].1 + v)] + e[1..])[1..] == e[1..];
    }
  }

  /** In a list with distinct keys, an entry's value is what lookup gives for its key. */
  lemma {:induction false} LookupEntry<K(!new)>(e: Entries<K>, i: nat)
    requires DistinctKeys(e)
    requires i < |e|
    ensures Lookup(e, e[i].0) == e[i].1
    decreases i
  {
    if i > 0 {
      assert e[1..][i - 1] == e[i];
      HasKeyAt(e[1..], e[0].0);
      LookupEntry(e[1..], i - 1);
    }
  }

  /** The dictionary built by adding each (key, amount) pair in turn. */
  function Tally<K(==,!new)>(ps: seq<(K, int)>): Entries<K>
    decreases |ps|
  {
    if ps == [] then [] else Add(Tally(ps[..|ps| - 1]), ps[|ps| - 1].0, ps[|ps| - 1].1)
  }

  /** Sum of the amounts paired with key k. */
  function AmountFor<K(==,!new)>(ps: seq<(K, int)>, k: K): int
    decreases |ps|
  {
    if ps == [] then 0
    else AmountFor(ps[..|ps| - 1], k) + (if ps[|ps| - 1].0 == k then ps[|ps| - 1].1 else 0)
  }

  /** Some pair carries key k. */
  predicate Mentions<K(==,!new)>(ps: seq<(K, int)>, k: K)
    decreases |ps|
  {
    ps != [] && (Mentions(ps[..|ps| - 1], k) || ps[|ps| - 1].0 == k)
  }

  /**
   * What the grouping computes: one entry per distinct key that occurs,
   * holding the sum of that key's amounts, and the values add up to the
   * sum of all amounts.
   */
  lemma {:induction false} TallyCorrect<K(!new)>(ps: seq<(K, int)>)
    ensures DistinctKeys(Tally(ps))
    ensures forall k :: Lookup(Tally(ps), k) == AmountFor(ps, k)
    ensures forall k :: HasKey(Tally(ps), k) <==> Mentions(ps, k)
    ensures Sum(EntryValue, Tally(ps)) == Sum(EntryValue, ps)
    decreases |ps|
  {
    if ps != [] {
      var init := ps[..|ps| - 1];
      var last := ps[|ps| - 1];
      TallyCorrect(init);
      AddTotal(Tally(init), last.0, last.1);
      assert ps == init + [last];
      SumSnoc(EntryValue, init, last);
    }
  }

  /** When every amount is at least 1, every entry's value is at least 1. */
  lemma {:induction false} TallyPositive<K(!new)>(ps: seq<(K, int)>)
    requires forall i :: 0 <= i < |ps| ==> ps[i].1 >= 1
    ensures forall i :: 0 <= i < |Tally(ps)| ==> Tally(ps)[i].1 >= 1
    decreases |ps|
  {
    if ps != [] {
      var init := ps[..|ps| - 1];
      var last := ps[|ps| - 1];
      TallyPositive(init);
      AddPositive(Tally(init), last.0, last.1);
    }
  }

  lemma {:induction false} AddPositive<K(!new)>(e: Entries<K>, k: K, v: int)
    requires v >= 1
    requires forall i :: 0 <= i < |e| ==> e[i].1 >= 1
    ensures forall i :: 0 <= i < |Add(e, k, v)| ==> Add(e, k, v)[i].1 >= 1
    decreases |e|
  {
    if e != [] && e[0].0 != k {
      AddPositive(e[1..], k, v);
      var r := Add(e, k, v);
      forall i | 0 < i < |r| ensures r[i].1 >= 1 {
        assert r[i] == Add(e[1..], k, v)[i - 1];
      }
    } else if e != [] {
      var r := Add(e, k, v);
      forall i | 0 < i < |r| ensures r[i].1 >= 1 {
        assert r[i] == e[i];
      }
    }
  }

  /** Adding one more pair is one more `Add`: the loop step of the grouping. */
  lemma TallySnoc<K(!new)>(ps: seq<(K, int)>, p: (K, int))
    ensures Tally(ps + [p]) == Add(Tally(ps), p.0, p.1)
  {
    assert (ps + [p])[..|ps|] == ps;
  }

  /** Mentions, index-wise. */
  lemma {:induction false} MentionsAt<K(!new)>(ps: seq<(K, int)>, k: K)
    ensures Mentions(ps, k) <==> exists i :: 0 <= i < |ps| && ps[i].0 == k
    decreases |ps|
  {
    if ps != [] {
      var init := ps[..|ps| - 1];
      MentionsAt(init, k);
      if Mentions(init, k) {
        var i :| 0 <= i < |init| && init[i].0 == k;
        assert ps[i] == init[i];
      }
      if exists i :: 0 <= i < |ps| && ps[i].0 == k {
        var i :| 0 <= i < |ps| && ps[i].0 == k;
        if i < |ps| - 1 { assert init[i] == ps[i]; }
      }
    }
  }
}
