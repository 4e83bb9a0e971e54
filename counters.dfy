/**
 * Python dicts used as counters (`c[k] = c.get(k, 0) + 1`). A Python dict
 * keeps its keys in insertion order, so a counter is a list of
 * (key, count) entries: bumping a known key updates its entry where it
 * stands, bumping a new key appends an entry.
 */
module Counters {

  type Counter<K> = seq<(K, nat)>

  /** `c.get(k, 0)` */
  function Get<K(==)>(c: Counter<K>, k: K): nat
  {
    if c == [] then 0 else if c[0].0 == k then c[0].1 else Get(c[1..], k)
  }

  /** The keys in insertion order. */
  function KeysOf<K>(c: Counter<K>): (ks: seq<K>)
    ensures |ks| == |c|
    ensures forall i :: 0 <= i < |c| ==> ks[i] == c[i].0
  {
    seq(|c|, i requires 0 <= i < |c| => c[i].0)
  }

  predicate DistinctKeys<K(==)>(c: Counter<K>)
  {
    forall i, j :: 0 <= i < j < |c| ==> c[i].0 != c[j].0
  }

  /** `sum(c.values())` */
  function Total<K>(c: Counter<K>): nat
  {
    if c == [] then 0 else c[0].1 + Total(c[1..])
  }

  /** `c[k] = c.get(k, 0) + 1` */
  function Increment<K(==)>(c: Counter<K>, k: K): Counter<K>
  {
    if c == [] then [(k, 1)]
    else if c[0].0 == k then [(k, c[0].1 + 1)] + c[1..]
    else [c[0]] + Increment(c[1..], k)
  }

  /** Bumping `k` adds one to its count and to the total, and no other count moves. */
  lemma {:induction false} IncrementCounts<K(!new)>(c: Counter<K>, k: K)
    ensures Get(Increment(c, k), k) == Get(c, k) + 1
    ensures forall x :: x != k ==> Get(Increment(c, k), x) == Get(c, x)
    ensures Total(Increment(c, k)) == Total(c) + 1
  {
    var d := Increment(c, k);
    if c == [] {
      assert d[1..] == [];
    } else if c[0].0 == k {
      assert d[1..] == c[1..];
    } else {
      IncrementCounts(c[1..], k);
      assert d[1..] == Increment(c[1..], k);
    }
  }

  /** A known key keeps the key order; a new key is appended at the end. */
  lemma {:induction false} IncrementKeys<K(!new)>(c: Counter<K>, k: K)
    ensures KeysOf(Increment(c, k)) == if k in KeysOf(c) then KeysOf(c) else KeysOf(c) + [k]
  {
    var d := Increment(c, k);
    if c != [] {
      assert KeysOf(c) == [c[0].0] + KeysOf(c[1..]);
      if c[0].0 == k {
        assert KeysOf(d) == [k] + KeysOf(c[1..]);
      } else {
        IncrementKeys(c[1..], k);
        assert KeysOf(d) == [c[0].0] + KeysOf(Increment(c[1..], k));
      }
    }
  }

  /** Bumping keeps distinct keys distinct. */
  lemma IncrementDistinct<K(!new)>(c: Counter<K>, k: K)
    requires DistinctKeys(c)
    ensures DistinctKeys(Increment(c, k))
  {
    var d := Increment(c, k);
    IncrementKeys(c, k);
    forall i, j | 0 <= i < j < |d|
      ensures d[i].0 != d[j].0
    {
      assert d[i].0 == KeysOf(d)[i] && d[j].0 == KeysOf(d)[j];
      if j < |c| {
        assert KeysOf(d)[i] == KeysOf(c)[i] && KeysOf(d)[j] == KeysOf(c)[j];
      } else {
        assert KeysOf(d)[i] == KeysOf(c)[i];
      }
    }
  }

  /**
   * The counter a loop of `Increment`s builds from `vs`, left to right,
   * starting from an empty dict.
   */
  function Tally<K(==)>(vs: seq<K>): Counter<K>
  {
    if vs == [] then [] else Increment(Tally(vs[..|vs| - 1]), vs[|vs| - 1])
  }

  /**
   * The tally counts every value exactly as often as it occurs, has one
   * entry per distinct value, and its counts add up to the number of
   * values.
   */
  lemma {:induction false} TallyCounts<K(!new)>(vs: seq<K>)
    ensures DistinctKeys(Tally(vs))
    ensures Total(Tally(vs)) == |vs|
    ensures forall x :: Get(Tally(vs), x) == multiset(vs)[x]
    ensures forall x :: x in KeysOf(Tally(vs)) <==> x in vs
  {
    if vs != [] {
      var init := vs[..|vs| - 1];
      assert vs == init + [vs[|vs| - 1]];
      TallyCounts(init);
      IncrementCounts(Tally(init), vs[|vs| - 1]);
      IncrementKeys(Tally(init), vs[|vs| - 1]);
      IncrementDistinct(Tally(init), vs[|vs| - 1]);
    }
  }

  lemma TallySnoc<K(!new)>(vs: seq<K>, v: K)
    ensures Tally(vs + [v]) == Increment(Tally(vs), v)
  {
    assert (vs + [v])[..|vs|] == vs;
  }

  /** Bumping a key that only follows other keys updates its entry in place. */
  lemma {:induction false} IncrementLast<K(!new)>(c: Counter<K>, k: K, n: nat)
    requires forall i :: 0 <= i < |c| ==> c[i].0 != k
    ensures Increment(c + [(k, n)], k) == c + [(k, n + 1)]
  {
    if c != [] {
      assert (c + [(k, n)])[1..] == c[1..] + [(k, n)];
      IncrementLast(c[1..], k, n);
      assert c + [(k, n + 1)] == [c[0]] + (c[1..] + [(k, n + 1)]);
    }
  }

  /** Zero counts followed by `k`: `n` at `k`, zero everywhere else. */
  lemma {:induction false} GetAfterZeroes<K>(c: Counter<K>, k: K, n: nat)
    requires forall i :: 0 <= i < |c| ==> c[i].1 == 0 && c[i].0 != k
    ensures forall x :: Get(c + [(k, n)], x) == if x == k then n else 0
  {
    if c != [] {
      assert (c + [(k, n)])[1..] == c[1..] + [(k, n)];
      GetAfterZeroes(c[1..], k, n);
    }
  }

  /** Zero counts followed by `k` with count `n` add up to `n`. */
  lemma {:induction false} TotalAfterZeroes<K>(c: Counter<K>, k: K, n: nat)
    requires forall i :: 0 <= i < |c| ==> c[i].1 == 0
    ensures Total(c + [(k, n)]) == n
  {
    if c != [] {
      assert (c + [(k, n)])[1..] == c[1..] + [(k, n)];
      TotalAfterZeroes(c[1..], k, n);
    }
  }
}
