/** Insertion-ordered maps as association lists: the shape of a PHP array.
    Lookups find the first entry with a key; `Put` replaces an existing
    entry in place or appends a new one at the end, as `$a[$k] = $v` does. */
module OrderedMaps {
  import opened Wrappers

  type Assoc<K, V> = seq<(K, V)>

  /** Position of the first entry with key `k`, or -1. */
  function IndexOf<K(==), V>(m: Assoc<K, V>, k: K): (r: int)
    ensures -1 <= r < |m|
    ensures 0 <= r ==> m[r].0 == k && forall j :: 0 <= j < r ==> m[j].0 != k
    ensures r == -1 ==> forall j :: 0 <= j < |m| ==> m[j].0 != k
    decreases |m|
  {
    if |m| == 0 then -1
    else if m[0].0 == k then 0
    else
      var r := IndexOf(m[1..], k);
      if r < 0 then -1 else r + 1
  }

  predicate HasKey<K(==), V>(m: Assoc<K, V>, k: K) {
    IndexOf(m, k) >= 0
  }

  function Lookup<K(==), V>(m: Assoc<K, V>, k: K): (r: Option<V>)
    ensures r.Some? <==> exists j :: 0 <= j < |m| && m[j].0 == k
  {
    var i := IndexOf(m, k);
    if i < 0 then None else Some(m[i].1)
  }

  function KeysOf<K, V>(m: Assoc<K, V>): (ks: seq<K>)
    ensures |ks| == |m|
    ensures forall i :: 0 <= i < |m| ==> ks[i] == m[i].0
  {
    seq(|m|, i requires 0 <= i < |m| => m[i].0)
  }

  /** No key occurs twice: true of every PHP array. */
  ghost predicate UniqueKeys<K, V>(m: Assoc<K, V>) {
    forall i, j :: 0 <= i < j < |m| ==> m[i].0 != m[j].0
  }

  lemma LookupAt<K, V>(m: Assoc<K, V>, i: int)
    requires UniqueKeys(m)
    requires 0 <= i < |m|
    ensures Lookup(m, m[i].0) == Some(m[i].1)
  {
  }

  /** A lookup finds the first entry with the key. */
  lemma LookupFirst<K, V>(m: Assoc<K, V>, i: int, k: K)
    requires 0 <= i < |m| && m[i].0 == k
    requires forall j :: 0 <= j < i ==> m[j].0 != k
    ensures Lookup(m, k) == Some(m[i].1)
  {
    var r := IndexOf(m, k);
    assert !(r < i) && !(i < r);
  }

  /** `$m[$k] = $v`. */
  function Put<K(==,!new), V(!new)>(m: Assoc<K, V>, k: K, v: V): (r: Assoc<K, V>)
    ensures Lookup(r, k) == Some(v)
    ensures forall e :: e in r ==> e in m || e == (k, v)
    ensures forall k' :: k' != k ==> Lookup(r, k') == Lookup(m, k')
    ensures HasKey(m, k) ==> KeysOf(r) == KeysOf(m)
    ensures !HasKey(m, k) ==> r == m + [(k, v)]
    ensures UniqueKeys(m) ==> UniqueKeys(r)
  {
    var i := IndexOf(m, k);
    if i >= 0 then
      var r := m[i := (k, v)];
      assert forall k' :: k' != k ==> IndexOf(r, k') == IndexOf(m, k') by {
        forall k' | k' != k
          ensures IndexOf(r, k') == IndexOf(m, k')
        {
          SameKeysSameIndex(r, m, k', i);
        }
      }
      assert IndexOf(r, k) == i by {
        var x := IndexOf(r, k);
        assert r[i].0 == k;
        assert forall j :: 0 <= j < i ==> r[j] == m[j];
        assert x >= 0 && !(x < i) && !(i < x);
      }
      r
    else
      var r := m + [(k, v)];
      assert forall k' :: k' != k ==> IndexOf(r, k') == IndexOf(m, k') by {
        forall k' | k' != k
          ensures IndexOf(r, k') == IndexOf(m, k')
        {
          ExtendedIndex(m, (k, v), k');
        }
      }
      assert IndexOf(r, k) == |m| by {
        var x := IndexOf(r, k);
        assert r[|m|].0 == k;
        assert x >= 0 && !(x < |m|);
      }
      r
  }

  /** Two lists whose keys agree except at a position holding another key
      find `k'` at the same place. */
  lemma SameKeysSameIndex<K, V>(a: Assoc<K, V>, b: Assoc<K, V>, k': K, i: int)
    requires |a| == |b| && 0 <= i < |a|
    requires a[i].0 != k' && b[i].0 != k'
    requires forall j :: 0 <= j < |a| && j != i ==> a[j] == b[j]
    ensures IndexOf(a, k') == IndexOf(b, k')
  {
    var x, y := IndexOf(a, k'), IndexOf(b, k');
    if x >= 0 && y >= 0 {
      assert !(x < y) && !(y < x);
    }
  }

  lemma ExtendedIndex<K, V>(m: Assoc<K, V>, e: (K, V), k': K)
    requires e.0 != k'
    ensures IndexOf(m + [e], k') == IndexOf(m, k')
  {
    var r := m + [e];
    var x, y := IndexOf(r, k'), IndexOf(m, k');
    if x >= 0 {
      assert x < |m| && r[x] == m[x];
    }
    if y >= 0 {
      assert r[y] == m[y];
    }
  }

  /** `r` is `m` with some entries left out: what is kept keeps its order. */
  predicate IsSubsequence<T(==)>(r: seq<T>, m: seq<T>)
    decreases |m|
  {
    if |r| == 0 then true
    else if |m| == 0 then false
    else (r[0] == m[0] && IsSubsequence(r[1..], m[1..])) || IsSubsequence(r, m[1..])
  }

  /** `unset($m[$k])`: every entry with key `k` is dropped, the rest keep
      their order. */
  function RemoveKey<K(==,!new), V(!new)>(m: Assoc<K, V>, k: K): (r: Assoc<K, V>)
    ensures RemovedFrom(m, k, r)
    decreases |m|
  {
    if |m| == 0 then []
    else
      var rest := RemoveKey(m[1..], k);
      if m[0].0 == k then
        RemovedHead(m, k, rest);
        rest
      else
        RemovedBelowHead(m, k, rest);
        [m[0]] + rest
  }

  /** What `unset($m[$k])` leaves: `k` is gone, every other key reads as
      before, exactly the entries with another key remain, in their order,
      distinct keys stay distinct, and nothing changes when `k` was absent. */
  ghost predicate RemovedFrom<K(!new), V(!new)>(m: Assoc<K, V>, k: K, r: Assoc<K, V>) {
    && !HasKey(r, k)
    && (forall k' :: k' != k ==> Lookup(r, k') == Lookup(m, k'))
    && (forall e :: e in r <==> e in m && e.0 != k)
    && IsSubsequence(r, m)
    && (UniqueKeys(m) ==> UniqueKeys(r))
    && (!HasKey(m, k) ==> r == m)
  }

  lemma RemovedHead<K(!new), V(!new)>(m: Assoc<K, V>, k: K, rest: Assoc<K, V>)
    requires |m| > 0 && m[0].0 == k && RemovedFrom(m[1..], k, rest)
    ensures RemovedFrom(m, k, rest)
  {
    forall k' | k' != k
      ensures Lookup(rest, k') == Lookup(m, k')
    {
      HeadOtherKey(m, k');
    }
    forall e
      ensures e in rest <==> e in m && e.0 != k
    {
      assert e in m <==> e == m[0] || e in m[1..];
    }
    assert UniqueKeys(m) ==> UniqueKeys(m[1..]);
  }

  lemma RemovedBelowHead<K(!new), V(!new)>(m: Assoc<K, V>, k: K, rest: Assoc<K, V>)
    requires |m| > 0 && m[0].0 != k && RemovedFrom(m[1..], k, rest)
    ensures RemovedFrom(m, k, [m[0]] + rest)
  {
    var r := [m[0]] + rest;
    assert r[1..] == rest;
    forall k' | k' != k
      ensures Lookup(r, k') == Lookup(m, k')
    {
      if k' != m[0].0 {
        HeadOtherKey(m, k');
        HeadOtherKey(r, k');
      }
    }
    forall e
      ensures e in r <==> e in m && e.0 != k
    {
      assert e in m <==> e == m[0] || e in m[1..];
    }
    if UniqueKeys(m) {
      assert UniqueKeys(m[1..]);
      forall j | 0 <= j < |rest|
        ensures rest[j].0 != m[0].0
      {
        var e := rest[j];
        assert e in m[1..];
        var t :| 0 <= t < |m[1..]| && m[1..][t] == e;
        assert m[t + 1] == e;
      }
    }
    if !HasKey(m, k) {
      assert !HasKey(m[1..], k);
      assert m == [m[0]] + m[1..];
    }
  }

  /** A lookup of a key other than the head's skips the head. */
  lemma HeadOtherKey<K, V>(m: Assoc<K, V>, k': K)
    requires |m| > 0 && m[0].0 != k'
    ensures Lookup(m, k') == Lookup(m[1..], k')
  {
  }
}
