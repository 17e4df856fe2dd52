/**
 * Java's `LinkedHashMap` as a sequence of entries in insertion order. `put` on a key that
 * is already present replaces its value where it stands; on a new key it appends an entry.
 */
module LinkedMaps {
  import opened Wrappers

  type Entries<K, V> = seq<(K, V)>

  /** The keys, in iteration order. */
  function Keys<K, V>(m: Entries<K, V>): (ks: seq<K>)
    ensures |ks| == |m|
    ensures forall i :: 0 <= i < |m| ==> ks[i] == m[i].0
  {
    if m == [] then [] else [m[0].0] + Keys(m[1..])
  }

  /** No key occurs twice, which every map built by `Put` satisfies. */
  predicate DistinctKeys<K(==), V>(m: Entries<K, V>) {
    forall i, j :: 0 <= i < |m| && 0 <= j < |m| && i != j ==> m[i].0 != m[j].0
  }

  /** `get`: the value of the first entry with key `k`. */
  function Get<K(==), V>(m: Entries<K, V>, k: K): (r: Option<V>)
    ensures r.None? <==> k !in Keys(m)
    ensures r.Some? ==> (k, r.value) in m
  {
    if m == [] then None
    else if m[0].0 == k then Some(m[0].1)
    else Get(m[1..], k)
  }

  /** `put`. */
  function Put<K(==), V>(m: Entries<K, V>, k: K, v: V): Entries<K, V>
  {
    if m == [] then [(k, v)]
    else if m[0].0 == k then [(k, v)] + m[1..]
    else [m[0]] + Put(m[1..], k, v)
  }

  /** After `put(k, v)`, `k` maps to `v` and every other key keeps its value. */
  lemma {:induction false} PutGet<K, V>(m: Entries<K, V>, k: K, v: V, k2: K)
    ensures Get(Put(m, k, v), k2) == if k2 == k then Some(v) else Get(m, k2)
  {
    if m != [] && m[0].0 != k {
      PutGet(m[1..], k, v, k2);
    }
  }

  /** `put` keeps the position of a key already present and appends a new key at the end. */
  lemma {:induction false} PutKeys<K, V>(m: Entries<K, V>, k: K, v: V)
    ensures Keys(Put(m, k, v)) == if k in Keys(m) then Keys(m) else Keys(m) + [k]
  {
    if m != [] && m[0].0 != k {
      PutKeys(m[1..], k, v);
      assert k in Keys(m) <==> k in Keys(m[1..]);
      if k in Keys(m[1..]) {
        assert Keys(Put(m, k, v)) == [m[0].0] + Keys(m[1..]);
      } else {
        assert Keys(Put(m, k, v)) == [m[0].0] + (Keys(m[1..]) + [k]);
      }
    }
  }

  /** `put` never makes a key occur twice. */
  lemma PutKeepsDistinct<K, V>(m: Entries<K, V>, k: K, v: V)
    requires DistinctKeys(m)
    ensures DistinctKeys(Put(m, k, v))
  {
    PutKeys(m, k, v);
    var r := Put(m, k, v);
    forall i, j | 0 <= i < |r| && 0 <= j < |r| && i != j ensures r[i].0 != r[j].0 {
      assert Keys(r)[i] == r[i].0 && Keys(r)[j] == r[j].0;
      if k !in Keys(m) && (i == |m| || j == |m|) {
        assert Keys(m)[if i == |m| then j else i] != k;
      } else {
        assert Keys(m)[i] == m[i].0 && Keys(m)[j] == m[j].0;
      }
    }
  }

  /** `put` of a key not yet present appends an entry. */
  lemma {:induction false} PutNew<K, V>(m: Entries<K, V>, k: K, v: V)
    requires k !in Keys(m)
    ensures Put(m, k, v) == m + [(k, v)]
  {
    if m != [] {
      assert k !in Keys(m[1..]);
      PutNew(m[1..], k, v);
      assert m == [m[0]] + m[1..];
    }
  }

  /** In a map without repeated keys, `get` finds the value of the one entry with that key. */
  lemma {:induction false} GetEntry<K, V>(m: Entries<K, V>, k: K, v: V)
    requires DistinctKeys(m) && (k, v) in m
    ensures Get(m, k) == Some(v)
  {
    if m[0] != (k, v) {
      assert m[0].0 != k by {
        var j :| 0 <= j < |m| && m[j] == (k, v);
      }
      assert DistinctKeys(m[1..]) by {
        forall i, j | 0 <= i < |m[1..]| && 0 <= j < |m[1..]| && i != j ensures m[1..][i].0 != m[1..][j].0 {
          assert m[1..][i] == m[i + 1] && m[1..][j] == m[j + 1];
        }
      }
      GetEntry(m[1..], k, v);
    }
  }

  /** The map a loop of `put`s builds from an empty map, one `put` per pair, in order. */
  function PutAll<K(==), V>(ps: seq<(K, V)>): Entries<K, V>
  {
    if ps == [] then [] else Put(PutAll(ps[..|ps| - 1]), ps[|ps| - 1].0, ps[|ps| - 1].1)
  }

  /** A key has an entry exactly when some pair had that key. */
  lemma {:induction false} PutAllHasKey<K, V>(ps: seq<(K, V)>, k: K)
    ensures Get(PutAll(ps), k).Some? <==> k in Keys(ps)
  {
    if ps != [] {
      var n := |ps| - 1;
      var prefix := ps[..n];
      PutAllHasKey(prefix, k);
      PutGet(PutAll(prefix), ps[n].0, ps[n].1, k);
      KeysAppend(prefix, ps[n]);
      assert ps == prefix + [ps[n]];
    }
  }

  /** The value of a key is the one of the LAST pair with that key: a later `put` overwrites an earlier one. */
  lemma PutAllLastWins<K, V>(ps: seq<(K, V)>, k: K)
    ensures forall i :: 0 <= i < |ps| && ps[i].0 == k && (forall q :: i < q < |ps| ==> ps[q].0 != k)
                        ==> Get(PutAll(ps), k) == Some(ps[i].1)
  {
    forall i | 0 <= i < |ps| && ps[i].0 == k && (forall q :: i < q < |ps| ==> ps[q].0 != k)
      ensures Get(PutAll(ps), k) == Some(ps[i].1)
    {
      PutAllLastAt(ps, k, i);
    }
  }

  /** `PutAllLastWins` for one pair `i`, by induction on the pairs. */
  lemma {:induction false} PutAllLastAt<K, V>(ps: seq<(K, V)>, k: K, i: nat)
    requires i < |ps| && ps[i].0 == k && (forall q :: i < q < |ps| ==> ps[q].0 != k)
    ensures Get(PutAll(ps), k) == Some(ps[i].1)
  {
    var n := |ps| - 1;
    var prefix := ps[..n];
    assert PutAll(ps) == Put(PutAll(prefix), ps[n].0, ps[n].1);
    PutGet(PutAll(prefix), ps[n].0, ps[n].1, k);
    if i < n {
      LastPairBefore(ps, prefix, k, i);
      PutAllLastAt(prefix, k, i);
    }
  }

  /** A pair that is the last with key `k` and not the final pair is the last with key `k` before the final one. */
  lemma LastPairBefore<K, V>(ps: seq<(K, V)>, prefix: seq<(K, V)>, k: K, i: nat)
    requires i < |ps| - 1 && ps[i].0 == k && (forall q :: i < q < |ps| ==> ps[q].0 != k)
    requires prefix == ps[..|ps| - 1]
    ensures ps[|ps| - 1].0 != k && prefix[i] == ps[i]
    ensures forall q :: i < q < |prefix| ==> prefix[q].0 != k
  {
  }

  /** The keys of `m + [e]` are the keys of `m` followed by `e`'s key. */
  lemma {:induction false} KeysAppend<K, V>(m: Entries<K, V>, e: (K, V))
    ensures Keys(m + [e]) == Keys(m) + [e.0]
  {
    if m != [] {
      assert (m + [e])[1..] == m[1..] + [e];
      KeysAppend(m[1..], e);
    }
  }

  /** Some pair before pair `q` has the key `ks[a]`. */
  predicate KeyBefore<K(==), V>(ks: seq<K>, ps: seq<(K, V)>, a: int, q: int) {
    0 <= a < |ks| && exists p :: 0 <= p < q && p < |ps| && ps[p].0 == ks[a]
  }

  /** Every pair with key `ks[b]` comes after some pair with key `ks[a]`, for `a < b`. */
  predicate InFirstOrder<K(==), V>(ks: seq<K>, ps: seq<(K, V)>) {
    forall a, b, q :: 0 <= a < b < |ks| && 0 <= q < |ps| && ps[q].0 == ks[b] ==> KeyBefore(ks, ps, a, q)
  }

  /** A pair with key `ks[a]` before pair `q`, which has the later key `ks[b]`. */
  lemma InFirstOrderAt<K, V>(ks: seq<K>, ps: seq<(K, V)>, a: nat, b: nat, q: nat) returns (p: nat)
    requires InFirstOrder(ks, ps)
    requires a < b < |ks| && q < |ps| && ps[q].0 == ks[b]
    ensures p < q && ps[p].0 == ks[a]
  {
    assert KeyBefore(ks, ps, a, q);
    p :| 0 <= p < q && p < |ps| && ps[p].0 == ks[a];
  }

  /** A position of a key among the pairs that have it. */
  lemma KeyPosition<K, V>(ps: seq<(K, V)>, k: K) returns (j: nat)
    requires k in Keys(ps)
    ensures j < |ps| && ps[j].0 == k
  {
    var ks := Keys(ps);
    j :| 0 <= j < |ks| && ks[j] == k;
  }

  /** One more pair keeps the keys in first-pair order: a new key goes last, a known one stays put. */
  lemma FirstOrderStep<K, V>(oks: seq<K>, ks: seq<K>, prefix: seq<(K, V)>, e: (K, V), ps: seq<(K, V)>, a: nat, b: nat, q: nat)
    returns (p: nat)
    requires InFirstOrder(oks, prefix) && (forall k :: k in oks <==> k in Keys(prefix))
    requires ks == (if e.0 in oks then oks else oks + [e.0]) && ps == prefix + [e]
    requires a < b < |ks| && q < |ps| && ps[q].0 == ks[b]
    ensures p < q && ps[p].0 == ks[a]
  {
    var n := |prefix|;
    assert a < |oks| && ks[a] == oks[a];
    if b < |oks| {
      assert ks[b] == oks[b];
      var qb: nat := q;
      if q == n {
        qb := KeyPosition(prefix, oks[b]);
      } else {
        assert prefix[q] == ps[q];
      }
      p := InFirstOrderAt(oks, prefix, a, b, qb);
    } else {
      assert ks[b] == e.0 && e.0 !in Keys(prefix);
      assert forall i :: 0 <= i < n ==> ps[i].0 == Keys(prefix)[i];
      p := KeyPosition(prefix, oks[a]);
    }
    assert ps[p] == prefix[p];
  }

  /** Appending a pair to the pairs and its key, when new, to the keys keeps the keys in first-pair order. */
  lemma FirstOrderAppend<K, V>(oks: seq<K>, ks: seq<K>, prefix: seq<(K, V)>, e: (K, V), ps: seq<(K, V)>)
    requires InFirstOrder(oks, prefix) && (forall k :: k in oks <==> k in Keys(prefix))
    requires ks == (if e.0 in oks then oks else oks + [e.0]) && ps == prefix + [e]
    ensures InFirstOrder(ks, ps)
  {
    forall a, b, q | 0 <= a < b < |ks| && 0 <= q < |ps| && ps[q].0 == ks[b]
      ensures KeyBefore(ks, ps, a, q)
    {
      var p := FirstOrderStep(oks, ks, prefix, e, ps, a, b, q);
    }
  }

  /** The built map never has a key twice. */
  lemma {:induction false} PutAllDistinct<K, V>(ps: seq<(K, V)>)
    ensures DistinctKeys(PutAll(ps))
  {
    if ps != [] {
      var n := |ps| - 1;
      PutAllDistinct(ps[..n]);
      PutKeepsDistinct(PutAll(ps[..n]), ps[n].0, ps[n].1);
    }
  }

  /** The keys of the built map are exactly the keys of the pairs. */
  lemma PutAllKeys<K, V>(ps: seq<(K, V)>)
    ensures forall k :: k in Keys(PutAll(ps)) <==> k in Keys(ps)
  {
    forall k ensures k in Keys(PutAll(ps)) <==> k in Keys(ps) {
      PutAllHasKey(ps, k);
    }
  }

  /** The keys of the built map come in the order of their first pair. */
  lemma {:induction false} PutAllOrder<K, V>(ps: seq<(K, V)>)
    ensures InFirstOrder(Keys(PutAll(ps)), ps)
  {
    if ps != [] {
      var n := |ps| - 1;
      var prefix, e := ps[..n], ps[n];
      assert ps == prefix + [e];
      assert PutAll(ps) == Put(PutAll(prefix), e.0, e.1);
      PutAllOrder(prefix);
      PutAllKeys(prefix);
      PutKeys(PutAll(prefix), e.0, e.1);
      FirstOrderAppend(Keys(PutAll(prefix)), Keys(PutAll(ps)), prefix, e, ps);
    }
  }

  /**
   * The keys of the built map are the keys of the pairs, each once, in the order of their
   * FIRST pair: every pair with a later key comes after some pair with each earlier key.
   */
  lemma PutAllFirstOrder<K, V>(ps: seq<(K, V)>)
    ensures DistinctKeys(PutAll(ps))
    ensures forall k :: k in Keys(PutAll(ps)) <==> k in Keys(ps)
    ensures InFirstOrder(Keys(PutAll(ps)), ps)
  {
    PutAllDistinct(ps);
    PutAllKeys(ps);
    PutAllOrder(ps);
  }
}
