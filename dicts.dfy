/**
 * Python dictionaries as the model sees them: a sequence of key/value pairs
 * in insertion order. Assigning to an existing key keeps its position,
 * assigning to a new key appends it, and `update` assigns pair by pair.
 * Iterating over a dict, and every comprehension built from one, follows
 * this order.
 */
module Dicts {
  import opened Wrappers
  import Seqs

  type Dict<K, V> = seq<(K, V)>

  /** The set of keys of `d`. */
  function Keys<K(==), V>(d: Dict<K, V>): (ks: set<K>)
    ensures forall i :: 0 <= i < |d| ==> d[i].0 in ks
  {
    if d == [] then {} else {d[0].0} + Keys(d[1..])
  }

  /** No key occurs twice: the shape of every real dict. */
  ghost predicate DistinctKeys<K, V>(d: Dict<K, V>) {
    d == [] || (d[0].0 !in Keys(d[1..]) && DistinctKeys(d[1..]))
  }

  /** All pairs that share a key are the same pair. */
  ghost predicate Consistent<K, V>(s: Dict<K, V>) {
    forall p, q :: p in s && q in s && p.0 == q.0 ==> p == q
  }

  /** A key is present exactly when some pair carries it. */
  lemma {:induction false} KeysMembers<K, V>(d: Dict<K, V>, k: K)
    ensures k in Keys(d) <==> exists v :: (k, v) in d
  {
    if d != [] {
      KeysMembers(d[1..], k);
      assert d == [d[0]] + d[1..];
      if k == d[0].0 {
        assert (k, d[0].1) in d;
      }
    }
  }

  /** `d[k] = v`. */
  function Put<K(==), V>(d: Dict<K, V>, k: K, v: V): (r: Dict<K, V>)
    ensures Keys(r) == Keys(d) + {k}
    ensures (k, v) in r
    ensures k !in Keys(d) ==> r == d + [(k, v)]
    ensures k in Keys(d) ==> |r| == |d|
    ensures DistinctKeys(d) ==> DistinctKeys(r)
  {
    if d == [] then [(k, v)]
    else if d[0].0 == k then [(k, v)] + d[1..]
    else [d[0]] + Put(d[1..], k, v)
  }

  /** `d.update(e)`: assign every pair of `e`, in order. */
  function Update<K(==), V>(d: Dict<K, V>, e: Dict<K, V>): (r: Dict<K, V>)
    ensures Keys(r) == Keys(d) + Keys(e)
    ensures DistinctKeys(d) ==> DistinctKeys(r)
    decreases |e|
  {
    if e == [] then d else Update(Put(d, e[0].0, e[0].1), e[1..])
  }

  /** `dict(s)`, or a dict comprehension producing the pairs `s`. */
  function FromPairs<K(==), V>(s: Dict<K, V>): (r: Dict<K, V>)
    ensures Keys(r) == Keys(s) && DistinctKeys(r)
  {
    Update([], s)
  }

  /** `{k: d[k] for k in d if k not in ks}`. */
  function Without<K(==), V>(d: Dict<K, V>, ks: set<K>): (r: Dict<K, V>)
    ensures Keys(r) == Keys(d) - ks
    ensures DistinctKeys(d) ==> DistinctKeys(r)
    ensures Keys(d) !! ks ==> r == d
  {
    if d == [] then []
    else if d[0].0 in ks then Without(d[1..], ks)
    else [d[0]] + Without(d[1..], ks)
  }

  /** `Without` keeps exactly the pairs whose key is not removed. */
  lemma {:induction false} WithoutMembers<K, V>(d: Dict<K, V>, ks: set<K>, p: (K, V))
    ensures p in Without(d, ks) <==> p in d && p.0 !in ks
  {
    if d != [] {
      WithoutMembers(d[1..], ks, p);
      assert d == [d[0]] + d[1..];
    }
  }

  /** `d.get(k)`. */
  function Get<K(==), V>(d: Dict<K, V>, k: K): (r: Option<V>)
    ensures r.Some? <==> k in Keys(d)
    ensures r.Some? ==> (k, r.value) in d
  {
    if d == [] then None
    else if d[0].0 == k then Some(d[0].1)
    else Get(d[1..], k)
  }

  /** On distinct keys, `Get` finds the one pair that carries the key. */
  lemma {:induction false} GetMembers<K, V>(d: Dict<K, V>, k: K, v: V)
    requires DistinctKeys(d)
    ensures Get(d, k) == Some(v) <==> (k, v) in d
  {
    if d != [] {
      assert d == [d[0]] + d[1..];
      KeysMembers(d[1..], k);
      if d[0].0 != k {
        GetMembers(d[1..], k, v);
      }
    }
  }

  /** On distinct keys a pair is present exactly when it is the key's entry. */
  lemma {:induction false} PutMembers<K, V>(d: Dict<K, V>, k: K, v: V, p: (K, V))
    requires DistinctKeys(d)
    ensures p in Put(d, k, v) <==> p == (k, v) || (p in d && p.0 != k)
  {
    if d != [] {
      assert d == [d[0]] + d[1..];
      KeysMembers(d[1..], k);
      if d[0].0 != k {
        PutMembers(d[1..], k, v, p);
      }
    }
  }

  /**
   * `d.update(e)` holds the pairs of `e` and those pairs of `d` whose key
   * `e` does not mention.
   */
  lemma {:induction false} UpdateMembers<K, V>(d: Dict<K, V>, e: Dict<K, V>, p: (K, V))
    requires DistinctKeys(d) && Consistent(e)
    ensures p in Update(d, e) <==> p in e || (p in d && p.0 !in Keys(e))
    decreases |e|
  {
    if e != [] {
      var e0, rest := e[0], e[1..];
      assert e == [e0] + rest;
      var d' := Put(d, e0.0, e0.1);
      UpdateMembers(d', rest, p);
      PutMembers(d, e0.0, e0.1, p);
      if p == e0 && p.0 in Keys(rest) {
        KeysMembers(rest, p.0);
        var v :| (p.0, v) in rest;
        assert (p.0, v) in e;
      }
    }
  }

  /** Pairs of distinct keys that are all new to `d` are simply appended. */
  lemma {:induction false} UpdateFresh<K, V>(d: Dict<K, V>, e: Dict<K, V>)
    requires DistinctKeys(e) && Keys(d) !! Keys(e)
    ensures Update(d, e) == d + e
    decreases |e|
  {
    if e != [] {
      var x, y := d + [e[0]], e[1..];
      FreshHead(d, e);
      UpdateFresh(x, y);
      Seqs.HeadSplit(d, e);
    }
  }

  /** The first pair of `e` is appended to `d`, and the rest of `e` stays new to the result. */
  lemma FreshHead<K, V>(d: Dict<K, V>, e: Dict<K, V>)
    requires e != [] && DistinctKeys(e) && Keys(d) !! Keys(e)
    ensures Put(d, e[0].0, e[0].1) == d + [e[0]]
    ensures DistinctKeys(e[1..]) && Keys(d + [e[0]]) !! Keys(e[1..])
  {
    KeysAppend(d, [e[0]]);
    assert Keys([e[0]]) == {e[0].0};
  }

  /** A dict never holds two different pairs with the same key. */
  lemma {:induction false} DistinctConsistent<K, V>(d: Dict<K, V>)
    requires DistinctKeys(d)
    ensures Consistent(d)
  {
    if d != [] {
      DistinctConsistent(d[1..]);
      assert d == [d[0]] + d[1..];
      KeysMembers(d[1..], d[0].0);
    }
  }

  /** Keys of a concatenation. */
  lemma {:induction false} KeysAppend<K, V>(a: Dict<K, V>, b: Dict<K, V>)
    ensures Keys(a + b) == Keys(a) + Keys(b)
  {
    if a != [] {
      assert (a + b)[1..] == a[1..] + b;
      KeysAppend(a[1..], b);
    } else {
      assert a + b == b;
    }
  }

  /** Assigning one more pair after an update is the update that ends with that pair. */
  lemma {:induction false} UpdateSnoc<K, V>(d: Dict<K, V>, e: Dict<K, V>, p: (K, V))
    ensures Update(d, e + [p]) == Put(Update(d, e), p.0, p.1)
    decreases |e|
  {
    if e == [] {
      assert e + [p] == [p] && [p][1..] == [];
    } else {
      assert (e + [p])[0] == e[0] && (e + [p])[1..] == e[1..] + [p];
      UpdateSnoc(Put(d, e[0].0, e[0].1), e[1..], p);
    }
  }

  /** After `d[k] = v`, looking up `k` finds `v`; every other key finds what it found before. */
  lemma {:induction false} GetPut<K, V>(d: Dict<K, V>, k: K, v: V, k': K)
    ensures Get(Put(d, k, v), k') == if k' == k then Some(v) else Get(d, k')
  {
    if d != [] && d[0].0 != k {
      GetPut(d[1..], k, v, k');
    }
  }

  /** In a dict with distinct keys, two positions holding the same key are the same position. */
  lemma {:induction false} DistinctKeysIndex<K, V>(d: Dict<K, V>, j: nat, k: nat)
    requires DistinctKeys(d) && j < |d| && k < |d| && d[j].0 == d[k].0
    ensures j == k
  {
    if j > 0 && k > 0 {
      DistinctKeysIndex(d[1..], j - 1, k - 1);
    }
  }
}
