/** A Python `dict` as the sequence of its entries in insertion order:
    assigning an existing key replaces its value where it stands, assigning
    a new key appends it; iteration follows the sequence. */
module OrderedDict {
  import opened Wrappers

  type Dict<K, V> = seq<(K, V)>

  function Keys<K, V>(d: Dict<K, V>): (ks: seq<K>)
    ensures |ks| == |d|
  {
    if d == [] then [] else [d[0].0] + Keys(d[1..])
  }

  lemma {:induction false} KeysAt<K, V>(d: Dict<K, V>)
    ensures forall i :: 0 <= i < |d| ==> Keys(d)[i] == d[i].0
  {
    if d != [] {
      KeysAt(d[1..]);
    }
  }

  lemma {:induction false} KeysSnoc<K, V>(d: Dict<K, V>, e: (K, V))
    ensures Keys(d + [e]) == Keys(d) + [e.0]
  {
    KeysAt(d);
    KeysAt(d + [e]);
    assert forall i :: 0 <= i < |d| ==> (d + [e])[i] == d[i];
  }

  predicate DistinctKeys<K(==), V>(d: Dict<K, V>)
  {
    forall i, j :: 0 <= i < j < |d| ==> d[i].0 != d[j].0
  }

  /** `d.get(k)`. */
  function Lookup<K(==), V>(d: Dict<K, V>, k: K): Option<V>
  {
    if d == [] then None
    else if d[0].0 == k then Some(d[0].1)
    else Lookup(d[1..], k)
  }

  /** A key is found exactly when it is one of the keys. */
  lemma {:induction false} LookupKeys<K, V>(d: Dict<K, V>, k: K)
    ensures Lookup(d, k).None? <==> k !in Keys(d)
  {
    if d != [] && d[0].0 != k {
      LookupKeys(d[1..], k);
    }
  }

  /** `d[k] = v`: an existing key keeps its place, a new one goes last. */
  function Put<K(==), V>(d: Dict<K, V>, k: K, v: V): Dict<K, V>
  {
    if d == [] then [(k, v)]
    else if d[0].0 == k then [(k, v)] + d[1..]
    else [d[0]] + Put(d[1..], k, v)
  }

  /** An existing key keeps its place, a new one goes last. */
  lemma {:induction false} PutKeys<K, V>(d: Dict<K, V>, k: K, v: V)
    ensures Keys(Put(d, k, v)) == if k in Keys(d) then Keys(d) else Keys(d) + [k]
  {
    if d != [] {
      if d[0].0 == k {
        assert ([(k, v)] + d[1..])[1..] == d[1..];
      } else {
        var rest := Put(d[1..], k, v);
        PutKeys(d[1..], k, v);
        assert ([d[0]] + rest)[1..] == rest;
      }
    }
  }

  /** After `d[k] = v`, `k` maps to `v` and every other key to what it did. */
  lemma {:induction false} PutLookup<K, V>(d: Dict<K, V>, k: K, v: V, k': K)
    ensures Lookup(Put(d, k, v), k') == if k' == k then Some(v) else Lookup(d, k')
  {
    if d != [] && d[0].0 != k {
      PutLookup(d[1..], k, v, k');
    }
  }

  /** Assignment keeps the keys distinct. */
  lemma {:induction false} PutDistinct<K, V>(d: Dict<K, V>, k: K, v: V)
    requires DistinctKeys(d)
    ensures DistinctKeys(Put(d, k, v))
  {
    var r := Put(d, k, v);
    PutKeys(d, k, v);
    KeysAt(d);
    KeysAt(r);
    assert Keys(r) == if k in Keys(d) then Keys(d) else Keys(d) + [k];
    forall i, j | 0 <= i < j < |r| ensures r[i].0 != r[j].0 {
      assert Keys(r)[i] == r[i].0 && Keys(r)[j] == r[j].0;
      if j == |d| {
        assert k !in Keys(d);
      } else {
        assert Keys(d)[i] == d[i].0 && Keys(d)[j] == d[j].0;
      }
    }
  }

  /** Iteration order: an entry appended after `d` is found only when its
      key is not already in `d`. */
  lemma {:induction false} LookupSnoc<K, V>(d: Dict<K, V>, e: (K, V), k: K)
    ensures Lookup(d + [e], k) ==
      if Lookup(d, k).Some? then Lookup(d, k) else if e.0 == k then Some(e.1) else None
  {
    if d != [] {
      assert (d + [e])[1..] == d[1..] + [e];
      LookupSnoc(d[1..], e, k);
    }
  }

  lemma {:induction false} DistinctSnoc<K, V>(d: Dict<K, V>, e: (K, V))
    requires DistinctKeys(d + [e])
    ensures DistinctKeys(d) && Lookup(d, e.0).None?
  {
    forall i, j | 0 <= i < j < |d| ensures d[i].0 != d[j].0 {
      assert (d + [e])[i] == d[i] && (d + [e])[j] == d[j];
    }
    forall i | 0 <= i < |d| ensures d[i].0 != e.0 {
      assert (d + [e])[i] == d[i] && (d + [e])[|d|] == e;
    }
    LookupKeys(d, e.0);
    KeysAt(d);
  }
}
