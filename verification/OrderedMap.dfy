/** The insertion-ordered `Map` of the sources: overwriting a key keeps its place. */
module OrderedMap {
  import opened Options

  type Entries<K, V> = seq<(K, V)>

  function Keys<K, V>(m: Entries<K, V>): (keys: seq<K>)
    ensures |keys| == |m|
  {
    if m == [] then [] else [m[0].0] + Keys(m[1..])
  }

  function Values<K, V>(m: Entries<K, V>): seq<V> {
    if m == [] then [] else [m[0].1] + Values(m[1..])
  }

  lemma {:induction false} KeysAndValues<K, V>(m: Entries<K, V>, i: nat)
    ensures |Keys(m)| == |Values(m)| == |m|
    ensures i < |m| ==> Keys(m)[i] == m[i].0 && Values(m)[i] == m[i].1
  {
    if m != [] { KeysAndValues(m[1..], if i == 0 then 0 else i - 1); }
  }

  function Get<K(==), V>(m: Entries<K, V>, k: K): Option<V> {
    if m == [] then None else if m[0].0 == k then Some(m[0].1) else Get(m[1..], k)
  }

  function Put<K(==), V>(m: Entries<K, V>, k: K, v: V): Entries<K, V> {
    if m == [] then [(k, v)]
    else if m[0].0 == k then [(k, v)] + m[1..]
    else [m[0]] + Put(m[1..], k, v)
  }

  lemma {:induction false} PutGet<K, V>(m: Entries<K, V>, k: K, v: V, other: K)
    ensures Get(Put(m, k, v), other) == if other == k then Some(v) else Get(m, other)
  {
    if m != [] && m[0].0 != k {
      PutGet(m[1..], k, v, other);
      assert Put(m, k, v)[1..] == Put(m[1..], k, v);
    }
  }

  /** A new key goes last, a known one stays where it is. */
  lemma {:induction false} PutKeys<K, V>(m: Entries<K, V>, k: K, v: V)
    ensures Keys(Put(m, k, v)) == if Get(m, k).Some? then Keys(m) else Keys(m) + [k]
  {
    if m != [] {
      if m[0].0 == k {
        assert Put(m, k, v)[1..] == m[1..];
      } else {
        PutKeys(m[1..], k, v);
        assert Put(m, k, v)[1..] == Put(m[1..], k, v);
      }
    }
  }
}
