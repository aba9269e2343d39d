/** The optional value used wherever the source has a nil value, a None or a missing entry. */
module Options {

  datatype Option<+T> = None | Some(value: T)

  /** The entry of a map, None when the key is absent. */
  function Get<K, V>(m: map<K, V>, k: K): Option<V> {
    if k in m then Some(m[k]) else None
  }

  /** Two maps with the same entry at every key are the same map. */
  lemma SameEntries<K(!new), V>(m: map<K, V>, n: map<K, V>)
    requires forall k :: Get(m, k) == Get(n, k)
    ensures m == n
  {
    forall k
      ensures k in m <==> k in n
      ensures k in m && k in n ==> m[k] == n[k]
    {
      assert Get(m, k) == Get(n, k);
    }
  }
}
