/**
 * Ruby's Hash: a finite map that also remembers the order in which keys were
 * first inserted. Assigning to a key that is already present changes its
 * value and keeps its position; a new key goes last.
 */
module OrderedMaps {

  datatype OrderedMap<K, V> = OrderedMap(keys: seq<K>, entries: map<K, V>) {

    /** The key list and the map hold the same keys, each listed once. */
    ghost predicate Valid() {
      && (forall k :: k in entries ==> k in keys)
      && (forall i :: 0 <= i < |keys| ==> keys[i] in entries)
      && (forall i, j :: 0 <= i < j < |keys| ==> keys[i] != keys[j])
    }

    /** `h[k] = v` */
    function Put(k: K, v: V): (r: OrderedMap<K, V>)
      ensures k in r.entries && r.entries[k] == v
      ensures r.entries.Keys == entries.Keys + {k}
      ensures forall k' :: k' != k && k' in entries ==> r.entries[k'] == entries[k']
      ensures k in entries ==> r.keys == keys
      ensures k !in entries ==> r.keys == keys + [k]
    {
      if k in entries then OrderedMap(keys, entries[k := v])
      else OrderedMap(keys + [k], entries[k := v])
    }
  }

  /** `{}` */
  function Empty<K, V>(): (r: OrderedMap<K, V>)
    ensures r.Valid() && r.keys == [] && r.entries == map[]
  {
    OrderedMap([], map[])
  }

  /** Assigning to a key keeps the map well formed. */
  lemma {:induction false} PutValid<K, V>(m: OrderedMap<K, V>, k: K, v: V)
    requires m.Valid()
    ensures m.Put(k, v).Valid()
  {
  }

  /** A second assignment to the same key overrides the first and leaves the key where it was. */
  lemma {:induction false} PutPut<K, V>(m: OrderedMap<K, V>, k: K, a: V, b: V)
    ensures m.Put(k, a).Put(k, b) == m.Put(k, b)
  {
  }
}
