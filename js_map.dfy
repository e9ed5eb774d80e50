/**
 * JavaScript's `Map`: a dictionary that remembers the order in which its keys
 * were first inserted. `set` on a present key replaces the value and keeps
 * the key's place; `set` on a new key appends it.
 */
module JsMap {
  import JsArray

  datatype OrderedMap<K(==, !new), V> = OrderedMap(keys: seq<K>, entries: map<K, V>) {

    /** Every key occurs once in the order, and the order lists exactly the keys of the map. */
    ghost predicate Valid() {
      JsArray.NoDup(keys) && forall k :: k in entries <==> k in keys
    }

    /** `m.has(k)`. */
    predicate Has(k: K): (b: bool)
      ensures Valid() ==> (b <==> k in keys)
    {
      k in entries
    }

    /** `m.get(k)` for a present key. */
    function Get(k: K): V
      requires Has(k)
    {
      entries[k]
    }

    /** `m.set(k, v)`. */
    function Set(k: K, v: V): (m: OrderedMap<K, V>)
      requires Valid()
      ensures m.Valid()
      ensures m.Has(k) && m.Get(k) == v
      ensures forall j :: j != k ==> (m.Has(j) <==> Has(j)) && (Has(j) ==> m.Get(j) == Get(j))
      ensures m.keys == if Has(k) then keys else keys + [k]
    {
      OrderedMap(if k in entries then keys else keys + [k], entries[k := v])
    }

    /** `[...m.values()]`: the values in key insertion order. */
    function Values(): (vs: seq<V>)
      requires Valid()
      ensures |vs| == |keys|
      ensures forall i :: 0 <= i < |keys| ==> vs[i] == Get(keys[i])
    {
      seq(|keys|, i requires 0 <= i < |keys| => entries[keys[i]])
    }
  }

  /** `new Map()`. */
  function Empty<K(==, !new), V>(): (m: OrderedMap<K, V>)
    ensures m.Valid() && m.keys == []
    ensures forall k :: !m.Has(k)
  {
    OrderedMap([], map[])
  }

  /** Setting the same key to the same value twice is the same as setting it once. */
  lemma SetIdempotent<K(!new), V>(m: OrderedMap<K, V>, k: K, v: V)
    requires m.Valid()
    ensures m.Set(k, v).Set(k, v) == m.Set(k, v)
  {
  }

  /**
   * Overwriting a present key changes only that key's value: the key order,
   * and every other value, are as before.
   */
  lemma SetPresentValues<K(!new), V>(m: OrderedMap<K, V>, k: K, v: V)
    requires m.Valid() && m.Has(k)
    ensures |m.Set(k, v).Values()| == |m.Values()|
    ensures forall i :: 0 <= i < |m.keys| ==>
              m.Set(k, v).Values()[i] == if m.keys[i] == k then v else m.Values()[i]
  {
  }

  /** Setting a new key appends its value after all the others. */
  lemma SetAbsentValues<K(!new), V>(m: OrderedMap<K, V>, k: K, v: V)
    requires m.Valid() && !m.Has(k)
    ensures m.Set(k, v).Values() == m.Values() + [v]
  {
  }
}
