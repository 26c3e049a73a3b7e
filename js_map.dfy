/**
 * A JavaScript `Map` with number keys: `set` on a new key appends it to the
 * iteration order, `set` on a present key replaces the value in place, and
 * `values()` iterates in the order in which the keys were first set.
 */
module JsMap {
  import opened Js

  datatype OrderedMap<V> = OrderedMap(keys: seq<nat>, entries: map<nat, V>)

  /** `new Map()` */
  function Empty<V>(): OrderedMap<V>
  {
    OrderedMap([], map[])
  }

  /** Every key is listed once in the iteration order, and only keys that have an entry. */
  ghost predicate Valid<V>(m: OrderedMap<V>)
  {
    && (forall i, j :: 0 <= i < j < |m.keys| ==> m.keys[i] != m.keys[j])
    && (forall k :: k in m.entries <==> k in m.keys)
  }

  /** `m.get(k)`: a negative number is never a key. */
  function Get<V>(m: OrderedMap<V>, k: int): Option<V>
  {
    if k >= 0 && k in m.entries then Some(m.entries[k]) else None
  }

  /** `m.set(k, v)` */
  function Set<V>(m: OrderedMap<V>, k: nat, v: V): OrderedMap<V>
  {
    if k in m.entries then OrderedMap(m.keys, m.entries[k := v])
    else OrderedMap(m.keys + [k], m.entries[k := v])
  }

  /** `Array.from(m.values())` */
  function Values<V>(m: OrderedMap<V>): seq<V>
  {
    ValuesOf(m.keys, m.entries)
  }

  function ValuesOf<V>(keys: seq<nat>, entries: map<nat, V>): seq<V>
    decreases |keys|
  {
    if keys == [] then []
    else
      var k := keys[|keys| - 1];
      ValuesOf(keys[..|keys| - 1], entries) + (if k in entries then [entries[k]] else [])
  }

  /** When every key has an entry, `values()` lists the entries key by key. */
  lemma {:induction false} ValuesAt<V>(keys: seq<nat>, entries: map<nat, V>)
    requires forall k :: k in keys ==> k in entries
    ensures |ValuesOf(keys, entries)| == |keys|
    ensures forall i :: 0 <= i < |keys| ==> ValuesOf(keys, entries)[i] == entries[keys[i]]
    decreases |keys|
  {
    if keys != [] {
      var init := keys[..|keys| - 1];
      assert forall i :: 0 <= i < |init| ==> init[i] == keys[i];
      ValuesAt(init, entries);
    }
  }

  /** The values of a valid map are exactly its entries. */
  lemma ValuesMembers<V>(m: OrderedMap<V>)
    requires Valid(m)
    ensures |Values(m)| == |m.keys|
    ensures forall i :: 0 <= i < |m.keys| ==> Values(m)[i] == m.entries[m.keys[i]]
    ensures forall v :: v in Values(m) <==> v in m.entries.Values
  {
    ValuesAt(m.keys, m.entries);
    forall v | v in m.entries.Values
      ensures v in Values(m)
    {
      var k :| k in m.entries && m.entries[k] == v;
      var i :| 0 <= i < |m.keys| && m.keys[i] == k;
      assert Values(m)[i] == v;
    }
  }

  /** Changing the entry of a key that is not listed does not change the values. */
  lemma {:induction false} ValuesOfUnlisted<V>(keys: seq<nat>, entries: map<nat, V>, k: nat, v: V)
    requires k !in keys
    ensures ValuesOf(keys, entries[k := v]) == ValuesOf(keys, entries)
    decreases |keys|
  {
    if keys != [] {
      var init := keys[..|keys| - 1];
      assert forall x :: x in init ==> x in keys;
      ValuesOfUnlisted(init, entries, k, v);
    }
  }

  /** Setting a new key appends its value at the end of the iteration order. */
  lemma SetNew<V>(m: OrderedMap<V>, k: nat, v: V)
    requires Valid(m) && k !in m.entries
    ensures Valid(Set(m, k, v))
    ensures Set(m, k, v).keys == m.keys + [k]
    ensures Values(Set(m, k, v)) == Values(m) + [v]
  {
    var m' := Set(m, k, v);
    assert m'.keys[..|m'.keys| - 1] == m.keys;
    ValuesOfUnlisted(m.keys, m.entries, k, v);
  }

  /** Setting a present key replaces its value where it stands. */
  lemma SetPresent<V>(m: OrderedMap<V>, k: nat, v: V)
    requires Valid(m) && k in m.entries
    ensures Valid(Set(m, k, v))
    ensures Set(m, k, v).keys == m.keys
    ensures |Values(m)| == |Values(Set(m, k, v))| == |m.keys|
    ensures forall i :: 0 <= i < |m.keys| ==>
      Values(Set(m, k, v))[i] == if m.keys[i] == k then v else Values(m)[i]
  {
    ValuesMembers(m);
    ValuesMembers(Set(m, k, v));
  }
}
