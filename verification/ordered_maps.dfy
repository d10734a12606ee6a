/** An insertion-ordered dictionary from names, as a Python `dict[str, V]` behaves: assigning
    to a new key appends it, assigning to an existing key replaces the value in place, and
    iteration follows the order of first insertion. */
module OrderedMaps {

  datatype OrderedMap<V> = OrderedMap(keys: seq<string>, entries: map<string, V>)
  {
    /** The keys are distinct and are exactly the domain of `entries`. */
    ghost predicate Valid() {
      && (forall i, j :: 0 <= i < j < |keys| ==> keys[i] != keys[j])
      && (forall k :: k in entries <==> k in keys)
    }
  }

  function EmptyMap<V>(): (m: OrderedMap<V>)
    ensures m.Valid() && m.keys == [] && m.entries == map[]
  {
    OrderedMap([], map[])
  }

  /** `d[key] = value`. */
  function Put<V>(m: OrderedMap<V>, key: string, value: V): (r: OrderedMap<V>)
    requires m.Valid()
    ensures r.Valid()
    ensures r.entries == m.entries[key := value]
    ensures key in m.entries ==> r.keys == m.keys
    ensures key !in m.entries ==> r.keys == m.keys + [key]
  {
    if key in m.entries then OrderedMap(m.keys, m.entries[key := value])
    else OrderedMap(m.keys + [key], m.entries[key := value])
  }

  /** `d.values()`, in key order. */
  function Values<V>(m: OrderedMap<V>): (vs: seq<V>)
    requires m.Valid()
    ensures |vs| == |m.keys|
    ensures forall i :: 0 <= i < |m.keys| ==> vs[i] == m.entries[m.keys[i]]
  {
    seq(|m.keys|, i requires 0 <= i < |m.keys| => m.entries[m.keys[i]])
  }

  /** The position of a present key. */
  function IndexOf<V>(m: OrderedMap<V>, key: string): (i: nat)
    requires m.Valid() && key in m.entries
    ensures i < |m.keys| && m.keys[i] == key
  {
    IndexIn(m.keys, key)
  }

  function IndexIn(keys: seq<string>, key: string): (i: nat)
    requires key in keys
    ensures i < |keys| && keys[i] == key
  {
    if keys[0] == key then 0 else 1 + IndexIn(keys[1..], key)
  }

  // ---------------------------------------------------------------- properties

  /** Reading a key after writing it gives the written value; other keys are untouched. */
  lemma GetPut<V>(m: OrderedMap<V>, key: string, value: V, other: string)
    requires m.Valid()
    ensures Put(m, key, value).entries[key] == value
    ensures other != key ==> (other in Put(m, key, value).entries <==> other in m.entries)
    ensures other != key && other in m.entries ==> Put(m, key, value).entries[other] == m.entries[other]
  {
  }

  /** A new key is iterated last, after everything that was there. */
  lemma PutNewAppends<V>(m: OrderedMap<V>, key: string, value: V)
    requires m.Valid() && key !in m.entries
    ensures Values(Put(m, key, value)) == Values(m) + [value]
  {
    var r := Put(m, key, value);
    assert forall i :: 0 <= i < |m.keys| ==> r.keys[i] == m.keys[i] && m.keys[i] != key;
  }

  /** Overwriting a key keeps its position: only that value changes in the iteration. */
  lemma PutExistingKeepsPosition<V>(m: OrderedMap<V>, key: string, value: V)
    requires m.Valid() && key in m.entries
    ensures Values(Put(m, key, value)) == Values(m)[IndexOf(m, key) := value]
  {
    var i := IndexOf(m, key);
    forall j | 0 <= j < |m.keys| && j != i
      ensures m.keys[j] != key
    {
    }
  }

  /** Writing the same key twice leaves only the second value, in the first write's place. */
  lemma PutPut<V>(m: OrderedMap<V>, key: string, a: V, b: V)
    requires m.Valid()
    ensures Put(Put(m, key, a), key, b) == Put(m, key, b)
  {
  }
}
