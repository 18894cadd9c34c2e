/**
 * PHP arrays are ordered maps: lookups by key, iteration in insertion order.
 * An `OrdMap` keeps the insertion order in `keys` and the entries in `vals`.
 */
module OrderedMap {

  datatype OrdMap<K(==,!new), V> = OrdMap(keys: seq<K>, vals: map<K, V>) {

    /** The key sequence lists every key of the map exactly once. */
    ghost predicate Valid() {
      && (forall i, j | 0 <= i < j < |keys| :: keys[i] != keys[j])
      && (forall k | k in vals :: k in keys)
      && (forall i | 0 <= i < |keys| :: keys[i] in vals)
    }

    /** `$array[$k] = $v`: overwrite in place, or append a new key at the end. */
    function Put(k: K, v: V): (r: OrdMap<K, V>)
      ensures r.vals == vals[k := v]
      ensures k in vals ==> r.keys == keys
      ensures k !in vals ==> r.keys == keys + [k]
    {
      if k in vals then OrdMap(keys, vals[k := v]) else OrdMap(keys + [k], vals[k := v])
    }

    /** A read that yields `default` for a missing key. */
    function GetOr(k: K, default: V): V {
      if k in vals then vals[k] else default
    }

    /** The values in iteration order (`array_values`). */
    function Values(): (r: seq<V>)
      requires Valid()
      ensures |r| == |keys|
      ensures forall i | 0 <= i < |keys| :: r[i] == vals[keys[i]]
    {
      seq(|keys|, i requires 0 <= i < |keys| => vals[keys[i]])
    }
  }

  /** `Put` keeps every key listed exactly once. */
  lemma PutValid<K(!new), V>(m: OrdMap<K, V>, k: K, v: V)
    requires m.Valid()
    ensures m.Put(k, v).Valid()
  {
  }

  function Empty<K(==,!new), V>(): (r: OrdMap<K, V>)
    ensures r.Valid() && r.keys == [] && r.vals == map[]
  {
    OrdMap([], map[])
  }

  /** The keys of `ks` whose entry satisfies `keep`, in their order. */
  function KeptKeys<K(==,!new), V>(ks: seq<K>, vals: map<K, V>, keep: V -> bool): (r: seq<K>)
    requires forall i | 0 <= i < |ks| :: ks[i] in vals
    ensures forall k :: k in r <==> k in ks && keep(vals[k])
    ensures |r| <= |ks|
    ensures (forall i, j | 0 <= i < j < |ks| :: ks[i] != ks[j]) ==>
              (forall i, j | 0 <= i < j < |r| :: r[i] != r[j])
  {
    if ks == [] then []
    else if keep(vals[ks[0]]) then [ks[0]] + KeptKeys(ks[1..], vals, keep)
    else KeptKeys(ks[1..], vals, keep)
  }

  /** `array_filter($array, $keep)`: the kept entries, with their keys, in their order. */
  function Filter<K(==,!new), V>(m: OrdMap<K, V>, keep: V -> bool): (r: OrdMap<K, V>)
    requires m.Valid()
    ensures r.Valid()
    ensures r.keys == KeptKeys(m.keys, m.vals, keep)
    ensures forall k :: k in r.vals <==> k in m.vals && keep(m.vals[k])
    ensures forall k | k in r.vals :: r.vals[k] == m.vals[k]
  {
    var ks := KeptKeys(m.keys, m.vals, keep);
    assert forall i | 0 <= i < |ks| :: ks[i] in ks;
    OrdMap(ks, map k | k in m.vals && keep(m.vals[k]) :: m.vals[k])
  }

  /** `foreach ($ks as $k) { $m[$k] = f($k); }`. */
  function PutAll<K(==,!new), V>(m: OrdMap<K, V>, ks: seq<K>, f: K -> V): OrdMap<K, V>
    decreases |ks|
  {
    if ks == [] then m else PutAll(m, ks[..|ks| - 1], f).Put(ks[|ks| - 1], f(ks[|ks| - 1]))
  }

  /**
   * After `PutAll`, the keys are the old ones followed by the new ones in
   * first-seen order; each of `ks` maps to `f` of it, every other entry is
   * as before, and every key is still listed exactly once.
   */
  lemma {:induction false} PutAllEntries<K(!new), V>(m: OrdMap<K, V>, ks: seq<K>, f: K -> V)
    requires m.Valid()
    ensures PutAll(m, ks, f).Valid()
    ensures m.keys <= PutAll(m, ks, f).keys
    ensures forall k :: k in PutAll(m, ks, f).vals <==> k in m.vals || k in ks
    ensures forall k | k in ks :: PutAll(m, ks, f).vals[k] == f(k)
    ensures forall k | k in m.vals && k !in ks :: PutAll(m, ks, f).vals[k] == m.vals[k]
    decreases |ks|
  {
    if ks != [] {
      var init := ks[..|ks| - 1];
      PutAllEntries(m, init, f);
      PutValid(PutAll(m, init, f), ks[|ks| - 1], f(ks[|ks| - 1]));
      assert forall k :: k in ks <==> k in init || k == ks[|ks| - 1];
    }
  }

  /** Into an empty map, distinct keys are listed exactly in the order given. */
  lemma {:induction false} PutAllOrder<K(!new), V>(ks: seq<K>, f: K -> V)
    requires forall i, j | 0 <= i < j < |ks| :: ks[i] != ks[j]
    ensures PutAll(Empty(), ks, f).keys == ks
    decreases |ks|
  {
    if ks != [] {
      var init := ks[..|ks| - 1];
      PutAllOrder(init, f);
      PutAllEntries(Empty(), init, f);
      assert ks[|ks| - 1] !in init;
    }
  }

  /** Keys that are all kept are kept as they are. */
  lemma {:induction false} KeptKeysAll<K(!new), V>(ks: seq<K>, vals: map<K, V>, keep: V -> bool)
    requires forall i | 0 <= i < |ks| :: ks[i] in vals && keep(vals[ks[i]])
    ensures KeptKeys(ks, vals, keep) == ks
    decreases |ks|
  {
    if ks != [] {
      KeptKeysAll(ks[1..], vals, keep);
    }
  }

  /** A map whose values all pass the test is its own filtering. */
  lemma FilterAllKept<K(!new), V>(m: OrdMap<K, V>, keep: V -> bool)
    requires m.Valid()
    requires forall k | k in m.vals :: keep(m.vals[k])
    ensures Filter(m, keep) == m
  {
    KeptKeysAll(m.keys, m.vals, keep);
    assert Filter(m, keep).vals == m.vals;
  }

  /** Filtering twice with the same test is filtering once. */
  lemma FilterIdempotent<K(!new), V>(m: OrdMap<K, V>, keep: V -> bool)
    requires m.Valid()
    ensures Filter(Filter(m, keep), keep) == Filter(m, keep)
  {
    FilterAllKept(Filter(m, keep), keep);
  }
}
