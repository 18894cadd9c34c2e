/**
 * `Helper`: `array_first` and `value`. Laravel's `Arr::first`, which the
 * condition analyzer uses, has the same meaning and is modelled by the same
 * functions.
 */
module Helper {
  import opened Wrappers
  import opened OrderedMap

  /** A default value: a plain value, or a closure that `value()` calls. */
  datatype Mixed<V> = Plain(v: V) | Closure(f: () -> V)

  /** `value($value)`: the closure's result for a closure, the value itself otherwise. */
  function Value<V>(value: Mixed<V>): (r: V)
    ensures value.Plain? ==> r == value.v
    ensures value.Closure? ==> r == value.f()
  {
    match value
    case Plain(v) => v
    case Closure(f) => f()
  }

  /** The position, in iteration order, of the first entry that `callback($value, $key)` accepts. */
  function FirstMatch<K(==,!new), V>(keys: seq<K>, vals: map<K, V>, callback: (V, K) -> bool): (r: Option<nat>)
    requires forall i | 0 <= i < |keys| :: keys[i] in vals
    ensures r.Some? ==> r.value < |keys| && callback(vals[keys[r.value]], keys[r.value])
    ensures forall j | 0 <= j < |keys| && (r.None? || j < r.value) :: !callback(vals[keys[j]], keys[j])
  {
    if keys == [] then None
    else if callback(vals[keys[0]], keys[0]) then Some(0)
    else
      match FirstMatch(keys[1..], vals, callback)
      case None => None
      case Some(i) => Some(i + 1)
  }

  /** An accepted position with no accepted position before it is the one `FirstMatch` finds. */
  lemma FirstMatchAt<K(!new), V>(keys: seq<K>, vals: map<K, V>, callback: (V, K) -> bool, i: nat)
    requires forall j | 0 <= j < |keys| :: keys[j] in vals
    requires i < |keys| && callback(vals[keys[i]], keys[i])
    requires forall j | 0 <= j < i :: !callback(vals[keys[j]], keys[j])
    ensures FirstMatch(keys, vals, callback) == Some(i)
  {
    var r := FirstMatch(keys, vals, callback);
    assert r.Some? by {
      assert callback(vals[keys[i]], keys[i]);
    }
  }

  /**
   * `array_first($array, $callback, $default)`: one of the array's values,
   * accepted by the callback when there is one, or else the default.
   */
  function ArrayFirst<K(==,!new), V>(items: OrdMap<K, V>, callback: Option<(V, K) -> bool>, default: Mixed<V>): (r: V)
    requires items.Valid()
    ensures r == Value(default) ||
      exists k | k in items.vals :: r == items.vals[k] && (callback.Some? ==> callback.value(items.vals[k], k))
  {
    match callback
    case None =>
      if items.keys == [] then Value(default) else items.vals[items.keys[0]]
    case Some(accept) =>
      match FirstMatch(items.keys, items.vals, accept)
      case Some(i) => items.vals[items.keys[i]]
      case None => Value(default)
  }

  // ---------------------------------------------------------------- properties

  /** Without a callback: the default for an empty array, the first value otherwise. A plain default is returned as it is. */
  lemma ArrayFirstWithoutCallback<K(!new), V>(items: OrdMap<K, V>, default: Mixed<V>)
    requires items.Valid()
    ensures items.keys == [] ==> ArrayFirst(items, None, default) == Value(default)
    ensures items.keys != [] ==> ArrayFirst(items, None, default) == items.vals[items.keys[0]]
  {
  }

  /**
   * With a callback: the value of the first entry, in iteration order, that
   * the callback accepts, and the default when it accepts none.
   */
  lemma ArrayFirstWithCallback<K(!new), V>(items: OrdMap<K, V>, accept: (V, K) -> bool, default: Mixed<V>)
    requires items.Valid()
    ensures var r := ArrayFirst(items, Some(accept), default);
      (exists i | 0 <= i < |items.keys| :: accept(items.vals[items.keys[i]], items.keys[i])) ==>
        exists i | 0 <= i < |items.keys| ::
          && accept(items.vals[items.keys[i]], items.keys[i])
          && (forall j | 0 <= j < i :: !accept(items.vals[items.keys[j]], items.keys[j]))
          && r == items.vals[items.keys[i]]
    ensures (forall i | 0 <= i < |items.keys| :: !accept(items.vals[items.keys[i]], items.keys[i])) ==>
      ArrayFirst(items, Some(accept), default) == Value(default)
  {
    var m := FirstMatch(items.keys, items.vals, accept);
    if m.Some? {
      var i := m.value;
      assert accept(items.vals[items.keys[i]], items.keys[i]);
    }
  }
}
