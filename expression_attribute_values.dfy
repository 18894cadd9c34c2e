/** The `ExpressionAttributeValues` table: `:placeholder => marshaled value`. */
module ExpressionAttributeValues {
  import opened OrderedMap
  import opened Marshaler

  /** The table's contents; `prefix` is ":" unless the constructor was given another. */
  datatype Table = Table(prefix: string, mapping: OrdMap<string, Marshaled>)

  function Fresh(prefix: string): (t: Table)
    ensures t.mapping.Valid()
  {
    Table(prefix, Empty())
  }

  /** `set($placeholder, $value)`: the key is the prefixed placeholder. */
  function WithValue(t: Table, placeholder: string, value: Marshaled): (r: Table)
    ensures r.prefix == t.prefix
  {
    t.(mapping := t.mapping.Put(t.prefix + placeholder, value))
  }

  // ---------------------------------------------------------------- properties

  /**
   * `set` binds the prefixed key and leaves every other key alone; `get`
   * takes the prefixed key; re-setting overwrites in place.
   */
  lemma SetThenGet(t: Table, placeholder: string, value: Marshaled, other: string)
    ensures WithValue(t, placeholder, value).mapping.vals[t.prefix + placeholder] == value
    ensures other != t.prefix + placeholder ==>
      (other in WithValue(t, placeholder, value).mapping.vals <==> other in t.mapping.vals) &&
      (other in t.mapping.vals ==> WithValue(t, placeholder, value).mapping.vals[other] == t.mapping.vals[other])
  {
  }

  /** Setting a placeholder that is already bound keeps the key count and the key order. */
  lemma SetOverwritesInPlace(t: Table, placeholder: string, v1: Marshaled, v2: Marshaled)
    ensures var t1 := WithValue(t, placeholder, v1);
      WithValue(t1, placeholder, v2).mapping.keys == t1.mapping.keys &&
      WithValue(t1, placeholder, v2).mapping.vals[t.prefix + placeholder] == v2
  {
  }

  class ExpressionAttributeValues {
    var mapping: OrdMap<string, Marshaled>
    var prefix: string

    ghost predicate Valid()
      reads this
    {
      mapping.Valid()
    }

    function Model(): Table
      reads this
    {
      Table(prefix, mapping)
    }

    /** A new table is empty (the constructor calls `reset()`). */
    constructor (prefix: string)
      ensures Valid() && Model() == Fresh(prefix)
    {
      this.mapping := Empty();
      this.prefix := prefix;
    }

    method Set(placeholder: string, value: Marshaled)
      requires Valid()
      modifies this
      ensures Valid() && Model() == WithValue(old(Model()), placeholder, value)
    {
      PutValid(mapping, prefix + placeholder, value);
      mapping := mapping.Put(prefix + placeholder, value);
    }

    /**
     * `get($placeholder)` takes the prefixed key and needs it bound (PHP would
     * read an undefined index): the key is one of `placeholders()` and the
     * value is its entry in `all()`.
     */
    function Get(placeholder: string): (r: Marshaled)
      requires placeholder in mapping.vals
      reads this
      ensures Valid() ==> placeholder in Placeholders()
      ensures placeholder in All().vals && All().vals[placeholder] == r
    {
      mapping.vals[placeholder]
    }

    /** `all()`: a well-formed table whose keys, in order, are `placeholders()`. */
    function All(): (r: OrdMap<string, Marshaled>)
      reads this
      ensures Valid() ==> r.Valid()
      ensures r.keys == Placeholders()
    {
      mapping
    }

    /** `placeholders()`: the prefixed keys in insertion order, each bound key once. */
    function Placeholders(): (r: seq<string>)
      reads this
      ensures Valid() ==> forall i, j | 0 <= i < j < |r| :: r[i] != r[j]
      ensures Valid() ==> forall p :: p in r <==> p in mapping.vals
    {
      mapping.keys
    }

    method Reset()
      modifies this
      ensures Valid() && Model() == Fresh(old(prefix))
    {
      mapping := Empty();
    }
  }
}
