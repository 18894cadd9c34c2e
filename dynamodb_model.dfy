/**
 * The key-schema part of `DynamoDbModel`: the primary or composite key
 * names, the key values of a model, `setId`, and the declared secondary
 * indexes the condition analyzer chooses from.
 */
module DynamoDbModel {
  import opened Wrappers
  import opened OrderedMap
  import opened Php
  import opened Index

  /** The key names: the composite key's names when it has any, else the primary key name alone. */
  function KeyNames(primaryKey: string, compositeKey: seq<string>): seq<string> {
    if compositeKey != [] then compositeKey else [primaryKey]
  }

  /** `getAttribute` as a function of the attribute name (a missing attribute reads as null). */
  function AttributeOf(attributes: OrdMap<string, Value>): string -> Value {
    name => attributes.GetOr(name, Null)
  }

  /** The key map `getKeys()` returns. */
  function KeysOf(primaryKey: string, compositeKey: seq<string>, attributes: OrdMap<string, Value>): OrdMap<string, Value> {
    if compositeKey != [] then PutAll(Empty(), compositeKey, AttributeOf(attributes))
    else Empty().Put(primaryKey, attributes.GetOr(primaryKey, Null))
  }

  /** The attributes after `setId($id)`. */
  function WithId(primaryKey: string, attributes: OrdMap<string, Value>, id: Value): OrdMap<string, Value> {
    if !id.Arr? then attributes.Put(primaryKey, id)
    else PutAll(attributes, id.a.keys, AttributeOf(id.a))
  }

  // ---------------------------------------------------------------- properties

  /** There is always at least one key name; the first is the hash key's. */
  lemma KeyNamesShape(primaryKey: string, compositeKey: seq<string>)
    ensures |KeyNames(primaryKey, compositeKey)| >= 1
    ensures compositeKey == [] ==> KeyNames(primaryKey, compositeKey) == [primaryKey]
    ensures compositeKey != [] ==> KeyNames(primaryKey, compositeKey)[0] == compositeKey[0]
  {
  }

  /**
   * `getKeys()` has an entry for exactly the key names, each holding that
   * attribute of the model; with distinct key names it lists them in their
   * declared order.
   */
  lemma KeysOfEntries(primaryKey: string, compositeKey: seq<string>, attributes: OrdMap<string, Value>)
    ensures var r := KeysOf(primaryKey, compositeKey, attributes);
      && r.Valid()
      && (forall k :: k in r.vals <==> k in KeyNames(primaryKey, compositeKey))
      && (forall k | k in r.vals :: r.vals[k] == attributes.GetOr(k, Null))
    ensures (forall i, j | 0 <= i < j < |compositeKey| :: compositeKey[i] != compositeKey[j]) ==>
      KeysOf(primaryKey, compositeKey, attributes).keys == KeyNames(primaryKey, compositeKey)
  {
    if compositeKey != [] {
      PutAllEntries(Empty(), compositeKey, AttributeOf(attributes));
      if forall i, j | 0 <= i < j < |compositeKey| :: compositeKey[i] != compositeKey[j] {
        PutAllOrder(compositeKey, AttributeOf(attributes));
      }
    }
  }

  /**
   * `setId` with a scalar sets the primary key attribute alone; with an
   * array it sets each of its entries, later keys after earlier ones, and
   * leaves every other attribute as it was.
   */
  lemma WithIdEntries(primaryKey: string, attributes: OrdMap<string, Value>, id: Value)
    requires attributes.Valid()
    ensures var r := WithId(primaryKey, attributes, id);
      && r.Valid()
      && attributes.keys <= r.keys
      && (!id.Arr? ==> r.vals == attributes.vals[primaryKey := id])
      && (id.Arr? ==> forall k :: k in r.vals <==> k in attributes.vals || k in id.a.keys)
      && (id.Arr? ==> forall k | k in id.a.keys :: r.vals[k] == id.a.GetOr(k, Null))
      && (id.Arr? ==> forall k | k in attributes.vals && k !in id.a.keys :: r.vals[k] == attributes.vals[k])
  {
    if id.Arr? {
      PutAllEntries(attributes, id.a.keys, AttributeOf(id.a));
    } else {
      PutValid(attributes, primaryKey, id);
    }
  }

  class DynamoDbModel {
    var attributes: OrdMap<string, Value>
    var primaryKey: string
    var compositeKey: seq<string>
    var dynamoDbIndexKeys: OrdMap<string, IndexKeys>

    ghost predicate Valid()
      reads this
    {
      attributes.Valid() && dynamoDbIndexKeys.Valid()
    }

    /** A model without attributes over the given key schema. */
    constructor (primaryKey: string, compositeKey: seq<string>, dynamoDbIndexKeys: OrdMap<string, IndexKeys>)
      requires dynamoDbIndexKeys.Valid()
      ensures Valid() && attributes == Empty()
      ensures this.primaryKey == primaryKey && this.compositeKey == compositeKey
      ensures this.dynamoDbIndexKeys == dynamoDbIndexKeys
    {
      this.attributes := Empty();
      this.primaryKey := primaryKey;
      this.compositeKey := compositeKey;
      this.dynamoDbIndexKeys := dynamoDbIndexKeys;
    }

    function GetAttribute(name: string): Value
      reads this
    {
      attributes.GetOr(name, Null)
    }

    /** `hasCompositeKey()`: exactly when the key names are the composite key's. */
    function HasCompositeKey(): (r: bool)
      reads this
      ensures r <==> KeyNames(primaryKey, compositeKey) == compositeKey
    {
      compositeKey != []
    }

    /** `getKeyName()`: the primary key name, the only key name when there is no composite key. */
    function GetKeyName(): (r: string)
      reads this
      ensures !HasCompositeKey() ==> KeyNames(primaryKey, compositeKey) == [r]
    {
      primaryKey
    }

    /** `getKeyNames()`. */
    function GetKeyNames(): (r: seq<string>)
      reads this
      ensures HasCompositeKey() ==> r == compositeKey
      ensures !HasCompositeKey() ==> r == [GetKeyName()]
    {
      KeyNames(primaryKey, compositeKey)
    }

    /** `getKey()`: the primary key attribute, the only entry of `getKeys()` when there is no composite key. */
    function GetKey(): (r: Value)
      reads this
      ensures !HasCompositeKey() ==> KeysOf(primaryKey, compositeKey, attributes).vals == map[GetKeyName() := r]
    {
      GetAttribute(GetKeyName())
    }

    /** `getKeys()`: one entry per key name, built in a loop for a composite key. */
    method GetKeys() returns (key: OrdMap<string, Value>)
      ensures key == KeysOf(primaryKey, compositeKey, attributes)
    {
      if HasCompositeKey() {
        key := Empty();
        var i := 0;
        while i < |compositeKey|
          invariant 0 <= i <= |compositeKey|
          invariant key == PutAll(Empty(), compositeKey[..i], AttributeOf(attributes))
        {
          assert compositeKey[..i + 1][..i] == compositeKey[..i];
          key := key.Put(compositeKey[i], GetAttribute(compositeKey[i]));
          i := i + 1;
        }
        assert compositeKey[..i] == compositeKey;
        return;
      }
      var name := GetKeyName();
      key := Empty().Put(name, GetAttribute(name));
    }

    /** `setId($id)`: a scalar goes to the primary key attribute; an array sets each of its entries. */
    method SetId(id: Value)
      requires Valid()
      modifies this
      ensures Valid()
      ensures attributes == WithId(old(primaryKey), old(attributes), id)
      ensures primaryKey == old(primaryKey) && compositeKey == old(compositeKey)
      ensures dynamoDbIndexKeys == old(dynamoDbIndexKeys)
    {
      if !id.Arr? {
        PutValid(attributes, GetKeyName(), id);
        attributes := attributes.Put(GetKeyName(), id);
        return;
      }
      ghost var attributes0 := attributes;
      PutAllEntries(attributes0, id.a.keys, AttributeOf(id.a));
      var keys := id.a.keys;
      var i := 0;
      while i < |keys|
        invariant 0 <= i <= |keys|
        invariant attributes == PutAll(attributes0, keys[..i], AttributeOf(id.a))
        invariant primaryKey == old(primaryKey) && compositeKey == old(compositeKey)
        invariant dynamoDbIndexKeys == old(dynamoDbIndexKeys)
      {
        assert keys[..i + 1][..i] == keys[..i];
        attributes := attributes.Put(keys[i], id.a.GetOr(keys[i], Null));
        i := i + 1;
      }
      assert keys[..i] == keys;
    }

    /** `getDynamoDbIndexKeys()`: the declared indexes, each name once and each with its declaration. */
    function GetDynamoDbIndexKeys(): (r: OrdMap<string, IndexKeys>)
      reads this
      ensures Valid() ==> r.Valid()
    {
      dynamoDbIndexKeys
    }

    /** `setDynamoDbIndexKeys($keys)`: what `getDynamoDbIndexKeys()` returns from now on. */
    method SetDynamoDbIndexKeys(keys: OrdMap<string, IndexKeys>)
      requires Valid() && keys.Valid()
      modifies this
      ensures Valid()
      ensures GetDynamoDbIndexKeys() == keys
      ensures attributes == old(attributes) && primaryKey == old(primaryKey) && compositeKey == old(compositeKey)
    {
      dynamoDbIndexKeys := keys;
    }
  }
}
