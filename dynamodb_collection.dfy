/**
 * `DynamoDbCollection`: a page of query results that remembers the index the
 * query used, so that `lastKey()` can build the cursor (`ExclusiveStartKey`)
 * the next page starts after.
 */
module DynamoDbCollection {
  import opened Wrappers
  import opened OrderedMap
  import opened Php
  import Idx = Index
  import M = DynamoDbModel

  /** The index columns `lastKey()` adds to the cursor: none without an index. */
  function IndexColumns(index: Option<Idx.Index>): seq<string> {
    if index.Some? then index.value.Columns() else []
  }

  /** The cursor built from the last item's keys, with each index column set to that item's attribute. */
  function CursorOf(keys: OrdMap<string, Value>, attributes: OrdMap<string, Value>, index: Option<Idx.Index>): OrdMap<string, Value> {
    PutAll(keys, IndexColumns(index), M.AttributeOf(attributes))
  }

  // ---------------------------------------------------------------- properties

  /**
   * The cursor of an item holds exactly its key names and the index's
   * columns, each with the item's attribute, its key entries first and in
   * their order; without an index it is the item's `getKeys()`.
   */
  lemma CursorEntries(primaryKey: string, compositeKey: seq<string>, attributes: OrdMap<string, Value>, index: Option<Idx.Index>)
    ensures var keys := M.KeysOf(primaryKey, compositeKey, attributes);
      var r := CursorOf(keys, attributes, index);
      && r.Valid()
      && keys.keys <= r.keys
      && (forall k :: k in r.vals <==> k in M.KeyNames(primaryKey, compositeKey) || k in IndexColumns(index))
      && (forall k | k in r.vals :: r.vals[k] == attributes.GetOr(k, Null))
    ensures index.None? ==>
      CursorOf(M.KeysOf(primaryKey, compositeKey, attributes), attributes, index) == M.KeysOf(primaryKey, compositeKey, attributes)
  {
    var keys := M.KeysOf(primaryKey, compositeKey, attributes);
    M.KeysOfEntries(primaryKey, compositeKey, attributes);
    PutAllEntries(keys, IndexColumns(index), M.AttributeOf(attributes));
  }

  class DynamoDbCollection {
    const items: seq<M.DynamoDbModel>
    /** The index the query that produced this page used, if any. */
    const conditionIndex: Option<Idx.Index>

    constructor (items: seq<M.DynamoDbModel>, conditionIndex: Option<Idx.Index>)
      ensures this.items == items && this.conditionIndex == conditionIndex
    {
      this.items := items;
      this.conditionIndex := conditionIndex;
    }

    /** `lastKey()`: null for an empty page, else the last item's keys plus the index columns. */
    method LastKey() returns (r: Option<OrdMap<string, Value>>)
      ensures items == [] ==> r == None
      ensures items != [] ==>
        var after := items[|items| - 1];
        r == Some(CursorOf(M.KeysOf(after.primaryKey, after.compositeKey, after.attributes), after.attributes, conditionIndex))
    {
      if items == [] {
        return None;
      }
      var after := items[|items| - 1];
      var afterKey := after.GetKeys();
      ghost var keys0 := afterKey;
      var attributes := IndexColumns(conditionIndex);
      var i := 0;
      while i < |attributes|
        invariant 0 <= i <= |attributes|
        invariant afterKey == PutAll(keys0, attributes[..i], M.AttributeOf(after.attributes))
      {
        assert attributes[..i + 1][..i] == attributes[..i];
        afterKey := afterKey.Put(attributes[i], after.GetAttribute(attributes[i]));
        i := i + 1;
      }
      assert attributes[..i] == attributes;
      return Some(afterKey);
    }
  }
}
