/** `UpdateExpression`: the `REMOVE` clause over the shared names table. */
module UpdateExpression {
  import opened Php
  import opened Names = ExpressionAttributeNames

  /** The `REMOVE` clause for a names table. */
  function RemoveText(t: Table): string {
    "REMOVE " + Implode(", ", PlaceholderList(t))
  }

  class UpdateExpression {
    const names: ExpressionAttributeNames

    constructor (names: ExpressionAttributeNames)
      ensures this.names == names
    {
      this.names := names;
    }

    /** `reset()`: clears the shared names table, including what other parsers registered. */
    method Reset()
      modifies names
      ensures names.Valid() && names.Model() == Fresh(old(names.prefix))
    {
      names.Reset();
    }

    /** `remove($attributes)`: every attribute is `set`, then `REMOVE ` and all placeholders of the table. */
    method Remove(attributes: seq<string>) returns (r: string)
      requires names.Valid()
      modifies names
      ensures names.Valid()
      ensures names.Model() == WithNames(old(names.Model()), attributes)
      ensures r == RemoveText(names.Model())
    {
      var i := 0;
      while i < |attributes|
        invariant 0 <= i <= |attributes|
        invariant names.Valid()
        invariant names.Model() == WithNames(old(names.Model()), attributes[..i])
      {
        names.Set(attributes[i]);
        assert attributes[..i + 1] == attributes[..i] + [attributes[i]];
        WithNamesSnoc(old(names.Model()), attributes[..i], attributes[i]);
        i := i + 1;
      }
      assert attributes[..i] == attributes;
      r := "REMOVE " + Implode(", ", names.Placeholders());
    }
  }

  /** Removing nothing from a fresh table gives `REMOVE ` and nothing more. */
  lemma RemoveNothing(prefix: string)
    ensures RemoveText(WithNames(Fresh(prefix), [])) == "REMOVE "
  {
    assert PlaceholderList(Fresh(prefix)) == [];
    assert "REMOVE " + "" == "REMOVE ";
  }

  /** Every removed attribute is in the clause: a simple one as its placeholder, a nested one as written. */
  lemma RemoveListsEvery(t: Table, attributes: seq<string>, attribute: string)
    requires t.mapping.Valid() && attribute in attributes
    ensures var listed := PlaceholderList(WithNames(t, attributes));
      if IsNested(attribute) then attribute in listed else t.prefix + attribute in listed
  {
    var after := WithNames(t, attributes);
    WithNamesRegistersAll(t, attributes);
    WithNamesValid(t, attributes);
    if IsNested(attribute) {
      NestedOfHas(attributes, attribute);
    }
  }
}
