/**
 * `ProjectionExpression`: registers the selected columns in the shared names
 * table and lists every placeholder of that table.
 */
module ProjectionExpression {
  import opened Php
  import opened Names = ExpressionAttributeNames

  /** The projection text for a names table: `placeholders()` joined with ", ". */
  function ProjectionText(t: Table): string {
    Implode(", ", PlaceholderList(t))
  }

  class ProjectionExpression {
    const names: ExpressionAttributeNames

    constructor (names: ExpressionAttributeNames)
      ensures this.names == names
    {
      this.names := names;
    }

    /** `parse($columns)`: every column is `set`, then all placeholders of the table are listed. */
    method Parse(columns: seq<string>) returns (r: string)
      requires names.Valid()
      modifies names
      ensures names.Valid()
      ensures names.Model() == WithNames(old(names.Model()), columns)
      ensures r == ProjectionText(names.Model())
    {
      var i := 0;
      while i < |columns|
        invariant 0 <= i <= |columns|
        invariant names.Valid()
        invariant names.Model() == WithNames(old(names.Model()), columns[..i])
      {
        names.Set(columns[i]);
        assert columns[..i + 1] == columns[..i] + [columns[i]];
        WithNamesSnoc(old(names.Model()), columns[..i], columns[i]);
        i := i + 1;
      }
      assert columns[..i] == columns;
      r := Implode(", ", names.Placeholders());
    }
  }

  /**
   * The listed placeholders after `parse`: those registered before come
   * first and in their order, and the nested columns come after all simple
   * ones.
   */
  lemma ProjectionOrder(t: Table, columns: seq<string>)
    requires t.mapping.Valid()
    ensures var after := WithNames(t, columns);
      && t.mapping.keys <= after.mapping.keys
      && PlaceholderList(after) == after.mapping.keys + t.nested + NestedOf(columns)
  {
    WithNamesExtends(t, columns);
    WithNamesRegistersAll(t, columns);
  }

  /** Every simple column is listed as its placeholder, every nested column as itself. */
  lemma ProjectionLists(t: Table, columns: seq<string>)
    requires t.mapping.Valid()
    ensures var after := WithNames(t, columns);
      && (forall n | n in columns && !IsNested(n) :: t.prefix + n in PlaceholderList(after))
      && (forall n | n in columns && IsNested(n) :: n in PlaceholderList(after))
  {
    var after := WithNames(t, columns);
    WithNamesRegistersAll(t, columns);
    WithNamesValid(t, columns);
    forall n | n in columns && !IsNested(n)
      ensures t.prefix + n in PlaceholderList(after)
    {
      assert t.prefix + n in after.mapping.keys;
    }
    forall n | n in columns && IsNested(n)
      ensures n in PlaceholderList(after)
    {
      NestedOfHas(columns, n);
      assert n in after.nested;
    }
  }

  /** Projecting a simple column twice lists it once. */
  lemma ProjectionRepeat(t: Table, columns: seq<string>, column: string)
    requires Consistent(t) && !IsNested(column) && column in columns
    ensures ProjectionText(WithNames(t, columns + [column])) == ProjectionText(WithNames(t, columns))
  {
    WithNamesRepeat(t, columns, column);
  }

  lemma IdNameLiterals()
    ensures "#" + "id" == "#id" && "#" + "name" == "#name"
    ensures "#id" + ", " + "#name" == "#id, #name"
  {
  }

  /** On a fresh table, `['id', 'name']` projects to `#id, #name`. */
  lemma ProjectionExample()
    ensures ProjectionText(WithNames(Fresh("#"), ["id", "name"])) == "#id, #name"
  {
    var t0 := Fresh("#");
    assert !IsNested("id") && !IsNested("name");
    assert ["id", "name"][1..] == ["name"] && ["name"][1..] == [];
    IdNameLiterals();
    var t1 := WithName(t0, "id");
    assert t1.mapping.keys == ["#id"] && t1.mapping.vals == map["#id" := "id"] && t1.nested == [];
    var t2 := WithName(t1, "name");
    assert "#name" != "#id";
    assert t2.mapping.keys == ["#id", "#name"] && t2.nested == [];
    assert PlaceholderList(t2) == ["#id", "#name"];
    assert ["#id", "#name"][1..] == ["#name"];
  }
}
