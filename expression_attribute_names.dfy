/**
 * The `ExpressionAttributeNames` table: `#name => name` for simple column
 * names, plus a list of nested paths (`a.b`, `list[0]`) that are emitted as
 * they are.
 */
module ExpressionAttributeNames {
  import opened OrderedMap

  /** A path into a map or list attribute: it contains `.`, or both `[` and `]`. */
  predicate IsNested(name: string) {
    '.' in name || ('[' in name && ']' in name)
  }

  /** The table's contents; `prefix` is "#" unless the constructor was given another. */
  datatype Table = Table(prefix: string, mapping: OrdMap<string, string>, nested: seq<string>)

  function Fresh(prefix: string): (t: Table)
    ensures t.mapping.Valid()
  {
    Table(prefix, Empty(), [])
  }

  /** `set($name)`. */
  function WithName(t: Table, name: string): (r: Table)
    ensures r.prefix == t.prefix
  {
    if IsNested(name) then t.(nested := t.nested + [name])
    else t.(mapping := t.mapping.Put(t.prefix + name, name))
  }

  /** `set` applied to each name in turn. */
  function WithNames(t: Table, names: seq<string>): (r: Table)
    ensures r.prefix == t.prefix
    decreases |names|
  {
    if names == [] then t else WithNames(WithName(t, names[0]), names[1..])
  }

  /** `placeholder($name)`. */
  function PlaceholderFor(t: Table, name: string): string {
    if t.prefix + name in t.mapping.vals then t.prefix + name else name
  }

  /** `placeholders()`: the simple placeholders in insertion order, then the nested paths. */
  function PlaceholderList(t: Table): seq<string> {
    t.mapping.keys + t.nested
  }

  // ---------------------------------------------------------------- properties

  /** A nested path goes to the end of the nested list; the mapping is untouched. Repeats accumulate. */
  lemma SetNested(t: Table, name: string)
    requires IsNested(name)
    ensures WithName(t, name).mapping == t.mapping
    ensures WithName(t, name).nested == t.nested + [name]
    ensures |WithName(WithName(t, name), name).nested| == |t.nested| + 2
  {
  }

  /** A simple name maps `prefix + name` to itself; the nested list is untouched; setting it again changes nothing. */
  lemma SetSimple(t: Table, name: string)
    requires !IsNested(name)
    ensures WithName(t, name).mapping.vals == t.mapping.vals[t.prefix + name := name]
    ensures WithName(t, name).nested == t.nested
    ensures WithName(WithName(t, name), name) == WithName(t, name)
  {
  }

  /**
   * After `set`, `placeholder` of a simple name is its `#` placeholder and
   * `get` of that placeholder gives the name back; a nested path that was
   * never registered as a simple name is returned as it is.
   */
  lemma PlaceholderAfterSet(t: Table, name: string)
    ensures !IsNested(name) ==>
      && PlaceholderFor(WithName(t, name), name) == t.prefix + name
      && WithName(t, name).mapping.vals[t.prefix + name] == name
    ensures IsNested(name) && t.prefix + name !in t.mapping.vals ==>
      PlaceholderFor(WithName(t, name), name) == name
  {
  }

  /** Every entry of `placeholders()` is a registered placeholder or a nested path, simple ones first and each once. */
  lemma PlaceholderListShape(t: Table)
    requires t.mapping.Valid()
    ensures forall i | 0 <= i < |PlaceholderList(t)| ::
      if i < |t.mapping.keys| then PlaceholderList(t)[i] in t.mapping.vals
      else PlaceholderList(t)[i] == t.nested[i - |t.mapping.keys|]
    ensures forall i, j | 0 <= i < j < |t.mapping.keys| :: PlaceholderList(t)[i] != PlaceholderList(t)[j]
  {
  }

  /** Every entry of the mapping is `prefix + name => name`. */
  ghost predicate Consistent(t: Table) {
    forall k | k in t.mapping.vals :: k == t.prefix + t.mapping.vals[k]
  }

  lemma WithNameConsistent(t: Table, name: string)
    requires Consistent(t)
    ensures Consistent(WithName(t, name))
  {
  }

  /** In a consistent table, a registered placeholder `prefix + n` always reads back `n`. */
  lemma ConsistentLookup(t: Table, n: string)
    ensures Consistent(t) && t.prefix + n in t.mapping.vals ==> t.mapping.vals[t.prefix + n] == n
  {
    if Consistent(t) && t.prefix + n in t.mapping.vals {
      var v := t.mapping.vals[t.prefix + n];
      assert t.prefix + v == t.prefix + n;
      assert v == (t.prefix + v)[|t.prefix|..] == (t.prefix + n)[|t.prefix|..] == n;
    }
  }

  /**
   * Registering a list of names keeps what was registered, registers every
   * simple name, appends the nested paths in order and keeps the table
   * consistent.
   */
  lemma {:induction false} WithNamesRegistersAll(t: Table, names: seq<string>)
    ensures forall k | k in t.mapping.vals :: k in WithNames(t, names).mapping.vals
    ensures forall n | n in names && !IsNested(n) :: t.prefix + n in WithNames(t, names).mapping.vals
    ensures WithNames(t, names).nested == t.nested + NestedOf(names)
    ensures Consistent(t) ==> Consistent(WithNames(t, names))
    decreases |names|
  {
    if names != [] {
      var t1 := WithName(t, names[0]);
      if Consistent(t) {
        WithNameConsistent(t, names[0]);
      }
      WithNamesRegistersAll(t1, names[1..]);
      assert forall n | n in names :: n == names[0] || n in names[1..];
    }
  }

  /** Registering `a` then `b` is registering `a + b`. */
  lemma {:induction false} WithNamesAppend(t: Table, a: seq<string>, b: seq<string>)
    ensures WithNames(t, a + b) == WithNames(WithNames(t, a), b)
    decreases |a|
  {
    if a != [] {
      assert (a + b)[0] == a[0] && (a + b)[1..] == a[1..] + b;
      WithNamesAppend(WithName(t, a[0]), a[1..], b);
    } else {
      assert a + b == b;
    }
  }

  /** Registering one more name is one more `set`. */
  lemma WithNamesSnoc(t: Table, names: seq<string>, name: string)
    ensures WithNames(t, names + [name]) == WithName(WithNames(t, names), name)
  {
    WithNamesAppend(t, names, [name]);
    assert [name][1..] == [];
  }

  /** Registering more names never removes or reorders a placeholder: the old key list is a prefix of the new one. */
  lemma {:induction false} WithNamesExtends(t: Table, names: seq<string>)
    ensures t.mapping.keys <= WithNames(t, names).mapping.keys
    ensures t.nested <= WithNames(t, names).nested
    decreases |names|
  {
    if names != [] {
      WithNamesExtends(WithName(t, names[0]), names[1..]);
    }
  }

  /** In a consistent table, registering a simple name again changes nothing. */
  lemma WithNamesRepeat(t: Table, names: seq<string>, name: string)
    requires Consistent(t) && !IsNested(name) && name in names
    ensures WithNames(t, names + [name]) == WithNames(t, names)
  {
    var t1 := WithNames(t, names);
    WithNamesRegistersAll(t, names);
    ConsistentLookup(t1, name);
    WithNamesSnoc(t, names, name);
    assert t1.mapping.vals[t1.prefix + name := name] == t1.mapping.vals;
  }

  lemma {:induction false} WithNamesValid(t: Table, names: seq<string>)
    requires t.mapping.Valid()
    ensures WithNames(t, names).mapping.Valid()
    decreases |names|
  {
    if names != [] {
      if !IsNested(names[0]) {
        PutValid(t.mapping, t.prefix + names[0], names[0]);
      }
      WithNamesValid(WithName(t, names[0]), names[1..]);
    }
  }

  /** The nested paths among `names`, in order. */
  function NestedOf(names: seq<string>): seq<string> {
    if names == [] then [] else (if IsNested(names[0]) then [names[0]] else []) + NestedOf(names[1..])
  }

  /** A nested path among the names is among the nested paths registered. */
  lemma {:induction false} NestedOfHas(names: seq<string>, n: string)
    requires n in names && IsNested(n)
    ensures n in NestedOf(names)
    decreases |names|
  {
    if names[0] != n {
      NestedOfHas(names[1..], n);
    }
  }

  /** `reset()` empties both parts, whatever was there. */
  lemma ResetEmpties(t: Table)
    ensures Fresh(t.prefix).mapping.vals == map[]
    ensures PlaceholderList(Fresh(t.prefix)) == []
  {
  }

  class ExpressionAttributeNames {
    var mapping: OrdMap<string, string>
    var nested: seq<string>
    var prefix: string

    ghost predicate Valid()
      reads this
    {
      mapping.Valid()
    }

    function Model(): Table
      reads this
    {
      Table(prefix, mapping, nested)
    }

    constructor (prefix: string)
      ensures Valid() && Model() == Fresh(prefix)
    {
      this.mapping := Empty();
      this.nested := [];
      this.prefix := prefix;
    }

    method Set(name: string)
      requires Valid()
      modifies this
      ensures Valid() && Model() == WithName(old(Model()), name)
    {
      if IsNested(name) {
        nested := nested + [name];
        return;
      }
      PutValid(mapping, prefix + name, name);
      mapping := mapping.Put(prefix + name, name);
    }

    /**
     * `get($placeholder)` needs a registered placeholder (PHP would read an
     * undefined index). It is one of `placeholders()`, and in a consistent
     * table `placeholder` of the name it gives is that placeholder again.
     */
    function Get(placeholder: string): (name: string)
      requires placeholder in mapping.vals
      reads this
      ensures Valid() ==> placeholder in Placeholders()
      ensures Consistent(Model()) ==> Placeholder(name) == placeholder
    {
      mapping.vals[placeholder]
    }

    /**
     * `placeholder($name)`: the registered key `prefix + name`, which in a
     * consistent table maps back to the name, or else the name itself.
     */
    function Placeholder(name: string): (r: string)
      reads this
      ensures prefix + name in mapping.vals ==> r == prefix + name && (Consistent(Model()) ==> mapping.vals[r] == name)
      ensures prefix + name !in mapping.vals ==> r == name
    {
      ConsistentLookup(Model(), name);
      PlaceholderFor(Model(), name)
    }

    /** `all()`: the simple names' table, whose keys come first in `placeholders()`, each `prefix + name => name` when consistent. */
    function All(): (r: OrdMap<string, string>)
      reads this
      ensures Valid() ==> r.Valid()
      ensures |r.keys| <= |Placeholders()| && r.keys == Placeholders()[..|r.keys|]
      ensures Consistent(Model()) ==> forall k | k in r.vals :: k == prefix + r.vals[k]
    {
      mapping
    }

    /** `placeholders()`: every registered key and every nested path, and nothing else. */
    function Placeholders(): (r: seq<string>)
      reads this
      ensures |r| == |mapping.keys| + |nested|
      ensures Valid() ==> forall p :: p in r <==> p in mapping.vals || p in nested
    {
      PlaceholderList(Model())
    }

    method Reset()
      modifies this
      ensures Valid() && Model() == Fresh(old(prefix))
    {
      mapping := Empty();
      nested := [];
    }
  }
}
