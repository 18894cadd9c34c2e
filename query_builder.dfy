/**
 * `DynamoDb\QueryBuilder`: the request map built for the low-level client,
 * with the two expression-table setters, the magic `setXxx(...)` setters,
 * and `prepare()`, which finalizes the request before it is sent.
 */
module QueryBuilder {
  import opened Wrappers
  import opened OrderedMap
  import opened Php
  import Raw = RawDynamoDbQuery

  /** The exception `__call` throws for a method that is not a setter. */
  datatype BadMethodCallException = BadMethodCallException(message: string)

  /** `static::class` in the exception message. */
  const CLASS_NAME: string := "Rennokki\\DynamoDb\\DynamoDb\\QueryBuilder"

  /** The template of that message. */
  const BAD_METHOD: string := "Method %s::%s does not exist."

  /** `current($parameters)`: the first argument, or `false` when there is none. */
  function Current(parameters: seq<Value>): (r: Value)
    ensures parameters == [] ==> r == Bool(false)
    ensures parameters != [] ==> r == parameters[0]
  {
    if parameters == [] then Bool(false) else parameters[0]
  }

  /** `sep` occurs in `s` at position `j`. */
  predicate OccursAt(s: string, sep: string, j: nat) {
    j + |sep| <= |s| && s[j..j + |sep|] == sep
  }

  /** The position of the first occurrence of `sep` in `s` at or after `i`. */
  function IndexFrom(s: string, sep: string, i: nat): (r: Option<nat>)
    ensures r.Some? ==> i <= r.value && OccursAt(s, sep, r.value)
    ensures forall j | i <= j && (r.None? || j < r.value) :: !OccursAt(s, sep, j)
    decreases |s| - i
  {
    if i + |sep| > |s| then None
    else if OccursAt(s, sep, i) then Some(i)
    else IndexFrom(s, sep, i + 1)
  }

  /** `explode($sep, $s, 2)`: split at the first occurrence of `sep`, or `[$s]` when there is none. */
  function ExplodeOnce(sep: string, s: string): seq<string>
    requires sep != []
  {
    match IndexFrom(s, sep, 0)
    case None => [s]
    case Some(i) => [s[..i], s[i + |sep|..]]
  }

  /** The entry a magic setter writes: `array_reverse(explode('set', $method, 2))[0]`, the last piece. */
  function SetterKey(name: string): string {
    var parts := ExplodeOnce("set", name);
    parts[|parts| - 1]
  }

  /** The request after `$this->query[$field][$placeholder] = $value`. */
  function SetEntry(query: OrdMap<string, Value>, field: string, placeholder: string, value: Value): OrdMap<string, Value> {
    var table := if field in query.vals && query.vals[field].Arr? then query.vals[field].a else Empty();
    query.Put(field, Arr(table.Put(placeholder, value)))
  }

  /**
   * Entries that `$this->query[$field][…] = …` can write into: a missing
   * entry or `null` becomes a new array; PHP refuses to index into a scalar.
   */
  predicate Writable(query: OrdMap<string, Value>, field: string) {
    field !in query.vals || query.vals[field].Null? || query.vals[field].Arr?
  }

  /** The outcome of `__call($method, $parameters)`: the new request, or the exception. */
  function Dispatch(query: OrdMap<string, Value>, name: string, parameters: seq<Value>): Result<OrdMap<string, Value>, BadMethodCallException> {
    if StartsWith(name, "set") then Success(query.Put(SetterKey(name), Current(parameters)))
    else Failure(BadMethodCallException(Sprintf(BAD_METHOD, [CLASS_NAME, name])))
  }

  // ---------------------------------------------------------------- properties

  /** `explode` with a limit of 2 gives one piece or two, and joining them with `sep` gives the string back. */
  lemma ExplodeOnceJoin(sep: string, s: string)
    requires sep != []
    ensures 1 <= |ExplodeOnce(sep, s)| <= 2
    ensures |ExplodeOnce(sep, s)| == 2 <==> exists j: nat :: OccursAt(s, sep, j)
    ensures Implode(sep, ExplodeOnce(sep, s)) == s
    ensures |ExplodeOnce(sep, s)| == 2 ==>
      var first := ExplodeOnce(sep, s)[0];
      forall j: nat :: !OccursAt(first, sep, j)
  {
    match IndexFrom(s, sep, 0)
    case None =>
    case Some(i) =>
      assert s[i..i + |sep|] == sep;
      assert s[..i] + sep + s[i + |sep|..] == s;
      forall j: nat
        ensures !OccursAt(s[..i], sep, j)
      {
        if OccursAt(s[..i], sep, j) {
          assert s[..i][j..j + |sep|] == s[j..j + |sep|];
          assert OccursAt(s, sep, j);
        }
      }
      assert Implode(sep, [s[..i], s[i + |sep|..]]) == s[..i] + sep + Implode(sep, [s[i + |sep|..]]);
  }

  /** For a method that starts with `set`, the entry written is the rest of the name. */
  lemma SetterKeyOfSetter(name: string)
    requires StartsWith(name, "set")
    ensures SetterKey(name) == name[3..]
  {
    assert OccursAt(name, "set", 0);
  }

  /**
   * The expression-table setters write `value` under `placeholder` in the
   * table at `field`, keep the table's other placeholders, create the table
   * when it was missing or null, and leave every other entry alone.
   */
  lemma SetEntryEffect(query: OrdMap<string, Value>, field: string, placeholder: string, value: Value)
    requires query.Valid() && Writable(query, field)
    ensures var r := SetEntry(query, field, placeholder, value);
      && r.Valid()
      && r.vals.Keys == query.vals.Keys + {field}
      && (forall k | k in query.vals && k != field :: r.vals[k] == query.vals[k])
      && r.vals[field].Arr?
      && r.vals[field].a.vals[placeholder] == value
      && (field in query.vals && query.vals[field].Arr? ==>
            r.vals[field].a.vals == query.vals[field].a.vals[placeholder := value])
      && (field !in query.vals || query.vals[field].Null? ==>
            r.vals[field].a.keys == [placeholder] && r.vals[field].a.vals == map[placeholder := value])
  {
    var table := if field in query.vals && query.vals[field].Arr? then query.vals[field].a else Empty();
    PutValid(query, field, Arr(table.Put(placeholder, value)));
  }

  /** A magic setter writes its first argument (or `false`) under the rest of its name and touches nothing else. */
  lemma DispatchSetter(query: OrdMap<string, Value>, name: string, parameters: seq<Value>)
    requires query.Valid() && StartsWith(name, "set")
    ensures Dispatch(query, name, parameters).Success?
    ensures var r := Dispatch(query, name, parameters).value;
      && r.Valid()
      && r.vals == query.vals[name[3..] := Current(parameters)]
      && (name[3..] in query.vals ==> r.keys == query.keys)
      && (name[3..] !in query.vals ==> r.keys == query.keys + [name[3..]])
  {
    SetterKeyOfSetter(name);
    PutValid(query, name[3..], Current(parameters));
  }

  lemma BadMethodTemplate()
    ensures BAD_METHOD == "Method " + ("%s" + ("::" + ("%s" + " does not exist.")))
    ensures '%' !in "Method " && '%' !in "::" && '%' !in " does not exist."
  {
  }

  /** `<l0>%s<l1>%s<l2>`. */
  lemma RenderPair(template: string, l0: string, l1: string, l2: string, x: string, y: string)
    requires template == l0 + ("%s" + (l1 + ("%s" + l2)))
    requires '%' !in l0 && '%' !in l1 && '%' !in l2
    ensures Sprintf(template, [x, y]) == l0 + x + l1 + y + l2
  {
    Render2(l0, l1, l2, x, y);
    assert l0 + (x + (l1 + (y + l2))) == l0 + x + l1 + y + l2;
  }

  /** The exception message names the class and the method. */
  lemma BadMethodMessage(cls: string, name: string)
    ensures Sprintf(BAD_METHOD, [cls, name]) == "Method " + cls + "::" + name + " does not exist."
  {
    BadMethodTemplate();
    RenderPair(BAD_METHOD, "Method ", "::", " does not exist.", cls, name);
  }

  /** Any other method name is an error naming the class and the method, and the request is not touched. */
  lemma DispatchBadMethod(query: OrdMap<string, Value>, name: string, parameters: seq<Value>)
    requires !StartsWith(name, "set")
    ensures Dispatch(query, name, parameters) ==
      Failure(BadMethodCallException("Method " + CLASS_NAME + "::" + name + " does not exist."))
  {
    BadMethodMessage(CLASS_NAME, name);
  }

  /** `setTableName('Users')` sets the `TableName` entry. */
  lemma DispatchExample()
    ensures Dispatch(Empty(), "setTableName", [Str("Users")]) == Success(Empty().Put("TableName", Str("Users")))
  {
    SetterKeyOfSetter("setTableName");
    assert "setTableName"[3..] == "TableName";
  }

  class QueryBuilder {
    /** The request body sent to DynamoDB. */
    var query: OrdMap<string, Value>

    /** A builder with an empty request. */
    constructor ()
      ensures query == Empty()
    {
      query := Empty();
    }

    /** `hydrate($query)`: replace the whole request. */
    method Hydrate(query: OrdMap<string, Value>)
      modifies this
      ensures this.query == query
    {
      this.query := query;
    }

    /** `setExpressionAttributeName($placeholder, $name)`. */
    method SetExpressionAttributeName(placeholder: string, name: string)
      requires Writable(query, "ExpressionAttributeNames")
      modifies this
      ensures query == SetEntry(old(query), "ExpressionAttributeNames", placeholder, Str(name))
    {
      query := SetEntry(query, "ExpressionAttributeNames", placeholder, Str(name));
    }

    /** `setExpressionAttributeValue($placeholder, $value)`. */
    method SetExpressionAttributeValue(placeholder: string, value: Value)
      requires Writable(query, "ExpressionAttributeValues")
      modifies this
      ensures query == SetEntry(old(query), "ExpressionAttributeValues", placeholder, value)
    {
      query := SetEntry(query, "ExpressionAttributeValues", placeholder, value);
    }

    /**
     * `prepare()`: the request the executable query is built with, the
     * current request finalized; the builder itself is not changed.
     */
    method Prepare() returns (request: OrdMap<string, Value>)
      requires query.Valid()
      ensures request == Raw.Finalized(query)
    {
      var raw := new Raw.RawDynamoDbQuery(Null, query);
      raw.Finalize();
      request := raw.query;
    }

    /** `__call($method, $parameters)`: a `setXxx` call writes entry `Xxx`; any other name throws. */
    method Call(name: string, parameters: seq<Value>) returns (error: Option<BadMethodCallException>)
      modifies this
      ensures Dispatch(old(query), name, parameters).Success? ==>
        error == None && query == Dispatch(old(query), name, parameters).value
      ensures Dispatch(old(query), name, parameters).Failure? ==>
        error == Some(Dispatch(old(query), name, parameters).error) && query == old(query)
    {
      if StartsWith(name, "set") {
        var key := SetterKey(name);
        query := query.Put(key, Current(parameters));
        return None;
      }
      return Some(BadMethodCallException(Sprintf(BAD_METHOD, [CLASS_NAME, name])));
    }
  }
}
