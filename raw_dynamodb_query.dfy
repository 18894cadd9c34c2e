/**
 * `RawDynamoDbQuery`: an operation name and the request map sent to
 * DynamoDB, with the clean-up `finalize()` applies before sending, and the
 * read-only array view (`[op, query]`) kept for backward compatibility.
 */
module RawDynamoDbQuery {
  import opened OrderedMap
  import opened Php

  /** What `finalize()` keeps: non-empty values, booleans and numbers. */
  predicate Keep(value: Value) {
    !IsEmpty(value) || IsBool(value) || IsNumeric(value)
  }

  /** The request map after `finalize()`. */
  function Finalized(query: OrdMap<string, Value>): (r: OrdMap<string, Value>)
    requires query.Valid()
    ensures r.Valid()
  {
    Filter(query, Keep)
  }

  // ---------------------------------------------------------------- properties

  /**
   * `finalize()` keeps an entry exactly when `Keep` accepts its value; kept
   * entries keep their key, value and relative order.
   */
  lemma FinalizedEntries(query: OrdMap<string, Value>)
    requires query.Valid()
    ensures forall k :: k in Finalized(query).vals <==> k in query.vals && Keep(query.vals[k])
    ensures forall k | k in Finalized(query).vals :: Finalized(query).vals[k] == query.vals[k]
    ensures Finalized(query).keys == KeptKeys(query.keys, query.vals, Keep)
  {
  }

  /** `false`, `0`, `"0"` and a non-blank string survive; `null`, `""` and `[]` are dropped. */
  lemma KeepExamples()
    ensures Keep(Bool(false)) && Keep(Int(0)) && Keep(Str("0")) && Keep(Str("Query"))
    ensures !Keep(Null) && !Keep(Str("")) && !Keep(Arr(Empty()))
  {
    assert IsNumericString("0") by {
      assert SkipWhile("0", 0, IsWhitespace) == 0;
      assert SkipSign("0", 0) == 0;
      assert SkipWhile("0", 1, IsDigit) == 1;
      assert SkipWhile("0", 0, IsDigit) == 1;
      assert SkipWhile("0", 1, IsWhitespace) == 1;
    }
  }

  /** Finalizing a finalized map changes nothing. */
  lemma FinalizeIdempotent(query: OrdMap<string, Value>)
    requires query.Valid()
    ensures Finalized(Finalized(query)) == Finalized(query)
  {
    FilterIdempotent(query, Keep);
  }

  class RawDynamoDbQuery {
    /** 'Scan', 'Query', …; null when built by the query builder. */
    var op: Value
    var query: OrdMap<string, Value>

    constructor (op: Value, query: OrdMap<string, Value>)
      ensures this.op == op && this.query == query
    {
      this.op := op;
      this.query := query;
    }

    /** `finalize()`: the empty entries are dropped in place; `op` stays. */
    method Finalize()
      requires query.Valid()
      modifies this
      ensures query == Finalized(old(query)) && op == old(op)
    {
      query := Filter(query, Keep);
    }

    /** `internal()`: the pair `[op, query]`. */
    function Internal(): (r: seq<Value>)
      reads this
      ensures |r| == 2 && r[0] == op && r[1].Arr? && r[1].a == query
    {
      [op, Arr(query)]
    }

    /** `count()`. */
    function Count(): (r: nat)
      reads this
      ensures r == 2
    {
      |Internal()|
    }

    /** `offsetGet($offset)`: offset 0 is the operation, offset 1 the request map, and reading past the pair gives null. */
    function OffsetGet(offset: int): (r: Value)
      reads this
      ensures offset == 0 ==> r == op
      ensures offset == 1 ==> r == Arr(query)
      ensures offset < 0 || offset >= 2 ==> r == Null
    {
      if 0 <= offset < |Internal()| then Internal()[offset] else Null
    }

    /**
     * `offsetExists($offset)`: `isset`, so it holds exactly where `offsetGet`
     * reads a non-null value: offset 1 always, offset 0 unless the operation is null.
     */
    function OffsetExists(offset: int): (r: bool)
      reads this
      ensures r <==> OffsetGet(offset) != Null
      ensures r <==> offset == 1 || (offset == 0 && op != Null)
    {
      0 <= offset < |Internal()| && Internal()[offset] != Null
    }
  }
}
