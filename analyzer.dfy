/**
 * `ConditionAnalyzer\Analyzer`: given a model and its `where` conditions,
 * picks the secondary index a query can use, and splits the conditions into
 * the key conditions (compiled into `KeyConditionExpression`) and the filter
 * conditions (compiled into `FilterExpression`).
 *
 * The functions below state what each analysis answers, on the conditions
 * and the model's key schema; the class `Analyzer` computes the same answers
 * with the source's loops.
 */
module Analyzer {
  import opened Wrappers
  import opened OrderedMap
  import opened Php
  import opened ComparisonOperator
  import opened Conditions
  import Helper
  import Idx = Index
  import M = DynamoDbModel

  /** The `where` conditions as a PHP array: list positions as keys. */
  type Where = OrdMap<nat, Condition>

  /** `$condition['column']`; a group has no column. */
  function ColumnOf(condition: Condition): Option<string> {
    if condition.Atomic? then Some(condition.column) else None
  }

  /** `$condition['type']` when it is an operator; a group's type is 'Nested'. */
  function TypeOf(condition: Condition): Option<Operator> {
    if condition.Atomic? then Some(condition.operator) else None
  }

  /** `in_array($condition['column'], $columns)`. */
  predicate OnColumns(condition: Condition, columns: seq<string>) {
    condition.Atomic? && condition.column in columns
  }

  /** `getCondition($column)`: the first condition on `column` (`Arr::first`), null when there is none. */
  function GetCondition(conditions: Where, column: string): Option<Condition>
    requires conditions.Valid()
  {
    match Helper.FirstMatch(conditions.keys, conditions.vals, (c: Condition, k: nat) => ColumnOf(c) == Some(column))
    case Some(i) => Some(conditions.vals[conditions.keys[i]])
    case None => None
  }

  /** `getConditions($columns)`: the conditions on any of `columns`, with their keys, in their order. */
  function GetConditions(conditions: Where, columns: seq<string>): (r: Where)
    requires conditions.Valid()
    ensures r.Valid()
    ensures forall k | k in r.vals :: k in conditions.vals && r.vals[k] == conditions.vals[k]
  {
    Filter(conditions, (c: Condition) => OnColumns(c, columns))
  }

  /** `isValidQueryDynamoDbOperator($condition['type'], $isRangeKey)`, where a missing condition has no type. */
  predicate Queryable(condition: Option<Condition>, isRangeKey: bool) {
    condition.Some? && condition.value.Atomic? && IsValidQueryDynamoDbOperator(condition.value.operator, isRangeKey)
  }

  /** `hasValidQueryOperator($hash, $range)`. */
  predicate HasValidQueryOperator(conditions: Where, hash: string, range: Option<string>)
    requires conditions.Valid()
  {
    var valid := Queryable(GetCondition(conditions, hash), false);
    if valid && range.Some? && Truthy(range.value) then Queryable(GetCondition(conditions, range.value), true)
    else valid
  }

  /** The second argument of `hasValidQueryOperator(...$keyNames)`. */
  function RangeArgument(keyNames: seq<string>): Option<string> {
    if |keyNames| >= 2 then Some(keyNames[1]) else None
  }

  /** `count(array_intersect($conditionKeys, $keys))`: how many conditions are on one of `keys`. */
  function MatchCount(conditions: Where, keys: seq<string>): nat
    requires conditions.Valid()
  {
    |GetConditions(conditions, keys).keys|
  }

  /** Whether `getIndex()` takes the declared index `name`: as many conditions on its keys as it has keys, and the requested name if any. */
  predicate Candidate(conditions: Where, indexName: Option<string>, name: string, info: Idx.IndexKeys)
    requires conditions.Valid()
  {
    && MatchCount(conditions, info.Values()) == |info.Values()|
    && (indexName.None? || indexName.value == name)
  }

  /** `Candidate` as the callback of the search over the declared indexes. */
  function IsCandidate(conditions: Where, indexName: Option<string>): (Idx.IndexKeys, string) -> bool
    requires conditions.Valid()
  {
    (info: Idx.IndexKeys, name: string) => Candidate(conditions, indexName, name, info)
  }

  /** `getIndex()`: the first candidate index in declaration order, kept only if its key conditions can be queried. */
  function SelectIndex(conditions: Where, indexKeys: OrdMap<string, Idx.IndexKeys>, indexName: Option<string>): Option<Idx.Index>
    requires conditions.Valid() && indexKeys.Valid()
  {
    if conditions.keys == [] then None
    else
      var found := Helper.FirstMatch(indexKeys.keys, indexKeys.vals, IsCandidate(conditions, indexName));
      if found.None? then None
      else
        var name := indexKeys.keys[found.value];
        var index := Idx.FromKeys(name, indexKeys.vals[name]);
        if HasValidQueryOperator(conditions, index.hash.value, index.range) then Some(index) else None
  }

  /** `identifierConditions()`: the conditions on the key names, or null when those cannot be queried. */
  function IdentifiersOf(conditions: Where, keyNames: seq<string>): Option<Where>
    requires conditions.Valid() && |keyNames| >= 1
  {
    if HasValidQueryOperator(conditions, keyNames[0], RangeArgument(keyNames)) then Some(GetConditions(conditions, keyNames))
    else None
  }

  /** `keyConditions()`: the conditions on the chosen index's columns, else the identifier conditions. */
  function KeyConditionsOf(conditions: Where, keyNames: seq<string>, indexKeys: OrdMap<string, Idx.IndexKeys>,
                           indexName: Option<string>): Option<Where>
    requires conditions.Valid() && |keyNames| >= 1 && indexKeys.Valid()
  {
    match SelectIndex(conditions, indexKeys, indexName)
    case Some(index) => Some(GetConditions(conditions, index.Columns()))
    case None => IdentifiersOf(conditions, keyNames)
  }

  /** `filterConditions()` given the key conditions: every condition that is not one of them, keys and order kept. */
  function FilterConditionsOf(conditions: Where, keyConditions: Option<Where>): (r: Where)
    requires conditions.Valid()
    ensures r.Valid()
  {
    var keys := if keyConditions.Some? then keyConditions.value else Empty();
    Filter(conditions, (c: Condition) => c !in keys.vals.Values)
  }

  /** `isExactSearch()`: some conditions, some identifier conditions, and every condition an equality. */
  predicate ExactSearch(conditions: Where, keyNames: seq<string>)
    requires conditions.Valid() && |keyNames| >= 1
  {
    && conditions.keys != []
    && IdentifiersOf(conditions, keyNames).Some?
    && IdentifiersOf(conditions, keyNames).value.keys != []
    && AllEqualities(conditions)
  }

  /** Every condition's type is `EQ`. */
  predicate AllEqualities(conditions: Where) {
    forall k | k in conditions.vals :: TypeOf(conditions.vals[k]) == Some(EQ)
  }

  /** Every listed key has a condition, and none of them is a group. */
  predicate AllAtomic(keys: seq<nat>, vals: map<nat, Condition>) {
    forall i | 0 <= i < |keys| :: keys[i] in vals && vals[keys[i]].Atomic?
  }

  /** `$values[$condition['column']] = $condition['value']` for each condition in turn. */
  function ColumnValues(keys: seq<nat>, vals: map<nat, Condition>): OrdMap<string, Value>
    requires AllAtomic(keys, vals)
    decreases |keys|
  {
    if keys == [] then Empty()
    else
      var condition := vals[keys[|keys| - 1]];
      ColumnValues(keys[..|keys| - 1], vals).Put(condition.column, condition.value)
  }

  /** `identifierConditionValues()`: column => value of the identifier conditions, `[]` when there are none. */
  function IdentifierValuesOf(conditions: Where, keyNames: seq<string>): OrdMap<string, Value>
    requires conditions.Valid() && |keyNames| >= 1
  {
    var identifiers := IdentifiersOf(conditions, keyNames);
    if identifiers.None? || identifiers.value.keys == [] then Empty()
    else
      IdentifiersAtomic(conditions, keyNames);
      ColumnValues(identifiers.value.keys, identifiers.value.vals)
  }

  // ---------------------------------------------------------------- properties

  /** Identifier conditions are conditions on a key name, so none of them is a group. */
  lemma IdentifiersAtomic(conditions: Where, keyNames: seq<string>)
    requires conditions.Valid() && |keyNames| >= 1
    requires IdentifiersOf(conditions, keyNames).Some?
    ensures var r := IdentifiersOf(conditions, keyNames).value;
      AllAtomic(r.keys, r.vals)
  {
  }

  /** One more condition is one more write of its value under its column. */
  lemma ColumnValuesSnoc(keys: seq<nat>, vals: map<nat, Condition>, i: nat)
    requires AllAtomic(keys, vals) && i < |keys|
    ensures AllAtomic(keys[..i], vals) && AllAtomic(keys[..i + 1], vals)
    ensures ColumnValues(keys[..i + 1], vals)
      == ColumnValues(keys[..i], vals).Put(vals[keys[i]].column, vals[keys[i]].value)
  {
    AllAtomicPrefix(keys, vals, i);
    AllAtomicPrefix(keys, vals, i + 1);
    assert keys[..i + 1][..i] == keys[..i];
  }

  /** A prefix of atomic conditions is atomic. */
  lemma AllAtomicPrefix(keys: seq<nat>, vals: map<nat, Condition>, n: nat)
    requires AllAtomic(keys, vals) && n <= |keys|
    ensures AllAtomic(keys[..n], vals)
  {
    assert forall i | 0 <= i < n :: keys[..n][i] == keys[i];
  }

  /** `getCondition` finds the first condition on the column, and null exactly when there is none. */
  lemma GetConditionFirst(conditions: Where, column: string)
    requires conditions.Valid()
    ensures GetCondition(conditions, column).None? <==>
      forall k | k in conditions.vals :: ColumnOf(conditions.vals[k]) != Some(column)
    ensures GetCondition(conditions, column).Some? ==>
      exists i | 0 <= i < |conditions.keys| ::
        && GetCondition(conditions, column).value == conditions.vals[conditions.keys[i]]
        && ColumnOf(conditions.vals[conditions.keys[i]]) == Some(column)
        && forall j | 0 <= j < i :: ColumnOf(conditions.vals[conditions.keys[j]]) != Some(column)
  {
    var accept := (c: Condition, k: nat) => ColumnOf(c) == Some(column);
    var m := Helper.FirstMatch(conditions.keys, conditions.vals, accept);
    if m.Some? {
      var i := m.value;
      assert accept(conditions.vals[conditions.keys[i]], conditions.keys[i]);
    } else {
      forall k | k in conditions.vals
        ensures ColumnOf(conditions.vals[k]) != Some(column)
      {
        var i :| 0 <= i < |conditions.keys| && conditions.keys[i] == k;
        assert !accept(conditions.vals[conditions.keys[i]], conditions.keys[i]);
      }
    }
  }

  /**
   * The key names can be queried exactly when the first condition on the
   * hash key is an equality and, given a truthy range key, the first
   * condition on it is one of the range-key operators. A key without a
   * condition makes the query invalid (its type reads as null).
   */
  lemma HasValidQueryOperatorMeaning(conditions: Where, hash: string, range: Option<string>)
    requires conditions.Valid()
    ensures HasValidQueryOperator(conditions, hash, range) <==>
      && GetCondition(conditions, hash).Some?
      && TypeOf(GetCondition(conditions, hash).value) == Some(EQ)
      && (range.Some? && Truthy(range.value) ==>
            && GetCondition(conditions, range.value).Some?
            && TypeOf(GetCondition(conditions, range.value).value).Some?
            && TypeOf(GetCondition(conditions, range.value).value).value in {EQ, LE, LT, GE, GT, BEGINS_WITH, BETWEEN})
  {
    var h := GetCondition(conditions, hash);
    if h.Some? && h.value.Atomic? {
      HashKeyQueryOperators(h.value.operator);
    }
    if range.Some? {
      var g := GetCondition(conditions, range.value);
      if g.Some? && g.value.Atomic? {
        RangeKeyQueryOperators(g.value.operator);
      }
    }
  }

  /**
   * `getIndex()` with conditions answers the first candidate index in
   * declaration order when its key conditions can be queried, and no index
   * when they cannot.
   */
  lemma SelectIndexFirstCandidate(conditions: Where, indexKeys: OrdMap<string, Idx.IndexKeys>, indexName: Option<string>, i: nat)
    requires conditions.Valid() && indexKeys.Valid() && conditions.keys != []
    requires i < |indexKeys.keys| && Candidate(conditions, indexName, indexKeys.keys[i], indexKeys.vals[indexKeys.keys[i]])
    requires forall j | 0 <= j < i :: !Candidate(conditions, indexName, indexKeys.keys[j], indexKeys.vals[indexKeys.keys[j]])
    ensures var index := Idx.FromKeys(indexKeys.keys[i], indexKeys.vals[indexKeys.keys[i]]);
      SelectIndex(conditions, indexKeys, indexName)
        == if HasValidQueryOperator(conditions, index.hash.value, index.range) then Some(index) else None
  {
    var accept := IsCandidate(conditions, indexName);
    forall j | 0 <= j < i
      ensures !accept(indexKeys.vals[indexKeys.keys[j]], indexKeys.keys[j])
    {
    }
    Helper.FirstMatchAt(indexKeys.keys, indexKeys.vals, accept, i);
  }

  /** Without conditions, or when no declared index is a candidate, `getIndex()` answers no index. */
  lemma SelectIndexNone(conditions: Where, indexKeys: OrdMap<string, Idx.IndexKeys>, indexName: Option<string>)
    requires conditions.Valid() && indexKeys.Valid()
    requires conditions.keys == [] ||
      forall j | 0 <= j < |indexKeys.keys| :: !Candidate(conditions, indexName, indexKeys.keys[j], indexKeys.vals[indexKeys.keys[j]])
    ensures SelectIndex(conditions, indexKeys, indexName) == None
  {
    if conditions.keys != [] {
      var accept := IsCandidate(conditions, indexName);
      var found := Helper.FirstMatch(indexKeys.keys, indexKeys.vals, accept);
      assert found.None?;
    }
  }

  /**
   * The identifier conditions, when the key names can be queried, are
   * exactly the conditions on a key name, with their keys.
   */
  lemma IdentifiersMeaning(conditions: Where, keyNames: seq<string>)
    requires conditions.Valid() && |keyNames| >= 1
    ensures IdentifiersOf(conditions, keyNames).None? <==>
      !HasValidQueryOperator(conditions, keyNames[0], RangeArgument(keyNames))
    ensures IdentifiersOf(conditions, keyNames).Some? ==>
      var r := IdentifiersOf(conditions, keyNames).value;
      forall k :: k in r.vals <==> k in conditions.vals && OnColumns(conditions.vals[k], keyNames)
  {
  }

  /**
   * Key and filter conditions split the conditions: a condition is a filter
   * condition exactly when no key condition is equal to it, so no entry is
   * in both groups, and both groups keep the conditions' keys and order.
   */
  lemma KeyFilterSplit(conditions: Where, keyConditions: Where)
    requires conditions.Valid()
    requires forall k | k in keyConditions.vals :: k in conditions.vals && keyConditions.vals[k] == conditions.vals[k]
    ensures var filter := FilterConditionsOf(conditions, Some(keyConditions));
      && (forall k | k in conditions.vals :: k in filter.vals <==> conditions.vals[k] !in keyConditions.vals.Values)
      && (forall k | k in filter.vals :: filter.vals[k] == conditions.vals[k])
      && (forall k | k in keyConditions.vals :: k !in filter.vals)
  {
    var filter := FilterConditionsOf(conditions, Some(keyConditions));
    forall k | k in keyConditions.vals
      ensures k !in filter.vals
    {
      assert conditions.vals[k] in keyConditions.vals.Values;
    }
  }

  /** Whatever `keyConditions()` answers, its entries are conditions under their own keys, so `KeyFilterSplit` applies. */
  lemma KeyConditionsAreConditions(conditions: Where, keyNames: seq<string>, indexKeys: OrdMap<string, Idx.IndexKeys>,
                                   indexName: Option<string>)
    requires conditions.Valid() && |keyNames| >= 1 && indexKeys.Valid()
    ensures var r := KeyConditionsOf(conditions, keyNames, indexKeys, indexName);
      r.Some? ==> forall k | k in r.value.vals :: k in conditions.vals && r.value.vals[k] == conditions.vals[k]
  {
  }

  /** An exact search has conditions, every one an equality, and at least one of them on a key name. */
  lemma ExactSearchMeaning(conditions: Where, keyNames: seq<string>)
    requires conditions.Valid() && |keyNames| >= 1
    ensures ExactSearch(conditions, keyNames) ==>
      && (forall k | k in conditions.vals :: TypeOf(conditions.vals[k]) == Some(EQ))
      && exists k | k in conditions.vals :: OnColumns(conditions.vals[k], keyNames)
    ensures conditions.keys == [] ==> !ExactSearch(conditions, keyNames)
  {
    if ExactSearch(conditions, keyNames) {
      var r := IdentifiersOf(conditions, keyNames).value;
      assert r.keys[0] in r.vals;
    }
  }

  /**
   * An exact search is exactly a query whose key names can be queried and
   * whose conditions are all equalities: the equality on the hash key is
   * itself an identifier condition, so there are conditions and identifier
   * conditions.
   */
  lemma ExactSearchExactly(conditions: Where, keyNames: seq<string>)
    requires conditions.Valid() && |keyNames| >= 1
    ensures ExactSearch(conditions, keyNames) <==>
      HasValidQueryOperator(conditions, keyNames[0], RangeArgument(keyNames)) && AllEqualities(conditions)
  {
    if HasValidQueryOperator(conditions, keyNames[0], RangeArgument(keyNames)) {
      HasValidQueryOperatorMeaning(conditions, keyNames[0], RangeArgument(keyNames));
      GetConditionFirst(conditions, keyNames[0]);
      var i :| 0 <= i < |conditions.keys| && ColumnOf(conditions.vals[conditions.keys[i]]) == Some(keyNames[0]);
      var k := conditions.keys[i];
      IdentifiersMeaning(conditions, keyNames);
      var r := IdentifiersOf(conditions, keyNames).value;
      assert k in r.vals;
    }
  }

  /**
   * `identifierConditionValues()` has an entry for each column some
   * condition is on, and for no other column, each listed once.
   */
  lemma {:induction false} ColumnValuesColumns(keys: seq<nat>, vals: map<nat, Condition>)
    requires AllAtomic(keys, vals)
    ensures ColumnValues(keys, vals).Valid()
    ensures forall column :: column in ColumnValues(keys, vals).vals <==>
      exists i | 0 <= i < |keys| :: vals[keys[i]].column == column
    decreases |keys|
  {
    if keys != [] {
      var n := |keys| - 1;
      var init := keys[..n];
      ColumnValuesColumns(init, vals);
      PutValid(ColumnValues(init, vals), vals[keys[n]].column, vals[keys[n]].value);
      forall column | column in ColumnValues(keys, vals).vals
        ensures exists i | 0 <= i < |keys| :: vals[keys[i]].column == column
      {
        if column != vals[keys[n]].column {
          var i :| 0 <= i < |init| && vals[init[i]].column == column;
          assert keys[i] == init[i];
        }
      }
      forall column | exists i | 0 <= i < |keys| :: vals[keys[i]].column == column
        ensures column in ColumnValues(keys, vals).vals
      {
        var i :| 0 <= i < |keys| && vals[keys[i]].column == column;
        if i < n {
          assert init[i] == keys[i];
        }
      }
    }
  }

  /** In `identifierConditionValues()`, a column holds the value of the last condition on it. */
  lemma {:induction false} ColumnValuesLastWins(keys: seq<nat>, vals: map<nat, Condition>, i: nat)
    requires AllAtomic(keys, vals)
    requires i < |keys|
    requires forall j | i < j < |keys| :: vals[keys[j]].column != vals[keys[i]].column
    ensures vals[keys[i]].column in ColumnValues(keys, vals).vals
    ensures ColumnValues(keys, vals).vals[vals[keys[i]].column] == vals[keys[i]].value
    decreases |keys|
  {
    var n := |keys| - 1;
    if i < n {
      var init := keys[..n];
      assert init[i] == keys[i];
      ColumnValuesLastWins(init, vals, i);
    }
  }

  /** Every listed condition being an equality is every condition being one. */
  lemma AllListed(conditions: Where)
    requires conditions.Valid()
    requires forall j | 0 <= j < |conditions.keys| :: TypeOf(conditions.vals[conditions.keys[j]]) == Some(EQ)
    ensures AllEqualities(conditions)
  {
    forall k | k in conditions.vals
      ensures TypeOf(conditions.vals[k]) == Some(EQ)
    {
      var j :| 0 <= j < |conditions.keys| && conditions.keys[j] == k;
    }
  }

  class Analyzer {
    var model: M.DynamoDbModel?
    var conditions: Where
    var indexName: Option<string>

    /** Analysis needs the model (`on()`) and the conditions as a PHP array. */
    ghost predicate Valid()
      reads this, model
    {
      model != null && model.Valid() && conditions.Valid()
    }

    constructor ()
      ensures model == null && conditions == Empty() && indexName == None
    {
      model := null;
      conditions := Empty();
      indexName := None;
    }

    /** `on($model)`. */
    method On(model: M.DynamoDbModel)
      modifies this
      ensures this.model == model && conditions == old(conditions) && indexName == old(indexName)
    {
      this.model := model;
    }

    /** `withIndex($index)`. */
    method WithIndex(index: Option<string>)
      modifies this
      ensures indexName == index && model == old(model) && conditions == old(conditions)
    {
      indexName := index;
    }

    /** `analyze($conditions)`. */
    method Analyze(conditions: Where)
      modifies this
      ensures this.conditions == conditions && model == old(model) && indexName == old(indexName)
    {
      this.conditions := conditions;
    }

    /** `getIndex()`: the loop over the declared indexes stops at the first candidate. */
    method GetIndex() returns (index: Option<Idx.Index>)
      requires Valid()
      ensures index == SelectIndex(conditions, model.GetDynamoDbIndexKeys(), indexName)
    {
      if conditions.keys == [] {
        return None;
      }
      index := None;
      var conditions, indexName, indexKeys := this.conditions, this.indexName, model.GetDynamoDbIndexKeys();
      assert conditions.Valid() && indexKeys.Valid();
      var i := 0;
      while i < |indexKeys.keys|
        invariant 0 <= i <= |indexKeys.keys|
        invariant index == None
        invariant forall j | 0 <= j < i :: !Candidate(conditions, indexName, indexKeys.keys[j], indexKeys.vals[indexKeys.keys[j]])
      {
        var name := indexKeys.keys[i];
        var keysInfo := indexKeys.vals[name];
        var keys := keysInfo.Values();
        if MatchCount(conditions, keys) == |keys| {
          if indexName.None? || indexName.value == name {
            index := Some(Idx.FromKeys(name, keysInfo));
            SelectIndexFirstCandidate(conditions, indexKeys, indexName, i);
            break;
          }
        }
        assert !Candidate(conditions, indexName, name, keysInfo);
        i := i + 1;
      }
      if index.None? {
        SelectIndexNone(conditions, indexKeys, indexName);
      }
      if index.Some? && !HasValidQueryOperator(conditions, index.value.hash.value, index.value.range) {
        index := None;
      }
    }

    /** `index()`. */
    method Index() returns (index: Option<Idx.Index>)
      requires Valid()
      ensures index == SelectIndex(conditions, model.GetDynamoDbIndexKeys(), indexName)
    {
      index := GetIndex();
    }

    /** `identifierConditions()`. */
    method IdentifierConditions() returns (r: Option<Where>)
      requires Valid()
      ensures r == IdentifiersOf(conditions, model.GetKeyNames())
    {
      var keyNames := model.GetKeyNames();
      var found := GetConditions(conditions, keyNames);
      if !HasValidQueryOperator(conditions, keyNames[0], RangeArgument(keyNames)) {
        return None;
      }
      return Some(found);
    }

    /** `keyConditions()`. */
    method KeyConditions() returns (r: Option<Where>)
      requires Valid()
      ensures r == KeyConditionsOf(conditions, model.GetKeyNames(), model.GetDynamoDbIndexKeys(), indexName)
    {
      var index := GetIndex();
      if index.Some? {
        return Some(GetConditions(conditions, index.value.Columns()));
      }
      r := IdentifierConditions();
    }

    /** `filterConditions()`. */
    method FilterConditions() returns (r: Where)
      requires Valid()
      ensures r == FilterConditionsOf(conditions,
        KeyConditionsOf(conditions, model.GetKeyNames(), model.GetDynamoDbIndexKeys(), indexName))
    {
      var keyConditions := KeyConditions();
      r := FilterConditionsOf(conditions, keyConditions);
    }

    /** `isExactSearch()`: the loop returns false at the first condition that is not an equality. */
    method IsExactSearch() returns (r: bool)
      requires Valid()
      ensures r == ExactSearch(conditions, model.GetKeyNames())
    {
      var conditions := this.conditions;
      if conditions.keys == [] {
        return false;
      }
      var identifiers := IdentifierConditions();
      if identifiers.None? || identifiers.value.keys == [] {
        return false;
      }
      var i := 0;
      while i < |conditions.keys|
        invariant 0 <= i <= |conditions.keys|
        invariant forall j | 0 <= j < i :: TypeOf(conditions.vals[conditions.keys[j]]) == Some(EQ)
      {
        if TypeOf(conditions.vals[conditions.keys[i]]) != Some(EQ) {
          assert !AllEqualities(conditions);
          return false;
        }
        i := i + 1;
      }
      AllListed(conditions);
      return true;
    }

    /** `identifierConditionValues()`: the loop writes each identifier condition's value under its column. */
    method IdentifierConditionValues() returns (values: OrdMap<string, Value>)
      requires Valid()
      ensures values == IdentifierValuesOf(conditions, model.GetKeyNames())
    {
      var identifiers := IdentifierConditions();
      if identifiers.None? || identifiers.value.keys == [] {
        return Empty();
      }
      IdentifiersAtomic(conditions, model.GetKeyNames());
      values := WriteColumnValues(identifiers.value.keys, identifiers.value.vals);
    }
  }

  /** The `foreach` of `identifierConditionValues()`: each condition's value written under its column, in order. */
  method WriteColumnValues(keys: seq<nat>, vals: map<nat, Condition>) returns (values: OrdMap<string, Value>)
    requires AllAtomic(keys, vals)
    ensures values == ColumnValues(keys, vals)
  {
    values := Empty();
    var i := 0;
    AllAtomicPrefix(keys, vals, 0);
    while i < |keys|
      invariant 0 <= i <= |keys|
      invariant AllAtomic(keys[..i], vals)
      invariant values == ColumnValues(keys[..i], vals)
    {
      ColumnValuesSnoc(keys, vals, i);
      var condition := vals[keys[i]];
      values := values.Put(condition.column, condition.value);
      i := i + 1;
    }
    assert keys[..i] == keys;
  }
}
