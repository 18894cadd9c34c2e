/**
 * `KeyConditionExpression`: the condition compiler restricted to the
 * operators DynamoDB accepts in a key condition (`Arr::only` of the generic
 * table).
 */
module KeyConditionExpression {
  import opened Wrappers
  import opened Php
  import opened ComparisonOperator
  import opened Conditions
  import P = Placeholder
  import Names = ExpressionAttributeNames
  import Values = ExpressionAttributeValues
  import CE = ConditionExpression

  const KEY_OPERATORS: set<Operator> := {EQ, LE, LT, GE, GT, BEGINS_WITH, BETWEEN}

  /** `getSupportedOperators()`: the generic table's templates of the key operators and no others. */
  function SupportedOperators(): map<Operator, string> {
    map operator | operator in OPERATORS && operator in KEY_OPERATORS :: OPERATORS[operator]
  }

  /** The key table has an entry for exactly the key operators, each the generic table's template. */
  lemma KeyTable()
    ensures forall operator :: operator in SupportedOperators() <==> operator in KEY_OPERATORS
    ensures SubTable(SupportedOperators(), OPERATORS)
  {
    forall operator | operator in KEY_OPERATORS
      ensures operator in OPERATORS
    {
      OperatorsTable(operator);
    }
  }

  /** A key-condition parser over the shared counter and tables. */
  method New(placeholder: P.Placeholder, values: Values.ExpressionAttributeValues, names: Names.ExpressionAttributeNames)
    returns (e: CE.ConditionExpression)
    ensures fresh(e)
    ensures e.placeholder == placeholder && e.values == values && e.names == names
    ensures e.operators == SupportedOperators()
  {
    e := new CE.ConditionExpression.WithOperators(placeholder, values, names, SupportedOperators());
  }

  /**
   * The key table supports an operator exactly when it is one of the seven
   * key operators, which are exactly the operators a range key may be queried with.
   */
  lemma KeySupported(operator: Operator)
    ensures Supported(SupportedOperators(), operator) <==> operator in KEY_OPERATORS
    ensures operator in KEY_OPERATORS <==> IsValidQueryDynamoDbOperator(operator, true)
  {
    KeyTable();
    RangeKeyQueryOperators(operator);
    if operator in KEY_OPERATORS {
      OperatorsTable(operator);
    }
  }

  /**
   * A key condition compiles exactly when every operator it uses (groups
   * included) is a key operator, and then it compiles as the generic
   * compiler would; otherwise it throws for the first other operator met.
   */
  lemma KeyParse(where: seq<Condition>, c: Context)
    ensures var r := Parse(SupportedOperators(), where, c);
      && (r.0.Success? <==> OperatorsOf(where) <= KEY_OPERATORS)
      && (r.0.Success? ==> r == Parse(OPERATORS, where, c))
      && (r.0.Failure? ==> exists operator | operator in OperatorsOf(where) && operator !in KEY_OPERATORS ::
                             r.0.error == NotSupportedException(Name(operator) + " is not supported"))
  {
    var keys := SupportedOperators();
    KeyTable();
    ParseEffect(keys, where, c);
    FirstUnsupportedSpec(keys, where);
    forall operator | operator in OperatorsOf(where)
      ensures Supported(keys, operator) <==> operator in KEY_OPERATORS
    {
      KeySupported(operator);
    }
    if FirstUnsupported(keys, where).None? {
      SubTableParse(keys, OPERATORS, where, c);
    }
  }

  /** A single condition with any other operator (`<>`, `IN`, `contains`, …) is refused and changes nothing. */
  lemma KeyRejects(condition: Condition, c: Context)
    requires condition.Atomic? && condition.operator !in KEY_OPERATORS
    ensures Parse(SupportedOperators(), [condition], c)
      == (Failure(NotSupportedException(Name(condition.operator) + " is not supported")), c)
  {
    var keys := SupportedOperators();
    KeySupported(condition.operator);
    ParseConditionEffect(keys, condition, c);
    assert ParseItems(keys, [condition], [], c) == (Failure(Unsupported(condition.operator)), c);
  }
}
