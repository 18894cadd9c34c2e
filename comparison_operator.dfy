/**
 * The operator table: user-facing symbols, the canonical DynamoDB operators
 * they stand for, and which canonical operators a key condition may use.
 */
module ComparisonOperator {
  import opened OrderedMap
  import opened Php

  /** The canonical operators (the class constants `EQ` … `NOT_NULL`). */
  datatype Operator =
    EQ | GT | GE | LT | LE | IN | NE | BEGINS_WITH | BETWEEN | NOT_CONTAINS | CONTAINS | NULL | NOT_NULL

  /** The string value of each constant. */
  function Name(op: Operator): string {
    match op
    case EQ => "EQ"
    case GT => "GT"
    case GE => "GE"
    case LT => "LT"
    case LE => "LE"
    case IN => "IN"
    case NE => "NE"
    case BEGINS_WITH => "BEGINS_WITH"
    case BETWEEN => "BETWEEN"
    case NOT_CONTAINS => "NOT_CONTAINS"
    case CONTAINS => "CONTAINS"
    case NULL => "NULL"
    case NOT_NULL => "NOT_NULL"
  }

  /** The symbols accepted in `where` clauses, in the order the table lists them. */
  const Symbols: seq<string> :=
    ["=", ">", ">=", "<", "<=", "in", "!=", "begins_with", "between", "not_contains", "contains", "null", "not_null"]

  /** symbol => canonical operator. */
  function GetOperatorMapping(): OrdMap<string, Operator> {
    OrdMap(Symbols, map[
      "=" := EQ, ">" := GT, ">=" := GE, "<" := LT, "<=" := LE, "in" := IN, "!=" := NE,
      "begins_with" := BEGINS_WITH, "between" := BETWEEN, "not_contains" := NOT_CONTAINS,
      "contains" := CONTAINS, "null" := NULL, "not_null" := NOT_NULL])
  }

  /** `array_keys` of the mapping: the 13 symbols, each once. */
  function GetSupportedOperators(): (r: seq<string>)
    ensures |r| == 13
    ensures forall i, j | 0 <= i < j < |r| :: r[i] != r[j]
    ensures forall s :: s in r <==> s in GetOperatorMapping().vals
  {
    GetOperatorMapping().keys
  }

  /** The symbol the table lists for each canonical operator. */
  function SymbolOf(op: Operator): string {
    match op
    case EQ => "="
    case GT => ">"
    case GE => ">="
    case LT => "<"
    case LE => "<="
    case IN => "in"
    case NE => "!="
    case BEGINS_WITH => "begins_with"
    case BETWEEN => "between"
    case NOT_CONTAINS => "not_contains"
    case CONTAINS => "contains"
    case NULL => "null"
    case NOT_NULL => "not_null"
  }

  /** Valid operators are exactly the 13 symbols, in any letter case. */
  function IsValidOperator(operator: string): (r: bool)
    ensures r <==> ToLower(operator) in Symbols
  {
    ToLower(operator) in GetOperatorMapping().vals
  }

  /**
   * The canonical operator a symbol stands for: the one whose symbol it is.
   * Undefined for an invalid symbol: PHP would read null and fail the `string` return type.
   */
  function GetDynamoDbOperator(operator: string): (r: Operator)
    requires IsValidOperator(operator)
    ensures SymbolOf(r) == ToLower(operator)
  {
    TableSymbol(ToLower(operator));
    GetOperatorMapping().vals[ToLower(operator)]
  }

  /** The operators a key condition may use: EQ first, each once, and never a filter-only operator. */
  function GetQuerySupportedOperators(isRangeKey: bool): (r: seq<Operator>)
    ensures |r| >= 1 && r[0] == EQ
    ensures forall i, j | 0 <= i < j < |r| :: r[i] != r[j]
    ensures forall d | d in r :: d !in {IN, NE, CONTAINS, NOT_CONTAINS, NULL, NOT_NULL}
  {
    if isRangeKey then [EQ, LE, LT, GE, GT, BEGINS_WITH, BETWEEN] else [EQ]
  }

  /** A hash key accepts the symbol `=` alone; a range key also the orderings, `begins_with` and `between`. */
  function IsValidQueryOperator(operator: string, isRangeKey: bool): (r: bool)
    requires IsValidOperator(operator)
    ensures r <==> (ToLower(operator) == "=" ||
      (isRangeKey && ToLower(operator) in {"<=", "<", ">=", ">", "begins_with", "between"}))
  {
    IsValidQueryDynamoDbOperator(GetDynamoDbOperator(operator), isRangeKey)
  }

  /** IN, NE, CONTAINS, NOT_CONTAINS, NULL and NOT_NULL can only filter; EQ suits either key. */
  function IsValidQueryDynamoDbOperator(dynamoDbOperator: Operator, isRangeKey: bool): (r: bool)
    ensures r ==> dynamoDbOperator !in {IN, NE, CONTAINS, NOT_CONTAINS, NULL, NOT_NULL}
    ensures dynamoDbOperator == EQ ==> r
  {
    dynamoDbOperator in GetQuerySupportedOperators(isRangeKey)
  }

  /**
   * `is($op, $dynamoDbOperator)`: the operator's symbol is `op` in lower case.
   * An unknown symbol reads as null, which is never identical to an operator.
   */
  function Is(op: string, dynamoDbOperator: Operator): (r: bool)
    ensures r <==> SymbolOf(dynamoDbOperator) == ToLower(op)
  {
    var m := GetOperatorMapping();
    SymbolInTable(dynamoDbOperator);
    if ToLower(op) in m.vals then TableSymbol(ToLower(op)); m.vals[ToLower(op)] == dynamoDbOperator else false
  }

  // ---------------------------------------------------------------- properties

  lemma MappingIsValid()
    ensures GetOperatorMapping().Valid()
  {
  }

  lemma IsValidOperatorIgnoresCase(operator: string)
    ensures IsValidOperator(operator) <==> IsValidOperator(ToLower(operator))
    ensures IsValidOperator(operator) ==> GetDynamoDbOperator(operator) == GetDynamoDbOperator(ToLower(operator))
  {
    ToLowerIdempotent(operator);
  }

  /** A few symbol translations, in either letter case. */
  lemma GetDynamoDbOperatorExamples()
    ensures IsValidOperator(">=") && GetDynamoDbOperator(">=") == GE
    ensures IsValidOperator("!=") && GetDynamoDbOperator("!=") == NE
    ensures IsValidOperator("Between") && GetDynamoDbOperator("Between") == BETWEEN
    ensures !IsValidOperator("<>")
  {
    assert ToLower(">=") == ">=";
    assert ToLower("!=") == "!=";
    assert ToLower("Between") == "between";
    assert ToLower("<>") == "<>";
  }

  /** Distinct symbols stand for distinct canonical operators, and every operator has a symbol. */
  lemma MappingIsBijective(a: string, b: string)
    requires a in GetOperatorMapping().vals && b in GetOperatorMapping().vals
    requires GetOperatorMapping().vals[a] == GetOperatorMapping().vals[b]
    ensures a == b
  {
  }

  /** Each operator's symbol is in the table and stands for that operator. */
  lemma SymbolInTable(op: Operator)
    ensures SymbolOf(op) in GetOperatorMapping().vals && GetOperatorMapping().vals[SymbolOf(op)] == op
  {
    match op
    case EQ => case GT => case GE => case LT => case LE => case IN => case NE =>
    case BEGINS_WITH => case BETWEEN => case NOT_CONTAINS => case CONTAINS => case NULL => case NOT_NULL =>
  }

  /** The table maps each symbol to the operator whose symbol it is. */
  lemma TableSymbol(s: string)
    requires s in GetOperatorMapping().vals
    ensures SymbolOf(GetOperatorMapping().vals[s]) == s
  {
    var op := GetOperatorMapping().vals[s];
    SymbolInTable(op);
    MappingIsBijective(SymbolOf(op), s);
  }

  /** A hash key can only be matched with EQ. */
  lemma HashKeyQueryOperators(d: Operator)
    ensures IsValidQueryDynamoDbOperator(d, false) <==> d == EQ
  {
  }

  /** A range key accepts EQ, LE, LT, GE, GT, BEGINS_WITH and BETWEEN: all a hash key accepts, and more. */
  lemma RangeKeyQueryOperators(d: Operator)
    ensures IsValidQueryDynamoDbOperator(d, true) <==> d in {EQ, LE, LT, GE, GT, BEGINS_WITH, BETWEEN}
    ensures IsValidQueryDynamoDbOperator(d, false) ==> IsValidQueryDynamoDbOperator(d, true)
  {
  }

  lemma IsMatchesMapping(op: string, d: Operator)
    ensures Is(op, d) <==> IsValidOperator(op) && GetDynamoDbOperator(op) == d
  {
  }
}
