/**
 * The `ConditionExpression` parser object: it shares a placeholder counter,
 * a names table and a values table with the other parsers of one query, and
 * writes into them as it compiles. Each method is proved to leave exactly the
 * state, and return exactly the text, that `Conditions` gives it.
 */
module ConditionExpression {
  import opened Wrappers
  import opened Php
  import opened Marshaler
  import opened ComparisonOperator
  import opened Conditions
  import P = Placeholder
  import Names = ExpressionAttributeNames
  import Values = ExpressionAttributeValues

  class ConditionExpression {
    const placeholder: P.Placeholder
    const values: Values.ExpressionAttributeValues
    const names: Names.ExpressionAttributeNames
    /** `getSupportedOperators()`: `OPERATORS` here, a subset of it for key conditions. */
    const operators: map<Operator, string>

    ghost predicate Valid()
      reads names, values
    {
      names.Valid() && values.Valid()
    }

    /** The shared state this parser reads and writes. */
    function State(): Context
      reads placeholder, names, values
    {
      Context(placeholder.counter, names.Model(), values.Model())
    }

    constructor (placeholder: P.Placeholder, values: Values.ExpressionAttributeValues, names: Names.ExpressionAttributeNames)
      ensures this.placeholder == placeholder && this.values == values && this.names == names
      ensures operators == OPERATORS
    {
      this.placeholder := placeholder;
      this.values := values;
      this.names := names;
      this.operators := OPERATORS;
    }

    /** The same parser over another operator table, as a subclass overriding `getSupportedOperators()` builds it. */
    constructor WithOperators(placeholder: P.Placeholder, values: Values.ExpressionAttributeValues,
                              names: Names.ExpressionAttributeNames, operators: map<Operator, string>)
      ensures this.placeholder == placeholder && this.values == values && this.names == names
      ensures this.operators == operators
    {
      this.placeholder := placeholder;
      this.values := values;
      this.names := names;
      this.operators := operators;
    }

    /** `parse($where)`: each entry compiled in turn, joined by its upper-cased connective. */
    method Parse(where: seq<Condition>) returns (r: Outcome<string>)
      requires Valid()
      modifies placeholder, names, values
      ensures Valid()
      ensures (r, State()) == Conditions.Parse(operators, where, old(State()))
      decreases where, 1
    {
      if |where| == 0 {
        return Success("");
      }
      var parsed: seq<string> := [];
      var i := 0;
      while i < |where|
        invariant 0 <= i <= |where|
        invariant Valid()
        invariant ParseItems(operators, where[i..], parsed, State()) == ParseItems(operators, where, [], old(State()))
      {
        var condition := where[i];
        assert where[i..][0] == condition && where[i..][1..] == where[i + 1..];
        var prefix := if |parsed| > 0 then ToUpper(condition.boolean) + " " else "";
        var item;
        if condition.Nested? {
          item := ParseNestedCondition(condition.children);
        } else {
          item := ParseCondition(condition.column, condition.operator, condition.value);
        }
        match item
        case Failure(e) =>
          return Failure(e);
        case Success(text) =>
          parsed := parsed + [prefix + text];
        i := i + 1;
      }
      r := Success(Implode(" ", parsed));
    }

    /** `parseNestedCondition($conditions)`. */
    method ParseNestedCondition(conditions: seq<Condition>) returns (r: Outcome<string>)
      requires Valid()
      modifies placeholder, names, values
      ensures Valid()
      ensures (r, State()) == Conditions.ParseNestedCondition(operators, conditions, old(State()))
      decreases conditions, 2
    {
      var inner := Parse(conditions);
      match inner
      case Success(text) =>
        r := Success("(" + text + ")");
      case Failure(e) =>
        r := Failure(e);
    }

    /** `parseCondition($name, $operator, $value)`. */
    method ParseCondition(name: string, operator: Operator, value: Value) returns (r: Outcome<string>)
      requires Valid()
      modifies placeholder, names, values
      ensures Valid()
      ensures (r, State()) == Conditions.ParseCondition(operators, name, operator, value, old(State()))
    {
      if operator !in operators || !Truthy(operators[operator]) {
        return Failure(NotSupportedException(Name(operator) + " is not supported"));
      }
      ghost var c0 := State();
      names.Set(name);
      assert State() == c0.(names := Names.WithName(c0.names, name));
      r := ParseOperand(name, operator, value, operators[operator]);
    }

    /** The rest of `parseCondition` once the name is registered: the operand, by the shape of the operator. */
    method ParseOperand(name: string, operator: Operator, value: Value, template: string) returns (r: Outcome<string>)
      requires Valid()
      modifies placeholder, values
      ensures Valid()
      ensures (r, State()) == Conditions.ParseOperand(name, operator, value, template, old(State()))
    {
      if operator == BETWEEN {
        r := ParseBetweenCondition(name, value, template);
      } else if operator == IN {
        r := ParseInCondition(name, value, template);
      } else if operator == NULL || operator == NOT_NULL {
        r := ParseNullCondition(name, template);
      } else {
        r := ParseValueCondition(name, value, template);
      }
    }

    /** The comparison case of `parseCondition`: the value under one fresh token. */
    method ParseValueCondition(name: string, value: Value, template: string) returns (r: Outcome<string>)
      requires Valid()
      modifies placeholder, values
      ensures Valid()
      ensures (r, State()) == Conditions.ParseValueCondition(name, value, template, old(State()))
    {
      var token := placeholder.Next();
      values.Set(token, MarshalValue(value));
      r := Success(Sprintf(template, [names.Placeholder(name), token]));
    }

    /** `parseBetweenCondition`: `$value[0]` and `$value[1]` under two fresh tokens. */
    method ParseBetweenCondition(name: string, value: Value, template: string) returns (r: Outcome<string>)
      requires Valid()
      modifies placeholder, values
      ensures Valid()
      ensures (r, State()) == Conditions.ParseBetweenCondition(name, value, template, old(State()))
    {
      var first := placeholder.Next();
      var second := placeholder.Next();
      values.Set(first, MarshalValue(Offset(value, 0)));
      values.Set(second, MarshalValue(Offset(value, 1)));
      r := Success(Sprintf(template, [names.Placeholder(name), first, second]));
    }

    /** `parseInCondition`: one fresh token per element, in `foreach` order. */
    method ParseInCondition(name: string, value: Value, template: string) returns (r: Outcome<string>)
      requires Valid()
      modifies placeholder, values
      ensures Valid()
      ensures (r, State()) == Conditions.ParseInCondition(name, value, template, old(State()))
    {
      var items := ForeachValues(value);
      var valuePlaceholders := BindEach(items);
      r := Success(Sprintf(template, [names.Placeholder(name), Implode(", ", valuePlaceholders)]));
    }

    /** The `foreach` of `parseInCondition`: each item bound under the next token, the `:token`s collected. */
    method BindEach(items: seq<Value>) returns (valuePlaceholders: seq<string>)
      requires values.Valid()
      modifies placeholder, values
      ensures values.Valid()
      ensures placeholder.counter == old(placeholder.counter) + |items|
      ensures values.Model() == Bind(old(values.Model()), old(placeholder.counter), items)
      ensures valuePlaceholders == TokenList(old(placeholder.counter), |items|)
    {
      ghost var counter0, values0 := placeholder.counter, values.Model();
      valuePlaceholders := [];
      var i := 0;
      while i < |items|
        invariant 0 <= i <= |items|
        invariant values.Valid()
        invariant placeholder.counter == counter0 + i
        invariant values.Model() == Bind(values0, counter0, items[..i])
        invariant valuePlaceholders == TokenList(counter0, i)
      {
        var token := placeholder.Next();
        assert token == P.Token(counter0 + i + 1);
        valuePlaceholders := valuePlaceholders + [":" + token];
        TokenListSnoc(counter0, i);
        ghost var before := values.Model();
        values.Set(token, MarshalValue(items[i]));
        assert values.Model() == Values.WithValue(before, P.Token(counter0 + i + 1), MarshalValue(items[i]));
        BindStep(values0, counter0, items, i);
        i := i + 1;
      }
      assert items[..i] == items;
    }

    /** `parseNullCondition`: the attribute's placeholder alone; nothing is bound. */
    method ParseNullCondition(name: string, template: string) returns (r: Outcome<string>)
      ensures (r, State()) == Conditions.ParseNullCondition(name, template, State())
    {
      r := Success(Sprintf(template, [names.Placeholder(name)]));
    }

    /** `reset()`: the counter and both tables start over; the prefixes stay. */
    method Reset()
      modifies placeholder, names, values
      ensures Valid()
      ensures State() == Cleared(old(State()))
    {
      placeholder.Reset();
      names.Reset();
      values.Reset();
    }
  }
}
