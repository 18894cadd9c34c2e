/**
 * The condition compiler: turns an ordered list of `where` conditions into a
 * DynamoDB condition expression, registering column names in the shared
 * names table and binding one fresh value placeholder per value.
 *
 * The functions below are the compiler's meaning on the state it touches
 * (counter, names table, values table); the class `ConditionExpression` is
 * the compiler itself, proved to follow them.
 */
module Conditions {
  import opened Wrappers
  import opened OrderedMap
  import opened Php
  import opened Marshaler
  import opened ComparisonOperator
  import P = Placeholder
  import Names = ExpressionAttributeNames
  import Values = ExpressionAttributeValues

  /**
   * A `where` entry. An atomic one carries `column`, `type` (a canonical
   * operator), `value` and `boolean`; a group (`'type' => 'Nested'`) carries
   * its conditions in `value` and its `boolean`.
   */
  datatype Condition =
    | Atomic(column: string, operator: Operator, value: Value, boolean: string)
    | Nested(children: seq<Condition>, boolean: string)

  datatype NotSupportedException = NotSupportedException(message: string)

  type Outcome<T> = Result<T, NotSupportedException>

  /** The expression template of every operator (`OPERATORS`). */
  function Template(operator: Operator): string {
    match operator
    case EQ => "%s = :%s"
    case LE => "%s <= :%s"
    case LT => "%s < :%s"
    case GE => "%s >= :%s"
    case GT => "%s > :%s"
    case BEGINS_WITH => "begins_with(%s, :%s)"
    case BETWEEN => "(%s BETWEEN :%s AND :%s)"
    case CONTAINS => "contains(%s, :%s)"
    case NOT_CONTAINS => "NOT contains(%s, :%s)"
    case NULL => "attribute_not_exists(%s)"
    case NOT_NULL => "attribute_exists(%s)"
    case NE => "%s <> :%s"
    case IN => "%s IN (%s)"
  }

  const ALL_OPERATORS: set<Operator> :=
    {EQ, LE, LT, GE, GT, BEGINS_WITH, BETWEEN, CONTAINS, NOT_CONTAINS, NULL, NOT_NULL, NE, IN}

  /** `OPERATORS`: the generic compiler's table, one template per operator. */
  const OPERATORS: map<Operator, string> := map operator | operator in ALL_OPERATORS :: Template(operator)

  /** What the compiler reads and writes: the shared counter and the two shared tables. */
  datatype Context = Context(counter: nat, names: Names.Table, values: Values.Table)

  /** The state `reset()` leaves: counter 0, both tables empty. */
  function Cleared(c: Context): (r: Context)
  {
    Context(0, Names.Fresh(c.names.prefix), Values.Fresh(c.values.prefix))
  }

  /** `$this->placeholder->next()` followed by `$this->values->set($token, $marshaled)`. */
  function BindNext(c: Context, value: Value): (r: (string, Context))
    ensures r.1.counter == c.counter + 1 && r.0 == P.Token(c.counter + 1)
    ensures r.1.names == c.names && r.1.values.prefix == c.values.prefix
  {
    var token := P.Token(c.counter + 1);
    (token, Context(c.counter + 1, c.names, Values.WithValue(c.values, token, MarshalValue(value))))
  }

  /** `parse($where)`. */
  function Parse(operators: map<Operator, string>, where: seq<Condition>, c: Context): (r: (Outcome<string>, Context))
    decreases where, 1
  {
    if |where| == 0 then (Success(""), c)
    else
      var (items, c1) := ParseItems(operators, where, [], c);
      match items
      case Success(parsed) => (Success(Implode(" ", parsed)), c1)
      case Failure(e) => (Failure(e), c1)
  }

  /** The `foreach` of `parse`, from the current item on, with the items compiled so far. */
  function ParseItems(operators: map<Operator, string>, items: seq<Condition>, parsed: seq<string>, c: Context)
    : (r: (Outcome<seq<string>>, Context))
    decreases items, 0
  {
    if items == [] then (Success(parsed), c)
    else
      var condition := items[0];
      var prefix := if |parsed| > 0 then ToUpper(condition.boolean) + " " else "";
      var (item, c1) := ParseItem(operators, condition, c);
      match item
      case Failure(e) => (Failure(e), c1)
      case Success(text) => ParseItems(operators, items[1..], parsed + [prefix + text], c1)
  }

  /** `parseNestedCondition($conditions)`: the group's expression in parentheses. */
  function ParseNestedCondition(operators: map<Operator, string>, conditions: seq<Condition>, c: Context)
    : (r: (Outcome<string>, Context))
    decreases conditions, 2
  {
    var (inner, c1) := Parse(operators, conditions, c);
    match inner
    case Success(text) => (Success("(" + text + ")"), c1)
    case Failure(e) => (Failure(e), c1)
  }

  /** `parseCondition($name, $operator, $value)`: an operator missing from the table throws before anything is registered. */
  function ParseCondition(operators: map<Operator, string>, name: string, operator: Operator, value: Value, c: Context)
    : (r: (Outcome<string>, Context))
  {
    if operator !in operators || !Truthy(operators[operator]) then
      (Failure(NotSupportedException(Name(operator) + " is not supported")), c)
    else
      ParseOperand(name, operator, value, operators[operator], c.(names := Names.WithName(c.names, name)))
  }

  /** The part of `parseCondition` after the name is registered: the operand, by the shape of the operator. */
  function ParseOperand(name: string, operator: Operator, value: Value, template: string, c: Context)
    : (r: (Outcome<string>, Context))
  {
    if operator == BETWEEN then ParseBetweenCondition(name, value, template, c)
    else if operator == IN then ParseInCondition(name, value, template, c)
    else if operator == NULL || operator == NOT_NULL then ParseNullCondition(name, template, c)
    else ParseValueCondition(name, value, template, c)
  }

  /** A binary comparison: the value is bound under one fresh token. */
  function ParseValueCondition(name: string, value: Value, template: string, c: Context)
    : (r: (Outcome<string>, Context))
  {
    var (token, c1) := BindNext(c, value);
    (Success(Sprintf(template, [Names.PlaceholderFor(c1.names, name), token])), c1)
  }

  /** `parseBetweenCondition`: two placeholders, bound to `$value[0]` and `$value[1]`. */
  function ParseBetweenCondition(name: string, value: Value, template: string, c: Context)
    : (r: (Outcome<string>, Context))
  {
    var first := P.Token(c.counter + 1);
    var second := P.Token(c.counter + 2);
    var values := Values.WithValue(c.values, first, MarshalValue(Offset(value, 0)));
    var values' := Values.WithValue(values, second, MarshalValue(Offset(value, 1)));
    var c1 := Context(c.counter + 2, c.names, values');
    (Success(Sprintf(template, [Names.PlaceholderFor(c1.names, name), first, second])), c1)
  }

  /**
   * `parseInCondition`: the k-th element is bound under the k-th fresh token,
   * and the list of those `:token`s, joined with ", ", fills the parentheses.
   */
  function ParseInCondition(name: string, value: Value, template: string, c: Context)
    : (r: (Outcome<string>, Context))
  {
    var items := ForeachValues(value);
    var c1 := Context(c.counter + |items|, c.names, Bind(c.values, c.counter, items));
    (Success(Sprintf(template, [Names.PlaceholderFor(c1.names, name), Implode(", ", TokenList(c.counter, |items|))])), c1)
  }

  /** `parseNullCondition`: no value placeholder. */
  function ParseNullCondition(name: string, template: string, c: Context): (r: (Outcome<string>, Context))
    ensures r.1 == c
  {
    (Success(Sprintf(template, [Names.PlaceholderFor(c.names, name)])), c)
  }

  // ------------------------------------------------------------ what a parse does

  /** The values an atomic condition binds, in binding order. */
  function ValuesOf(condition: Condition): seq<Value>
    decreases condition
  {
    match condition
    case Nested(children, _) => ValueList(children)
    case Atomic(_, operator, value, _) =>
      if operator == BETWEEN then [Offset(value, 0), Offset(value, 1)]
      else if operator == IN then ForeachValues(value)
      else if operator == NULL || operator == NOT_NULL then []
      else [value]
  }

  /** The values a list of conditions binds, depth first, left to right. */
  function ValueList(where: seq<Condition>): seq<Value>
    decreases where
  {
    if where == [] then [] else ValuesOf(where[0]) + ValueList(where[1..])
  }

  /** The column names a list of conditions registers, depth first, left to right. */
  function ColumnList(where: seq<Condition>): seq<string>
    decreases where
  {
    if where == [] then [] else ColumnsOf(where[0]) + ColumnList(where[1..])
  }

  function ColumnsOf(condition: Condition): seq<string>
    decreases condition
  {
    match condition
    case Nested(children, _) => ColumnList(children)
    case Atomic(column, _, _, _) => [column]
  }

  predicate Supported(operators: map<Operator, string>, operator: Operator) {
    operator in operators && Truthy(operators[operator])
  }

  /** The operator of the first condition, depth first, that the table does not support. */
  function FirstUnsupported(operators: map<Operator, string>, where: seq<Condition>): Option<Operator>
    decreases where
  {
    if where == [] then None
    else
      var head := FirstUnsupportedIn(operators, where[0]);
      if head.Some? then head else FirstUnsupported(operators, where[1..])
  }

  function FirstUnsupportedIn(operators: map<Operator, string>, condition: Condition): Option<Operator>
    decreases condition
  {
    match condition
    case Nested(children, _) => FirstUnsupported(operators, children)
    case Atomic(_, operator, _, _) => if Supported(operators, operator) then None else Some(operator)
  }

  /** The operators a list of conditions uses, groups included. */
  function OperatorsOf(where: seq<Condition>): set<Operator>
    decreases where
  {
    if where == [] then {} else OperatorsIn(where[0]) + OperatorsOf(where[1..])
  }

  function OperatorsIn(condition: Condition): set<Operator>
    decreases condition
  {
    match condition
    case Nested(children, _) => OperatorsOf(children)
    case Atomic(_, operator, _, _) => {operator}
  }

  /** `FirstUnsupported` finds an operator exactly when some operator in use is unsupported, and what it finds is one. */
  lemma {:induction false} FirstUnsupportedSpec(operators: map<Operator, string>, where: seq<Condition>)
    ensures FirstUnsupported(operators, where).None? <==> forall op | op in OperatorsOf(where) :: Supported(operators, op)
    ensures FirstUnsupported(operators, where).Some? ==>
      FirstUnsupported(operators, where).value in OperatorsOf(where)
      && !Supported(operators, FirstUnsupported(operators, where).value)
    decreases where, 1
  {
    if where != [] {
      FirstUnsupportedInSpec(operators, where[0]);
      FirstUnsupportedSpec(operators, where[1..]);
    }
  }

  lemma {:induction false} FirstUnsupportedInSpec(operators: map<Operator, string>, condition: Condition)
    ensures FirstUnsupportedIn(operators, condition).None? <==> forall op | op in OperatorsIn(condition) :: Supported(operators, op)
    ensures FirstUnsupportedIn(operators, condition).Some? ==>
      FirstUnsupportedIn(operators, condition).value in OperatorsIn(condition)
      && !Supported(operators, FirstUnsupportedIn(operators, condition).value)
    decreases condition, 2
  {
    if condition.Nested? {
      FirstUnsupportedSpec(operators, condition.children);
    }
  }

  /** The exception `parseCondition` throws for an operator the table does not support. */
  function Unsupported(operator: Operator): NotSupportedException {
    NotSupportedException(Name(operator) + " is not supported")
  }

  /** `values->set` for each value in turn, on the placeholders after `counter`. */
  function Bind(t: Values.Table, counter: nat, vs: seq<Value>): (r: Values.Table)
    ensures r.prefix == t.prefix
    decreases |vs|
  {
    if vs == [] then t
    else Bind(Values.WithValue(t, P.Token(counter + 1), MarshalValue(vs[0])), counter + 1, vs[1..])
  }

  /** The `:token` list `parseInCondition` builds for `n` items after `counter`. */
  function TokenList(counter: nat, n: nat): (r: seq<string>)
    ensures |r| == n
  {
    seq(n, i requires 0 <= i < n => ":" + P.Token(counter + 1 + i))
  }

  /** The state a successful parse of `where` leaves. */
  function After(c: Context, where: seq<Condition>): (r: Context)
  {
    var vs := ValueList(where);
    Context(c.counter + |vs|, Names.WithNames(c.names, ColumnList(where)), Bind(c.values, c.counter, vs))
  }

  // ------------------------------------------------------------ properties of Bind

  lemma {:induction false} BindAppend(t: Values.Table, counter: nat, a: seq<Value>, b: seq<Value>)
    ensures Bind(t, counter, a + b) == Bind(Bind(t, counter, a), counter + |a|, b)
    decreases |a|
  {
    if a != [] {
      assert (a + b)[0] == a[0] && (a + b)[1..] == a[1..] + b;
      BindAppend(Values.WithValue(t, P.Token(counter + 1), MarshalValue(a[0])), counter + 1, a[1..], b);
    } else {
      assert a + b == b;
    }
  }

  /** Binding one more value writes it under the next token, on top of what was bound. */
  lemma BindSnoc(t: Values.Table, counter: nat, vs: seq<Value>, v: Value)
    ensures Bind(t, counter, vs + [v])
      == Values.WithValue(Bind(t, counter, vs), P.Token(counter + |vs| + 1), MarshalValue(v))
  {
    BindAppend(t, counter, vs, [v]);
    BindOne(Bind(t, counter, vs), counter + |vs|, v);
  }

  /** One more item of a `foreach` binds the next token. */
  lemma BindStep(t: Values.Table, counter: nat, items: seq<Value>, i: nat)
    requires i < |items|
    ensures Bind(t, counter, items[..i + 1])
      == Values.WithValue(Bind(t, counter, items[..i]), P.Token(counter + i + 1), MarshalValue(items[i]))
  {
    assert items[..i + 1] == items[..i] + [items[i]];
    BindSnoc(t, counter, items[..i], items[i]);
  }

  lemma TokenListSnoc(counter: nat, n: nat)
    ensures TokenList(counter, n + 1) == TokenList(counter, n) + [":" + P.Token(counter + n + 1)]
  {
  }

  lemma PrefixCancel(prefix: string, x: string, y: string)
    requires prefix + x == prefix + y
    ensures x == y
  {
    assert x == (prefix + x)[|prefix|..];
    assert y == (prefix + y)[|prefix|..];
  }

  /** A key that is none of the tokens after `counter` keeps its binding, or its absence. */
  lemma {:induction false} BindKeeps(t: Values.Table, counter: nat, vs: seq<Value>, k: string)
    requires forall j: nat | counter < j <= counter + |vs| :: k != t.prefix + P.Token(j)
    ensures var r := Bind(t, counter, vs);
      && (k in r.mapping.vals <==> k in t.mapping.vals)
      && (k in t.mapping.vals ==> r.mapping.vals[k] == t.mapping.vals[k])
    decreases |vs|
  {
    if vs != [] {
      var t1 := Values.WithValue(t, P.Token(counter + 1), MarshalValue(vs[0]));
      assert k != t.prefix + P.Token(counter + 1);
      BindKeeps(t1, counter + 1, vs[1..], k);
    }
  }

  /** The first value is bound under the first token after `counter`: no later write overwrites it. */
  lemma BindBindsFirst(t: Values.Table, counter: nat, vs: seq<Value>)
    requires vs != []
    ensures var r := Bind(t, counter, vs);
      && t.prefix + P.Token(counter + 1) in r.mapping.vals
      && r.mapping.vals[t.prefix + P.Token(counter + 1)] == MarshalValue(vs[0])
  {
    var t1 := Values.WithValue(t, P.Token(counter + 1), MarshalValue(vs[0]));
    var k := t.prefix + P.Token(counter + 1);
    forall j: nat | counter + 1 < j <= counter + 1 + |vs[1..]|
      ensures k != t1.prefix + P.Token(j)
    {
      if k == t1.prefix + P.Token(j) {
        PrefixCancel(t.prefix, P.Token(counter + 1), P.Token(j));
        P.TokenInjective(counter + 1, j);
      }
    }
    BindKeeps(t1, counter + 1, vs[1..], k);
  }

  /** The i-th value is bound under the (counter+1+i)-th token: no later write overwrites it. */
  lemma {:induction false} BindBinds(t: Values.Table, counter: nat, vs: seq<Value>, i: nat)
    requires i < |vs|
    ensures var r := Bind(t, counter, vs);
      && t.prefix + P.Token(counter + 1 + i) in r.mapping.vals
      && r.mapping.vals[t.prefix + P.Token(counter + 1 + i)] == MarshalValue(vs[i])
    decreases |vs|
  {
    if i == 0 {
      BindBindsFirst(t, counter, vs);
    } else {
      var t1 := Values.WithValue(t, P.Token(counter + 1), MarshalValue(vs[0]));
      BindBinds(t1, counter + 1, vs[1..], i - 1);
      assert counter + 1 + 1 + (i - 1) == counter + 1 + i;
    }
  }

  // ------------------------------------------------------------ properties of Parse

  /**
   * One condition: it is compiled exactly when its operator is supported (and
   * otherwise nothing changes); when compiled, its column is registered and
   * its values are bound, in order, to the next fresh tokens.
   */
  /** The state a compiled atomic condition leaves. */
  lemma AfterAtomic(condition: Condition, c: Context)
    requires condition.Atomic?
    ensures After(c, [condition])
      == Context(c.counter + |ValuesOf(condition)|, Names.WithName(c.names, condition.column),
                 Bind(c.values, c.counter, ValuesOf(condition)))
  {
    var vs := ValuesOf(condition);
    assert [condition][1..] == [];
    assert ValueList([condition]) == vs by {
      assert vs + [] == vs;
    }
    assert ColumnList([condition]) == [condition.column] by {
      assert ColumnsOf(condition) == [condition.column];
    }
    assert Names.WithNames(c.names, [condition.column]) == Names.WithName(c.names, condition.column) by {
      assert [condition.column][1..] == [];
    }
  }

  lemma {:induction false} ValueListAppend(a: seq<Condition>, b: seq<Condition>)
    ensures ValueList(a + b) == ValueList(a) + ValueList(b)
    decreases |a|
  {
    if a == [] {
      assert a + b == b;
    } else {
      assert (a + b)[0] == a[0] && (a + b)[1..] == a[1..] + b;
      ValueListAppend(a[1..], b);
    }
  }

  lemma {:induction false} ColumnListAppend(a: seq<Condition>, b: seq<Condition>)
    ensures ColumnList(a + b) == ColumnList(a) + ColumnList(b)
    decreases |a|
  {
    if a == [] {
      assert a + b == b;
    } else {
      assert (a + b)[0] == a[0] && (a + b)[1..] == a[1..] + b;
      ColumnListAppend(a[1..], b);
    }
  }

  /** Parsing `a` then `b` leaves the state that parsing `a + b` leaves. */
  lemma AfterAppend(c: Context, a: seq<Condition>, b: seq<Condition>)
    ensures After(After(c, a), b) == After(c, a + b)
  {
    var va, vb, ca, cb := ValueList(a), ValueList(b), ColumnList(a), ColumnList(b);
    var mid := After(c, a);
    assert ValueList(a + b) == va + vb by { ValueListAppend(a, b); }
    assert ColumnList(a + b) == ca + cb by { ColumnListAppend(a, b); }
    assert Names.WithNames(c.names, ca + cb) == Names.WithNames(mid.names, cb) by {
      Names.WithNamesAppend(c.names, ca, cb);
    }
    assert Bind(c.values, c.counter, va + vb) == Bind(mid.values, mid.counter, vb) by {
      BindAppend(c.values, c.counter, va, vb);
    }
  }

  lemma BindOne(t: Values.Table, counter: nat, v: Value)
    ensures Bind(t, counter, [v]) == Values.WithValue(t, P.Token(counter + 1), MarshalValue(v))
  {
    assert [v][1..] == [];
  }

  lemma BindTwo(t: Values.Table, counter: nat, v: Value, w: Value)
    ensures Bind(t, counter, [v, w])
      == Values.WithValue(Values.WithValue(t, P.Token(counter + 1), MarshalValue(v)), P.Token(counter + 2), MarshalValue(w))
  {
    var first := Values.WithValue(t, P.Token(counter + 1), MarshalValue(v));
    assert [v, w][1..] == [w];
    BindOne(first, counter + 1, w);
  }

  lemma ParseSingleState(operators: map<Operator, string>, condition: Condition, c: Context)
    requires condition.Atomic? && Supported(operators, condition.operator)
    requires condition.operator !in {BETWEEN, IN, NULL, NOT_NULL}
    ensures ParseCondition(operators, condition.column, condition.operator, condition.value, c).1 == After(c, [condition])
  {
    AfterAtomic(condition, c);
    BindOne(c.values, c.counter, condition.value);
  }

  lemma ParseBetweenState(operators: map<Operator, string>, condition: Condition, c: Context)
    requires condition.Atomic? && Supported(operators, condition.operator) && condition.operator == BETWEEN
    ensures ParseCondition(operators, condition.column, condition.operator, condition.value, c).1 == After(c, [condition])
  {
    AfterAtomic(condition, c);
    BindTwo(c.values, c.counter, Offset(condition.value, 0), Offset(condition.value, 1));
  }

  lemma ParseInState(operators: map<Operator, string>, condition: Condition, c: Context)
    requires condition.Atomic? && Supported(operators, condition.operator) && condition.operator == IN
    ensures ParseCondition(operators, condition.column, condition.operator, condition.value, c).1 == After(c, [condition])
  {
    AfterAtomic(condition, c);
  }

  lemma ParseNullState(operators: map<Operator, string>, condition: Condition, c: Context)
    requires condition.Atomic? && Supported(operators, condition.operator)
    requires condition.operator == NULL || condition.operator == NOT_NULL
    ensures ParseCondition(operators, condition.column, condition.operator, condition.value, c).1 == After(c, [condition])
  {
    AfterAtomic(condition, c);
    assert ValuesOf(condition) == [];
  }

  /**
   * One condition: it is compiled exactly when its operator is supported (and
   * otherwise nothing changes); when compiled, its column is registered and
   * its values are bound, in order, to the next fresh tokens.
   */
  lemma ParseConditionEffect(operators: map<Operator, string>, condition: Condition, c: Context)
    requires condition.Atomic?
    ensures var r := ParseCondition(operators, condition.column, condition.operator, condition.value, c);
      && (r.0.Success? <==> Supported(operators, condition.operator))
      && (r.0.Failure? ==> r.0.error == Unsupported(condition.operator) && r.1 == c)
      && (r.0.Success? ==> r.1 == After(c, [condition]))
  {
    var operator := condition.operator;
    if Supported(operators, operator) {
      if operator == BETWEEN {
        ParseBetweenState(operators, condition, c);
      } else if operator == IN {
        ParseInState(operators, condition, c);
      } else if operator == NULL || operator == NOT_NULL {
        ParseNullState(operators, condition, c);
      } else {
        ParseSingleState(operators, condition, c);
      }
    }
  }

  lemma {:induction false} ParseEffect(operators: map<Operator, string>, where: seq<Condition>, c: Context)
    ensures var r := Parse(operators, where, c);
      && (r.0.Success? <==> FirstUnsupported(operators, where).None?)
      && (r.0.Failure? ==> r.0.error == Unsupported(FirstUnsupported(operators, where).value))
      && (r.0.Success? ==> r.1 == After(c, where))
    decreases where, 1
  {
    if where != [] {
      ParseItemsEffect(operators, where, [], c);
    }
  }

  lemma {:induction false} ParseItemsEffect(operators: map<Operator, string>, items: seq<Condition>, parsed: seq<string>, c: Context)
    ensures var r := ParseItems(operators, items, parsed, c);
      && (r.0.Success? <==> FirstUnsupported(operators, items).None?)
      && (r.0.Failure? ==> r.0.error == Unsupported(FirstUnsupported(operators, items).value))
      && (r.0.Success? ==> r.1 == After(c, items) && |r.0.value| == |parsed| + |items|)
    decreases items, 0
  {
    if items != [] {
      var condition := items[0];
      var prefix := if |parsed| > 0 then ToUpper(condition.boolean) + " " else "";
      var (item, c1) := ParseItem(operators, condition, c);
      ItemEffect(operators, condition, c);
      if item.Success? {
        ParseItemsEffect(operators, items[1..], parsed + [prefix + item.value], c1);
        AfterAppend(c, [condition], items[1..]);
        assert [condition] + items[1..] == items;
      }
    }
  }

  /** One entry of the `foreach`: a group or a single condition. */
  function ParseItem(operators: map<Operator, string>, condition: Condition, c: Context): (r: (Outcome<string>, Context))
    decreases condition, 3
  {
    if condition.Nested? then ParseNestedCondition(operators, condition.children, c)
    else ParseCondition(operators, condition.column, condition.operator, condition.value, c)
  }

  lemma {:induction false} ItemEffect(operators: map<Operator, string>, condition: Condition, c: Context)
    ensures var r := ParseItem(operators, condition, c);
      && (r.0.Success? <==> FirstUnsupportedIn(operators, condition).None?)
      && (r.0.Failure? ==> r.0.error == Unsupported(FirstUnsupportedIn(operators, condition).value))
      && (r.0.Success? ==> r.1 == After(c, [condition]))
    decreases condition, 3
  {
    if condition.Nested? {
      ParseNestedEffect(operators, condition.children, c);
      assert [condition][1..] == [];
      assert ValueList([condition]) == ValueList(condition.children) by {
        assert ValueList(condition.children) + [] == ValueList(condition.children);
      }
      assert ColumnList([condition]) == ColumnList(condition.children) by {
        assert ColumnList(condition.children) + [] == ColumnList(condition.children);
      }
    } else {
      ParseConditionEffect(operators, condition, c);
    }
  }

  lemma {:induction false} ParseNestedEffect(operators: map<Operator, string>, conditions: seq<Condition>, c: Context)
    ensures var r := ParseNestedCondition(operators, conditions, c);
      && (r.0.Success? <==> FirstUnsupported(operators, conditions).None?)
      && (r.0.Failure? ==> r.0.error == Unsupported(FirstUnsupported(operators, conditions).value))
      && (r.0.Success? ==> r.1 == After(c, conditions))
    decreases conditions, 2
  {
    ParseEffect(operators, conditions, c);
  }

  /** A list with no unsupported operator has none in any of its entries. */
  lemma {:induction false} FirstUnsupportedNone(operators: map<Operator, string>, where: seq<Condition>, i: nat)
    requires FirstUnsupported(operators, where).None? && i < |where|
    ensures FirstUnsupportedIn(operators, where[i]).None?
    decreases i
  {
    if i > 0 {
      FirstUnsupportedNone(operators, where[1..], i - 1);
    }
  }

  /**
   * In a list with no unsupported operator, the i-th entry compiles in the state
   * the entries before it leave, and leaves the state of the first i+1 entries.
   */
  lemma EntryCompiles(operators: map<Operator, string>, where: seq<Condition>, c: Context, i: nat)
    requires FirstUnsupported(operators, where).None? && i < |where|
    ensures var r := ParseItem(operators, where[i], After(c, where[..i]));
      r.0.Success? && r.1 == After(c, where[..i + 1])
  {
    FirstUnsupportedNone(operators, where, i);
    ItemEffect(operators, where[i], After(c, where[..i]));
    AfterAppend(c, where[..i], [where[i]]);
    assert where[..i] + [where[i]] == where[..i + 1];
  }

  /** The i-th entry of the compiled list: its connective (none for the first) and its text. */
  function Entry(operators: map<Operator, string>, where: seq<Condition>, c: Context, i: nat): string
    requires i < |where| && ParseItem(operators, where[i], After(c, where[..i])).0.Success?
  {
    (if i == 0 then "" else ToUpper(where[i].boolean) + " ") + ParseItem(operators, where[i], After(c, where[..i])).0.value
  }

  /** The `foreach` from entry k on, after the first k entries were compiled. */
  lemma {:induction false} ParseItemsFrom(operators: map<Operator, string>, where: seq<Condition>, c: Context, k: nat)
    requires FirstUnsupported(operators, where).None? && k <= |where|
    requires forall i :: 0 <= i < |where| ==> ParseItem(operators, where[i], After(c, where[..i])).0.Success?
    ensures ParseItems(operators, where[k..], seq(k, i requires 0 <= i < k => Entry(operators, where, c, i)), After(c, where[..k])).0
      == Success(seq(|where|, i requires 0 <= i < |where| => Entry(operators, where, c, i)))
    decreases |where| - k
  {
    var parsed := seq(k, i requires 0 <= i < k => Entry(operators, where, c, i));
    if k == |where| {
      assert where[k..] == [];
      assert parsed == seq(|where|, i requires 0 <= i < |where| => Entry(operators, where, c, i));
    } else {
      ParseItemsAt(operators, where, c, k);
      ParseItemsFrom(operators, where, c, k + 1);
    }
  }

  /** One turn of the `foreach` at entry k: entry k is compiled and appended to the first k. */
  lemma ParseItemsAt(operators: map<Operator, string>, where: seq<Condition>, c: Context, k: nat)
    requires FirstUnsupported(operators, where).None? && k < |where|
    requires forall i :: 0 <= i < |where| ==> ParseItem(operators, where[i], After(c, where[..i])).0.Success?
    ensures ParseItems(operators, where[k..], seq(k, i requires 0 <= i < k => Entry(operators, where, c, i)), After(c, where[..k]))
      == ParseItems(operators, where[k + 1..], seq(k + 1, i requires 0 <= i < k + 1 => Entry(operators, where, c, i)), After(c, where[..k + 1]))
  {
    var parsed := seq(k, i requires 0 <= i < k => Entry(operators, where, c, i));
    var next := seq(k + 1, i requires 0 <= i < k + 1 => Entry(operators, where, c, i));
    var items := where[k..];
    assert items[0] == where[k] && items[1..] == where[k + 1..];
    EntryCompiles(operators, where, c, k);
    assert parsed + [Entry(operators, where, c, k)] == next;
  }

  /**
   * A list with no unsupported operator compiles to its entries joined by spaces:
   * each entry compiled in the state the entries before it leave, and every entry
   * but the first preceded by its upper-cased connective.
   */
  lemma ParseText(operators: map<Operator, string>, where: seq<Condition>, c: Context)
    requires FirstUnsupported(operators, where).None?
    ensures forall i :: 0 <= i < |where| ==> ParseItem(operators, where[i], After(c, where[..i])).0.Success?
    ensures Parse(operators, where, c).0
      == Success(Implode(" ", seq(|where|, i requires 0 <= i < |where| => Entry(operators, where, c, i))))
  {
    forall i | 0 <= i < |where|
      ensures ParseItem(operators, where[i], After(c, where[..i])).0.Success?
    {
      EntryCompiles(operators, where, c, i);
    }
    if where != [] {
      assert After(c, where[..0]) == c by {
        assert where[..0] == [];
      }
      ParseItemsFrom(operators, where, c, 0);
      assert where[0..] == where;
    }
  }

  /** Every template of `small` is in `big`, unchanged: what `Arr::only` keeps of a table. */
  predicate SubTable(small: map<Operator, string>, big: map<Operator, string>) {
    forall operator | operator in small :: operator in big && big[operator] == small[operator]
  }

  /** A list the smaller table fully supports compiles the same under the larger one: same text, same state. */
  lemma {:induction false} SubTableParse(small: map<Operator, string>, big: map<Operator, string>, where: seq<Condition>, c: Context)
    requires SubTable(small, big) && FirstUnsupported(small, where).None?
    ensures Parse(small, where, c) == Parse(big, where, c)
    decreases where, 1
  {
    if where != [] {
      SubTableItems(small, big, where, [], c);
    }
  }

  lemma {:induction false} SubTableItems(small: map<Operator, string>, big: map<Operator, string>,
                                         items: seq<Condition>, parsed: seq<string>, c: Context)
    requires SubTable(small, big) && FirstUnsupported(small, items).None?
    ensures ParseItems(small, items, parsed, c) == ParseItems(big, items, parsed, c)
    decreases items, 0
  {
    if items != [] {
      var condition := items[0];
      var prefix := if |parsed| > 0 then ToUpper(condition.boolean) + " " else "";
      SubTableItem(small, big, condition, c);
      var (item, c1) := ParseItem(small, condition, c);
      if item.Success? {
        SubTableItems(small, big, items[1..], parsed + [prefix + item.value], c1);
      }
    }
  }

  lemma {:induction false} SubTableItem(small: map<Operator, string>, big: map<Operator, string>, condition: Condition, c: Context)
    requires SubTable(small, big) && FirstUnsupportedIn(small, condition).None?
    ensures ParseItem(small, condition, c) == ParseItem(big, condition, c)
    decreases condition, 3
  {
    if condition.Nested? {
      SubTableParse(small, big, condition.children, c);
    }
  }

  // ------------------------------------------------------------ the text of one condition

  /** How many strings follow the attribute path in an operator's template. */
  function Arity(operator: Operator): nat {
    if operator == BETWEEN then 2 else if operator == NULL || operator == NOT_NULL then 0 else 1
  }

  /**
   * The DynamoDB syntax of each operator, written out: `path` is the
   * attribute's placeholder, `args` the value tokens (for IN, the joined
   * `:token` list).
   */
  function Syntax(operator: Operator, path: string, args: seq<string>): string
    requires |args| == Arity(operator)
  {
    match operator
    case EQ => path + " = :" + args[0]
    case LE => path + " <= :" + args[0]
    case LT => path + " < :" + args[0]
    case GE => path + " >= :" + args[0]
    case GT => path + " > :" + args[0]
    case NE => path + " <> :" + args[0]
    case BEGINS_WITH => "begins_with(" + path + ", :" + args[0] + ")"
    case CONTAINS => "contains(" + path + ", :" + args[0] + ")"
    case NOT_CONTAINS => "NOT contains(" + path + ", :" + args[0] + ")"
    case BETWEEN => "(" + path + " BETWEEN :" + args[0] + " AND :" + args[1] + ")"
    case IN => path + " IN (" + args[0] + ")"
    case NULL => "attribute_not_exists(" + path + ")"
    case NOT_NULL => "attribute_exists(" + path + ")"
  }

  /** Every template, filled by `sprintf`, reads as the operator's syntax. */
  lemma TemplateRendering(operator: Operator, path: string, args: seq<string>)
    requires |args| == Arity(operator)
    ensures Sprintf(Template(operator), [path] + args) == Syntax(operator, path, args)
  {
    if operator in {EQ, LE, LT, GE, GT, NE} {
      ComparisonRendering(operator, path, args);
    } else if operator in {BEGINS_WITH, CONTAINS, NOT_CONTAINS} {
      FunctionRendering(operator, path, args);
    } else if operator == IN {
      InShape();
      RenderInfixClosed(Template(operator), " IN (", ")", path, args);
    } else if operator == BETWEEN {
      BetweenShape();
      RenderBetween(Template(operator), path, args);
    } else {
      ExistsRendering(operator, path, args);
    }
  }

  lemma ComparisonShapes()
    ensures Template(EQ) == "%s" + (" = :" + ("%s" + ""))
    ensures Template(LE) == "%s" + (" <= :" + ("%s" + ""))
    ensures Template(LT) == "%s" + (" < :" + ("%s" + ""))
    ensures Template(GE) == "%s" + (" >= :" + ("%s" + ""))
    ensures Template(GT) == "%s" + (" > :" + ("%s" + ""))
    ensures Template(NE) == "%s" + (" <> :" + ("%s" + ""))
  {
  }

  lemma FunctionShapes()
    ensures Template(BEGINS_WITH) == "begins_with(" + ("%s" + (", :" + ("%s" + ")")))
    ensures Template(CONTAINS) == "contains(" + ("%s" + (", :" + ("%s" + ")")))
    ensures Template(NOT_CONTAINS) == "NOT contains(" + ("%s" + (", :" + ("%s" + ")")))
  {
  }

  lemma ExistsShapes()
    ensures Template(NULL) == "attribute_not_exists(" + ("%s" + ")")
    ensures Template(NOT_NULL) == "attribute_exists(" + ("%s" + ")")
  {
  }

  lemma InShape()
    ensures Template(IN) == "%s" + (" IN (" + ("%s" + ")"))
  {
  }

  lemma BetweenShape()
    ensures Template(BETWEEN) == "(" + ("%s" + (" BETWEEN :" + ("%s" + (" AND :" + ("%s" + ")")))))
  {
  }

  lemma ComparisonRendering(operator: Operator, path: string, args: seq<string>)
    requires operator in {EQ, LE, LT, GE, GT, NE} && |args| == 1
    ensures Sprintf(Template(operator), [path] + args) == Syntax(operator, path, args)
  {
    ComparisonShapes();
    var infix :=
      match operator
      case EQ => " = :" case LE => " <= :" case LT => " < :"
      case GE => " >= :" case GT => " > :" case _ => " <> :";
    RenderInfixClosed(Template(operator), infix, "", path, args);
    assert path + infix + args[0] + "" == path + infix + args[0];
  }

  lemma FunctionRendering(operator: Operator, path: string, args: seq<string>)
    requires operator in {BEGINS_WITH, CONTAINS, NOT_CONTAINS} && |args| == 1
    ensures Sprintf(Template(operator), [path] + args) == Syntax(operator, path, args)
  {
    FunctionShapes();
    var name :=
      match operator
      case BEGINS_WITH => "begins_with(" case CONTAINS => "contains(" case _ => "NOT contains(";
    RenderCall(Template(operator), name, path, args);
  }

  lemma ExistsRendering(operator: Operator, path: string, args: seq<string>)
    requires operator in {NULL, NOT_NULL} && |args| == 0
    ensures Sprintf(Template(operator), [path] + args) == Syntax(operator, path, args)
  {
    ExistsShapes();
    var name := if operator == NULL then "attribute_not_exists(" else "attribute_exists(";
    RenderUnary(Template(operator), name, path, args);
  }

  /** `%s<infix>%s<tail>`. */
  lemma RenderInfixClosed(template: string, infix: string, tail: string, path: string, args: seq<string>)
    requires template == "%s" + (infix + ("%s" + tail))
    requires '%' !in infix && '%' !in tail && |args| == 1
    ensures Sprintf(template, [path] + args) == path + infix + args[0] + tail
  {
    assert template == "" + ("%s" + (infix + ("%s" + tail)));
    Render2("", infix, tail, path, args[0]);
    assert [path] + args == [path, args[0]];
    assert "" + (path + (infix + (args[0] + tail))) == path + infix + args[0] + tail;
  }

  /** `<name>%s, :%s)`. */
  lemma RenderCall(template: string, name: string, path: string, args: seq<string>)
    requires template == name + ("%s" + (", :" + ("%s" + ")")))
    requires '%' !in name && |args| == 1
    ensures Sprintf(template, [path] + args) == name + path + ", :" + args[0] + ")"
  {
    Render2(name, ", :", ")", path, args[0]);
    assert [path] + args == [path, args[0]];
    assert name + (path + (", :" + (args[0] + ")"))) == name + path + ", :" + args[0] + ")";
  }

  /** `(%s BETWEEN :%s AND :%s)`. */
  lemma RenderBetween(template: string, path: string, args: seq<string>)
    requires template == "(" + ("%s" + (" BETWEEN :" + ("%s" + (" AND :" + ("%s" + ")")))))
    requires |args| == 2
    ensures Sprintf(template, [path] + args) == "(" + path + " BETWEEN :" + args[0] + " AND :" + args[1] + ")"
  {
    Render3("(", " BETWEEN :", " AND :", ")", path, args[0], args[1]);
    assert [path] + args == [path, args[0], args[1]];
    Associate7("(", path, " BETWEEN :", args[0], " AND :", args[1], ")");
  }

  /** `<name>%s)`. */
  lemma RenderUnary(template: string, name: string, path: string, args: seq<string>)
    requires template == name + ("%s" + ")")
    requires '%' !in name && |args| == 0
    ensures Sprintf(template, [path] + args) == name + path + ")"
  {
    Render1(name, ")", path);
    assert [path] + args == [path];
  }

  lemma Associate7(a: string, b: string, c: string, d: string, e: string, f: string, g: string)
    ensures a + (b + (c + (d + (e + (f + g))))) == a + b + c + d + e + f + g
  {
  }

  /** The strings that follow the attribute path when `parseCondition` fills a template. */
  function ArgsOf(operator: Operator, value: Value, counter: nat): (r: seq<string>)
    ensures |r| == Arity(operator)
  {
    if operator == BETWEEN then [P.Token(counter + 1), P.Token(counter + 2)]
    else if operator == IN then [Implode(", ", TokenList(counter, |ForeachValues(value)|))]
    else if operator == NULL || operator == NOT_NULL then []
    else [P.Token(counter + 1)]
  }

  /**
   * The text of one compiled condition, under a table that keeps the
   * operator's own template: the operator's syntax around the column's
   * placeholder and the fresh value tokens.
   */
  lemma ConditionText(operators: map<Operator, string>, condition: Condition, c: Context)
    requires condition.Atomic? && condition.operator in operators
    requires operators[condition.operator] == Template(condition.operator)
    ensures ParseCondition(operators, condition.column, condition.operator, condition.value, c).0
      == Success(Syntax(condition.operator,
                        Names.PlaceholderFor(Names.WithName(c.names, condition.column), condition.column),
                        ArgsOf(condition.operator, condition.value, c.counter)))
  {
    var operator := condition.operator;
    if operator == BETWEEN {
      ConditionTextBetween(operators, condition, c);
    } else if operator == IN {
      ConditionTextIn(operators, condition, c);
    } else if operator == NULL || operator == NOT_NULL {
      ConditionTextExists(operators, condition, c);
    } else {
      ConditionTextValue(operators, condition, c);
    }
  }

  /** `ConditionText` for BETWEEN. */
  lemma ConditionTextBetween(operators: map<Operator, string>, condition: Condition, c: Context)
    requires condition.Atomic? && condition.operator in operators
    requires operators[condition.operator] == Template(condition.operator)
    requires condition.operator == BETWEEN
    ensures ParseCondition(operators, condition.column, condition.operator, condition.value, c).0
      == Success(Syntax(condition.operator,
                        Names.PlaceholderFor(Names.WithName(c.names, condition.column), condition.column),
                        ArgsOf(condition.operator, condition.value, c.counter)))
  {
    var Atomic(name, operator, value, _) := condition;
    var path := Names.PlaceholderFor(Names.WithName(c.names, name), name);
    var args := ArgsOf(operator, value, c.counter);
    TemplateTruthy(operator);
    TemplateRendering(operator, path, args);
    assert [path] + args == [path, args[0], args[1]];
  }

  /** `ConditionText` for IN. */
  lemma ConditionTextIn(operators: map<Operator, string>, condition: Condition, c: Context)
    requires condition.Atomic? && condition.operator in operators
    requires operators[condition.operator] == Template(condition.operator)
    requires condition.operator == IN
    ensures ParseCondition(operators, condition.column, condition.operator, condition.value, c).0
      == Success(Syntax(condition.operator,
                        Names.PlaceholderFor(Names.WithName(c.names, condition.column), condition.column),
                        ArgsOf(condition.operator, condition.value, c.counter)))
  {
    var Atomic(name, operator, value, _) := condition;
    var path := Names.PlaceholderFor(Names.WithName(c.names, name), name);
    var args := ArgsOf(operator, value, c.counter);
    TemplateTruthy(operator);
    TemplateRendering(operator, path, args);
    assert [path] + args == [path, args[0]];
  }

  /** `ConditionText` for NULL and NOT_NULL. */
  lemma ConditionTextExists(operators: map<Operator, string>, condition: Condition, c: Context)
    requires condition.Atomic? && condition.operator in operators
    requires operators[condition.operator] == Template(condition.operator)
    requires condition.operator == NULL || condition.operator == NOT_NULL
    ensures ParseCondition(operators, condition.column, condition.operator, condition.value, c).0
      == Success(Syntax(condition.operator,
                        Names.PlaceholderFor(Names.WithName(c.names, condition.column), condition.column),
                        ArgsOf(condition.operator, condition.value, c.counter)))
  {
    var Atomic(name, operator, value, _) := condition;
    var path := Names.PlaceholderFor(Names.WithName(c.names, name), name);
    var args := ArgsOf(operator, value, c.counter);
    TemplateTruthy(operator);
    TemplateRendering(operator, path, args);
    assert [path] + args == [path];
  }

  /** `ConditionText` for a one-value operator. */
  lemma ConditionTextValue(operators: map<Operator, string>, condition: Condition, c: Context)
    requires condition.Atomic? && condition.operator in operators
    requires operators[condition.operator] == Template(condition.operator)
    requires condition.operator !in {BETWEEN, IN, NULL, NOT_NULL}
    ensures ParseCondition(operators, condition.column, condition.operator, condition.value, c).0
      == Success(Syntax(condition.operator,
                        Names.PlaceholderFor(Names.WithName(c.names, condition.column), condition.column),
                        ArgsOf(condition.operator, condition.value, c.counter)))
  {
    var Atomic(name, operator, value, _) := condition;
    var path := Names.PlaceholderFor(Names.WithName(c.names, name), name);
    var args := ArgsOf(operator, value, c.counter);
    TemplateTruthy(operator);
    TemplateRendering(operator, path, args);
    assert [path] + args == [path, args[0]];
  }

  /** No template is empty, so `empty($operators[$operator])` never holds for the generic table. */
  lemma TemplateTruthy(operator: Operator)
    ensures Truthy(Template(operator))
  {
    assert Template(operator)[0] in {'%', 'b', '(', 'c', 'N', 'a'};
  }

  // ------------------------------------------------------------ worked examples

  /** A fresh compile context: counter 0, names prefixed "#", values prefixed ":". */
  function Initial(): (c: Context)
    ensures c.counter == 0 && c.names.mapping.vals == map[] && c.values.mapping.vals == map[]
  {
    Context(0, Names.Fresh("#"), Values.Fresh(":"))
  }

  /** A PHP list `[a, b]` / `[a, b, c]`: keys "0", "1", … in order. */
  function List2(a: Value, b: Value): Value {
    Arr(OrdMap(["0", "1"], map["0" := a, "1" := b]))
  }

  function List3(a: Value, b: Value, c: Value): Value {
    Arr(OrdMap(["0", "1", "2"], map["0" := a, "1" := b, "2" := c]))
  }

  /** A list of one supported condition compiles to that condition's text. */
  lemma ParseOne(operators: map<Operator, string>, condition: Condition, c: Context)
    requires condition.Atomic? && Supported(operators, condition.operator)
    ensures Parse(operators, [condition], c).0
      == ParseCondition(operators, condition.column, condition.operator, condition.value, c).0
  {
    ParseConditionEffect(operators, condition, c);
    var r := ParseCondition(operators, condition.column, condition.operator, condition.value, c);
    assert ParseItem(operators, condition, c) == r;
    var text := r.0.value;
    assert [condition][1..] == [];
    assert "" + text == text;
    var none: seq<string> := [];
    assert none + [text] == [text];
    assert ParseItems(operators, [condition], [], c) == ParseItems(operators, [], [text], r.1);
  }

  /** The simple-name placeholder of a column registered in a fresh "#" table. */
  lemma FreshPath(name: string)
    requires !Names.IsNested(name)
    ensures Names.PlaceholderFor(Names.WithName(Names.Fresh("#"), name), name) == "#" + name
  {
  }

  lemma OperatorsTable(operator: Operator)
    ensures operator in OPERATORS && OPERATORS[operator] == Template(operator)
    ensures Supported(OPERATORS, operator)
  {
    TemplateTruthy(operator);
  }

  lemma GreaterThanLiterals()
    ensures "#" + "age" == "#age" && ":" + "a1" == ":a1"
    ensures Syntax(GT, "#age", ["a1"]) == "#age > :a1"
  {
    assert "#age" + " > :" + "a1" == "#age > :a1";
  }

  /** `age > 30` compiles to `#age > :a1`, registering `#age` and binding `:a1` to 30. */
  lemma ExampleGreaterThan()
    ensures var r := Parse(OPERATORS, [Atomic("age", GT, Int(30), "and")], Initial());
      && r.0 == Success("#age > :a1")
      && r.1.names.mapping.vals == map["#age" := "age"]
      && r.1.values.mapping.vals == map[":a1" := MarshalValue(Int(30))]
  {
    var condition := Atomic("age", GT, Int(30), "and");
    var c := Initial();
    var r := Parse(OPERATORS, [condition], c);
    OperatorsTable(GT);
    assert !Names.IsNested("age");
    P.FirstTokens();
    GreaterThanLiterals();
    calc {
      r.0;
      { ParseOne(OPERATORS, condition, c); }
      ParseCondition(OPERATORS, "age", GT, Int(30), c).0;
      { ConditionText(OPERATORS, condition, c); }
      Success(Syntax(GT, Names.PlaceholderFor(Names.WithName(c.names, "age"), "age"), ArgsOf(GT, Int(30), 0)));
      { FreshPath("age"); }
      Success(Syntax(GT, "#age", ["a1"]));
    }
    ParseEffect(OPERATORS, [condition], c);
    AfterAtomic(condition, c);
    assert ValuesOf(condition) == [Int(30)];
    BindOne(c.values, 0, Int(30));
    assert r.1.names.mapping.vals == map[]["#age" := "age"];
    assert r.1.values.mapping.vals == map[][":a1" := MarshalValue(Int(30))];
  }

  lemma BindThree(t: Values.Table, counter: nat, u: Value, v: Value, w: Value)
    ensures Bind(t, counter, [u, v, w])
      == Values.WithValue(Values.WithValue(Values.WithValue(t,
           P.Token(counter + 1), MarshalValue(u)), P.Token(counter + 2), MarshalValue(v)), P.Token(counter + 3), MarshalValue(w))
  {
    var first := Values.WithValue(t, P.Token(counter + 1), MarshalValue(u));
    assert [u, v, w][1..] == [v, w];
    BindTwo(first, counter + 1, v, w);
  }

  lemma ListOffsets(a: Value, b: Value)
    ensures Offset(List2(a, b), 0) == a && Offset(List2(a, b), 1) == b
  {
    assert NatToString(0) == "0" && NatToString(1) == "1";
  }

  lemma ListItems(a: Value, b: Value, c: Value)
    ensures ForeachValues(List3(a, b, c)) == [a, b, c]
  {
  }

  lemma BetweenLiterals()
    ensures "#" + "age" == "#age" && ":" + "a1" == ":a1" && ":" + "a2" == ":a2"
    ensures Syntax(BETWEEN, "#age", ["a1", "a2"]) == "(#age BETWEEN :a1 AND :a2)"
  {
    assert "(" + "#age" + " BETWEEN :" + "a1" + " AND :" + "a2" + ")" == "(#age BETWEEN :a1 AND :a2)";
  }

  /** `age BETWEEN [10, 20]` compiles to `(#age BETWEEN :a1 AND :a2)`. */
  lemma ExampleBetween()
    ensures Parse(OPERATORS, [Atomic("age", BETWEEN, List2(Int(10), Int(20)), "and")], Initial()).0
      == Success("(#age BETWEEN :a1 AND :a2)")
  {
    var value := List2(Int(10), Int(20));
    var condition := Atomic("age", BETWEEN, value, "and");
    var c := Initial();
    OperatorsTable(BETWEEN);
    assert !Names.IsNested("age");
    P.FirstTokens();
    BetweenLiterals();
    calc {
      Parse(OPERATORS, [condition], c).0;
      { ParseOne(OPERATORS, condition, c); }
      ParseCondition(OPERATORS, "age", BETWEEN, value, c).0;
      { ConditionText(OPERATORS, condition, c); }
      Success(Syntax(BETWEEN, Names.PlaceholderFor(Names.WithName(c.names, "age"), "age"), ArgsOf(BETWEEN, value, 0)));
      { FreshPath("age"); }
      Success(Syntax(BETWEEN, "#age", ["a1", "a2"]));
    }
  }

  lemma AgeNamed()
    ensures Names.WithName(Names.Fresh("#"), "age").mapping.vals == map["#age" := "age"]
  {
    assert !Names.IsNested("age");
    assert "#" + "age" == "#age";
    assert Names.WithName(Names.Fresh("#"), "age").mapping.vals == map[]["#age" := "age"];
  }

  lemma FirstTwoBound(v: Value, w: Value)
    ensures Bind(Values.Fresh(":"), 0, [v, w]).mapping.vals == map[":a1" := MarshalValue(v), ":a2" := MarshalValue(w)]
  {
    P.FirstTokens();
    BindTwo(Values.Fresh(":"), 0, v, w);
    assert ":" + "a1" == ":a1" && ":" + "a2" == ":a2";
    assert Bind(Values.Fresh(":"), 0, [v, w]).mapping.vals == map[][":a1" := MarshalValue(v)][":a2" := MarshalValue(w)];
  }

  /** Compiling `age BETWEEN [10, 20]` registers `#age` and binds 10 under `:a1`, then 20 under `:a2`. */
  lemma ExampleBetweenState()
    ensures var r := Parse(OPERATORS, [Atomic("age", BETWEEN, List2(Int(10), Int(20)), "and")], Initial());
      && r.1.names.mapping.vals == map["#age" := "age"]
      && r.1.values.mapping.vals == map[":a1" := MarshalValue(Int(10)), ":a2" := MarshalValue(Int(20))]
  {
    var condition := Atomic("age", BETWEEN, List2(Int(10), Int(20)), "and");
    OperatorsTable(BETWEEN);
    ParseEffect(OPERATORS, [condition], Initial());
    AfterAtomic(condition, Initial());
    ListOffsets(Int(10), Int(20));
    assert ValuesOf(condition) == [Int(10), Int(20)];
    AgeNamed();
    FirstTwoBound(Int(10), Int(20));
  }

  lemma InLiterals()
    ensures "#" + "age" == "#age"
    ensures Syntax(IN, "#age", [":a1, :a2, :a3"]) == "#age IN (:a1, :a2, :a3)"
  {
    assert "#age" + " IN (" + ":a1, :a2, :a3" + ")" == "#age IN (:a1, :a2, :a3)";
  }

  lemma InTokens()
    ensures TokenList(0, 3) == [":a1", ":a2", ":a3"]
    ensures Implode(", ", [":a1", ":a2", ":a3"]) == ":a1, :a2, :a3"
  {
    P.FirstTokens();
    assert ":" + "a1" == ":a1" && ":" + "a2" == ":a2" && ":" + "a3" == ":a3";
    assert [":a1", ":a2", ":a3"][1..] == [":a2", ":a3"] && [":a2", ":a3"][1..] == [":a3"];
    assert ":a1" + ", " + (":a2" + ", " + ":a3") == ":a1, :a2, :a3";
  }

  lemma InArgs()
    ensures ArgsOf(IN, List3(Int(1), Int(2), Int(3)), 0) == [":a1, :a2, :a3"]
  {
    ListItems(Int(1), Int(2), Int(3));
    InTokens();
  }

  lemma FirstThreeBound()
    ensures Bind(Values.Fresh(":"), 0, [Int(1), Int(2), Int(3)]).mapping.vals
      == map[":a1" := MarshalValue(Int(1)), ":a2" := MarshalValue(Int(2)), ":a3" := MarshalValue(Int(3))]
  {
    P.FirstTokens();
    BindThree(Values.Fresh(":"), 0, Int(1), Int(2), Int(3));
    assert ":" + "a1" == ":a1" && ":" + "a2" == ":a2" && ":" + "a3" == ":a3";
    assert Bind(Values.Fresh(":"), 0, [Int(1), Int(2), Int(3)]).mapping.vals
      == map[][":a1" := MarshalValue(Int(1))][":a2" := MarshalValue(Int(2))][":a3" := MarshalValue(Int(3))];
  }

  /** `age IN [1, 2, 3]` compiles to `#age IN (:a1, :a2, :a3)`, binding the items in order. */
  lemma ExampleIn()
    ensures var r := Parse(OPERATORS, [Atomic("age", IN, List3(Int(1), Int(2), Int(3)), "and")], Initial());
      && r.0 == Success("#age IN (:a1, :a2, :a3)")
      && r.1.names.mapping.vals == map["#age" := "age"]
      && r.1.values.mapping.vals
         == map[":a1" := MarshalValue(Int(1)), ":a2" := MarshalValue(Int(2)), ":a3" := MarshalValue(Int(3))]
  {
    var value := List3(Int(1), Int(2), Int(3));
    var condition := Atomic("age", IN, value, "and");
    var c := Initial();
    var r := Parse(OPERATORS, [condition], c);
    OperatorsTable(IN);
    assert !Names.IsNested("age");
    InLiterals();
    calc {
      r.0;
      { ParseOne(OPERATORS, condition, c); }
      ParseCondition(OPERATORS, "age", IN, value, c).0;
      { ConditionText(OPERATORS, condition, c); }
      Success(Syntax(IN, Names.PlaceholderFor(Names.WithName(c.names, "age"), "age"), ArgsOf(IN, value, 0)));
      { FreshPath("age"); InArgs(); }
      Success(Syntax(IN, "#age", [":a1, :a2, :a3"]));
    }
    ParseEffect(OPERATORS, [condition], c);
    AfterAtomic(condition, c);
    ListItems(Int(1), Int(2), Int(3));
    assert ValuesOf(condition) == [Int(1), Int(2), Int(3)];
    FirstThreeBound();
    assert r.1.names.mapping.vals == map[]["#age" := "age"];
  }

  /** `name = n` under the generic table: `#name = :token`, the next token. */
  lemma EqItem(name: string, n: int, boolean: string, c: Context)
    requires !Names.IsNested(name)
    ensures var r := ParseItem(OPERATORS, Atomic(name, EQ, Int(n), boolean), c);
      && r.0 == Success(c.names.prefix + name + " = :" + P.Token(c.counter + 1))
      && r.1 == After(c, [Atomic(name, EQ, Int(n), boolean)])
      && r.1.counter == c.counter + 1 && r.1.names.prefix == c.names.prefix
  {
    var condition := Atomic(name, EQ, Int(n), boolean);
    OperatorsTable(EQ);
    ConditionText(OPERATORS, condition, c);
    Names.PlaceholderAfterSet(c.names, name);
    ParseConditionEffect(OPERATORS, condition, c);
    AfterAtomic(condition, c);
  }

  lemma UpperConnectives()
    ensures ToUpper("and") == "AND" && ToUpper("or") == "OR"
  {
    assert ['a', 'n', 'd'] == "and" && ['A', 'N', 'D'] == "AND";
    assert ['o', 'r'] == "or" && ['O', 'R'] == "OR";
  }

  lemma GroupLiterals()
    ensures "#" + "b" + " = :" + "a2" == "#b = :a2" && "#" + "c" + " = :" + "a3" == "#c = :a3"
    ensures "" + "#b = :a2" == "#b = :a2" && ("AND" + " ") + "#c = :a3" == "AND #c = :a3"
    ensures "(" + "#b = :a2 AND #c = :a3" + ")" == "(#b = :a2 AND #c = :a3)"
  {
    GroupItemLiterals();
    GroupParenLiteral();
  }

  lemma GroupItemLiterals()
    ensures "#" + "b" + " = :" + "a2" == "#b = :a2" && "#" + "c" + " = :" + "a3" == "#c = :a3"
    ensures "" + "#b = :a2" == "#b = :a2" && ("AND" + " ") + "#c = :a3" == "AND #c = :a3"
  {
  }

  lemma GroupParenLiteral()
    ensures "(" + "#b = :a2 AND #c = :a3" + ")" == "(#b = :a2 AND #c = :a3)"
  {
  }

  lemma GroupJoin()
    ensures Implode(" ", ["#b = :a2", "AND #c = :a3"]) == "#b = :a2 AND #c = :a3"
  {
    ImplodeTwo(" ", "#b = :a2", "AND #c = :a3");
    assert "#b = :a2" + " " + "AND #c = :a3" == "#b = :a2 AND #c = :a3";
  }

  /** The group `(b = 2 AND c = 3)`, compiled after one value has been bound. */
  lemma GroupText(c: Context)
    requires c.counter == 1 && c.names.prefix == "#"
    ensures ParseNestedCondition(OPERATORS, [Atomic("b", EQ, Int(2), "and"), Atomic("c", EQ, Int(3), "and")], c).0
      == Success("(#b = :a2 AND #c = :a3)")
  {
    var b, c' := Atomic("b", EQ, Int(2), "and"), Atomic("c", EQ, Int(3), "and");
    var group := [b, c'];
    assert !Names.IsNested("b") && !Names.IsNested("c");
    P.FirstTokens();
    GroupLiterals();
    UpperConnectives();
    EqItem("b", 2, "and", c);
    var c2 := After(c, [b]);
    EqItem("c", 3, "and", c2);
    var c3 := After(c2, [c']);
    var first, second := "#b = :a2", "AND #c = :a3";
    assert ParseItem(OPERATORS, b, c) == (Success(first), c2);
    assert ParseItem(OPERATORS, c', c2) == (Success("#c = :a3"), c3);
    var none: seq<string> := [];
    assert group[0] == b && group[1..] == [c'] && [c'][1..] == [];
    assert none + ["" + first] == [first];
    assert ParseItems(OPERATORS, group, none, c) == ParseItems(OPERATORS, [c'], [first], c2);
    assert [first] + [(ToUpper(c'.boolean) + " ") + "#c = :a3"] == [first, second];
    assert ParseItems(OPERATORS, [c'], [first], c2) == ParseItems(OPERATORS, [], [first, second], c3);
    GroupJoin();
  }

  lemma NestedLiterals()
    ensures "#" + "a" + " = :" + "a1" == "#a = :a1" && "" + "#a = :a1" == "#a = :a1"
    ensures ("OR" + " ") + "(#b = :a2 AND #c = :a3)" == "OR (#b = :a2 AND #c = :a3)"
  {
  }

  lemma NestedJoin()
    ensures Implode(" ", ["#a = :a1", "OR (#b = :a2 AND #c = :a3)"]) == "#a = :a1 OR (#b = :a2 AND #c = :a3)"
  {
    ImplodeTwo(" ", "#a = :a1", "OR (#b = :a2 AND #c = :a3)");
    assert "#a = :a1" + " " + "OR (#b = :a2 AND #c = :a3)" == "#a = :a1 OR (#b = :a2 AND #c = :a3)";
  }

  /** The nested example's columns and values, depth first. */
  lemma NestedLists(where: seq<Condition>)
    requires where == [Atomic("a", EQ, Int(1), "and"),
                       Nested([Atomic("b", EQ, Int(2), "and"), Atomic("c", EQ, Int(3), "and")], "or")]
    ensures ValueList(where) == [Int(1), Int(2), Int(3)]
    ensures ColumnList(where) == ["a", "b", "c"]
  {
    var group := where[1].children;
    assert where[1..] == [where[1]] && where[1..][1..] == [] && group[1..] == [group[1]] && group[1..][1..] == [];
    assert ValueList(group[1..]) == [Int(3)];
    assert ValueList(group) == [Int(2), Int(3)];
    assert ValueList(where[1..]) == [Int(2), Int(3)];
    assert ColumnList(group[1..]) == ["c"];
    assert ColumnList(group) == ["b", "c"];
    assert ColumnsOf(where[1]) == ["b", "c"];
    assert ColumnList(where[1..]) == ["b", "c"];
  }

  lemma FirstThreeNamed()
    ensures Names.WithNames(Names.Fresh("#"), ["a", "b", "c"]).mapping.vals == map["#a" := "a", "#b" := "b", "#c" := "c"]
  {
    var t0 := Names.Fresh("#");
    assert !Names.IsNested("a") && !Names.IsNested("b") && !Names.IsNested("c");
    assert ["a", "b", "c"][1..] == ["b", "c"] && ["b", "c"][1..] == ["c"] && ["c"][1..] == [];
    var t1 := Names.WithName(t0, "a");
    var t2 := Names.WithName(t1, "b");
    Names.SetSimple(t0, "a");
    Names.SetSimple(t1, "b");
    Names.SetSimple(t2, "c");
    assert "#" + "a" == "#a" && "#" + "b" == "#b" && "#" + "c" == "#c";
    assert Names.WithNames(t0, ["a", "b", "c"]).mapping.vals == map[]["#a" := "a"]["#b" := "b"]["#c" := "c"];
  }

  /** The first item of the nested example: `#a = :a1`, then the group is compiled after it. */
  lemma NestedFirstStep()
    ensures var a := Atomic("a", EQ, Int(1), "and");
      var group := Nested([Atomic("b", EQ, Int(2), "and"), Atomic("c", EQ, Int(3), "and")], "or");
      ParseItems(OPERATORS, [a, group], [], Initial()) == ParseItems(OPERATORS, [group], ["#a = :a1"], After(Initial(), [a]))
  {
    var a := Atomic("a", EQ, Int(1), "and");
    var group := Nested([Atomic("b", EQ, Int(2), "and"), Atomic("c", EQ, Int(3), "and")], "or");
    var c := Initial();
    P.FirstTokens();
    NestedLiterals();
    EqItem("a", 1, "and", c);
    assert [a, group][0] == a && [a, group][1..] == [group];
    assert ParseItem(OPERATORS, a, c) == (Success("#a = :a1"), After(c, [a]));
    var none: seq<string> := [];
    assert none + ["" + "#a = :a1"] == ["#a = :a1"];
  }

  /** The group of the nested example, compiled after `#a = :a1`, is the second item, in parentheses and after `OR`. */
  lemma NestedSecondStep(c1: Context)
    requires c1.counter == 1 && c1.names.prefix == "#"
    ensures var group := Nested([Atomic("b", EQ, Int(2), "and"), Atomic("c", EQ, Int(3), "and")], "or");
      ParseItems(OPERATORS, [group], ["#a = :a1"], c1).0 == Success(["#a = :a1", "OR (#b = :a2 AND #c = :a3)"])
  {
    var group := Nested([Atomic("b", EQ, Int(2), "and"), Atomic("c", EQ, Int(3), "and")], "or");
    NestedLiterals();
    UpperConnectives();
    GroupText(c1);
    assert ParseItem(OPERATORS, group, c1).0 == Success("(#b = :a2 AND #c = :a3)");
    assert [group][0] == group && [group][1..] == [];
    assert ParseItems(OPERATORS, [group], ["#a = :a1"], c1).0
      == ParseItems(OPERATORS, [], ["#a = :a1"] + [(ToUpper(group.boolean) + " ") + "(#b = :a2 AND #c = :a3)"], ParseItem(OPERATORS, group, c1).1).0;
    assert ["#a = :a1"] + [(ToUpper(group.boolean) + " ") + "(#b = :a2 AND #c = :a3)"]
      == ["#a = :a1", "OR (#b = :a2 AND #c = :a3)"];
  }

  /** `a = 1 OR (b = 2 AND c = 3)`: the group is compiled in place, in parentheses, continuing the numbering. */
  lemma ExampleNested()
    ensures Parse(OPERATORS, [Atomic("a", EQ, Int(1), "and"),
                              Nested([Atomic("b", EQ, Int(2), "and"), Atomic("c", EQ, Int(3), "and")], "or")],
                  Initial()).0
      == Success("#a = :a1 OR (#b = :a2 AND #c = :a3)")
  {
    var a := Atomic("a", EQ, Int(1), "and");
    NestedFirstStep();
    EqItem("a", 1, "and", Initial());
    NestedSecondStep(After(Initial(), [a]));
    NestedJoin();
  }

  /** Compiling `a = 1 OR (b = 2 AND c = 3)` registers `#a`, `#b`, `#c` and binds 1, 2, 3 under `:a1`, `:a2`, `:a3`. */
  lemma ExampleNestedState()
    ensures var r := Parse(OPERATORS, [Atomic("a", EQ, Int(1), "and"),
                                       Nested([Atomic("b", EQ, Int(2), "and"), Atomic("c", EQ, Int(3), "and")], "or")],
                           Initial());
      && r.1.names.mapping.vals == map["#a" := "a", "#b" := "b", "#c" := "c"]
      && r.1.values.mapping.vals
         == map[":a1" := MarshalValue(Int(1)), ":a2" := MarshalValue(Int(2)), ":a3" := MarshalValue(Int(3))]
  {
    var where := [Atomic("a", EQ, Int(1), "and"),
                  Nested([Atomic("b", EQ, Int(2), "and"), Atomic("c", EQ, Int(3), "and")], "or")];
    ParseEffect(OPERATORS, where, Initial());
    NestedLists(where);
    FirstThreeNamed();
    FirstThreeBound();
  }
}
