/**
 * `HasParsers`: the compile context of one query. A single placeholder
 * counter, one names table and one values table are shared by the key
 * condition, filter, projection and update parsers.
 */
module HasParsers {
  import opened Wrappers
  import opened Marshaler
  import opened Conditions
  import P = Placeholder
  import Names = ExpressionAttributeNames
  import Values = ExpressionAttributeValues
  import CE = ConditionExpression
  import KCE = KeyConditionExpression
  import PE = ProjectionExpression
  import UE = UpdateExpression

  /** The parsers' fields; each is null until `setupExpressions()`. */
  class HasParsers {
    var filterExpression: CE.ConditionExpression?
    var keyConditionExpression: CE.ConditionExpression?
    var projectionExpression: PE.ProjectionExpression?
    var updateExpression: UE.UpdateExpression?
    var expressionAttributeNames: Names.ExpressionAttributeNames?
    var expressionAttributeValues: Values.ExpressionAttributeValues?
    var placeholder: P.Placeholder?

    constructor ()
      ensures placeholder == null && expressionAttributeNames == null && expressionAttributeValues == null
      ensures keyConditionExpression == null && filterExpression == null
      ensures projectionExpression == null && updateExpression == null
    {
      filterExpression, keyConditionExpression := null, null;
      projectionExpression, updateExpression := null, null;
      expressionAttributeNames, expressionAttributeValues, placeholder := null, null, null;
    }

    /** Every parser is set up over the one counter and the two shared tables. */
    ghost predicate Shared()
      reads this
    {
      && placeholder != null && expressionAttributeNames != null && expressionAttributeValues != null
      && keyConditionExpression != null && filterExpression != null
      && projectionExpression != null && updateExpression != null
      && Wired(placeholder, expressionAttributeNames, expressionAttributeValues,
               keyConditionExpression, filterExpression, projectionExpression, updateExpression)
    }

    ghost predicate Valid()
      reads this, expressionAttributeNames, expressionAttributeValues
    {
      Shared() && expressionAttributeNames.Valid() && expressionAttributeValues.Valid()
    }

    /** `setupExpressions()`: fresh shared objects, and every parser wired to them. */
    method SetupExpressions()
      modifies this
      ensures Valid()
      ensures fresh(placeholder) && fresh(expressionAttributeNames) && fresh(expressionAttributeValues)
      ensures placeholder.counter == 0
      ensures expressionAttributeNames.Model() == Names.Fresh("#")
      ensures expressionAttributeValues.Model() == Values.Fresh(":")
    {
      var counter, names, values, key, filter, projection, update := NewParsers();
      placeholder, expressionAttributeNames, expressionAttributeValues := counter, names, values;
      keyConditionExpression, filterExpression := key, filter;
      projectionExpression, updateExpression := projection, update;
    }

    /** `resetExpressions()`: the counter back to 0 and both shared tables emptied, prefixes kept. */
    method ResetExpressions()
      requires Valid()
      modifies placeholder, expressionAttributeNames, expressionAttributeValues
      ensures Valid()
      ensures placeholder.counter == 0
      ensures expressionAttributeNames.Model() == Names.Fresh(old(expressionAttributeNames.prefix))
      ensures expressionAttributeValues.Model() == Values.Fresh(old(expressionAttributeValues.prefix))
    {
      filterExpression.Reset();
      keyConditionExpression.Reset();
      updateExpression.Reset();
    }
  }

  /** The key and filter parsers use the shared counter and both tables; projection and update use the names table. */
  ghost predicate Wired(counter: P.Placeholder, names: Names.ExpressionAttributeNames, values: Values.ExpressionAttributeValues,
                        key: CE.ConditionExpression, filter: CE.ConditionExpression,
                        projection: PE.ProjectionExpression, update: UE.UpdateExpression)
  {
    && key.placeholder == counter && key.values == values && key.names == names
    && key.operators == KCE.SupportedOperators()
    && filter.placeholder == counter && filter.values == values && filter.names == names
    && filter.operators == OPERATORS
    && projection.names == names && update.names == names
  }

  /** The objects `setupExpressions()` creates: a counter at 0, empty tables, and the four parsers over them. */
  method NewParsers()
    returns (counter: P.Placeholder, names: Names.ExpressionAttributeNames, values: Values.ExpressionAttributeValues,
             key: CE.ConditionExpression, filter: CE.ConditionExpression,
             projection: PE.ProjectionExpression, update: UE.UpdateExpression)
    ensures fresh(counter) && fresh(names) && fresh(values)
    ensures counter.counter == 0 && names.Valid() && values.Valid()
    ensures names.Model() == Names.Fresh("#") && values.Model() == Values.Fresh(":")
    ensures Wired(counter, names, values, key, filter, projection, update)
  {
    counter := new P.Placeholder();
    names := new Names.ExpressionAttributeNames("#");
    values := new Values.ExpressionAttributeValues(":");
    key, filter, projection, update := Wire(counter, names, values);
  }

  /**
   * The four parsers of `setupExpressions()`, built over the given shared objects.
   * The filter compiler is assumed to be `ConditionExpression` with its full
   * operator table, because the `FilterExpression` class is not part of this model.
   */
  method Wire(counter: P.Placeholder, names: Names.ExpressionAttributeNames, values: Values.ExpressionAttributeValues)
    returns (key: CE.ConditionExpression, filter: CE.ConditionExpression,
             projection: PE.ProjectionExpression, update: UE.UpdateExpression)
    ensures Wired(counter, names, values, key, filter, projection, update)
  {
    key := KCE.New(counter, values, names);
    filter := new CE.ConditionExpression(counter, values, names);
    projection := new PE.ProjectionExpression(names);
    update := new UE.UpdateExpression(names);
  }

  /** Resetting twice is resetting once: the cleared state has counter 0 and empty tables. */
  lemma ResetIdempotent(c: Context)
    ensures Cleared(Cleared(c)) == Cleared(c)
    ensures Cleared(c).counter == 0
    ensures Cleared(c).names.mapping.vals == map[] && Cleared(c).values.mapping.vals == map[]
  {
  }

  /**
   * Compiling the key conditions and then the filter over the shared counter
   * never reuses a value placeholder: every value the key conditions bound
   * is still bound, to the same value, after the filter is compiled.
   */
  lemma KeyThenFilterKeepsValues(keyWhere: seq<Condition>, filterWhere: seq<Condition>, c: Context, i: nat)
    requires i < |ValueList(keyWhere)|
    ensures var (keyText, c1) := Parse(KCE.SupportedOperators(), keyWhere, c);
      var (filterText, c2) := Parse(OPERATORS, filterWhere, c1);
      var k := c.values.prefix + P.Token(c.counter + 1 + i);
      keyText.Success? && filterText.Success? ==>
        k in c2.values.mapping.vals && c2.values.mapping.vals[k] == MarshalValue(ValueList(keyWhere)[i])
  {
    var (keyText, c1) := Parse(KCE.SupportedOperators(), keyWhere, c);
    var (filterText, c2) := Parse(OPERATORS, filterWhere, c1);
    if keyText.Success? && filterText.Success? {
      ParseEffect(KCE.SupportedOperators(), keyWhere, c);
      ParseEffect(OPERATORS, filterWhere, c1);
      var k := c.values.prefix + P.Token(c.counter + 1 + i);
      BindBinds(c.values, c.counter, ValueList(keyWhere), i);
      forall j: nat | c1.counter < j <= c1.counter + |ValueList(filterWhere)|
        ensures k != c1.values.prefix + P.Token(j)
      {
        if k == c1.values.prefix + P.Token(j) {
          PrefixCancel(c.values.prefix, P.Token(c.counter + 1 + i), P.Token(j));
          P.TokenInjective(c.counter + 1 + i, j);
        }
      }
      BindKeeps(c1.values, c1.counter, ValueList(filterWhere), k);
    }
  }
}
