# DynamoDB query compilation for Eloquent models, in Dafny

This project models the core of `renoki-co/dynamodb`, a Laravel/Eloquent
adapter for Amazon DynamoDB. It covers the parts that turn a model's `where`
clauses into DynamoDB request fragments and proves properties of them:

- **operator table** (`ComparisonOperator`): the 13 user-facing symbols, the
  canonical DynamoDB operator each one stands for, and which operators a hash
  or range key condition may use;
- **expression compilers** (`Placeholder`, `ExpressionAttributeNames`,
  `ExpressionAttributeValues`, `ConditionExpression`,
  `KeyConditionExpression`, `ProjectionExpression`, `UpdateExpression`,
  `HasParsers`): a shared value-placeholder counter (`a1`, `a2`, …), the
  `#name` and `:value` tables, and the compilers that render
  `KeyConditionExpression`, `FilterExpression`, `ProjectionExpression` and
  `REMOVE` clauses while filling those tables;
- **condition analyzer** (`Index`, `Analyzer`): the choice of a secondary
  index for a set of conditions, and the split into key conditions and
  filter conditions;
- **key helpers** (`DynamoDbModel`, `DynamoDbCollection`, `Helper`): key
  names, key values, `setId` and the pagination cursor `lastKey`;
- **raw request** (`RawDynamoDbQuery`, `QueryBuilder`): the request map
  built by the query builder's setters and `__call`, and how `finalize`
  drops empty entries.

Modules `Wrappers`, `OrderedMap`, `Php` and `Marshaler` are support
definitions. A PHP array is an `OrdMap` (key order plus a map). A PHP
value is `Php.Value`. `Php` also defines `strtolower`/`strtoupper`,
`implode`, `sprintf` with `%s`, `empty` and `is_numeric`. Objects whose
fields PHP updates in place are Dafny classes. Each of their methods is
proved against a pure function over the same state. For example,
`ConditionExpression.ConditionExpression.Parse` is proved equal to
`Conditions.Parse` over the counter and both tables.

Files follow the source: `conditions.dfy` holds the pure specification of
`ConditionExpression.php`, and `condition_expression.dfy` holds its class.

`Analyzer::getIndex` takes an index when the number of conditions on its
key columns equals its key count: one for a hash-only index, two for a
composite one.

## Model

| member | source | states |
|---|---|---|
| ComparisonOperator.GetSupportedOperators | src/ComparisonOperator.php:50-53 | the supported symbols are 13 distinct strings, exactly the keys of the operator mapping |
| ComparisonOperator.MappingIsValid | src/ComparisonOperator.php:26-43 | the mapping lists each of its 13 symbols once |
| ComparisonOperator.IsValidOperator | src/ComparisonOperator.php:60-66 | an operator is valid iff its lower-case form is one of the 13 symbols |
| ComparisonOperator.GetDynamoDbOperator | src/ComparisonOperator.php:74-80 | the canonical operator of a valid symbol is the one whose symbol is the lower-cased input, so it inverts `SymbolOf` |
| ComparisonOperator.GetQuerySupportedOperators | src/ComparisonOperator.php:89-104 | the key operators start with EQ, list each operator once and never include a filter-only operator |
| ComparisonOperator.IsValidQueryOperator | src/ComparisonOperator.php:113-118 | a hash key accepts only the symbol `=` (in any case); a range key also `<=`, `<`, `>=`, `>`, `begins_with` and `between` |
| ComparisonOperator.IsValidQueryDynamoDbOperator | src/ComparisonOperator.php:127-130 | IN, NE, CONTAINS, NOT_CONTAINS, NULL and NOT_NULL are never valid for a key, and EQ is valid for either key |
| ComparisonOperator.Is | src/ComparisonOperator.php:139-144 | `is(op, d)` holds iff the lower-cased op is the symbol of d; an unknown symbol never matches |
| ComparisonOperator.IsValidOperatorIgnoresCase | src/ComparisonOperator.php:60-80 | validity and the canonical operator do not depend on letter case |
| ComparisonOperator.GetDynamoDbOperatorExamples | src/ComparisonOperator.php:74-80 | `>=` maps to GE, `!=` to NE, `Between` to BETWEEN, and `<>` is not valid |
| ComparisonOperator.MappingIsBijective | src/ComparisonOperator.php:26-43 | two symbols with the same canonical operator are the same symbol |
| ComparisonOperator.SymbolInTable | src/ComparisonOperator.php:26-43 | every canonical operator has a symbol in the table, and the table maps that symbol back to it |
| ComparisonOperator.TableSymbol | src/ComparisonOperator.php:26-43 | every symbol in the table is the symbol of the operator it maps to |
| ComparisonOperator.HashKeyQueryOperators | src/ComparisonOperator.php:89-104 | a hash key accepts exactly EQ |
| ComparisonOperator.RangeKeyQueryOperators | src/ComparisonOperator.php:89-104 | a range key accepts exactly EQ, LE, LT, GE, GT, BEGINS_WITH, BETWEEN, a superset of the hash-key set |
| ComparisonOperator.IsMatchesMapping | src/ComparisonOperator.php:139-144 | `is(op, d)` holds iff op is valid and maps to d |
| Placeholder.FirstTokens | src/Parsers/Placeholder.php:29-34 | counter values 1, 2 and 3 give tokens `a1`, `a2` and `a3` |
| Placeholder.TokenInjective | src/Parsers/Placeholder.php:31-33 | two tokens are equal iff their counter values are equal, so successive tokens never repeat |
| Placeholder.Placeholder.constructor | src/Parsers/Placeholder.php:19-22 | a new counter is 0 |
| Placeholder.Placeholder.Next | src/Parsers/Placeholder.php:29-34 | the counter goes up by one and the token is `a` followed by the new counter |
| Placeholder.Placeholder.Reset | src/Parsers/Placeholder.php:41-46 | the counter is 0 afterwards |
| Placeholder.ResetThenNext | src/Parsers/Placeholder.php:29-46 | after a reset the first two tokens are `a1` and `a2`; resetting twice and calling `next` again gives `a1` |
| ExpressionAttributeNames.SetNested | src/Parsers/ExpressionAttributeNames.php:47-56 | setting a nested name appends it to the nested list and leaves the mapping alone; repeats accumulate |
| ExpressionAttributeNames.SetSimple | src/Parsers/ExpressionAttributeNames.php:47-56 | setting a simple name binds prefix+name to the name, leaves the nested list alone, and setting it again changes nothing |
| ExpressionAttributeNames.PlaceholderAfterSet | src/Parsers/ExpressionAttributeNames.php:75-84 | after `set`, `placeholder` gives prefix+name for a simple name and the name itself for an unregistered nested one |
| ExpressionAttributeNames.PlaceholderListShape | src/Parsers/ExpressionAttributeNames.php:101-104 | `placeholders()` lists the registered keys, each once, then the nested names in order |
| ExpressionAttributeNames.WithNameConsistent | src/Parsers/ExpressionAttributeNames.php:55 | `set` keeps every key equal to the prefix plus its name |
| ExpressionAttributeNames.ConsistentLookup | src/Parsers/ExpressionAttributeNames.php:64-67 | in a consistent table, `get(prefix+n)` is n |
| ExpressionAttributeNames.WithNamesRegistersAll | src/Parsers/ExpressionAttributeNames.php:47-56 | setting a list keeps old keys, registers every simple name, appends exactly the nested names and keeps consistency |
| ExpressionAttributeNames.WithNamesAppend | src/Parsers/ExpressionAttributeNames.php:47-56 | setting `a + b` is setting `a` and then `b` |
| ExpressionAttributeNames.WithNamesExtends | src/Parsers/ExpressionAttributeNames.php:47-56 | setting names only extends the key order and the nested list |
| ExpressionAttributeNames.WithNamesRepeat | src/Parsers/ExpressionAttributeNames.php:55 | setting a simple name already in the list again changes nothing |
| ExpressionAttributeNames.WithNamesValid | src/Parsers/ExpressionAttributeNames.php:47-56 | setting names keeps the mapping a well-formed ordered map |
| ExpressionAttributeNames.ResetEmpties | src/Parsers/ExpressionAttributeNames.php:111-117 | after `reset` there are no names and no placeholders |
| ExpressionAttributeNames.ExpressionAttributeNames.constructor | src/Parsers/ExpressionAttributeNames.php:34-39 | a new table is empty and keeps its prefix |
| ExpressionAttributeNames.ExpressionAttributeNames.Set | src/Parsers/ExpressionAttributeNames.php:47-56 | the new table is the old one with the name set |
| ExpressionAttributeNames.ExpressionAttributeNames.Get | src/Parsers/ExpressionAttributeNames.php:64-67 | a registered placeholder is one of `placeholders()`, and in a consistent table `placeholder(get(p))` is p again |
| ExpressionAttributeNames.ExpressionAttributeNames.Placeholder | src/Parsers/ExpressionAttributeNames.php:75-84 | the registered key prefix+name, which in a consistent table maps back to the name, when there is one; otherwise the name itself |
| ExpressionAttributeNames.ExpressionAttributeNames.All | src/Parsers/ExpressionAttributeNames.php:91-94 | a well-formed table whose keys are the first entries of `placeholders()`, each `prefix + name => name` in a consistent table |
| ExpressionAttributeNames.ExpressionAttributeNames.Placeholders | src/Parsers/ExpressionAttributeNames.php:101-104 | lists exactly the registered keys and the nested paths, one entry for each |
| ExpressionAttributeNames.ExpressionAttributeNames.Reset | src/Parsers/ExpressionAttributeNames.php:111-117 | the mapping and the nested list are empty afterwards, and the prefix is kept |
| ExpressionAttributeValues.SetThenGet | src/Parsers/ExpressionAttributeValues.php:40-54 | `set(p, v)` binds prefix+p to v, `get` reads the prefixed key, and no other key changes |
| ExpressionAttributeValues.SetOverwritesInPlace | src/Parsers/ExpressionAttributeValues.php:40-43 | setting a bound placeholder again overwrites the value and keeps the key order |
| ExpressionAttributeValues.ExpressionAttributeValues.constructor | src/Parsers/ExpressionAttributeValues.php:26-31 | a new table is empty |
| ExpressionAttributeValues.ExpressionAttributeValues.Set | src/Parsers/ExpressionAttributeValues.php:40-43 | the new table is the old one with prefix+placeholder bound |
| ExpressionAttributeValues.ExpressionAttributeValues.Get | src/Parsers/ExpressionAttributeValues.php:51-54 | a bound key is one of `placeholders()` and the value read is its entry in `all()` |
| ExpressionAttributeValues.ExpressionAttributeValues.All | src/Parsers/ExpressionAttributeValues.php:61-64 | a well-formed table whose keys, in order, are `placeholders()` |
| ExpressionAttributeValues.ExpressionAttributeValues.Placeholders | src/Parsers/ExpressionAttributeValues.php:71-74 | lists every bound key exactly once and nothing else |
| ExpressionAttributeValues.ExpressionAttributeValues.Reset | src/Parsers/ExpressionAttributeValues.php:81-86 | the table is empty afterwards |
| Conditions.BindNext | src/Parsers/ConditionExpression.php:185-188 | binding a value takes the next token, raises the counter by one and leaves the names alone |
| Conditions.ParseNullCondition | src/Parsers/ConditionExpression.php:240-243 | NULL and NOT_NULL consume no placeholder and change nothing |
| Conditions.FirstUnsupportedSpec | src/Parsers/ConditionExpression.php:161-171 | the first unsupported operator is none iff every operator used, nested groups included, is in the table |
| Conditions.BindAppend | src/Parsers/ConditionExpression.php:223-228 | binding `a + b` is binding `a` and then `b` from the advanced counter |
| Conditions.BindKeeps | src/Parsers/ConditionExpression.php:223-228 | binding values leaves every key that is not one of the fresh tokens untouched |
| Conditions.BindBinds | src/Parsers/ConditionExpression.php:223-228 | the i-th value is bound, marshaled, under the (counter+1+i)-th token |
| Conditions.ParseConditionEffect | src/Parsers/ConditionExpression.php:161-190 | an atomic condition compiles iff its operator is in the table; otherwise it throws `<OP> is not supported` and changes nothing; on success the state is the column registered and its values bound |
| Conditions.ParseEffect | src/Parsers/ConditionExpression.php:84-116 | `parse` succeeds iff no operator used is unsupported, throws for the first unsupported one, and on success registers every column and binds every value in order |
| Conditions.ParseItemsEffect | src/Parsers/ConditionExpression.php:92-113 | the loop over the conditions succeeds under the same condition and compiles one item per condition |
| Conditions.ParseNestedEffect | src/Parsers/ConditionExpression.php:146-151 | a group compiles like `parse` of its children |
| Conditions.ParseText | src/Parsers/ConditionExpression.php:84-116 | with every operator supported, each condition compiles in the state the ones before it leave, and `parse` returns those texts joined by single spaces, every one but the first preceded by its upper-cased boolean and a space |
| Conditions.EntryCompiles | src/Parsers/ConditionExpression.php:92-113 | with every operator supported, the i-th condition compiles in the state the conditions before it leave, and leaves the state of the first i+1 |
| Conditions.ParseItemsFrom | src/Parsers/ConditionExpression.php:92-115 | the loop, resumed after the first k entries were compiled, yields every entry in order |
| Conditions.SubTableParse | src/Parsers/KeyConditionExpression.php:15-26 | when every operator used is in a smaller table that agrees with a larger one, both tables compile the same text and state |
| Conditions.TemplateRendering | src/Parsers/ConditionExpression.php:18-32 | each operator's template renders to its DynamoDB syntax: infix comparisons, function calls, BETWEEN … AND …, IN (…), attribute_(not_)exists |
| Conditions.ConditionText | src/Parsers/ConditionExpression.php:161-231 | with the standard template, a supported condition compiles to the syntax of its operator on the column's placeholder and its fresh tokens |
| Conditions.TemplateTruthy | src/Parsers/ConditionExpression.php:18-32 | every template is non-empty, so the generic compiler (and the filter compiler, assumed to be that compiler) never throws |
| Conditions.ParseOne | src/Parsers/ConditionExpression.php:84-116 | a single supported condition compiles to exactly its own text, with no prefix |
| Conditions.ExampleGreaterThan | src/Parsers/ConditionExpression.php:185-189 | `age > 30` compiles to `#age > :a1`, names `#age` and binds `:a1` |
| Conditions.ExampleBetween | src/Parsers/ConditionExpression.php:200-209 | `age between [10, 20]` compiles to `(#age BETWEEN :a1 AND :a2)` |
| Conditions.ExampleBetweenState | src/Parsers/ConditionExpression.php:200-209 | and binds `:a1` to 10 and `:a2` to 20 |
| Conditions.ExampleIn | src/Parsers/ConditionExpression.php:219-231 | `age in [1, 2, 3]` compiles to `#age IN (:a1, :a2, :a3)` and binds the three values in order |
| Conditions.GroupText | src/Parsers/ConditionExpression.php:146-151 | a group of two equalities compiles to `(#b = :a2 AND #c = :a3)` |
| Conditions.ExampleNested | src/Parsers/ConditionExpression.php:84-116 | `a = 1 OR (b = 2 AND c = 3)` compiles to `#a = :a1 OR (#b = :a2 AND #c = :a3)` |
| Conditions.ExampleNestedState | src/Parsers/ConditionExpression.php:84-116 | and names `#a`, `#b`, `#c` and binds `:a1`…`:a3` to 1, 2, 3 |
| ConditionExpression.ConditionExpression.constructor | src/Parsers/ConditionExpression.php:63-68 | the compiler keeps the counter and tables it is given and uses the full operator table |
| ConditionExpression.ConditionExpression.Parse | src/Parsers/ConditionExpression.php:84-116 | the result and the new counter and tables are those of `Conditions.Parse` |
| ConditionExpression.ConditionExpression.ParseNestedCondition | src/Parsers/ConditionExpression.php:146-151 | equals `Conditions.ParseNestedCondition` |
| ConditionExpression.ConditionExpression.ParseCondition | src/Parsers/ConditionExpression.php:161-190 | equals `Conditions.ParseCondition` |
| ConditionExpression.ConditionExpression.ParseBetweenCondition | src/Parsers/ConditionExpression.php:200-209 | equals `Conditions.ParseBetweenCondition` |
| ConditionExpression.ConditionExpression.ParseInCondition | src/Parsers/ConditionExpression.php:219-231 | equals `Conditions.ParseInCondition` |
| ConditionExpression.ConditionExpression.BindEach | src/Parsers/ConditionExpression.php:223-228 | one fresh token per element, in order: counter up by the count, values bound, and the `:token` list returned |
| ConditionExpression.ConditionExpression.ParseNullCondition | src/Parsers/ConditionExpression.php:240-243 | equals `Conditions.ParseNullCondition` |
| ConditionExpression.ConditionExpression.Reset | src/Parsers/ConditionExpression.php:123-128 | the counter is 0 and both tables are empty |
| KeyConditionExpression.KeyTable | src/Parsers/KeyConditionExpression.php:15-26 | the key table holds exactly EQ, LE, LT, GE, GT, BEGINS_WITH and BETWEEN, with the generic templates |
| KeyConditionExpression.New | src/Parsers/KeyConditionExpression.php:15-26 | a key compiler shares the objects it is given and uses the key table |
| KeyConditionExpression.KeySupported | src/Parsers/KeyConditionExpression.php:15-26 | the key compiler supports exactly the range-key query operators |
| KeyConditionExpression.KeyParse | src/Parsers/KeyConditionExpression.php:15-26 | a key parse succeeds iff every operator used, in groups too, is a key operator; it then equals the generic parse, and otherwise throws for a non-key operator |
| KeyConditionExpression.KeyRejects | src/Parsers/KeyConditionExpression.php:15-26 | a single condition with a non-key operator throws `<OP> is not supported` |
| ProjectionExpression.ProjectionExpression.constructor | src/Parsers/ProjectionExpression.php:15-18 | the compiler keeps the shared names table |
| ProjectionExpression.ProjectionExpression.Parse | src/Parsers/ProjectionExpression.php:26-33 | every column is set in the names table and the result is all its placeholders joined by `, ` |
| ProjectionExpression.ProjectionOrder | src/Parsers/ProjectionExpression.php:26-33 | the output lists the registered keys (old ones first), then the nested names from before, then the new nested columns |
| ProjectionExpression.ProjectionLists | src/Parsers/ProjectionExpression.php:26-33 | every simple column appears as its placeholder and every nested column as written |
| ProjectionExpression.ProjectionRepeat | src/Parsers/ProjectionExpression.php:26-33 | repeating a simple column does not change the output |
| ProjectionExpression.ProjectionExample | src/Parsers/ProjectionExpression.php:26-33 | `['id', 'name']` on a fresh table gives `#id, #name` |
| UpdateExpression.UpdateExpression.constructor | src/Parsers/UpdateExpression.php:20-23 | the compiler keeps the shared names table |
| UpdateExpression.UpdateExpression.Reset | src/Parsers/UpdateExpression.php:30-33 | the shared names table is emptied |
| UpdateExpression.UpdateExpression.Remove | src/Parsers/UpdateExpression.php:41-48 | every attribute is set and the result is `REMOVE ` plus all placeholders joined by `, ` |
| UpdateExpression.RemoveNothing | src/Parsers/UpdateExpression.php:41-48 | removing nothing from a fresh table gives exactly `REMOVE ` |
| UpdateExpression.RemoveListsEvery | src/Parsers/UpdateExpression.php:41-48 | every removed attribute appears in the clause |
| HasParsers.HasParsers.constructor | src/Concerns/HasParsers.php:15-60 | nothing is set up before `setupExpressions` |
| HasParsers.HasParsers.SetupExpressions | src/Concerns/HasParsers.php:69-89 | one new counter at 0, one new `#` table and one new `:` table, all shared as wired |
| HasParsers.HasParsers.ResetExpressions | src/Concerns/HasParsers.php:96-101 | the counter is 0 and both tables are empty, with their prefixes kept |
| HasParsers.NewParsers | src/Concerns/HasParsers.php:71-88 | the four compilers are built over one counter and one pair of tables |
| HasParsers.Wire | src/Concerns/HasParsers.php:75-88 | the key and filter compilers share all three objects, and the projection and update compilers share the names table |
| HasParsers.ResetIdempotent | src/Concerns/HasParsers.php:96-101 | resetting twice is resetting once, and it leaves counter 0 and empty tables |
| HasParsers.KeyThenFilterKeepsValues | src/Concerns/HasParsers.php:75-85 | compiling a filter after a key condition keeps every value the key condition bound |
| Helper.FirstMatch | src/Helper.php:27-31 | the index found is the first entry, in order, that the callback accepts |
| Helper.FirstMatchAt | src/Helper.php:27-31 | if entry i is accepted and no earlier one is, the search finds i |
| Helper.Value | src/Helper.php:42-45 | a plain value is returned as it is; a closure is called |
| Helper.ArrayFirst | src/Helper.php:15-34 | the result is the default or one of the array's values, and with a callback a value the callback accepts |
| Helper.ArrayFirstWithoutCallback | src/Helper.php:15-24 | without a callback, the default for an empty array and the first element otherwise |
| Helper.ArrayFirstWithCallback | src/Helper.php:15-34 | with a callback, the first accepted element, or the default when none is accepted |
| Index.IndexKeys.Values | src/ConditionAnalyzer/Analyzer.php:204 | a declared index's keys are `[hash]` or `[hash, range]` |
| Index.FromKeys | src/ConditionAnalyzer/Index.php:36-41 | an index keeps the name, hash and range it is built with |
| Index.Index.IsComposite | src/ConditionAnalyzer/Index.php:48-51 | an index with two columns is composite |
| Index.Index.Columns | src/ConditionAnalyzer/Index.php:58-71 | `columns()` has at most two entries, each a truthy key name, hash first; it has two iff hash and range are both truthy |
| Index.FromKeysColumns | src/ConditionAnalyzer/Index.php:48-71 | a declared index's columns are its keys, and it is composite iff it has a range |
| DynamoDbModel.KeyNamesShape | src/DynamoDbModel.php:496-499 | the key names are the composite key when there is one, otherwise the primary key alone |
| DynamoDbModel.KeysOfEntries | src/DynamoDbModel.php:464-479 | `getKeys()` has one entry per key name, holding that attribute, in key-name order |
| DynamoDbModel.WithIdEntries | src/DynamoDbModel.php:417-430 | a scalar id sets only the primary-key attribute; an array id sets each of its entries and keeps the other attributes |
| DynamoDbModel.DynamoDbModel.HasCompositeKey | src/DynamoDbModel.php:373-376 | a model has a composite key iff its key names are the composite key |
| DynamoDbModel.DynamoDbModel.GetKeyName | src/DynamoDbModel.php:486-489 | without a composite key, the primary key name is the only key name |
| DynamoDbModel.DynamoDbModel.GetKey | src/DynamoDbModel.php:447-450 | without a composite key, `getKeys()` is the primary key name mapped to `getKey()` alone |
| DynamoDbModel.DynamoDbModel.GetDynamoDbIndexKeys | src/DynamoDbModel.php:506-509 | the declared indexes form a well-formed array: each name once, each with its declaration |
| DynamoDbModel.DynamoDbModel.GetKeyNames | src/DynamoDbModel.php:496-499 | the composite key when there is one, otherwise the primary key name |
| DynamoDbModel.DynamoDbModel.GetKeys | src/DynamoDbModel.php:464-479 | equals `KeysOf` on the model's key names and attributes |
| DynamoDbModel.DynamoDbModel.SetId | src/DynamoDbModel.php:417-430 | the attributes become `WithId` of the old ones, and the key configuration is unchanged |
| DynamoDbModel.DynamoDbModel.SetDynamoDbIndexKeys | src/DynamoDbModel.php:506-520 | the index keys read back are the ones set, and nothing else changes |
| Analyzer.GetConditions | src/ConditionAnalyzer/Analyzer.php:182-187 | the result holds only conditions, under their own keys |
| Analyzer.FilterConditionsOf | src/ConditionAnalyzer/Analyzer.php:126-133 | the filter conditions form a well-formed array |
| Analyzer.GetConditionFirst | src/ConditionAnalyzer/Analyzer.php:170-175 | the first condition on the column, or null exactly when there is none |
| Analyzer.HasValidQueryOperatorMeaning | src/ConditionAnalyzer/Analyzer.php:233-249 | valid iff the first condition on the hash is EQ and, given a truthy range key, the first condition on it is a range-key operator |
| Analyzer.SelectIndexFirstCandidate | src/ConditionAnalyzer/Analyzer.php:194-224 | the index chosen is the first declared candidate, dropped when its key conditions cannot be queried |
| Analyzer.SelectIndexNone | src/ConditionAnalyzer/Analyzer.php:194-224 | with no conditions, or no candidate, no index is chosen |
| Analyzer.IdentifiersMeaning | src/ConditionAnalyzer/Analyzer.php:135-146 | null iff the key names cannot be queried; otherwise exactly the conditions on a key name |
| Analyzer.KeyFilterSplit | src/ConditionAnalyzer/Analyzer.php:126-133 | a condition is a filter condition iff no key condition equals it; keys are kept and no key condition is a filter condition |
| Analyzer.KeyConditionsAreConditions | src/ConditionAnalyzer/Analyzer.php:110-119 | the key conditions are conditions under their own keys |
| Analyzer.ExactSearchMeaning | src/ConditionAnalyzer/Analyzer.php:76-93 | an exact search has only equalities and a condition on a key name; no conditions means no exact search |
| Analyzer.ExactSearchExactly | src/ConditionAnalyzer/Analyzer.php:76-93 | exact search iff the key names can be queried and every condition is an equality |
| Analyzer.ColumnValuesColumns | src/ConditionAnalyzer/Analyzer.php:148-163 | the values have an entry for exactly the columns the conditions are on |
| Analyzer.ColumnValuesLastWins | src/ConditionAnalyzer/Analyzer.php:148-163 | a column's value is that of its last condition |
| Analyzer.Analyzer.constructor | src/ConditionAnalyzer/Analyzer.php:16-30 | no model, no conditions, no index name |
| Analyzer.Analyzer.On | src/ConditionAnalyzer/Analyzer.php:38-43 | sets the model and nothing else |
| Analyzer.Analyzer.WithIndex | src/ConditionAnalyzer/Analyzer.php:51-56 | sets the index name and nothing else |
| Analyzer.Analyzer.Analyze | src/ConditionAnalyzer/Analyzer.php:64-69 | sets the conditions and nothing else |
| Analyzer.Analyzer.GetIndex | src/ConditionAnalyzer/Analyzer.php:194-224 | equals `SelectIndex` on the model's declared indexes |
| Analyzer.Analyzer.Index | src/ConditionAnalyzer/Analyzer.php:100-103 | equals `SelectIndex` |
| Analyzer.Analyzer.IdentifierConditions | src/ConditionAnalyzer/Analyzer.php:135-146 | equals `IdentifiersOf` on the model's key names |
| Analyzer.Analyzer.KeyConditions | src/ConditionAnalyzer/Analyzer.php:110-119 | equals `KeyConditionsOf` |
| Analyzer.Analyzer.FilterConditions | src/ConditionAnalyzer/Analyzer.php:126-133 | equals `FilterConditionsOf` applied to the key conditions |
| Analyzer.Analyzer.IsExactSearch | src/ConditionAnalyzer/Analyzer.php:76-93 | equals `ExactSearch` on the model's key names |
| Analyzer.Analyzer.IdentifierConditionValues | src/ConditionAnalyzer/Analyzer.php:148-163 | equals `IdentifierValuesOf` |
| Analyzer.WriteColumnValues | src/ConditionAnalyzer/Analyzer.php:156-160 | the loop writes `ColumnValues` |
| DynamoDbCollection.CursorEntries | src/DynamoDbCollection.php:36-53 | the cursor holds the key entries and the index columns, each with the item's attribute; without an index it is the keys alone |
| DynamoDbCollection.DynamoDbCollection.constructor | src/DynamoDbCollection.php:24-29 | keeps the items and the index |
| DynamoDbCollection.DynamoDbCollection.LastKey | src/DynamoDbCollection.php:36-53 | null for no items, otherwise the last item's cursor |
| RawDynamoDbQuery.Finalized | src/RawDynamoDbQuery.php:40-47 | the finalized query is a well-formed array |
| RawDynamoDbQuery.FinalizedEntries | src/RawDynamoDbQuery.php:40-47 | an entry is kept iff it is non-empty, a bool or numeric; kept values and their order are unchanged |
| RawDynamoDbQuery.KeepExamples | src/RawDynamoDbQuery.php:42-44 | `false`, `0` and `"0"` are kept; null, `""` and `[]` are dropped |
| RawDynamoDbQuery.FinalizeIdempotent | src/RawDynamoDbQuery.php:40-47 | finalizing twice is finalizing once |
| RawDynamoDbQuery.RawDynamoDbQuery.constructor | src/RawDynamoDbQuery.php:28-32 | keeps the operation and the query |
| RawDynamoDbQuery.RawDynamoDbQuery.Finalize | src/RawDynamoDbQuery.php:40-47 | the query becomes `Finalized` of the old one and the operation is unchanged |
| RawDynamoDbQuery.RawDynamoDbQuery.Internal | src/RawDynamoDbQuery.php:129-132 | the array view is the pair of the operation and the request map |
| RawDynamoDbQuery.RawDynamoDbQuery.OffsetGet | src/RawDynamoDbQuery.php:67-70 | offset 0 reads the operation, offset 1 the request map, and any other offset null |
| RawDynamoDbQuery.RawDynamoDbQuery.OffsetExists | src/RawDynamoDbQuery.php:55-58 | an offset exists iff `offsetGet` reads a non-null value there: offset 1 always, offset 0 iff the operation is not null |
| RawDynamoDbQuery.RawDynamoDbQuery.Count | src/RawDynamoDbQuery.php:118-121 | always 2 |
| QueryBuilder.Current | src/DynamoDb/QueryBuilder.php:104 | the first argument, or `false` when there is none |
| QueryBuilder.IndexFrom | src/DynamoDb/QueryBuilder.php:101 | the first occurrence of the separator at or after a position |
| QueryBuilder.ExplodeOnceJoin | src/DynamoDb/QueryBuilder.php:101 | `explode` with limit 2 gives one or two pieces, two iff the separator occurs, the first piece has no occurrence, and joining gives the input back |
| QueryBuilder.SetterKeyOfSetter | src/DynamoDb/QueryBuilder.php:101-104 | for `set` + K, the key is K |
| QueryBuilder.SetEntryEffect | src/DynamoDb/QueryBuilder.php:58-77 | the nested entry is set and every other top-level entry is unchanged |
| QueryBuilder.DispatchSetter | src/DynamoDb/QueryBuilder.php:99-106 | a `set…` call stores the first argument under the key after `set` |
| QueryBuilder.BadMethodMessage | src/DynamoDb/QueryBuilder.php:108-112 | the message is `Method <class>::<name> does not exist.` |
| QueryBuilder.DispatchBadMethod | src/DynamoDb/QueryBuilder.php:99-112 | a call not starting with `set` throws BadMethodCallException with that message and leaves the query alone |
| QueryBuilder.DispatchExample | src/DynamoDb/QueryBuilder.php:101-106 | `setTableName('t')` stores `TableName => 't'` |
| QueryBuilder.QueryBuilder.constructor | src/DynamoDb/QueryBuilder.php:33-36 | the query starts empty |
| QueryBuilder.QueryBuilder.Hydrate | src/DynamoDb/QueryBuilder.php:44-49 | the query is replaced wholesale |
| QueryBuilder.QueryBuilder.SetExpressionAttributeName | src/DynamoDb/QueryBuilder.php:58-63 | sets only `ExpressionAttributeNames[placeholder]` |
| QueryBuilder.QueryBuilder.SetExpressionAttributeValue | src/DynamoDb/QueryBuilder.php:72-77 | sets only `ExpressionAttributeValues[placeholder]` |
| QueryBuilder.QueryBuilder.Prepare | src/DynamoDb/QueryBuilder.php:85-90 | the prepared request is the finalized query |
| QueryBuilder.QueryBuilder.Call | src/DynamoDb/QueryBuilder.php:99-113 | the query and the error are those `Dispatch` gives |

## Left out

- Floating-point values and PHP's loose comparisons are not modelled. Values are null, bools, integers, strings and arrays.
- Value marshaling (the AWS Marshaler) is an opaque wrapper. No wire encoding is modelled.
- `sprintf` conversions other than `%s` are not modelled; the templates use only `%s`.
- PHP strings are byte strings; the model's strings are sequences of characters. `Php.Offset` reads `$value[0]` and `$value[1]` in BETWEEN from an array or, one character each, from a string; the warning PHP raises for an offset past the end of a string is not modelled.
- A group condition (`type` 'Nested') has no column, so it never matches a key column. PHP would compare a missing column (null) loosely with `""`.
- Index declarations without a `hash` entry, or with an explicit null `range`, are not modelled. A declared index is a hash name and an optional range name.
- The analyzer's queries require a model set with `On` first; PHP would fail on a null model there.
- A condition's `type` is one of the 13 canonical operators or a group. PHP throws `<type> is not supported` for any other `type` string; the model cannot represent such a condition. So for `FilterExpression`, which is assumed to use the full operator table, the model never throws `NotSupportedException`. With the smaller key-condition table it does, for the first operator the table lacks.
- `HasParsers.Wire` and `HasParsers.NewParsers`: the filter compiler is assumed to be `ConditionExpression` with its full operator table, because the `FilterExpression` class is not part of this model. `HasParsers.KeyThenFilterKeepsValues` rests on the same assumption.
- `ComparisonOperator.GetDynamoDbOperator` and `ComparisonOperator.IsValidQueryOperator` require a valid symbol. For an unknown symbol PHP reads null from the mapping, and the `string` return type of `getDynamoDbOperator` then raises a TypeError. That error path is not modelled.
- `ConditionExpression.ConditionExpression.ParseOperand`, `ParseValueCondition` and `BindEach`, and `Analyzer.WriteColumnValues`, are pieces of one PHP method, split out so each proof stays small.
- Eloquent attribute casts, mutators and `fill`/`getAttribute` hooks are not modelled. Attributes are a plain ordered map.
- DynamoDbModel's constructor is not modelled beyond the key configuration; framework booting and `fill` are out of scope.
- Model lifecycle (save, update, delete, refresh, all, async promises), serialisation and the client holder are network and framework code. They are not modelled.
- ModelObserver, DynamoDbClientService, DynamoDbManager, ExecutableQuery, the service provider, the facade and the client interface are network, container or logging code. They are not part of this model.
- `QueryBuilder.QueryBuilder.Prepare`: the AWS client argument and the ExecutableQuery it returns are not modelled. The result is the finalized request map.
- `QueryBuilder.QueryBuilder.constructor`: the client service it receives is not modelled.
- `QueryBuilder.QueryBuilder.Call` returns the error as an `Option` instead of throwing. On success PHP returns `$this`, which the model does not represent.
- `QueryBuilder.QueryBuilder.SetExpressionAttributeName` and `SetExpressionAttributeValue` require the existing entry to be absent, null or an array. PHP 8 also turns an entry holding `false` into an array (deprecated since PHP 8.1); the model excludes `false`. PHP fails on any other scalar entry.
- RawDynamoDbQuery's `offsetSet`, `offsetUnset` and `getIterator` are not modelled. They write to, or iterate over, a temporary array and have no lasting effect on the object. Offsets are integers only.
- `Helper` closures: `value()` calls a closure default; the model represents a closure as a function of no arguments and does not model its side effects.
- `Helper.ArrayFirstWithCallback` is also how `Arr::first` in the analyzer is modelled.
- A collection's items are a sequence of models; the rest of Laravel's collection behaviour is not modelled.
