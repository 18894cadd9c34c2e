/**
 * The marshaling facade (`DynamoDb::marshalValue`), which turns a PHP value
 * into DynamoDB's typed attribute format. The wire format is not modelled:
 * a marshaled value only records which value it came from.
 */
module Marshaler {
  import opened Php

  datatype Marshaled = Marshaled(source: Value)

  function MarshalValue(v: Value): Marshaled {
    Marshaled(v)
  }
}
