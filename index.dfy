/**
 * `ConditionAnalyzer\Index`: a secondary index the analyzer picked, and the
 * key declarations (`$dynamoDbIndexKeys` entries) it is picked from.
 */
module Index {
  import opened Wrappers
  import opened Php

  /** One entry of `$dynamoDbIndexKeys`: `['hash' => …]` or `['hash' => …, 'range' => …]`. */
  datatype IndexKeys = IndexKeys(hash: string, range: Option<string>) {

    /** `array_values($keysInfo)`: the hash key, then the range key when there is one. */
    function Values(): (r: seq<string>)
      ensures 1 <= |r| <= 2 && r[0] == hash
      ensures |r| == 2 <==> range.Some?
      ensures |r| == 2 ==> r[1] == range.value
    {
      [hash] + (if range.Some? then [range.value] else [])
    }
  }

  /** An index: its name, and its hash and range key names (null when missing). */
  datatype Index = Index(name: string, hash: Option<string>, range: Option<string>) {

    /** `isComposite()`: both key names are set; an index with two columns always is. */
    function IsComposite(): (r: bool)
      ensures |Columns()| == 2 ==> r
    {
      hash.Some? && range.Some?
    }

    /**
     * `columns()`: at most the two key names, hash first, each only if it is
     * truthy; two exactly when both are truthy.
     */
    function Columns(): (r: seq<string>)
      ensures |r| <= 2
      ensures forall c | c in r :: Truthy(c) && (Some(c) == hash || Some(c) == range)
      ensures hash.Some? && Truthy(hash.value) ==> |r| >= 1 && r[0] == hash.value
      ensures |r| == 2 <==> hash.Some? && Truthy(hash.value) && range.Some? && Truthy(range.value)
    {
      (if hash.Some? && Truthy(hash.value) then [hash.value] else [])
      + (if range.Some? && Truthy(range.value) then [range.value] else [])
    }
  }

  /** The index `getIndex()` builds from a declaration: `new Index($name, $keysInfo['hash'], $keysInfo['range'])`. */
  function FromKeys(name: string, info: IndexKeys): (r: Index)
    ensures r.name == name && r.hash == Some(info.hash) && r.range == info.range
  {
    Index(name, Some(info.hash), info.range)
  }

  // ---------------------------------------------------------------- properties

  /** An index built from a declaration keeps its key names: its columns are the declared names that are truthy. */
  lemma FromKeysColumns(name: string, info: IndexKeys)
    requires Truthy(info.hash) && (info.range.Some? ==> Truthy(info.range.value))
    ensures FromKeys(name, info).Columns() == info.Values()
    ensures FromKeys(name, info).IsComposite() <==> info.range.Some?
  {
  }
}
