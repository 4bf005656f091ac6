/** The declaration table the reader fills: enums by name, functions by
    (group, type). The record types are reconstructed from their uses in
    src/MfmToYaml/Readers/MfmReader.cs:55,71,86,103 and src/MfmToYaml/Mfm.cs:31,46,74.
    Each Dictionary is a sequence of entries in insertion order. */
module Declarations {
  import opened Bytes
  import opened Numbers

  type Name = seq<Byte>

  /** A function's dictionary key: (group, type). */
  type Key = (Int32, Int32)

  /** An enum: the element-type string and its (value, name) pairs in order. */
  datatype FunctionEnum = FunctionEnum(elementType: Name, values: seq<(Int64, Name)>)

  /** A function: its name and its (type, name) parameters in order. */
  datatype Function = Function(name: Name, parameters: seq<(Name, Name)>)

  datatype Tables = Tables(enums: seq<(Name, FunctionEnum)>, functions: seq<(Key, Function)>)

  const Empty: Tables := Tables([], [])

  function Keys<K, V>(entries: seq<(K, V)>): (ks: seq<K>)
    ensures |ks| == |entries|
    ensures forall i :: 0 <= i < |entries| ==> ks[i] == entries[i].0
  {
    seq(|entries|, i requires 0 <= i < |entries| => entries[i].0)
  }

  /** No key is stored twice: what Dictionary.Add guarantees. */
  predicate UniqueKeys<K(==), V>(entries: seq<(K, V)>) {
    forall i, j :: 0 <= i < j < |entries| ==> entries[i].0 != entries[j].0
  }

  /** `currentEnum.Add(value, name)`: the pair goes to the end of entry `i`,
      nothing else changes. */
  function AppendValue(t: Tables, i: nat, value: (Int64, Name)): (u: Tables)
    requires i < |t.enums|
  {
    var (name, e) := t.enums[i];
    t.(enums := t.enums[i := (name, e.(values := e.values + [value]))])
  }

  /** `currentFunction.Parameters.Add(parameter)`. */
  function AppendParameter(t: Tables, i: nat, parameter: (Name, Name)): (u: Tables)
    requires i < |t.functions|
  {
    var (key, f) := t.functions[i];
    t.(functions := t.functions[i := (key, f.(parameters := f.parameters + [parameter]))])
  }
}
