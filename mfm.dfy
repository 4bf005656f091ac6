/** The declaration table (src/MfmToYaml/Mfm.cs): its two dictionaries as
    fields, the capitalisation pass the constructor runs after reading, and
    Write, which walks the table pushing emitter calls and fills a reused
    24-byte buffer with each function key. */
module MfmToYaml {
  import opened Bytes
  import opened Outcomes
  import opened Numbers
  import opened Declarations
  import opened Names
  import opened Events

  class Mfm {
    /** `Enums`: enum name to enum, in insertion order. */
    var enums: seq<(Name, FunctionEnum)>
    /** `Functions`: (group, type) to function, in insertion order. */
    var functions: seq<(Key, Function)>

    /** The two dictionaries as a value. */
    function Tables(): Declarations.Tables
      reads this
    {
      Declarations.Tables(enums, functions)
    }

    /** The property initialisers: both dictionaries empty. */
    constructor Empty()
      ensures Tables() == Declarations.Empty
    {
      enums := [];
      functions := [];
    }

    /** `Enums.Add(name, new(elementType))` (src/MfmToYaml/Readers/MfmReader.cs:55):
        a new enum with no values at the end of the table, and its position,
        unless the name is taken, in which case nothing changes. */
    method AddEnum(name: Name, elementType: Name) returns (r: Result<nat>)
      modifies this
      ensures name in Keys(old(enums)) ==> r == Err(DuplicateEnum(name)) && Tables() == old(Tables())
      ensures name !in Keys(old(enums)) ==>
        && r == Ok(|old(enums)|)
        && Tables() == old(Tables()).(enums := old(enums) + [(name, FunctionEnum(elementType, []))])
    {
      if name in Keys(enums) {
        return Err(DuplicateEnum(name));
      }
      r := Ok(|enums|);
      enums := enums + [(name, FunctionEnum(elementType, []))];
    }

    /** `Functions.Add((group, type), new(name, []))` (MfmReader.cs:86). */
    method AddFunction(key: Key, name: Name) returns (r: Result<nat>)
      modifies this
      ensures key in Keys(old(functions)) ==> r == Err(DuplicateFunction(key.0, key.1)) && Tables() == old(Tables())
      ensures key !in Keys(old(functions)) ==>
        && r == Ok(|old(functions)|)
        && Tables() == old(Tables()).(functions := old(functions) + [(key, Function(name, []))])
    {
      if key in Keys(functions) {
        return Err(DuplicateFunction(key.0, key.1));
      }
      r := Ok(|functions|);
      functions := functions + [(key, Function(name, []))];
    }

    /** `currentEnum.Add(value, name)` (MfmReader.cs:71) on the enum at `i`. */
    method AddEnumValue(i: nat, value: (Int64, Name))
      requires i < |enums|
      modifies this
      ensures Tables() == AppendValue(old(Tables()), i, value)
    {
      var (name, e) := enums[i];
      enums := enums[i := (name, e.(values := e.values + [value]))];
    }

    /** `currentFunction.Parameters.Add(parameter)` (MfmReader.cs:103) on the
        function at `i`. */
    method AddParameter(i: nat, parameter: (Name, Name))
      requires i < |functions|
      modifies this
      ensures Tables() == AppendParameter(old(Tables()), i, parameter)
    {
      var (key, f) := functions[i];
      functions := functions[i := (key, f.(parameters := f.parameters + [parameter]))];
    }

    /** The constructor's second half (lines 18-34): FormatName on every
        function name and parameter name, on a parameter type when the enum
        table has that key, then on every enum name and enum-value name. It
        fails exactly when one of those names is empty; on success the table
        is the formatted one and nothing was added, removed or reordered. */
    method FormatNames() returns (r: Result<()>)
      modifies this
      ensures r.Ok? <==> Formattable(old(Tables()))
      ensures r.Err? ==> r.error == IndexOutOfRange(0)
      ensures r.Ok? ==> Tables() == FormattedTables(old(Tables()))
    {
      ghost var t := Tables();
      r := FormatFunctionNamesInPlace();
      if r.Err? {
        return;
      }
      r := FormatEnumNamesInPlace();
      assert r.Ok? ==> Tables() == FormattedTables(t);
    }

    /** Lines 18-27: the functions' names, in table order; the first empty
        name stops the pass. The enum table is only read. */
    method FormatFunctionNamesInPlace() returns (r: Result<()>)
      modifies this
      ensures enums == old(enums)
      ensures r.Ok? <==> forall k :: 0 <= k < |old(functions)| ==>
        FunctionFormattable(old(functions)[k].1, Keys(old(enums)))
      ensures r.Err? ==> r.error == IndexOutOfRange(0)
      ensures r.Ok? ==> functions == FormattedTables(old(Tables())).functions
    {
      ghost var t := Tables();
      var enumNames := Keys(enums);
      var i := 0;
      while i < |functions|
        invariant 0 <= i <= |functions| == |t.functions|
        invariant enums == t.enums && enumNames == Keys(t.enums)
        invariant forall k :: 0 <= k < i ==> FunctionFormattable(t.functions[k].1, enumNames)
        invariant forall k :: 0 <= k < i ==>
          functions[k] == (t.functions[k].0, FormatFunction(t.functions[k].1, enumNames))
        invariant forall k :: i <= k < |functions| ==> functions[k] == t.functions[k]
      {
        var (key, f) := functions[i];
        var formatted := FormatFunctionNames(f, enumNames);
        if formatted.Err? {
          return Err(formatted.error);
        }
        functions := functions[i := (key, formatted.value)];
        i := i + 1;
      }
      r := Ok(());
    }

    /** Lines 29-34: the enums' names and their values' names, in table
        order; the first empty name stops the pass. */
    method FormatEnumNamesInPlace() returns (r: Result<()>)
      modifies this
      ensures functions == old(functions)
      ensures r.Ok? <==> forall k :: 0 <= k < |old(enums)| ==> EnumFormattable(old(enums)[k])
      ensures r.Err? ==> r.error == IndexOutOfRange(0)
      ensures r.Ok? ==> enums == FormattedTables(old(Tables())).enums
    {
      ghost var t := Tables();
      var i := 0;
      while i < |enums|
        invariant 0 <= i <= |enums| == |t.enums|
        invariant functions == t.functions
        invariant forall k :: 0 <= k < i ==> EnumFormattable(t.enums[k])
        invariant forall k :: 0 <= k < i ==> enums[k] == FormattedTables(t).enums[k]
        invariant forall k :: i <= k < |enums| ==> enums[k] == t.enums[k]
      {
        var formatted := FormatEnumNames(enums[i]);
        if formatted.Err? {
          return Err(formatted.error);
        }
        enums := enums[i := formatted.value];
        i := i + 1;
      }
      r := Ok(());
    }

    /** Write (lines 37-83) as the list of emitter calls it makes: the enum
        mapping, the `---` line, then the function mapping; a key that
        overruns the 24-byte buffer stops it with IndexOutOfRange. */
    method Write() returns (r: Result<seq<Event>>)
      ensures r == WriteEvents(Tables())
    {
      var enumEvents := WriteEnums(enums);
      var functionEvents := WriteFunctions(functions);
      if functionEvents.Err? {
        return Err(functionEvents.error);
      }
      r := Ok([BeginMapping] + enumEvents + [EndMapping, WriteRaw(DocumentSeparator, false, true)]
               + [BeginMapping] + functionEvents.value + [EndMapping]);
    }
  }

  /** The first document's entries (lines 42-52), in table order. */
  method WriteEnums(enums: seq<(Name, FunctionEnum)>) returns (events: seq<Event>)
    ensures events == Concat(enums, EnumEntry)
  {
    events := [];
    var i := 0;
    while i < |enums|
      invariant 0 <= i <= |enums|
      invariant events == Concat(enums[..i], EnumEntry)
    {
      var entry := WriteEnum(enums[i]);
      ConcatSnoc(enums, i, EnumEntry);
      events := events + entry;
      i := i + 1;
    }
    assert enums[..i] == enums;
  }

  /** The second document's entries (lines 60-80): one 24-byte buffer,
      allocated once with `[` at offset 0, is refilled for every key. */
  method WriteFunctions(functions: seq<(Key, Function)>) returns (r: Result<seq<Event>>)
    ensures r == FunctionsEvents(functions)
  {
    var key := new Byte[KeyCapacity];
    key[0] := OpenBracket;
    var written: seq<Event> := [];
    var i := 0;
    while i < |functions|
      invariant 0 <= i <= |functions|
      invariant key[0] == OpenBracket
      invariant FunctionsEvents(functions[..i]) == Ok(written)
    {
      var (group, typeCode) := functions[i].0;
      var scalar := FormatKey(key, group, typeCode);
      FunctionsEventsSnoc(functions, i, written);
      if scalar.Err? {
        FunctionsEventsStops(functions, i + 1);
        return Err(scalar.error);
      }
      var entry := WriteFunction(scalar.value, functions[i].1);
      written := written + entry;
      i := i + 1;
    }
    assert functions[..i] == functions;
    r := Ok(written);
  }

  /** One function's FormatName calls (lines 19-26): its name, then for each
      parameter its name and, when `enumNames` has it, its type. */
  method FormatFunctionNames(f: Function, enumNames: seq<Name>) returns (r: Result<Function>)
    ensures r.Ok? <==> FunctionFormattable(f, enumNames)
    ensures r.Err? ==> r.error == IndexOutOfRange(0)
    ensures r.Ok? ==> r.value == FormatFunction(f, enumNames)
  {
    var name := FormatName(f.name);
    if name.Err? {
      return Err(name.error);
    }
    var parameters: seq<(Name, Name)> := [];
    var j := 0;
    while j < |f.parameters|
      invariant 0 <= j <= |f.parameters| && |parameters| == j
      invariant forall k :: 0 <= k < j ==>
        f.parameters[k].1 != [] && (f.parameters[k].0 in enumNames ==> f.parameters[k].0 != [])
      invariant forall k :: 0 <= k < j ==> parameters[k] == FormatParameter(f.parameters[k], enumNames)
    {
      var parameter := FormatParameterNames(f.parameters[j], enumNames);
      if parameter.Err? {
        return Err(parameter.error);
      }
      parameters := parameters + [parameter.value];
      j := j + 1;
    }
    r := Ok(Function(name.value, parameters));
  }

  /** One parameter's FormatName calls (lines 20-25): its name, then its type
      when `enumNames` has it. */
  method FormatParameterNames(parameter: (Name, Name), enumNames: seq<Name>) returns (r: Result<(Name, Name)>)
    ensures r.Ok? <==> parameter.1 != [] && (parameter.0 in enumNames ==> parameter.0 != [])
    ensures r.Err? ==> r.error == IndexOutOfRange(0)
    ensures r.Ok? ==> r.value == FormatParameter(parameter, enumNames)
  {
    var (paramType, paramName) := parameter;
    var formattedName :- FormatName(paramName);
    var formattedType := paramType;
    if paramType in enumNames {
      formattedType :- FormatName(paramType);
    }
    r := Ok((formattedType, formattedName));
  }

  /** One enum's FormatName calls (lines 30-33): its name, then each value's
      name; the element type is left alone. */
  method FormatEnumNames(entry: (Name, FunctionEnum)) returns (r: Result<(Name, FunctionEnum)>)
    ensures r.Ok? <==> EnumFormattable(entry)
    ensures r.Err? ==> r.error == IndexOutOfRange(0)
    ensures r.Ok? ==> r.value == (Capitalized(entry.0), FormatEnum(entry.1))
  {
    var name := FormatName(entry.0);
    if name.Err? {
      return Err(name.error);
    }
    var values := entry.1.values;
    var formatted: seq<(Int64, Name)> := [];
    var j := 0;
    while j < |values|
      invariant 0 <= j <= |values| && |formatted| == j
      invariant forall k :: 0 <= k < j ==> values[k].1 != []
      invariant forall k :: 0 <= k < j ==> formatted[k] == (values[k].0, Capitalized(values[k].1))
    {
      var valueName := FormatName(values[j].1);
      if valueName.Err? {
        return Err(valueName.error);
      }
      formatted := formatted + [(values[j].0, valueName.value)];
      j := j + 1;
    }
    assert formatted == FormatEnum(entry.1).values;
    r := Ok((name.value, FunctionEnum(entry.1.elementType, formatted)));
  }

  /** One enum's emitter calls (lines 43-51). */
  method WriteEnum(e: (Name, FunctionEnum)) returns (events: seq<Event>)
    ensures events == EnumEntry(e)
  {
    var values := e.1.values;
    events := [WriteString(e.0), BeginMapping];
    var j := 0;
    while j < |values|
      invariant 0 <= j <= |values|
      invariant events == [WriteString(e.0), BeginMapping] + Concat(values[..j], ValueEntry)
    {
      ConcatSnoc(values, j, ValueEntry);
      events := events + [WriteInt64(values[j].0), WriteString(values[j].1)];
      j := j + 1;
    }
    assert values[..j] == values;
    events := events + [EndMapping];
  }

  /** One function's emitter calls once its key is written (lines 69-79). */
  method WriteFunction(key: seq<Byte>, f: Function) returns (events: seq<Event>)
    ensures events == FunctionEntry(key, f)
  {
    var parameters := f.parameters;
    events := [WriteScalar(key), Tag([Bang] + f.name), BeginSequence];
    var j := 0;
    while j < |parameters|
      invariant 0 <= j <= |parameters|
      invariant events == [WriteScalar(key), Tag([Bang] + f.name), BeginSequence] + Concat(parameters[..j], ParameterEntry)
    {
      ConcatSnoc(parameters, j, ParameterEntry);
      events := events + [Tag([Bang] + parameters[j].0), WriteString(parameters[j].1)];
      j := j + 1;
    }
    assert parameters[..j] == parameters;
    events := events + [EndSequence];
  }

  /** `v.TryFormat(key[offset..], out size)`: the decimal rendering of `v`
      copied byte by byte from `offset` when it fits in what is left of the
      buffer, and nothing written (size 0) when it does not. */
  method FormatInto(key: array<Byte>, offset: nat, v: int) returns (size: nat)
    requires offset <= key.Length
    modifies key
    ensures size == |TryFormat(v, key.Length - offset)| && offset + size <= key.Length
    ensures key[offset..offset + size] == TryFormat(v, key.Length - offset)
    ensures key[..offset] == old(key[..offset])
  {
    var text := Decimal(v);
    if |text| > key.Length - offset {
      return 0;
    }
    var j := 0;
    while j < |text|
      invariant 0 <= j <= |text|
      invariant key[offset..offset + j] == text[..j]
      invariant key[..offset] == old(key[..offset])
    {
      key[offset + j] := text[j];
      j := j + 1;
    }
    size := |text|;
  }

  /** The bytes before the type: `[`, the group, `, `. */
  lemma HeadLayout(head: seq<Byte>, g: seq<Byte>)
    requires |head| == |g| + 3 && head[0] == OpenBracket && head[1..1 + |g|] == g
    requires head[|g| + 1] == Comma && head[|g| + 2] == Space
    ensures head == [OpenBracket] + g + [Comma, Space]
  {
  }

  /** What the buffer holds once both numbers are written decides the
      scalar: `]` lands at 3 + group size + type size, and the key is the
      buffer up to it. */
  lemma KeyFromBuffer(before: seq<Byte>, after: seq<Byte>, r: Result<seq<Byte>>,
                      group: Int32, typeCode: Int32, g: seq<Byte>, t: seq<Byte>)
    requires g == TryFormat(group, KeyCapacity - 1) && t == TryFormat(typeCode, KeyCapacity - (|g| + 3))
    requires |g| + 3 + |t| <= |before| == KeyCapacity
    requires before[..|g| + 3] == [OpenBracket] + g + [Comma, Space]
    requires before[|g| + 3..|g| + 3 + |t|] == t
    requires |g| + 3 + |t| >= KeyCapacity ==> r == Err(IndexOutOfRange(|g| + 3 + |t|))
    requires |g| + 3 + |t| < KeyCapacity ==>
      after == before[|g| + 3 + |t| := CloseBracket] && r == Ok(after[..|g| + 3 + |t| + 1])
    ensures r == KeyScalar(group, typeCode)
  {
    KeyScalarFrom(group, typeCode, g, t);
    if |g| + 3 + |t| < KeyCapacity {
      ClosedAfter(before, |g| + 3, |t|);
    }
  }

  /** `]` written after a prefix and the span that follows it. */
  lemma ClosedAfter(buffer: seq<Byte>, n: nat, m: nat)
    requires n + m < |buffer|
    ensures buffer[n + m := CloseBracket][..n + m + 1] == buffer[..n] + buffer[n..n + m] + [CloseBracket]
  {
    var after := buffer[n + m := CloseBracket];
    assert after[..n] == buffer[..n];
    assert after[n..n + m] == buffer[n..n + m];
    assert after[..n + m + 1] == after[..n] + after[n..n + m] + [after[n + m]];
  }

  /** Lines 64-66: the group from offset 1, then `, ` after it. */
  method WriteHead(key: array<Byte>, group: Int32) returns (groupSize: nat)
    requires key.Length == KeyCapacity && key[0] == OpenBracket
    modifies key
    ensures groupSize == |TryFormat(group, KeyCapacity - 1)| && groupSize + 3 <= KeyCapacity
    ensures key[..groupSize + 3] == [OpenBracket] + TryFormat(group, KeyCapacity - 1) + [Comma, Space]
  {
    Int32DecimalLength(group);
    groupSize := FormatInto(key, 1, group);
    ghost var g := key[1..1 + groupSize];
    assert key[0] == OpenBracket by { assert key[..1][0] == OpenBracket; }
    key[groupSize + 1] := Comma;
    key[groupSize + 2] := Space;
    ghost var head := key[..groupSize + 3];
    assert head[0] == OpenBracket && head[1..1 + groupSize] == g;
    HeadLayout(head, g);
  }

  /** Line 68: `]` stored at `close`, which throws IndexOutOfRange when
      `close` is past the buffer; the scalar is the buffer up to it. */
  method CloseKey(key: array<Byte>, close: nat) returns (r: Result<seq<Byte>>)
    requires 0 < close
    modifies key
    ensures close >= key.Length ==> r == Err(IndexOutOfRange(close)) && key[..] == old(key[..])
    ensures close < key.Length ==> key[..] == old(key[..])[close := CloseBracket] && r == Ok(key[..close + 1])
  {
    if close >= key.Length {
      return Err(IndexOutOfRange(close));
    }
    key[close] := CloseBracket;
    r := Ok(key[..close + 1]);
  }

  /** Lines 64-69: the group from offset 1, `, ` after it, the type after
      that, `]` at offset 3 + group size + type size, and the scalar is the
      buffer up to that `]`, so bytes left over from a longer earlier key are
      never part of it. */
  method FormatKey(key: array<Byte>, group: Int32, typeCode: Int32) returns (r: Result<seq<Byte>>)
    requires key.Length == KeyCapacity && key[0] == OpenBracket
    modifies key
    ensures key[0] == OpenBracket
    ensures r == KeyScalar(group, typeCode)
  {
    var close := WriteFields(key, group, typeCode);
    ghost var g := TryFormat(group, KeyCapacity - 1);
    ghost var t := TryFormat(typeCode, KeyCapacity - (|g| + 3));
    ghost var before := key[..];
    assert before[..|g| + 3] == key[..|g| + 3] && before[|g| + 3..close] == key[|g| + 3..close];
    assert before[0] == OpenBracket by { assert key[..|g| + 3][0] == OpenBracket; }
    r := CloseKey(key, close);
    assert key[0] == key[..][0];
    KeyFromBuffer(before, key[..], r, group, typeCode, g, t);
  }

  /** Lines 64-67: the group, `, ` and the type written after the `[`;
      returns where the `]` goes. */
  method WriteFields(key: array<Byte>, group: Int32, typeCode: Int32) returns (close: nat)
    requires key.Length == KeyCapacity && key[0] == OpenBracket
    modifies key
    ensures var g := TryFormat(group, KeyCapacity - 1);
      var t := TryFormat(typeCode, KeyCapacity - (|g| + 3));
      && close == |g| + 3 + |t| <= KeyCapacity
      && key[..|g| + 3] == [OpenBracket] + g + [Comma, Space]
      && key[|g| + 3..close] == t
  {
    var groupSize := WriteHead(key, group);
    ghost var head := key[..groupSize + 3];
    var typeSize := FormatInto(key, groupSize + 3, typeCode);
    assert key[..groupSize + 3] == head;
    close := groupSize + 3 + typeSize;
  }

}
