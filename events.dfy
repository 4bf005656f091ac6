/** Mfm.Write (src/MfmToYaml/Mfm.cs:37-83) as the sequence of calls it makes
    on the YAML emitter, the `[group, type]` key it builds in a 24-byte
    buffer, and a reader of that sequence that recovers the table. */
module Events {
  import opened Bytes
  import opened Outcomes
  import opened Numbers
  import opened Lexer
  import opened Declarations

  /** One call on the emitter. */
  datatype Event =
    | BeginMapping
    | EndMapping
    | BeginSequence
    | EndSequence
    | WriteString(text: Name)
    | WriteInt64(value: Int64)
    | WriteScalar(bytes: seq<Byte>)
    | WriteRaw(bytes: seq<Byte>, indent: bool, lineBreak: bool)
    | Tag(tag: Name)

  datatype Option<T> = None | Some(value: T)

  /** The size of the reused key buffer. */
  const KeyCapacity: nat := 24

  const DocumentSeparator: seq<Byte> := "---"

  /** What `v.TryFormat(destination, out written)` leaves in a destination of
      `room` bytes: the rendering, or nothing (written = 0) when it does not fit. */
  function TryFormat(v: int, room: int): (s: seq<Byte>)
    ensures s == Decimal(v) || s == []
    ensures s == Decimal(v) <==> |Decimal(v)| <= room
  {
    if |Decimal(v)| <= room then Decimal(v) else []
  }

  /** The intended key text: `[` group `, ` type `]`. */
  function EncodeKey(group: int, typeCode: int): seq<Byte> {
    [OpenBracket] + Decimal(group) + [Comma, Space] + Decimal(typeCode) + [CloseBracket]
  }

  /** The bytes handed to WriteScalar for a function key (lines 60-69): the
      group at offset 1, `, ` after it, the type after that (if it still fits
      in the buffer), and `]` at offset 3 + group size + type size, which must
      be inside the buffer. */
  function KeyScalar(group: Int32, typeCode: Int32): (r: Result<seq<Byte>>)
    ensures r.Ok? ==> 4 <= |r.value| <= KeyCapacity && r.value[0] == OpenBracket && r.value[|r.value| - 1] == CloseBracket
    ensures r.Err? ==> r.error == IndexOutOfRange(KeyCapacity)
  {
    Int32DecimalLength(group);
    var g := TryFormat(group, KeyCapacity - 1);
    var t := TryFormat(typeCode, KeyCapacity - (|g| + 3));
    var close := 3 + |g| + |t|;
    if close < KeyCapacity then Ok([OpenBracket] + g + [Comma, Space] + t + [CloseBracket])
    else Err(IndexOutOfRange(close))
  }

  /** KeyScalar from the two TryFormat results. */
  lemma KeyScalarFrom(group: Int32, typeCode: Int32, g: seq<Byte>, t: seq<Byte>)
    requires g == TryFormat(group, KeyCapacity - 1) && t == TryFormat(typeCode, KeyCapacity - (|g| + 3))
    ensures 3 + |g| + |t| < KeyCapacity ==> KeyScalar(group, typeCode) == Ok([OpenBracket] + g + [Comma, Space] + t + [CloseBracket])
    ensures 3 + |g| + |t| >= KeyCapacity ==> KeyScalar(group, typeCode) == Err(IndexOutOfRange(3 + |g| + |t|))
  {
  }

  /** While the two renderings take at most 20 bytes together the buffer
      holds the whole key, and nothing left over from an earlier key shows. */
  lemma KeyScalarFits(group: Int32, typeCode: Int32)
    requires |Decimal(group)| + |Decimal(typeCode)| <= KeyCapacity - 4
    ensures KeyScalar(group, typeCode) == Ok(EncodeKey(group, typeCode))
  {
  }

  /** Only a value at or below -1_000_000_000 takes 11 bytes, so only a
      key holding one can fail to fit. */
  lemma KeyFitsUnlessVeryNegative(group: Int32, typeCode: Int32)
    requires group > -1_000_000_000 && typeCode > -1_000_000_000
    ensures |Decimal(group)| + |Decimal(typeCode)| <= KeyCapacity - 4
    ensures KeyScalar(group, typeCode) == Ok(EncodeKey(group, typeCode))
  {
    Int32DecimalLength(group);
    Int32DecimalLength(typeCode);
    KeyScalarFits(group, typeCode);
  }

  /** With 21 bytes of digits the type fills the buffer exactly and the `]`
      is written one past its end. */
  lemma KeyScalarOverrun(group: Int32, typeCode: Int32)
    requires |Decimal(group)| + |Decimal(typeCode)| == KeyCapacity - 3
    ensures KeyScalar(group, typeCode) == Err(IndexOutOfRange(KeyCapacity))
  {
    Int32DecimalLength(group);
  }

  /** With 22 bytes of digits the type does not fit, TryFormat writes nothing
      and its failure is ignored: the key loses its type. */
  lemma KeyScalarDropsType(group: Int32, typeCode: Int32)
    requires |Decimal(group)| + |Decimal(typeCode)| > KeyCapacity - 3
    ensures KeyScalar(group, typeCode) == Ok([OpenBracket] + Decimal(group) + [Comma, Space, CloseBracket])
  {
    Int32DecimalLength(group);
    var g := TryFormat(group, KeyCapacity - 1);
    assert g == Decimal(group);
    assert TryFormat(typeCode, KeyCapacity - (|g| + 3)) == [];
    assert [OpenBracket] + g + [Comma, Space] + [] + [CloseBracket] == [OpenBracket] + g + [Comma, Space, CloseBracket];
  }

  /** A rendering is made of `-` and digits, none of them whitespace. */
  lemma DecimalTokenBytes(v: int)
    ensures forall i :: 0 <= i < |Decimal(v)| ==> IsTokenByte(Decimal(v)[i]) && !IsWhitespace(Decimal(v)[i])
  {
    var d := Digits(if v < 0 then -v else v);
    assert forall i :: 0 <= i < |d| ==> IsDigit(d[i]);
  }

  /** The events of one entry after another, in table order. */
  function Concat<T>(xs: seq<T>, entry: T -> seq<Event>): seq<Event>
    decreases |xs|
  {
    if xs == [] then [] else Concat(xs[..|xs| - 1], entry) + entry(xs[|xs| - 1])
  }

  lemma {:induction false} ConcatCons<T>(xs: seq<T>, entry: T -> seq<Event>)
    requires xs != []
    ensures Concat(xs, entry) == entry(xs[0]) + Concat(xs[1..], entry)
    decreases |xs|
  {
    if |xs| > 1 {
      var front := xs[..|xs| - 1];
      ConcatCons(front, entry);
      assert front[1..] == xs[1..][..|xs[1..]| - 1];
    } else {
      assert xs[1..] == [];
    }
  }

  /** ConcatCons inside a longer list. */
  lemma ConcatConsThen<T>(xs: seq<T>, entry: T -> seq<Event>, close: seq<Event>, rest: seq<Event>)
    requires xs != []
    ensures Concat(xs, entry) + close + rest == entry(xs[0]) + (Concat(xs[1..], entry) + close + rest)
  {
    ConcatCons(xs, entry);
  }

  lemma ConcatSnoc<T>(xs: seq<T>, i: nat, entry: T -> seq<Event>)
    requires i < |xs|
    ensures Concat(xs[..i + 1], entry) == Concat(xs[..i], entry) + entry(xs[i])
  {
    assert xs[..i + 1][..i] == xs[..i];
  }

  /** One enum value (lines 47-48). */
  function ValueEntry(value: (Int64, Name)): seq<Event> {
    [WriteInt64(value.0), WriteString(value.1)]
  }

  /** One enum (lines 43-51): its name, then its values as a nested mapping. */
  function EnumEntry(e: (Name, FunctionEnum)): seq<Event> {
    [WriteString(e.0), BeginMapping] + Concat(e.1.values, ValueEntry) + [EndMapping]
  }

  /** One parameter (lines 75-76): its type as a `!` tag on its name. */
  function ParameterEntry(p: (Name, Name)): seq<Event> {
    [Tag([Bang] + p.0), WriteString(p.1)]
  }

  /** One function once its key text is known (lines 69-79). */
  function FunctionEntry(key: seq<Byte>, f: Function): seq<Event> {
    [WriteScalar(key), Tag([Bang] + f.name), BeginSequence] + Concat(f.parameters, ParameterEntry) + [EndSequence]
  }

  /** One function with its key written as intended. */
  function EncodedEntry(entry: (Key, Function)): seq<Event> {
    FunctionEntry(EncodeKey(entry.0.0, entry.0.1), entry.1)
  }

  /** The second document's entries (lines 63-80); the first key that
      overruns the buffer stops the writer. */
  function FunctionsEvents(functions: seq<(Key, Function)>): (r: Result<seq<Event>>)
    ensures r.Err? ==> r.error == IndexOutOfRange(KeyCapacity)
    decreases |functions|
  {
    if functions == [] then Ok([])
    else
      var last := functions[|functions| - 1];
      var front :- FunctionsEvents(functions[..|functions| - 1]);
      var key :- KeyScalar(last.0.0, last.0.1);
      Ok(front + FunctionEntry(key, last.1))
  }

  /** Mfm.Write: the enum document, the separator, the function document. */
  function WriteEvents(t: Tables): (r: Result<seq<Event>>)
    ensures r.Err? ==> r.error == IndexOutOfRange(KeyCapacity)
  {
    var functions :- FunctionsEvents(t.functions);
    Ok([BeginMapping] + Concat(t.enums, EnumEntry) + [EndMapping, WriteRaw(DocumentSeparator, false, true)]
       + [BeginMapping] + functions + [EndMapping])
  }

  /** Every key takes at most 20 bytes of digits and signs. */
  predicate KeysFit(functions: seq<(Key, Function)>) {
    forall i :: 0 <= i < |functions| ==>
      |Decimal(functions[i].0.0)| + |Decimal(functions[i].0.1)| <= KeyCapacity - 4
  }

  /** FunctionsEvents one entry further on. */
  lemma FunctionsEventsSnoc(functions: seq<(Key, Function)>, i: nat, front: seq<Event>)
    requires i < |functions| && FunctionsEvents(functions[..i]) == Ok(front)
    ensures var key := KeyScalar(functions[i].0.0, functions[i].0.1);
      FunctionsEvents(functions[..i + 1])
        == if key.Err? then Err(key.error) else Ok(front + FunctionEntry(key.value, functions[i].1))
  {
    assert functions[..i + 1][..i] == functions[..i];
  }

  /** A key that stops the writer stops it for good: once a prefix of the
      table fails, the whole table fails. */
  lemma {:induction false} FunctionsEventsStops(functions: seq<(Key, Function)>, i: nat)
    requires i <= |functions| && FunctionsEvents(functions[..i]).Err?
    ensures FunctionsEvents(functions).Err?
    decreases |functions| - i
  {
    if i < |functions| {
      assert functions[..i + 1][..i] == functions[..i];
      FunctionsEventsStops(functions, i + 1);
    } else {
      assert functions[..i] == functions;
    }
  }

  /** With every key fitting, each is written as intended. */
  lemma {:induction false} FunctionsEventsFit(functions: seq<(Key, Function)>)
    requires KeysFit(functions)
    ensures FunctionsEvents(functions) == Ok(Concat(functions, EncodedEntry))
    decreases |functions|
  {
    if functions != [] {
      var n := |functions| - 1;
      assert KeysFit(functions[..n]) by {
        forall i | 0 <= i < n ensures functions[..n][i] == functions[i] { }
      }
      FunctionsEventsFit(functions[..n]);
      KeyScalarFits(functions[n].0.0, functions[n].0.1);
    }
  }

  /** A key whose type does not fit stops the writer or loses its type, so
      no table holding one is written as intended. */
  lemma WideKeyMiswritten(t: Tables, i: nat)
    requires i < |t.functions| && |Decimal(t.functions[i].0.0)| + |Decimal(t.functions[i].0.1)| > KeyCapacity - 4
    ensures KeyScalar(t.functions[i].0.0, t.functions[i].0.1) != Ok(EncodeKey(t.functions[i].0.0, t.functions[i].0.1))
  {
    var (g, c) := t.functions[i].0;
    if |Decimal(g)| + |Decimal(c)| > KeyCapacity - 3 {
      KeyScalarDropsType(g, c);
      assert |KeyScalar(g, c).value| < |EncodeKey(g, c)|;
    } else {
      KeyScalarOverrun(g, c);
    }
  }

  /** What a reader of the two documents sees: each enum's name and values
      (its element type is not written) and the functions in full. */
  datatype Documents = Documents(enums: seq<(Name, seq<(Int64, Name)>)>, functions: seq<(Key, Function)>)

  function EnumsView(enums: seq<(Name, FunctionEnum)>): (v: seq<(Name, seq<(Int64, Name)>)>)
    ensures |v| == |enums|
    ensures forall i :: 0 <= i < |enums| ==> v[i] == (enums[i].0, enums[i].1.values)
  {
    if enums == [] then [] else [(enums[0].0, enums[0].1.values)] + EnumsView(enums[1..])
  }

  function View(t: Tables): Documents {
    Documents(EnumsView(t.enums), t.functions)
  }

  /** The outcome of reading a prefix of an event list: what was read and
      the events after it. */
  datatype Decoded<T> = Malformed | Decoded(value: T, rest: seq<Event>)

  /** Enum values up to and including the closing EndMapping. */
  function DecodeValues(events: seq<Event>): (r: Decoded<seq<(Int64, Name)>>)
    ensures r.Decoded? ==> |r.rest| < |events|
    decreases |events|
  {
    if events == [] then Malformed
    else if events[0] == EndMapping then Decoded([], events[1..])
    else if |events| >= 2 && events[0].WriteInt64? && events[1].WriteString? then
      match DecodeValues(events[2..])
      case Malformed => Malformed
      case Decoded(values, rest) => Decoded([(events[0].value, events[1].text)] + values, rest)
    else Malformed
  }

  /** Enums up to and including the closing EndMapping of the first document. */
  function DecodeEnums(events: seq<Event>): (r: Decoded<seq<(Name, seq<(Int64, Name)>)>>)
    ensures r.Decoded? ==> |r.rest| < |events|
    decreases |events|
  {
    if events == [] then Malformed
    else if events[0] == EndMapping then Decoded([], events[1..])
    else if |events| >= 2 && events[0].WriteString? && events[1] == BeginMapping then
      match DecodeValues(events[2..])
      case Malformed => Malformed
      case Decoded(values, rest) =>
        match DecodeEnums(rest)
        case Malformed => Malformed
        case Decoded(enums, rest') => Decoded([(events[0].text, values)] + enums, rest')
    else Malformed
  }

  /** Parameters up to and including the closing EndSequence. */
  function DecodeParameters(events: seq<Event>): (r: Decoded<seq<(Name, Name)>>)
    ensures r.Decoded? ==> |r.rest| < |events|
    decreases |events|
  {
    if events == [] then Malformed
    else if events[0] == EndSequence then Decoded([], events[1..])
    else if |events| >= 2 && events[0].Tag? && events[0].tag != [] && events[0].tag[0] == Bang && events[1].WriteString? then
      match DecodeParameters(events[2..])
      case Malformed => Malformed
      case Decoded(parameters, rest) => Decoded([(events[0].tag[1..], events[1].text)] + parameters, rest)
    else Malformed
  }

  /** The position of the first `,` in `s`, or its length if there is none. */
  function CommaIndex(s: seq<Byte>): (i: nat)
    ensures i <= |s| && (i < |s| ==> s[i] == Comma)
    ensures forall j :: 0 <= j < i ==> s[j] != Comma
  {
    if s == [] || s[0] == Comma then 0 else 1 + CommaIndex(s[1..])
  }

  /** A key scalar: `[`, a 32-bit integer, `, `, a 32-bit integer, `]`. */
  function DecodeKey(key: seq<Byte>): Option<Key> {
    if |key| < 2 || key[0] != OpenBracket || key[|key| - 1] != CloseBracket then None
    else DecodeKeyBody(key[1..|key| - 1])
  }

  /** The text between the brackets of a key. */
  function DecodeKeyBody(body: seq<Byte>): Option<Key> {
    var i := CommaIndex(body);
    if i + 1 >= |body| || body[i + 1] != Space then None
    else DecodePair(ParseInteger(body[..i], MinInt32, MaxInt32), ParseInteger(body[i + 2..], MinInt32, MaxInt32))
  }

  function DecodePair(group: Result<int>, typeCode: Result<int>): Option<Key> {
    if group.Ok? && typeCode.Ok? && MinInt32 <= group.value <= MaxInt32 && MinInt32 <= typeCode.value <= MaxInt32
    then Some((group.value as Int32, typeCode.value as Int32))
    else None
  }

  /** Functions up to and including the closing EndMapping of the second document. */
  function DecodeFunctions(events: seq<Event>): (r: Decoded<seq<(Key, Function)>>)
    ensures r.Decoded? ==> |r.rest| < |events|
    decreases |events|
  {
    if events == [] then Malformed
    else if events[0] == EndMapping then Decoded([], events[1..])
    else if |events| >= 3 && events[0].WriteScalar? && DecodeKey(events[0].bytes).Some?
         && events[1].Tag? && events[1].tag != [] && events[1].tag[0] == Bang && events[2] == BeginSequence then
      match DecodeParameters(events[3..])
      case Malformed => Malformed
      case Decoded(parameters, rest) =>
        match DecodeFunctions(rest)
        case Malformed => Malformed
        case Decoded(functions, rest') =>
          Decoded([(DecodeKey(events[0].bytes).value, Function(events[1].tag[1..], parameters))] + functions, rest')
    else Malformed
  }

  /** Both documents, separated by `---`. */
  function DecodeDocuments(events: seq<Event>): (r: Decoded<Documents>)
  {
    if events == [] || events[0] != BeginMapping then Malformed
    else
      match DecodeEnums(events[1..])
      case Malformed => Malformed
      case Decoded(enums, rest) =>
        if |rest| < 2 || rest[0] != WriteRaw(DocumentSeparator, false, true) || rest[1] != BeginMapping then Malformed
        else
          match DecodeFunctions(rest[2..])
          case Malformed => Malformed
          case Decoded(functions, rest') => Decoded(Documents(enums, functions), rest')
  }

  lemma {:induction false} DecodeValuesInverts(values: seq<(Int64, Name)>, rest: seq<Event>)
    ensures DecodeValues(Concat(values, ValueEntry) + [EndMapping] + rest) == Decoded(values, rest)
    decreases |values|
  {
    var events := Concat(values, ValueEntry) + [EndMapping] + rest;
    if values == [] {
      assert events[1..] == rest;
    } else {
      ConcatCons(values, ValueEntry);
      assert events[2..] == Concat(values[1..], ValueEntry) + [EndMapping] + rest;
      DecodeValuesInverts(values[1..], rest);
      assert [values[0]] + values[1..] == values;
    }
  }

  lemma {:induction false} DecodeEnumsInverts(enums: seq<(Name, FunctionEnum)>, rest: seq<Event>)
    ensures DecodeEnums(Concat(enums, EnumEntry) + [EndMapping] + rest) == Decoded(EnumsView(enums), rest)
    decreases |enums|
  {
    var events := Concat(enums, EnumEntry) + [EndMapping] + rest;
    if enums == [] {
      assert events[1..] == rest;
    } else {
      var after := Concat(enums[1..], EnumEntry) + [EndMapping] + rest;
      ConcatConsThen(enums, EnumEntry, [EndMapping], rest);
      DecodeEnumsInverts(enums[1..], rest);
      DecodeEnumEntry(enums[0], after);
    }
  }

  /** One enum's events are read back as its name and values. */
  lemma DecodeEnumEntry(e: (Name, FunctionEnum), after: seq<Event>)
    requires DecodeEnums(after).Decoded?
    ensures DecodeEnums(EnumEntry(e) + after)
         == Decoded([(e.0, e.1.values)] + DecodeEnums(after).value, DecodeEnums(after).rest)
  {
    EnumEntryShape(e, after);
    DecodeValuesInverts(e.1.values, after);
  }

  /** Where the parts of one enum's events sit. */
  lemma EnumEntryShape(e: (Name, FunctionEnum), after: seq<Event>)
    ensures var events := EnumEntry(e) + after;
      && |events| >= 2 && events[0] == WriteString(e.0) && events[1] == BeginMapping
      && events[2..] == Concat(e.1.values, ValueEntry) + [EndMapping] + after
  {
    var events := EnumEntry(e) + after;
    var inner := Concat(e.1.values, ValueEntry) + [EndMapping] + after;
    assert events == [WriteString(e.0), BeginMapping] + inner;
    assert events[2..] == inner;
  }

  lemma {:induction false} DecodeParametersInverts(parameters: seq<(Name, Name)>, rest: seq<Event>)
    ensures DecodeParameters(Concat(parameters, ParameterEntry) + [EndSequence] + rest) == Decoded(parameters, rest)
    decreases |parameters|
  {
    var events := Concat(parameters, ParameterEntry) + [EndSequence] + rest;
    if parameters == [] {
      assert events[1..] == rest;
    } else {
      var p := parameters[0];
      ConcatCons(parameters, ParameterEntry);
      assert events[2..] == Concat(parameters[1..], ParameterEntry) + [EndSequence] + rest;
      assert ([Bang] + p.0)[1..] == p.0;
      DecodeParametersInverts(parameters[1..], rest);
      assert [p] + parameters[1..] == parameters;
    }
  }

  /** The intended key text reads back as its (group, type). */
  lemma DecodeKeyInverts(group: Int32, typeCode: Int32)
    ensures DecodeKey(EncodeKey(group, typeCode)) == Some((group, typeCode))
  {
    var key := EncodeKey(group, typeCode);
    assert key[1..|key| - 1] == Decimal(group) + [Comma, Space] + Decimal(typeCode);
    DecodeBodyInverts(group, typeCode);
  }

  lemma DecodeBodyInverts(group: Int32, typeCode: Int32)
    ensures DecodeKeyBody(Decimal(group) + [Comma, Space] + Decimal(typeCode)) == Some((group, typeCode))
  {
    var g, t := Decimal(group), Decimal(typeCode);
    var body := g + [Comma, Space] + t;
    CommaIndexAfterDecimal(group, [Comma, Space] + t);
    assert body == g + ([Comma, Space] + t);
    assert body[..|g|] == g && body[|g| + 2..] == t;
    ParseDecimal(group, MinInt32, MaxInt32);
    ParseDecimal(typeCode, MinInt32, MaxInt32);
  }

  lemma CommaIndexAfterDecimal(v: int, rest: seq<Byte>)
    ensures CommaIndex(Decimal(v) + rest) == |Decimal(v)| + CommaIndex(rest)
  {
    DecimalTokenBytes(v);
    CommaIndexAfter(Decimal(v), rest);
  }

  lemma {:induction false} CommaIndexAfter(s: seq<Byte>, rest: seq<Byte>)
    requires forall i :: 0 <= i < |s| ==> s[i] != Comma
    ensures CommaIndex(s + rest) == |s| + CommaIndex(rest)
    decreases |s|
  {
    if s != [] {
      assert (s + rest)[1..] == s[1..] + rest;
      CommaIndexAfter(s[1..], rest);
    } else {
      assert s + rest == rest;
    }
  }

  /** The key whose type was dropped does not read back. */
  lemma DroppedTypeUnreadable(group: Int32, typeCode: Int32)
    requires |Decimal(group)| + |Decimal(typeCode)| > KeyCapacity - 3
    ensures KeyScalar(group, typeCode).Ok? && DecodeKey(KeyScalar(group, typeCode).value) == None
  {
    KeyScalarDropsType(group, typeCode);
    var key := [OpenBracket] + Decimal(group) + [Comma, Space, CloseBracket];
    assert key[1..|key| - 1] == Decimal(group) + [Comma, Space];
    TypelessBodyUnreadable(group);
  }

  lemma TypelessBodyUnreadable(group: Int32)
    ensures DecodeKeyBody(Decimal(group) + [Comma, Space]) == None
  {
    var body := Decimal(group) + [Comma, Space];
    CommaIndexAfterDecimal(group, [Comma, Space]);
    assert body[|Decimal(group)| + 2..] == [];
  }

  lemma {:induction false} DecodeFunctionsInverts(functions: seq<(Key, Function)>, rest: seq<Event>)
    ensures DecodeFunctions(Concat(functions, EncodedEntry) + [EndMapping] + rest) == Decoded(functions, rest)
    decreases |functions|
  {
    var events := Concat(functions, EncodedEntry) + [EndMapping] + rest;
    if functions == [] {
      assert events[1..] == rest;
    } else {
      var after := Concat(functions[1..], EncodedEntry) + [EndMapping] + rest;
      ConcatConsThen(functions, EncodedEntry, [EndMapping], rest);
      DecodeFunctionsInverts(functions[1..], rest);
      DecodeFunctionEntry(functions[0], after);
      assert [functions[0]] + functions[1..] == functions;
    }
  }

  /** One function's events are read back as that function. */
  lemma DecodeFunctionEntry(entry: (Key, Function), after: seq<Event>)
    requires DecodeFunctions(after).Decoded?
    ensures DecodeFunctions(EncodedEntry(entry) + after)
         == Decoded([entry] + DecodeFunctions(after).value, DecodeFunctions(after).rest)
  {
    DecodeKeyInverts(entry.0.0, entry.0.1);
    DecodeEntryWithKey(EncodeKey(entry.0.0, entry.0.1), entry.0, entry.1, after);
  }

  /** One function's events, under any key text that decodes to its key,
      are read back as that function. */
  lemma DecodeEntryWithKey(key: seq<Byte>, k: Key, f: Function, after: seq<Event>)
    requires DecodeKey(key) == Some(k) && DecodeFunctions(after).Decoded?
    ensures DecodeFunctions(FunctionEntry(key, f) + after)
         == Decoded([(k, f)] + DecodeFunctions(after).value, DecodeFunctions(after).rest)
  {
    FunctionEntryShape(key, f, after);
    DecodeParametersInverts(f.parameters, after);
  }

  /** Where the parts of one function's events sit. */
  lemma FunctionEntryShape(key: seq<Byte>, f: Function, after: seq<Event>)
    ensures var events := FunctionEntry(key, f) + after;
      && |events| >= 3 && events[0] == WriteScalar(key) && events[2] == BeginSequence
      && events[1] == Tag([Bang] + f.name) && events[1].tag[1..] == f.name
      && events[3..] == Concat(f.parameters, ParameterEntry) + [EndSequence] + after
  {
    var events := FunctionEntry(key, f) + after;
    var inner := Concat(f.parameters, ParameterEntry) + [EndSequence] + after;
    assert events == [WriteScalar(key), Tag([Bang] + f.name), BeginSequence] + inner;
    assert events[3..] == inner;
    assert ([Bang] + f.name)[1..] == f.name;
  }

  /** Round trip: when every key fits its buffer, the written events read
      back as the enums' names and values and the functions in full, and
      nothing follows. */
  lemma WriteRoundTrip(t: Tables)
    requires KeysFit(t.functions)
    ensures WriteEvents(t).Ok?
    ensures DecodeDocuments(WriteEvents(t).value) == Decoded(View(t), [])
  {
    FunctionsEventsFit(t.functions);
    var enums := Concat(t.enums, EnumEntry);
    var functions := Concat(t.functions, EncodedEntry);
    var second := [WriteRaw(DocumentSeparator, false, true), BeginMapping] + functions + [EndMapping];
    DocumentsShape(enums, functions);
    DecodeEnumsInverts(t.enums, second);
    DecodeFunctionsInverts(t.functions, []);
  }

  /** Where the two documents sit in what Write emits. */
  lemma DocumentsShape(enums: seq<Event>, functions: seq<Event>)
    ensures var events := [BeginMapping] + enums + [EndMapping, WriteRaw(DocumentSeparator, false, true)]
                          + [BeginMapping] + functions + [EndMapping];
      var second := [WriteRaw(DocumentSeparator, false, true), BeginMapping] + functions + [EndMapping];
      && events[0] == BeginMapping && events[1..] == enums + [EndMapping] + second
      && second[2..] == functions + [EndMapping] + []
  {
    var second := [WriteRaw(DocumentSeparator, false, true), BeginMapping] + functions + [EndMapping];
    var events := [BeginMapping] + enums + [EndMapping, WriteRaw(DocumentSeparator, false, true)]
                  + [BeginMapping] + functions + [EndMapping];
    assert events == [BeginMapping] + (enums + [EndMapping] + second);
    assert second[2..] == functions + [EndMapping] + [];
  }
}
