/** The loop of MfmReader.Read (src/MfmToYaml/Readers/MfmReader.cs:33-119) as a
    function: one `Step` per loop iteration over a configuration holding the
    cursor, the state, the saved state, the table and the two "current"
    references; `Run` iterates it until the cursor reaches the end. */
module ParserSpec {
  import opened Bytes
  import opened Outcomes
  import opened Numbers
  import opened Lexer
  import D = Declarations

  datatype State = None | FunctionEnum | FunctionEnumValue | Function | FunctionParameter | Comment

  /** A nullable reference to a table entry, by position in the table. */
  datatype Ref = Null | At(index: nat)

  datatype Config = Config(
    pos: nat,
    state: State,
    previous: State,
    tables: D.Tables,
    currentEnum: Ref,
    currentFunction: Ref)

  /** The states a special byte hands off to rank below the list states, so
      that a step either moves the cursor or moves down in rank. */
  function Rank(s: State): nat {
    if s == None || s == FunctionEnumValue || s == FunctionParameter then 1 else 0
  }

  predicate RefersInto(r: Ref, n: nat) {
    r.At? ==> r.index < n
  }

  /** What holds at the head of every loop iteration. In particular the
      ThrowIfNull checks of lines 60 and 91 never fire: in a list state (or
      when a comment will resume one) the current record is set. */
  predicate Wf(data: seq<Byte>, c: Config) {
    && c.pos <= |data|
    && (c.previous == None || c.previous == FunctionEnumValue || c.previous == FunctionParameter)
    && (c.state == None ==> c.previous == None)
    && (c.state == Comment ==> c.pos < |data| && data[c.pos] == Hashtag)
    && RefersInto(c.currentEnum, |c.tables.enums|)
    && RefersInto(c.currentFunction, |c.tables.functions|)
    && (c.state == FunctionEnumValue || c.previous == FunctionEnumValue ==> c.currentEnum.At?)
    && (c.state == FunctionParameter || c.previous == FunctionParameter ==> c.currentFunction.At?)
    && D.UniqueKeys(c.tables.enums)
    && D.UniqueKeys(c.tables.functions)
  }

  /** The state a special byte opens. */
  function Opener(b: Byte): State
    requires IsSpecial(b)
  {
    if b == Hashtag then Comment else if b == OpenMap then FunctionEnum else Function
  }

  /** The `default:` block (lines 106-116): skip whitespace, then index the
      next byte, which must be `#`, `m` or `[`. */
  function Dispatch(data: seq<Byte>, c: Config): (r: Result<Config>)
    requires c.pos <= |data|
    ensures var p := WhitespaceEnd(data, c.pos);
      && (r.Ok? <==> p < |data| && IsSpecial(data[p]))
      && (r.Ok? ==> r.value == c.(pos := p, state := Opener(data[p])))
      && (r.Err? ==> r.error == if p < |data| then UnexpectedCharacter(data[p], p) else IndexOutOfRange(p))
  {
    var p := WhitespaceEnd(data, c.pos);
    if p == |data| then Err(IndexOutOfRange(p))
    else if data[p] == Hashtag then Ok(c.(pos := p, state := Comment))
    else if data[p] == OpenMap then Ok(c.(pos := p, state := FunctionEnum))
    else if data[p] == OpenBracket then Ok(c.(pos := p, state := Function))
    else Err(UnexpectedCharacter(data[p], p))
  }

  /** Lines 62-66 and 93-97: a list state that meets a special byte after
      its whitespace saves itself and dispatches on that byte, which keeps
      the invariant and the table. */
  lemma HandoverKeeps(data: seq<Byte>, c: Config, s: State)
    requires Wf(data, c) && c.state == s && (s == FunctionEnumValue || s == FunctionParameter)
    requires WhitespaceEnd(data, c.pos) < |data| && IsSpecial(data[WhitespaceEnd(data, c.pos)])
    ensures var p := WhitespaceEnd(data, c.pos);
      && WhitespaceEnd(data, p) == p
      && Dispatch(data, c.(pos := p, previous := s)) == Ok(c.(pos := p, previous := s, state := Opener(data[p])))
      && Wf(data, c.(pos := p, previous := s, state := Opener(data[p])))
  {
  }

  /** The Comment case (lines 43-48). */
  function StepComment(data: seq<Byte>, c: Config): (r: Config)
    requires Wf(data, c) && c.state == Comment
    ensures Wf(data, r) && c.pos < r.pos
    ensures r.state == c.previous && r.previous == None
    ensures r.tables == c.tables && r.pos == CommentEnd(data, c.pos)
  {
    c.(pos := CommentEnd(data, c.pos), state := c.previous, previous := None)
  }

  /** The FunctionEnum case (lines 49-58): skip the three keyword bytes
      unchecked, read the name and the element type, add a new enum. */
  function StepEnum(data: seq<Byte>, c: Config): (r: Result<Config>)
    requires Wf(data, c) && c.state == FunctionEnum
    ensures r.Ok? ==> Wf(data, r.value) && c.pos < r.value.pos && Extends(c.tables, r.value.tables)
    ensures r.Ok? ==>
      && r.value.state == FunctionEnumValue
      && r.value.currentEnum == At(|c.tables.enums|)
      && EnumAdded(c.tables, r.value.tables)
    ensures r.Err? && r.error.DuplicateEnum? ==>
      exists i :: 0 <= i < |c.tables.enums| && c.tables.enums[i].0 == r.error.name
    ensures var nameStart := WhitespaceEnd(data, c.pos + 3);
      && (nameStart > |data| ==> r == Err(SliceOutOfRange(nameStart)))
      && (nameStart <= |data| ==>
            var nameEnd := TokenEnd(data, nameStart);
            c.pos < nameEnd && r == EnumNamed(data, c, Token(data[nameStart..nameEnd], nameEnd)))
  {
    var name := ReadSpan(data, WhitespaceEnd(data, c.pos + 3));
    if name.Err? then Err(name.error) else EnumNamed(data, c, name.value)
  }

  /** What an enum step reads and stores: the name is the token after the
      three bytes from the `m` and any whitespace, the element type the next
      token; the step fails exactly when the name is taken. */
  lemma StepEnumMeaning(data: seq<Byte>, c: Config)
    requires Wf(data, c) && c.state == FunctionEnum
    ensures var r := StepEnum(data, c);
      var nameStart := WhitespaceEnd(data, c.pos + 3);
      && (nameStart > |data| ==> r == Err(SliceOutOfRange(nameStart)))
      && (nameStart <= |data| ==>
            var nameEnd := TokenEnd(data, nameStart);
            var typeStart := WhitespaceEnd(data, nameEnd);
            && (r.Ok? <==> data[nameStart..nameEnd] !in D.Keys(c.tables.enums))
            && (r.Err? ==> r == Err(DuplicateEnum(data[nameStart..nameEnd])))
            && (r.Ok? ==>
                  && r.value.pos == TokenEnd(data, typeStart)
                  && r.value.tables.enums[|c.tables.enums|] ==
                       (data[nameStart..nameEnd], D.FunctionEnum(data[typeStart..r.value.pos], []))))
  {
    var nameStart := WhitespaceEnd(data, c.pos + 3);
    if nameStart <= |data| {
      var nameEnd := TokenEnd(data, nameStart);
      var name := Token(data[nameStart..nameEnd], nameEnd);
      var r := EnumNamed(data, c, name);
      assert StepEnum(data, c) == r;
      assert r.Ok? <==> name.text !in D.Keys(c.tables.enums);
      if r.Ok? {
        var typeStart := WhitespaceEnd(data, nameEnd);
        assert r.value.tables.enums[|c.tables.enums|] ==
          (name.text, D.FunctionEnum(data[typeStart..r.value.pos], []));
      }
    }
  }

  /** Lines 53-56, once the enum's name is read: skip whitespace, read the
      element type, add the enum unless its name is taken. */
  function EnumNamed(data: seq<Byte>, c: Config, name: Token): (r: Result<Config>)
    requires Wf(data, c) && c.state == FunctionEnum && c.pos < name.end <= |data|
    ensures r.Ok? ==> Wf(data, r.value) && c.pos < r.value.pos && Extends(c.tables, r.value.tables)
    ensures r.Ok? ==>
      && r.value.state == FunctionEnumValue
      && r.value.currentEnum == At(|c.tables.enums|)
      && EnumAdded(c.tables, r.value.tables)
    ensures r.Err? ==> r == Err(DuplicateEnum(name.text)) && name.text in D.Keys(c.tables.enums)
    ensures r.Ok? <==> name.text !in D.Keys(c.tables.enums)
    ensures r.Ok? ==> var typeStart := WhitespaceEnd(data, name.end);
      && r.value.pos == TokenEnd(data, typeStart)
      && r.value.tables.enums[|c.tables.enums|] == (name.text, D.FunctionEnum(data[typeStart..r.value.pos], []))
  {
    var elementType := ReadSpan(data, WhitespaceEnd(data, name.end)).value;
    if name.text in D.Keys(c.tables.enums) then Err(DuplicateEnum(name.text))
    else
      var entry := (name.text, D.FunctionEnum(elementType.text, []));
      Ok(c.(pos := elementType.end,
            state := FunctionEnumValue,
            tables := c.tables.(enums := c.tables.enums + [entry]),
            currentEnum := At(|c.tables.enums|)))
  }

  /** The FunctionEnumValue case (lines 59-73): hand over on a special byte,
      otherwise read a 64-bit value and a name and append them to the current
      enum. */
  function StepEnumValue(data: seq<Byte>, c: Config): (r: Result<Config>)
    requires Wf(data, c) && c.pos < |data| && c.state == FunctionEnumValue
    ensures r.Ok? ==> Wf(data, r.value) && Extends(c.tables, r.value.tables)
    ensures r.Ok? ==> c.pos < r.value.pos || (c.pos == r.value.pos && Rank(r.value.state) < Rank(c.state))
    ensures r.Ok? && r.value.state != FunctionEnumValue ==> HandedOver(data, r.value, FunctionEnumValue, c.tables)
    ensures r.Ok? && r.value.state == FunctionEnumValue ==> ValueRead(data, c, r.value)
    ensures var p := WhitespaceEnd(data, c.pos);
      p < |data| && !IsSpecial(data[p]) ==>
        var number := ParseInteger(data[p..TokenEnd(data, p)], MinInt64, MaxInt64);
        && (r.Ok? <==> number.Ok?)
        && (r.Ok? ==> r.value.state == FunctionEnumValue)
        && (r.Err? ==> r == Err(number.error))
  {
    var p := WhitespaceEnd(data, c.pos);
    if p == |data| then Err(IndexOutOfRange(p))
    else if IsSpecial(data[p]) then
      HandoverKeeps(data, c, FunctionEnumValue);
      Dispatch(data, c.(pos := p, previous := FunctionEnumValue))
    else
      var value :- ReadInteger(data, p, MinInt64, MaxInt64);
      ReadIntegerAdvances(data, p, MinInt64, MaxInt64);
      Ok(ValueNamed(data, c, value.0, value.1))
  }

  /** Lines 68-71, once the value is read and ends at `end`: skip whitespace,
      read the name and append (value, name) to the current enum. */
  function ValueNamed(data: seq<Byte>, c: Config, value: Int64, end: nat): (r: Config)
    requires Wf(data, c) && c.state == FunctionEnumValue && c.pos < end <= |data|
    ensures Wf(data, r) && c.pos < r.pos && r.state == FunctionEnumValue && Extends(c.tables, r.tables)
    ensures ValueAdded(c.tables, r.tables, c.currentEnum.index)
    ensures var i := c.currentEnum.index;
      var before := c.tables.enums[i].1.values;
      var after := r.tables.enums[i].1.values;
      && |after| == |before| + 1
      && var nameStart := WhitespaceEnd(data, end);
      && r.pos == TokenEnd(data, nameStart)
      && after[|before|] == (value, data[nameStart..r.pos])
  {
    var name := ReadSpan(data, WhitespaceEnd(data, end)).value;
    var i := c.currentEnum.index;
    var tables := D.AppendValue(c.tables, i, (value, name.text));
    assert tables.enums[i].1.values == c.tables.enums[i].1.values + [(value, name.text)];
    c.(pos := name.end, tables := tables)
  }

  /** Read<T> (lines 140-144): a token parsed as an integer of the range
      `lo..hi`, and the offset just past the token. */
  function ReadInteger(data: seq<Byte>, pos: nat, lo: int, hi: int): (r: Result<(int, nat)>)
    ensures r.Ok? ==> lo <= r.value.0 <= hi
    ensures pos > |data| ==> r == Err(SliceOutOfRange(pos))
  {
    var token :- ReadSpan(data, pos);
    var v :- ParseInteger(token.text, lo, hi);
    Ok((v, token.end))
  }

  /** From `pos` inside the buffer, the read parses the maximal token there
      and ends just past it; the parse's failure is the read's failure. */
  lemma ReadIntegerMeaning(data: seq<Byte>, pos: nat, lo: int, hi: int)
    requires pos <= |data|
    ensures var r := ReadInteger(data, pos, lo, hi);
      var parsed := ParseInteger(data[pos..TokenEnd(data, pos)], lo, hi);
      && (r.Ok? <==> parsed.Ok?)
      && (r.Ok? ==> r.value == (parsed.value, TokenEnd(data, pos)))
      && (r.Err? ==> r.error == parsed.error)
  {
    assert ReadSpan(data, pos).value.text == data[pos..TokenEnd(data, pos)];
  }

  /** A number read takes at least one byte and stays inside the buffer. */
  lemma ReadIntegerAdvances(data: seq<Byte>, pos: nat, lo: int, hi: int)
    ensures var r := ReadInteger(data, pos, lo, hi);
      r.Ok? ==> pos < r.value.1 <= |data|
  {
  }

  /** A function header's key, and the offset just past the byte that closes it. */
  datatype KeyToken = KeyToken(group: Int32, typeCode: Int32, end: nat)

  /** Lines 75-82, from the `[` at `pos`: skip one byte, read the group, skip
      exactly one byte, skip whitespace, read the type, skip exactly one byte.
      No whitespace is allowed before the group or before either separator. */
  function ReadFunctionKey(data: seq<Byte>, pos: nat): (r: Result<KeyToken>)
    requires pos < |data|
  {
    var group :- ReadInteger(data, pos + 1, MinInt32, MaxInt32);
    ReadKeyType(data, group)
  }

  /** What a key read yields: the group is the integer read right after the
      `[`, the type the integer read after one separator byte and any
      whitespace, and the key ends one byte past the type; a failed group
      read is the key's failure. */
  lemma ReadFunctionKeyMeaning(data: seq<Byte>, pos: nat)
    requires pos < |data|
    ensures var group := ReadInteger(data, pos + 1, MinInt32, MaxInt32);
      group.Err? ==> ReadFunctionKey(data, pos) == Err(group.error)
    ensures var r := ReadFunctionKey(data, pos);
      r.Ok? ==> ReadInteger(data, pos + 1, MinInt32, MaxInt32) == Ok((r.value.group as int, TokenEnd(data, pos + 1)))
    ensures var r := ReadFunctionKey(data, pos);
      var group := ReadInteger(data, pos + 1, MinInt32, MaxInt32);
      r.Ok? ==>
        var typeCode := ReadInteger(data, WhitespaceEnd(data, group.value.1 + 1), MinInt32, MaxInt32);
        typeCode.Ok? && typeCode.value.0 == r.value.typeCode as int && r.value.end == typeCode.value.1 + 1
  {
    KeyGroupRead(data, pos);
    var group := ReadInteger(data, pos + 1, MinInt32, MaxInt32);
    if group.Ok? {
      KeyTypeRead(data, group.value);
    }
  }

  /** The key read fails as its group read does, or goes on to the type
      just past the group's token. */
  lemma KeyGroupRead(data: seq<Byte>, pos: nat)
    requires pos < |data|
    ensures var group := ReadInteger(data, pos + 1, MinInt32, MaxInt32);
      && (group.Err? ==> ReadFunctionKey(data, pos) == Err(group.error))
      && (group.Ok? ==> ReadFunctionKey(data, pos) == ReadKeyType(data, group.value) && group.value.1 == TokenEnd(data, pos + 1))
  {
    var group := ReadInteger(data, pos + 1, MinInt32, MaxInt32);
    if group.Ok? {
      ReadIntegerMeaning(data, pos + 1, MinInt32, MaxInt32);
    }
  }

  /** A completed key keeps the group read, holds the integer read after
      one byte and any whitespace as its type, and ends one byte past it. */
  lemma KeyTypeRead(data: seq<Byte>, group: (int, nat))
    requires MinInt32 <= group.0 <= MaxInt32
    ensures var r := ReadKeyType(data, group);
      var typeCode := ReadInteger(data, WhitespaceEnd(data, group.1 + 1), MinInt32, MaxInt32);
      r.Ok? ==>
        && r.value.group as int == group.0
        && typeCode.Ok? && typeCode.value.0 == r.value.typeCode as int && r.value.end == typeCode.value.1 + 1
  {
  }

  /** The rest of the key once its group has been read (lines 78-82): skip
      exactly one byte, skip whitespace, read the type, skip exactly one byte. */
  function ReadKeyType(data: seq<Byte>, group: (int, nat)): (r: Result<KeyToken>)
    requires MinInt32 <= group.0 <= MaxInt32
  {
    var typeCode :- ReadInteger(data, WhitespaceEnd(data, group.1 + 1), MinInt32, MaxInt32);
    Ok(KeyToken(group.0, typeCode.0, typeCode.1 + 1))
  }

  /** A key takes at least its `[`, one byte of group, the separator, one
      byte of type and the closing byte, and ends at most one past the
      buffer. */
  lemma KeyAdvances(data: seq<Byte>, pos: nat)
    requires pos < |data|
    ensures var r := ReadFunctionKey(data, pos);
      r.Ok? ==> pos + 3 < r.value.end <= |data| + 1
  {
    var group := ReadInteger(data, pos + 1, MinInt32, MaxInt32);
    ReadIntegerAdvances(data, pos + 1, MinInt32, MaxInt32);
    if group.Ok? {
      ReadIntegerAdvances(data, WhitespaceEnd(data, group.value.1 + 1), MinInt32, MaxInt32);
    }
  }

  /** The Function case (lines 74-89): read the key and the name, add a new
      function with no parameters. */
  function StepFunction(data: seq<Byte>, c: Config): (r: Result<Config>)
    requires Wf(data, c) && c.pos < |data| && c.state == Function
    ensures r.Ok? ==> Wf(data, r.value) && c.pos < r.value.pos && Extends(c.tables, r.value.tables)
    ensures r.Ok? ==>
      && r.value.state == FunctionParameter
      && r.value.currentFunction == At(|c.tables.functions|)
      && FunctionAdded(c.tables, r.value.tables)
    ensures r.Err? && r.error.DuplicateFunction? ==>
      exists i :: 0 <= i < |c.tables.functions| && c.tables.functions[i].0 == (r.error.group, r.error.typeCode)
    ensures var key := ReadFunctionKey(data, c.pos);
      && (key.Err? ==> r == Err(key.error))
      && (key.Ok? ==> NameAfterKey(data, c.tables, key.value, r))
  {
    var key :- ReadFunctionKey(data, c.pos);
    KeyAdvances(data, c.pos);
    FunctionNamed(data, c, key)
  }

  /** Lines 83-87, once the key is read: skip whitespace, read the name, add
      the function unless its key is taken. */
  function FunctionNamed(data: seq<Byte>, c: Config, key: KeyToken): (r: Result<Config>)
    requires Wf(data, c) && c.state == Function && c.pos < key.end
    ensures r.Ok? ==> Wf(data, r.value) && c.pos < r.value.pos && Extends(c.tables, r.value.tables)
    ensures r.Ok? ==>
      && r.value.state == FunctionParameter
      && r.value.currentFunction == At(|c.tables.functions|)
      && FunctionAdded(c.tables, r.value.tables)
    ensures r.Err? && r.error.DuplicateFunction? ==>
      exists i :: 0 <= i < |c.tables.functions| && c.tables.functions[i].0 == (r.error.group, r.error.typeCode)
    ensures NameAfterKey(data, c.tables, key, r)
  {
    var name :- ReadSpan(data, WhitespaceEnd(data, key.end));
    var k: D.Key := (key.group, key.typeCode);
    if k in D.Keys(c.tables.functions) then Err(DuplicateFunction(key.group, key.typeCode))
    else
      Ok(c.(pos := name.end,
            state := FunctionParameter,
            tables := c.tables.(functions := c.tables.functions + [(k, D.Function(name.text, []))]),
            currentFunction := At(|c.tables.functions|)))
  }

  /** One pass through the FunctionParameter case (lines 90-105) as the source
      runs it, whether or not it moves the cursor. */
  function ParameterIteration(data: seq<Byte>, c: Config): (r: Result<Config>)
    requires Wf(data, c) && c.pos < |data| && c.state == FunctionParameter
    ensures r.Ok? ==> Wf(data, r.value) && c.pos <= r.value.pos && Extends(c.tables, r.value.tables)
    ensures r.Ok? && r.value.state != FunctionParameter ==> HandedOver(data, r.value, FunctionParameter, c.tables)
    ensures r.Ok? && r.value.state == FunctionParameter ==>
      ParameterAdded(c.tables, r.value.tables, c.currentFunction.index)
  {
    var p := WhitespaceEnd(data, c.pos);
    if p == |data| then Err(IndexOutOfRange(p))
    else if IsSpecial(data[p]) then
      HandoverKeeps(data, c, FunctionParameter);
      Dispatch(data, c.(pos := p, previous := FunctionParameter))
    else Ok(ParameterRead(data, c, p))
  }

  /** What a parameter pass reads and stores: whitespace up to the end of
      the buffer is an out-of-range error there; on any byte that is not
      special the pass stays in the parameter state and appends to the end
      of the current function exactly (the token there with its braces
      trimmed, the token after it and any whitespace), leaving the cursor
      just past the name. */
  lemma ParameterIterationMeaning(data: seq<Byte>, c: Config)
    requires Wf(data, c) && c.pos < |data| && c.state == FunctionParameter
    ensures var r := ParameterIteration(data, c);
      var typeStart := WhitespaceEnd(data, c.pos);
      && (typeStart == |data| ==> r == Err(IndexOutOfRange(typeStart)))
      && (typeStart < |data| && !IsSpecial(data[typeStart]) ==>
            && r.Ok? && r.value.state == FunctionParameter
            && var i := c.currentFunction.index;
            && var before := c.tables.functions[i].1.parameters;
            && var after := r.value.tables.functions[i].1.parameters;
            && |after| == |before| + 1
            && var typeEnd := TokenEnd(data, typeStart);
            && var nameStart := WhitespaceEnd(data, typeEnd);
            && r.value.pos == TokenEnd(data, nameStart)
            && after[|before|] == (TrimBraces(data[typeStart..typeEnd]), data[nameStart..r.value.pos]))
  {
    var typeStart := WhitespaceEnd(data, c.pos);
    if typeStart < |data| && !IsSpecial(data[typeStart]) {
      assert ParameterIteration(data, c) == Ok(ParameterRead(data, c, typeStart));
    }
  }

  /** Lines 96-104, from the first byte `p` of the type: read the type and
      the name and append (type without its braces, name) to the current
      function's parameters. */
  function ParameterRead(data: seq<Byte>, c: Config, p: nat): (r: Config)
    requires Wf(data, c) && c.state == FunctionParameter && c.pos <= p < |data|
    ensures Wf(data, r) && p <= r.pos && r.state == FunctionParameter && Extends(c.tables, r.tables)
    ensures ParameterAdded(c.tables, r.tables, c.currentFunction.index)
    ensures var i := c.currentFunction.index;
      var before := c.tables.functions[i].1.parameters;
      var after := r.tables.functions[i].1.parameters;
      && |after| == |before| + 1
      && var typeEnd := TokenEnd(data, p);
      && var nameStart := WhitespaceEnd(data, typeEnd);
      && r.pos == TokenEnd(data, nameStart)
      && after[|before|] == (TrimBraces(data[p..typeEnd]), data[nameStart..r.pos])
  {
    var (parameter, end) := ParameterTokens(data, p);
    var i := c.currentFunction.index;
    ParameterAppended(data, c, parameter, end);
    var r := c.(pos := end, tables := D.AppendParameter(c.tables, i, parameter));
    assert r.tables.functions[i].1.parameters[|c.tables.functions[i].1.parameters|] == parameter;
    r
  }

  /** Moving the cursor within the buffer and appending a parameter to the
      current function keeps the invariant and only grows the table. */
  lemma ParameterAppended(data: seq<Byte>, c: Config, parameter: (D.Name, D.Name), end: nat)
    requires Wf(data, c) && c.state == FunctionParameter && c.pos <= end <= |data|
    ensures var i := c.currentFunction.index;
      var r := c.(pos := end, tables := D.AppendParameter(c.tables, i, parameter));
      && Wf(data, r) && Extends(c.tables, r.tables)
      && |r.tables.functions| == |c.tables.functions|
      && r.tables.functions[i].1.parameters == c.tables.functions[i].1.parameters + [parameter]
  {
    AppendParameterExtends(c.tables, c.currentFunction.index, parameter);
  }

  /** Appending a parameter keeps every key, name and earlier parameter. */
  lemma AppendParameterExtends(t: D.Tables, i: nat, parameter: (D.Name, D.Name))
    requires i < |t.functions| && D.UniqueKeys(t.functions)
    ensures var u := D.AppendParameter(t, i, parameter);
      && Extends(t, u) && D.UniqueKeys(u.functions) && u.enums == t.enums
  {
  }

  /** The two tokens of a parameter from `p` on: the type with its braces
      trimmed, the name, and where the name ends. */
  function ParameterTokens(data: seq<Byte>, p: nat): (r: ((D.Name, D.Name), nat))
    requires p <= |data|
    ensures p <= r.1 <= |data|
    ensures r.0.0 != [] ==> !IsBrace(r.0.0[0]) && !IsBrace(r.0.0[|r.0.0| - 1])
    ensures var typeEnd := TokenEnd(data, p);
      var nameStart := WhitespaceEnd(data, typeEnd);
      && r.1 == TokenEnd(data, nameStart)
      && r.0 == (TrimBraces(data[p..typeEnd]), data[nameStart..r.1])
  {
    var paramType := ReadSpan(data, p).value;
    var paramName := ReadSpan(data, WhitespaceEnd(data, paramType.end)).value;
    ((TrimBraces(paramType.text), paramName.text), paramName.end)
  }

  /** The FunctionParameter case with the source's endless repetition cut
      short: a pass that leaves the cursor where it was would be repeated
      forever (see ParameterStallsForever), so it is reported as NoProgress. */
  function StepParameter(data: seq<Byte>, c: Config): (r: Result<Config>)
    requires Wf(data, c) && c.pos < |data| && c.state == FunctionParameter
    ensures r.Ok? ==> Wf(data, r.value) && Extends(c.tables, r.value.tables)
    ensures r.Ok? ==> c.pos < r.value.pos || (c.pos == r.value.pos && Rank(r.value.state) < Rank(c.state))
    ensures r.Err? && r.error.NoProgress? ==>
      && r.error.offset == c.pos
      && ParameterIteration(data, c).Ok?
      && ParameterIteration(data, c).value.pos == c.pos
    ensures var pass := ParameterIteration(data, c);
      && (pass.Err? ==> r == pass)
      && (pass.Ok? && pass.value.state == FunctionParameter && pass.value.pos == c.pos ==> r == Err(NoProgress(c.pos)))
      && (r.Ok? ==> r == pass)
  {
    var next :- ParameterIteration(data, c);
    if next.state == FunctionParameter && next.pos == c.pos then Err(NoProgress(c.pos)) else Ok(next)
  }

  /** `u` is `t` with one pair appended to the values of the `i`-th enum,
      and no other change: the enum list keeps its length and that enum's
      value list grows by that one entry. */
  predicate ValueAdded(t: D.Tables, u: D.Tables, i: nat) {
    && i < |t.enums| && |u.enums| == |t.enums|
    && var before := t.enums[i].1.values;
    && var after := u.enums[i].1.values;
    && |after| == |before| + 1
    && u == D.AppendValue(t, i, after[|before|])
  }

  /** `next` is `c` after one value pass: the cursor has moved on, and the
      pair read from the cursor on is appended to the current enum. */
  predicate ValueRead(data: seq<Byte>, c: Config, next: Config) {
    && c.currentEnum.At?
    && var i := c.currentEnum.index;
    && c.pos < next.pos
    && ValueAdded(c.tables, next.tables, i)
    && ValueTokens(data, c.pos, next.tables.enums[i].1.values[|c.tables.enums[i].1.values|], next.pos)
  }

  /** From `pos` on, after whitespace: a token that parses as the 64-bit
      `value.0`, whitespace, and the token `value.1`, which ends at `end`. */
  predicate ValueTokens(data: seq<Byte>, pos: nat, value: (Int64, D.Name), end: nat) {
    && pos <= |data|
    && var valueStart := WhitespaceEnd(data, pos);
    && var valueEnd := TokenEnd(data, valueStart);
    && var nameStart := WhitespaceEnd(data, valueEnd);
    && ParseInteger(data[valueStart..valueEnd], MinInt64, MaxInt64) == Ok(value.0 as int)
    && end == TokenEnd(data, nameStart)
    && value.1 == data[nameStart..end]
  }

  /** `next` has stopped on a special byte, in the state that byte opens,
      with `s` saved as its previous state and the table `t` unchanged
      (lines 62-66 and 93-97). */
  predicate HandedOver(data: seq<Byte>, next: Config, s: State, t: D.Tables) {
    && next.pos < |data| && IsSpecial(data[next.pos])
    && next.state == Opener(data[next.pos])
    && next.previous == s
    && next.tables == t
  }

  /** `u` is `t` with one enum, without values, added at the end of the
      enum table, and no other change. */
  predicate EnumAdded(t: D.Tables, u: D.Tables) {
    && |u.enums| == |t.enums| + 1
    && u.enums[..|t.enums|] == t.enums
    && u.enums[|t.enums|].1.values == []
    && u.functions == t.functions
  }

  /** `u` is `t` with one function, without parameters, added at the end of
      the function table, and no other change. */
  predicate FunctionAdded(t: D.Tables, u: D.Tables) {
    && |u.functions| == |t.functions| + 1
    && u.functions[..|t.functions|] == t.functions
    && u.functions[|t.functions|].1.parameters == []
    && u.enums == t.enums
  }

  /** Reading a function's name after its key, against the table `t`: past
      the buffer it fails, otherwise it succeeds exactly when the key is not
      in `t`, and then it ends after the name and stores (key, name) as the
      next function. */
  predicate NameAfterKey(data: seq<Byte>, t: D.Tables, key: KeyToken, r: Result<Config>) {
    var nameStart := WhitespaceEnd(data, key.end);
    && (nameStart > |data| ==> r == Err(SliceOutOfRange(nameStart)))
    && (nameStart <= |data| ==> (r.Ok? <==> (key.group, key.typeCode) !in D.Keys(t.functions)))
    && (r.Ok? ==>
          && nameStart <= |data|
          && r.value.pos == TokenEnd(data, nameStart)
          && |t.functions| < |r.value.tables.functions|
          && r.value.tables.functions[|t.functions|] ==
               ((key.group, key.typeCode), D.Function(data[nameStart..r.value.pos], [])))
  }

  /** `u` is `t` with one parameter appended to the `i`-th function, and no
      other change: the function list keeps its length, the parameter list
      grows by that one entry, and its type neither starts nor ends with a
      brace. */
  predicate ParameterAdded(t: D.Tables, u: D.Tables, i: nat) {
    && i < |t.functions| && |u.functions| == |t.functions|
    && var before := t.functions[i].1.parameters;
    && var after := u.functions[i].1.parameters;
    && |after| == |before| + 1
    && u == D.AppendParameter(t, i, after[|before|])
    && var paramType := after[|before|].0;
    && (paramType != [] ==> !IsBrace(paramType[0]) && !IsBrace(paramType[|paramType| - 1]))
  }

  /** `u` is `t` with entries added at the end of either table and pairs
      added at the end of existing entries' lists: nothing removed, reordered
      or renamed. */
  predicate Extends(t: D.Tables, u: D.Tables) {
    && |t.enums| <= |u.enums|
    && |t.functions| <= |u.functions|
    && (forall i :: 0 <= i < |t.enums| ==>
          && u.enums[i].0 == t.enums[i].0
          && u.enums[i].1.elementType == t.enums[i].1.elementType
          && t.enums[i].1.values <= u.enums[i].1.values)
    && (forall i :: 0 <= i < |t.functions| ==>
          && u.functions[i].0 == t.functions[i].0
          && u.functions[i].1.name == t.functions[i].1.name
          && t.functions[i].1.parameters <= u.functions[i].1.parameters)
  }

  /** One iteration of the `while` loop of Read. */
  function Step(data: seq<Byte>, c: Config): (r: Result<Config>)
    requires Wf(data, c) && c.pos < |data|
    ensures r.Ok? ==> Wf(data, r.value) && Extends(c.tables, r.value.tables)
    ensures r.Ok? ==> c.pos < r.value.pos || (c.pos == r.value.pos && Rank(r.value.state) < Rank(c.state))
  {
    match c.state
    case Comment => Ok(StepComment(data, c))
    case FunctionEnum => StepEnum(data, c)
    case FunctionEnumValue => StepEnumValue(data, c)
    case Function => StepFunction(data, c)
    case FunctionParameter => StepParameter(data, c)
    case None => Dispatch(data, c)
  }

  /** The loop of Read: step until the cursor reaches the end of the buffer. */
  function Run(data: seq<Byte>, c: Config): (r: Result<Config>)
    requires Wf(data, c)
    ensures r.Ok? ==> Wf(data, r.value) && r.value.pos == |data|
    decreases |data| - c.pos, Rank(c.state)
  {
    if c.pos == |data| then Ok(c)
    else
      var next :- Step(data, c);
      Run(data, next)
  }

  /** Run goes through one step: it stops on that step's error, or goes on
      from the configuration the step reaches. */
  lemma RunStep(data: seq<Byte>, c: Config)
    requires Wf(data, c) && c.pos < |data|
    ensures Step(data, c).Err? ==> Run(data, c) == Err(Step(data, c).error)
    ensures Step(data, c).Ok? ==> Run(data, c) == Run(data, Step(data, c).value)
  {
  }

  /** A reader at `pos` in its initial state over the table `t`. */
  function Start(pos: nat, t: D.Tables): Config {
    Config(pos, None, None, t, Null, Null)
  }

  /** `new MfmReader(data, mfm).Read()` on an empty table. */
  function Parse(data: seq<Byte>): (r: Result<D.Tables>)
    ensures r.Ok? ==> D.UniqueKeys(r.value.enums) && D.UniqueKeys(r.value.functions)
  {
    var c :- Run(data, Start(0, D.Empty));
    Ok(c.tables)
  }
}
