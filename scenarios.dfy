/** Small concrete inputs run through the model of the reader, the
    capitalisation pass and the key writer, each lemma exhibiting one
    behaviour of src/MfmToYaml/Readers/MfmReader.cs or src/MfmToYaml/Mfm.cs. */
module Scenarios {
  import opened Bytes
  import opened Outcomes
  import opened Numbers
  import opened Lexer
  import opened ParserSpec
  import opened Events
  import opened Names
  import Conversion
  import D = Declarations

  /** A top-level byte other than whitespace, `#`, `m` or `[` is rejected
      where it stands; here a buffer that opens with `@`. */
  lemma StrayByteRejected(data: seq<Byte>)
    requires |data| > 0 && data[0] == '@'
    ensures Parse(data) == Err(UnexpectedCharacter('@', 0))
  {
    assert WhitespaceEnd(data, 0) == 0;
    RunStep(data, Start(0, D.Empty));
  }

  /** The key `[1, 2]` at `at` reads as (1, 2), and the key ends just past
      its `]`. */
  lemma KeyOneTwo(data: seq<Byte>, at: nat)
    requires at + 6 <= |data| && data[at..at + 6] == "[1, 2]"
    ensures ReadFunctionKey(data, at) == Ok(KeyToken(1, 2, at + 6))
  {
    assert data[at + 1] == '1' && data[at + 2] == ',' && data[at + 3] == ' ';
    assert data[at + 4] == '2' && data[at + 5] == ']';
    assert TokenEnd(data, at + 1) == at + 2;
    assert data[at + 1..at + 2] == "1";
    ParseDecimal(1, MinInt32, MaxInt32);
    assert WhitespaceEnd(data, at + 3) == at + 4;
    assert TokenEnd(data, at + 4) == at + 5;
    assert data[at + 4..at + 5] == "2";
    ParseDecimal(2, MinInt32, MaxInt32);
  }

  /** The reader's state right after the header `[1, 2] x`, x a one-byte name. */
  function AfterHeader(name: Byte): Config {
    Config(8, FunctionParameter, State.None, D.Tables([], [((1, 2), D.Function([name], []))]), Null, At(0))
  }

  /** A buffer that opens with `[` enters the Function state where it stands. */
  lemma FunctionOpens(data: seq<Byte>)
    requires |data| > 0 && data[0] == OpenBracket
    ensures Run(data, Start(0, D.Empty)) == Run(data, Start(0, D.Empty).(state := Function))
  {
    var c0 := Start(0, D.Empty);
    assert WhitespaceEnd(data, 0) == 0;
    assert Step(data, c0) == Ok(c0.(state := Function));
    RunStep(data, c0);
  }

  /** The Function step over the header `[1, 2] x`. */
  lemma HeaderStep(data: seq<Byte>)
    requires |data| >= 8 && data[..6] == "[1, 2]" && data[6] == Space && IsTokenByte(data[7])
    requires |data| == 8 || IsWhitespace(data[8])
    ensures Step(data, Start(0, D.Empty).(state := Function)) == Ok(AfterHeader(data[7]))
  {
    assert data[0..6] == data[..6];
    KeyOneTwo(data, 0);
    assert WhitespaceEnd(data, 6) == 7;
    assert TokenEnd(data, 7) == 8;
    assert data[7..8] == [data[7]];
  }

  /** From the start, a buffer that opens with the header `[1, 2] x` runs as
      the reader does from AfterHeader(x). */
  lemma HeaderRead(data: seq<Byte>)
    requires |data| >= 8 && data[..6] == "[1, 2]" && data[6] == Space && IsTokenByte(data[7])
    requires |data| == 8 || IsWhitespace(data[8])
    ensures Run(data, Start(0, D.Empty)) == Run(data, AfterHeader(data[7]))
  {
    assert data[0] == OpenBracket;
    FunctionOpens(data);
    HeaderStep(data);
    RunStep(data, Start(0, D.Empty).(state := Function));
  }

  /** A document `[1, 2] x` that ends in a newline fails: the parameter loop
      skips the newline and indexes one byte past the end. */
  lemma TrailingNewlineFails(data: seq<Byte>)
    requires |data| == 9 && data[..6] == "[1, 2]" && data[6] == Space && IsTokenByte(data[7])
    requires data[8] == Lf
    ensures Parse(data) == Err(IndexOutOfRange(9))
  {
    HeaderRead(data);
    assert WhitespaceEnd(data, 8) == 9;
    assert Step(data, AfterHeader(data[7])) == Err(IndexOutOfRange(9));
    RunStep(data, AfterHeader(data[7]));
  }

  /** The reader at the second header of `[1, 2] x [`. */
  function AtSecondHeader(name: Byte): Config {
    AfterHeader(name).(pos := 9, state := Function, previous := FunctionParameter)
  }

  /** After `[1, 2] x ` the next `[` opens a second header. */
  lemma SecondHeaderOpens(data: seq<Byte>, name: Byte)
    requires |data| > 9 && data[8] == Space && data[9] == OpenBracket
    ensures Step(data, AfterHeader(name)) == Ok(AtSecondHeader(name))
  {
    assert WhitespaceEnd(data, 8) == 9;
    assert WhitespaceEnd(data, 9) == 9;
  }

  /** A second header with the key (1, 2) repeats the first one's key. */
  lemma SecondHeaderRepeats(data: seq<Byte>, name: Byte)
    requires |data| >= 15 && data[9..15] == "[1, 2]"
    ensures Step(data, AtSecondHeader(name)) == Err(DuplicateFunction(1, 2))
  {
    KeyOneTwo(data, 9);
    var functions := AfterHeader(name).tables.functions;
    assert (1, 2) in D.Keys(functions) by { assert D.Keys(functions)[0] == (1, 2); }
  }

  /** `[1, 2] x [1, 2]`, whatever follows: a second header with the same
      (group, type) fails as Dictionary.Add does. */
  lemma DuplicateHeaderRejected(data: seq<Byte>)
    requires |data| >= 15 && data[..6] == "[1, 2]" && data[6] == Space && IsTokenByte(data[7])
    requires data[8] == Space && data[9..15] == "[1, 2]"
    ensures Parse(data) == Err(DuplicateFunction(1, 2))
  {
    HeaderRead(data);
    assert data[9] == data[9..15][0];
    SecondHeaderOpens(data, data[7]);
    RunStep(data, AfterHeader(data[7]));
    SecondHeaderRepeats(data, data[7]);
    RunStep(data, AtSecondHeader(data[7]));
  }

  /** A space right after the `[` leaves an empty group token. */
  lemma GroupMissing(data: seq<Byte>)
    requires |data| > 1 && data[0] == OpenBracket && data[1] == Space
    ensures Step(data, Start(0, D.Empty).(state := Function)) == Err(NumberFormat([]))
  {
    assert TokenEnd(data, 1) == 1;
  }

  /** The group must follow the `[` directly: a buffer that opens with `[ `
      leaves an empty token, which the integer parse rejects. */
  lemma SpaceBeforeGroupRejected(data: seq<Byte>)
    requires |data| > 1 && data[0] == OpenBracket && data[1] == Space
    ensures Parse(data) == Err(NumberFormat([]))
  {
    FunctionOpens(data);
    GroupMissing(data);
    RunStep(data, Start(0, D.Empty).(state := Function));
  }

  /** The reader after a first parameter pass over `,` that read nothing. */
  function AfterEmptyParameter(name: Byte): Config {
    var c := AfterHeader(name);
    c.(pos := 9, tables := D.AppendParameter(c.tables, 0, ([], [])))
  }

  /** The two parameter passes over ` ,` after the header `[1, 2] x`. */
  lemma CommaPasses(data: seq<Byte>, name: Byte)
    requires |data| >= 10 && data[8] == Space && data[9] == Comma
    ensures Step(data, AfterHeader(name)) == Ok(AfterEmptyParameter(name))
    ensures Step(data, AfterEmptyParameter(name)) == Err(NoProgress(9))
  {
    var c, stalled := AfterHeader(name), AfterEmptyParameter(name);
    assert WhitespaceEnd(data, 8) == 9;
    assert TokenEnd(data, 9) == 9;
    assert WhitespaceEnd(data, 9) == 9;
    assert ParameterTokens(data, 9) == (([], []), 9);
    assert ParameterIteration(data, c) == Ok(ParameterRead(data, c, 9));
    assert ParameterIteration(data, stalled) == Ok(ParameterRead(data, stalled, 9));
  }

  /** `[1, 2] x ,`, whatever follows: where a parameter type is expected a
      `,` makes the first pass append ("", "") and move onto the `,`; the
      second appends ("", "") again without moving, which the source would
      repeat forever. */
  lemma StrayCommaStalls(data: seq<Byte>)
    requires |data| >= 10 && data[..6] == "[1, 2]" && data[6] == Space && IsTokenByte(data[7])
    requires data[8] == Space && data[9] == Comma
    ensures Parse(data) == Err(NoProgress(9))
  {
    HeaderRead(data);
    CommaPasses(data, data[7]);
    RunStep(data, AfterHeader(data[7]));
    RunStep(data, AfterEmptyParameter(data[7]));
  }

  /** Trimming `{kind}` leaves `kind`. */
  lemma KindTrimmed(s: seq<Byte>)
    requires s == "{kind}"
    ensures TrimBraces(s) == "kind"
  {
    var u := s[1..];
    var v := u[..|u| - 1];
    assert IsBrace(s[0]) && !IsBrace(u[0]);
    assert TrimStart(s) == u;
    assert IsBrace(u[|u| - 1]) && !IsBrace(v[|v| - 1]);
    assert TrimEnd(u) == v;
    assert v == "kind";
  }

  /** The buffer holds the document `[1, 2] f {kind} k`. */
  predicate BracedDocument(data: seq<Byte>) {
    && |data| == 17 && data[..6] == "[1, 2]" && data[6] == Space && data[7] == 'f'
    && data[8] == Space && data[9..15] == "{kind}" && data[15] == Space && data[16] == 'k'
  }

  /** The scans of the parameter pass over `{kind} k`. */
  lemma BracedTokens(data: seq<Byte>)
    requires BracedDocument(data)
    ensures WhitespaceEnd(data, 8) == 9 && ReadSpan(data, 9) == Ok(Token("{kind}", 15))
    ensures WhitespaceEnd(data, 15) == 16 && ReadSpan(data, 16) == Ok(Token("k", 17))
  {
    var braced := data[9..15];
    assert data[9] == braced[0];
    assert WhitespaceEnd(data, 8) == 9;
    assert forall i :: 9 <= i < 15 ==> data[i] == braced[i - 9];
    assert TokenEnd(data, 15) == 15;
    assert TokenEnd(data, 14) == 15;
    assert TokenEnd(data, 13) == 15;
    assert TokenEnd(data, 12) == 15;
    assert TokenEnd(data, 11) == 15;
    assert TokenEnd(data, 10) == 15;
    assert TokenEnd(data, 9) == 15;
    assert WhitespaceEnd(data, 15) == 16;
    assert TokenEnd(data, 16) == 17;
    assert data[16..17] == "k";
  }

  /** The parameter pass over `{kind} k`: the braces are trimmed, the case is
      kept. */
  lemma BracedPass(data: seq<Byte>)
    requires BracedDocument(data)
    ensures var c := AfterHeader('f');
      ParameterIteration(data, c) == Ok(c.(pos := 17, tables := D.AppendParameter(c.tables, 0, ("kind", "k"))))
  {
    BracedTokens(data);
    assert !IsSpecial(data[9]) by { assert data[9] == data[9..15][0]; }
    KindTrimmed("{kind}");
  }

  /** The reader once the parameter `{kind} k` is read. */
  function AfterBracedParameter(name: Byte): Config {
    AfterHeader(name).(pos := 17, tables := D.AppendParameter(AfterHeader(name).tables, 0, ("kind", "k")))
  }

  /** The parameter step over `{kind} k` reaches the end of the document. */
  lemma BracedStep(data: seq<Byte>)
    requires BracedDocument(data)
    ensures Step(data, AfterHeader('f')) == Ok(AfterBracedParameter('f'))
  {
    BracedPass(data);
  }

  /** Appending ("kind", "k") to the function of AfterHeader('f'). */
  lemma KindAppended()
    ensures D.AppendParameter(AfterHeader('f').tables, 0, ("kind", "k")) ==
      D.Tables([], [((1, 2), D.Function("f", [("kind", "k")]))])
  {
    var f := AfterHeader('f').tables.functions[0].1;
    assert f.parameters + [("kind", "k")] == [("kind", "k")];
    var entry := ((1, 2), D.Function("f", [("kind", "k")]));
    assert AfterHeader('f').tables.functions[0 := entry] == [entry];
  }

  /** A whole document: one function with one parameter whose type is
      written in braces; the braces are trimmed, the case is kept. */
  lemma FunctionWithParameter(data: seq<Byte>)
    requires BracedDocument(data)
    ensures Parse(data) == Ok(D.Tables([], [((1, 2), D.Function("f", [("kind", "k")]))]))
  {
    HeaderRead(data);
    BracedStep(data);
    RunStep(data, AfterHeader('f'));
    assert Run(data, AfterBracedParameter('f')) == Ok(AfterBracedParameter('f'));
    KindAppended();
  }

  /** Loading `[1, 2] f {kind} k`: the function and parameter names are
      capitalised; `kind` names no enum, so the parameter type keeps its case. */
  lemma UnknownTypeKeepsCase(data: seq<Byte>)
    requires BracedDocument(data)
    ensures Conversion.Loaded(data) == Ok(D.Tables([], [((1, 2), D.Function("F", [("kind", "K")]))]))
  {
    FunctionWithParameter(data);
    var t := D.Tables([], [((1, 2), D.Function("f", [("kind", "k")]))]);
    assert Formattable(t);
    assert Capitalized("k") == "K" && Capitalized("f") == "F";
    var formatted := FormatFunction(t.functions[0].1, []);
    assert formatted.parameters[0] == FormatParameter(("kind", "k"), []) == ("kind", "K");
    assert formatted == D.Function("F", [("kind", "K")]);
    assert FormattedTables(t).functions == [((1, 2), formatted)];
    assert FormattedTables(t).enums == [];
    assert FormatTables(t) == Ok(D.Tables([], [((1, 2), formatted)]));
  }

  /** The smallest group and a ten-digit type fill all 24 bytes, and the `]`
      falls one past the end of the buffer. */
  lemma WideKeyOverruns(group: Int32, typeCode: Int32)
    requires group == MinInt32 && typeCode == 1_000_000_000
    ensures KeyScalar(group, typeCode) == Err(IndexOutOfRange(KeyCapacity))
  {
    Int32DecimalLength(group);
    assert Pow10(9) == 1_000_000_000;
    DigitsFit(typeCode, 9);
    Int32DecimalLength(typeCode);
    KeyScalarOverrun(group, typeCode);
  }

  /** Two eleven-byte values: the type is dropped, the key is the group
      alone followed by `, ]`, and it does not read back. */
  lemma WidestKeyLosesType(group: Int32, typeCode: Int32)
    requires group == MinInt32 && typeCode == -1_000_000_000
    ensures KeyScalar(group, typeCode) == Ok([OpenBracket] + Decimal(group) + [Comma, Space, CloseBracket])
    ensures |KeyScalar(group, typeCode).value| == 15
    ensures DecodeKey(KeyScalar(group, typeCode).value) == Option.None
  {
    Int32DecimalLength(group);
    Int32DecimalLength(typeCode);
    KeyScalarDropsType(group, typeCode);
    DroppedTypeUnreadable(group, typeCode);
  }

  /** The buffer holds the document `map Kind int 0 Foo 1 Bar`. */
  predicate KindDocument(data: seq<Byte>) {
    && |data| == 24 && data[..3] == "map" && data[3] == Space
    && data[4..8] == "Kind" && data[8] == Space && data[9..12] == "int" && data[12] == Space
    && data[13] == '0' && data[14] == Space && data[15..18] == "Foo" && data[18] == Space
    && data[19] == '1' && data[20] == Space && data[21..] == "Bar"
  }

  /** A buffer that opens with `m` enters the FunctionEnum state where it
      stands. */
  lemma EnumOpens(data: seq<Byte>)
    requires |data| > 0 && data[0] == OpenMap
    ensures Run(data, Start(0, D.Empty)) == Run(data, Start(0, D.Empty).(state := FunctionEnum))
  {
    var c0 := Start(0, D.Empty);
    assert WhitespaceEnd(data, 0) == 0;
    assert Step(data, c0) == Ok(c0.(state := FunctionEnum));
    RunStep(data, c0);
  }

  /** The token at `at` is `word` when the buffer holds `word` there,
      closed by the end of the buffer or a byte of another kind. */
  lemma WordRead(data: seq<Byte>, at: nat, word: seq<Byte>)
    requires at + |word| <= |data| && data[at..at + |word|] == word
    requires forall k :: 0 <= k < |word| ==> IsTokenByte(word[k])
    requires at + |word| == |data| || !IsTokenByte(data[at + |word|])
    ensures ReadSpan(data, at) == Ok(Token(word, at + |word|))
  {
    forall i | at <= i < at + |word|
      ensures IsTokenByte(data[i])
    {
      assert data[i] == data[at..at + |word|][i - at];
    }
    TokenEndOver(data, at, |word|);
  }

  /** The scans of two tokens `first second` after whitespace from `from`:
      `first` at `at`, `second` after one separator byte (an enum's name and
      element type, or a value and its name). */
  predicate PairScans(data: seq<Byte>, from: nat, at: nat, first: seq<Byte>, second: seq<Byte>) {
    && WhitespaceEnd(data, from) == at && at < |data| && first != [] && data[at] == first[0]
    && ReadSpan(data, at) == Ok(Token(first, at + |first|))
    && WhitespaceEnd(data, at + |first|) == at + |first| + 1
    && ReadSpan(data, at + |first| + 1) == Ok(Token(second, at + |first| + 1 + |second|))
  }

  lemma KindHeaderTokens(data: seq<Byte>)
    requires KindDocument(data)
    ensures data[0] == OpenMap && PairScans(data, 3, 4, "Kind", "int")
  {
    assert data[0] == data[..3][0];
    WordRead(data, 4, "Kind");
    WordRead(data, 9, "int");
    assert data[4] == data[4..8][0];
    assert WhitespaceEnd(data, 4) == 4 && WhitespaceEnd(data, 3) == 4;
    assert data[9] == data[9..12][0];
    assert WhitespaceEnd(data, 9) == 9 && WhitespaceEnd(data, 8) == 9;
  }

  lemma FooTokens(data: seq<Byte>)
    requires KindDocument(data)
    ensures PairScans(data, 12, 13, "0", "Foo")
  {
    assert data[13..14] == [data[13]] == "0";
    WordRead(data, 13, "0");
    WordRead(data, 15, "Foo");
    assert WhitespaceEnd(data, 13) == 13 && WhitespaceEnd(data, 12) == 13;
    assert data[15] == data[15..18][0];
    assert WhitespaceEnd(data, 15) == 15 && WhitespaceEnd(data, 14) == 15;
  }

  lemma BarTokens(data: seq<Byte>)
    requires KindDocument(data)
    ensures PairScans(data, 18, 19, "1", "Bar")
  {
    assert data[19..20] == [data[19]] == "1";
    WordRead(data, 19, "1");
    assert data[21..24] == data[21..];
    WordRead(data, 21, "Bar");
    assert WhitespaceEnd(data, 19) == 19 && WhitespaceEnd(data, 18) == 19;
    assert data[21] == data[21..][0];
    assert WhitespaceEnd(data, 21) == 21 && WhitespaceEnd(data, 20) == 21;
  }

  /** The reader inside the enum Kind of element type int, at `pos`, once
      `values` are read. */
  function KindRead(pos: nat, values: seq<(Int64, D.Name)>): Config {
    Config(pos, FunctionEnumValue, State.None, D.Tables([("Kind", D.FunctionEnum("int", values))], []), At(0), Null)
  }

  /** The FunctionEnum step over `map Kind int`: three bytes skipped, the name
      and the element type read, the enum added with no values. */
  lemma KindHeaderStep(data: seq<Byte>)
    requires |data| >= 12 && PairScans(data, 3, 4, "Kind", "int")
    ensures Step(data, Start(0, D.Empty).(state := FunctionEnum)) == Ok(KindRead(12, []))
  {
    var c := Start(0, D.Empty).(state := FunctionEnum);
    assert StepEnum(data, c) == EnumNamed(data, c, Token("Kind", 8));
  }

  /** The FunctionEnumValue step over `0 Foo`. */
  lemma FooStep(data: seq<Byte>)
    requires |data| >= 18 && PairScans(data, 12, 13, "0", "Foo")
    ensures Step(data, KindRead(12, [])) == Ok(KindRead(18, [(0, "Foo")]))
  {
    ParseDecimal(0, MinInt64, MaxInt64);
    assert ReadInteger(data, 13, MinInt64, MaxInt64) == Ok((0, 14));
    assert KindRead(12, []).tables.enums[0].1.values + [(0, "Foo")] == [(0, "Foo")];
    assert D.AppendValue(KindRead(12, []).tables, 0, (0, "Foo")) == KindRead(18, [(0, "Foo")]).tables;
  }

  /** The FunctionEnumValue step over `1 Bar`. */
  lemma BarStep(data: seq<Byte>)
    requires |data| >= 24 && PairScans(data, 18, 19, "1", "Bar")
    ensures Step(data, KindRead(18, [(0, "Foo")])) == Ok(KindRead(24, [(0, "Foo"), (1, "Bar")]))
  {
    ParseDecimal(1, MinInt64, MaxInt64);
    assert ReadInteger(data, 19, MinInt64, MaxInt64) == Ok((1, 20));
    assert KindRead(18, [(0, "Foo")]).tables.enums[0].1.values + [(1, "Bar")] == [(0, "Foo"), (1, "Bar")];
    assert D.AppendValue(KindRead(18, [(0, "Foo")]).tables, 0, (1, "Bar")) == KindRead(24, [(0, "Foo"), (1, "Bar")]).tables;
  }

  /** From just past the second value, the run has reached the end of the
      buffer and stops with the table as it is. */
  lemma BarRun(data: seq<Byte>)
    requires KindDocument(data)
    ensures Run(data, KindRead(18, [(0, "Foo")])) == Ok(KindRead(24, [(0, "Foo"), (1, "Bar")]))
  {
    BarTokens(data);
    BarStep(data);
    RunStep(data, KindRead(18, [(0, "Foo")]));
    assert Run(data, KindRead(24, [(0, "Foo"), (1, "Bar")])) == Ok(KindRead(24, [(0, "Foo"), (1, "Bar")]));
  }

  /** From the value state after the header, the run appends (0, "Foo") and
      then (1, "Bar") and stops at the end of the buffer. */
  lemma KindValuesRun(data: seq<Byte>)
    requires KindDocument(data)
    ensures Run(data, KindRead(12, [])) == Ok(KindRead(24, [(0, "Foo"), (1, "Bar")]))
  {
    FooTokens(data);
    FooStep(data);
    RunStep(data, KindRead(12, []));
    BarRun(data);
  }

  /** A whole enum document: one enum named Kind of element type int, whose
      values keep the order they were written in. */
  lemma KindEnumRead(data: seq<Byte>)
    requires KindDocument(data)
    ensures Parse(data) == Ok(D.Tables([("Kind", D.FunctionEnum("int", [(0, "Foo"), (1, "Bar")]))], []))
  {
    KindHeaderTokens(data);
    EnumOpens(data);
    KindHeaderStep(data);
    RunStep(data, Start(0, D.Empty).(state := FunctionEnum));
    KindValuesRun(data);
  }
}
