/** MfmReader (src/MfmToYaml/Readers/MfmReader.cs): a cursor over the input
    bytes that fills an Mfm table. Every scanning method is proved to move the
    cursor as the Lexer functions say, every case of the loop in Read to do
    what the matching ParserSpec case function says, and Read itself to end
    as ParserSpec.Run does. */
module Readers {
  import opened Bytes
  import opened Outcomes
  import opened Numbers
  import opened Lexer
  import opened ParserSpec
  import D = Declarations
  import MfmToYaml

  class MfmReader {
    /** `_data`: only ever read. */
    const data: seq<Byte>
    /** `_mfm`: the table being filled. */
    const mfm: MfmToYaml.Mfm
    /** `_position`. */
    var position: nat

    constructor (data: seq<Byte>, mfm: MfmToYaml.Mfm)
      ensures this.data == data && this.mfm == mfm && position == 0
    {
      this.data := data;
      this.mfm := mfm;
      position := 0;
    }

    /** The reader's cursor and table are those of the configuration `c`. */
    ghost predicate Holds(c: Config)
      reads this, mfm
    {
      c.pos == position && c.tables == mfm.Tables()
    }

    /** Lines 121-126: up to the next LF, or to the end. */
    method SkipComment()
      modifies this
      ensures position == CommentEnd(data, old(position))
    {
      while position < |data| && data[position] != Lf
        invariant CommentEnd(data, position) == CommentEnd(data, old(position))
        decreases |data| - position
      {
        position := position + 1;
      }
    }

    /** Lines 128-133: past spaces, tabs, CRs and LFs. */
    method SkipWhitespace()
      modifies this
      ensures position == WhitespaceEnd(data, old(position))
    {
      while position < |data| && IsWhitespace(data[position])
        invariant WhitespaceEnd(data, position) == WhitespaceEnd(data, old(position))
        decreases |data| - position
      {
        position := position + 1;
      }
    }

    /** Lines 135-138: whether the byte under the cursor is `m`, `[` or `#`;
        indexing at the end of the buffer throws. */
    method IsSpecialChar() returns (r: Result<bool>)
      ensures position < |data| ==> r == Ok(IsSpecial(data[position]))
      ensures position >= |data| ==> r == Err(IndexOutOfRange(position))
    {
      if position >= |data| {
        return Err(IndexOutOfRange(position));
      }
      var b := data[position];
      r := Ok(b == OpenMap || b == OpenBracket || b == Hashtag);
    }

    /** Lines 152-160: the run of token bytes under the cursor, which moves
        past it; the slice throws when the cursor is past the end. */
    method ReadSpan() returns (r: Result<Token>)
      modifies this
      ensures r == Lexer.ReadSpan(data, old(position))
      ensures position == TokenEnd(data, old(position))
    {
      var start := position;
      while position < |data| && IsTokenByte(data[position])
        invariant start <= position
        invariant TokenEnd(data, position) == TokenEnd(data, start)
        decreases |data| - position
      {
        position := position + 1;
      }
      if start > |data| {
        return Err(SliceOutOfRange(start));
      }
      r := Ok(Token(data[start..position], position));
    }

    /** Lines 146-150: the token's bytes (its UTF-8 decoding is not modelled). */
    method ReadString() returns (r: Result<D.Name>)
      modifies this
      ensures r.Ok? <==> old(position) <= |data|
      ensures r.Ok? ==> r.value == Lexer.ReadSpan(data, old(position)).value.text
      ensures r.Err? ==> r.error == SliceOutOfRange(old(position))
      ensures position == TokenEnd(data, old(position))
    {
      var raw :- ReadSpan();
      r := Ok(raw.text);
    }

    /** Lines 140-144, `Read<T>` for an integer type of range `lo..hi`. */
    method ReadNumber(lo: int, hi: int) returns (r: Result<int>)
      modifies this
      ensures r.Ok? <==> ReadInteger(data, old(position), lo, hi).Ok?
      ensures r.Ok? ==> ReadInteger(data, old(position), lo, hi).value == (r.value, position)
      ensures r.Err? ==> ReadInteger(data, old(position), lo, hi) == Err(r.error)
    {
      var raw :- ReadSpan();
      r := ParseInteger(raw.text, lo, hi);
    }

    /** The `default:` block (lines 106-116): the state the next special
        byte opens. */
    method SelectState(ghost c: Config) returns (r: Result<State>)
      requires Holds(c) && c.pos <= |data|
      modifies this
      ensures Holds(c.(pos := position))
      ensures r.Ok? <==> Dispatch(data, c).Ok?
      ensures r.Ok? ==> Dispatch(data, c).value == c.(pos := position, state := r.value)
      ensures r.Err? ==> Dispatch(data, c) == Err(r.error)
    {
      SkipWhitespace();
      if position >= |data| {
        return Err(IndexOutOfRange(position));
      }
      var b := data[position];
      if b == Hashtag {
        r := Ok(Comment);
      } else if b == OpenMap {
        r := Ok(FunctionEnum);
      } else if b == OpenBracket {
        r := Ok(Function);
      } else {
        r := Err(UnexpectedCharacter(b, position));
      }
    }

    /** The FunctionEnum case (lines 49-58); on success, the new enum's
        position in the table. */
    method EnumHeader(ghost c: Config) returns (r: Result<nat>)
      requires Holds(c) && Wf(data, c) && c.state == FunctionEnum
      modifies this, mfm
      ensures r.Ok? <==> StepEnum(data, c).Ok?
      ensures r.Err? ==> StepEnum(data, c) == Err(r.error)
      ensures r.Ok? ==>
        StepEnum(data, c).value == c.(pos := position, state := FunctionEnumValue, tables := mfm.Tables(), currentEnum := At(r.value))
    {
      position := position + 3;
      SkipWhitespace();
      var name :- ReadString();
      assert StepEnum(data, c) == EnumNamed(data, c, Token(name, position));
      r := EnumTail(c, name);
    }

    /** Lines 55-57, once the enum's name is read: the element type, then
        the enum added unless its name is taken. */
    method EnumTail(ghost c: Config, name: D.Name) returns (r: Result<nat>)
      requires mfm.Tables() == c.tables && Wf(data, c) && c.state == FunctionEnum && c.pos < position <= |data|
      modifies this, mfm
      ensures r.Ok? <==> EnumNamed(data, c, Token(name, old(position))).Ok?
      ensures r.Err? ==> EnumNamed(data, c, Token(name, old(position))) == Err(r.error)
      ensures r.Ok? ==>
        EnumNamed(data, c, Token(name, old(position))).value
          == c.(pos := position, state := FunctionEnumValue, tables := mfm.Tables(), currentEnum := At(r.value))
    {
      SkipWhitespace();
      var elementType := ReadString();
      r := mfm.AddEnum(name, elementType.value);
    }

    /** The FunctionEnumValue case (lines 59-73) up to its `goto default`:
        Ok(true) when the next byte is special and nothing was read, Ok(false)
        when a value and its name were appended to the current enum. */
    method EnumValue(ghost c: Config, current: nat) returns (r: Result<bool>)
      requires Holds(c) && Wf(data, c) && c.pos < |data| && c.state == FunctionEnumValue
      requires c.currentEnum == At(current)
      modifies this, mfm
      ensures r.Ok? && r.value ==>
        && position <= |data| && mfm.Tables() == c.tables
        && StepEnumValue(data, c) == Dispatch(data, c.(pos := position, previous := FunctionEnumValue))
      ensures r.Ok? && !r.value ==> StepEnumValue(data, c) == Ok(c.(pos := position, tables := mfm.Tables()))
      ensures r.Err? ==> StepEnumValue(data, c) == Err(r.error)
    {
      SkipWhitespace();
      var special :- IsSpecialChar();
      if special {
        return Ok(true);
      }
      var value :- ReadNumber(MinInt64, MaxInt64);
      SkipWhitespace();
      var name := ReadString();
      mfm.AddEnumValue(current, (value as Int64, name.value));
      r := Ok(false);
    }

    /** The Function case (lines 74-89); on success, the new function's
        position in the table. */
    method FunctionHeader(ghost c: Config) returns (r: Result<nat>)
      requires Holds(c) && Wf(data, c) && c.pos < |data| && c.state == Function
      modifies this, mfm
      ensures r.Ok? <==> StepFunction(data, c).Ok?
      ensures r.Err? ==> StepFunction(data, c) == Err(r.error)
      ensures r.Ok? ==>
        StepFunction(data, c).value == c.(pos := position, state := FunctionParameter, tables := mfm.Tables(), currentFunction := At(r.value))
    {
      var key :- ReadKey();
      SkipWhitespace();
      var name :- ReadString();
      r := mfm.AddFunction((key.group, key.typeCode), name);
    }

    /** Lines 75-82, from the `[` under the cursor: the key, with the cursor
        left one byte past the type. */
    method ReadKey() returns (r: Result<KeyToken>)
      requires position < |data|
      modifies this
      ensures r == ReadFunctionKey(data, old(position))
      ensures r.Ok? ==> position == r.value.end
    {
      position := position + 1;
      var group :- ReadNumber(MinInt32, MaxInt32);
      r := ReadKeyTail(group as Int32);
    }

    /** Lines 79-81: past the separator byte and any whitespace, the type
        code, then past the closing byte. */
    method ReadKeyTail(group: Int32) returns (r: Result<KeyToken>)
      modifies this
      ensures r == ReadKeyType(data, (group as int, old(position)))
      ensures r.Ok? ==> position == r.value.end
    {
      position := position + 1;
      SkipWhitespace();
      var typeCode :- ReadNumber(MinInt32, MaxInt32);
      position := position + 1;
      r := Ok(KeyToken(group, typeCode as Int32, position));
    }

    /** The FunctionParameter case (lines 90-105) up to its `goto default`:
        Ok(true) when the next byte is special and nothing was read, Ok(false)
        when a parameter was appended to the current function. */
    method Parameter(ghost c: Config, current: nat) returns (r: Result<bool>)
      requires Holds(c) && Wf(data, c) && c.pos < |data| && c.state == FunctionParameter
      requires c.currentFunction == At(current)
      modifies this, mfm
      ensures r.Ok? && r.value ==>
        && position <= |data| && mfm.Tables() == c.tables
        && ParameterIteration(data, c) == Dispatch(data, c.(pos := position, previous := FunctionParameter))
      ensures r.Ok? && !r.value ==> ParameterIteration(data, c) == Ok(c.(pos := position, tables := mfm.Tables()))
      ensures r.Err? ==> ParameterIteration(data, c) == Err(r.error)
    {
      SkipWhitespace();
      var special :- IsSpecialChar();
      if special {
        return Ok(true);
      }
      var paramType := ReadString();
      SkipWhitespace();
      var paramName := ReadString();
      mfm.AddParameter(current, (TrimBraces(paramType.value), paramName.value));
      r := Ok(false);
    }

    /** One pass of the `while` loop of Read (lines 42-117) from the
        configuration `c` the reader and Read's locals make up: the locals
        it leaves, with the reader and the table moved on exactly as
        ParserSpec.Step says, or the error Step reports. */
    method Iteration(ghost c: Config, state: State, previous: State, currentEnum: Ref, currentFunction: Ref)
      returns (r: Result<Locals>)
      requires c == Config(position, state, previous, mfm.Tables(), currentEnum, currentFunction)
      requires Wf(data, c) && c.pos < |data|
      modifies this, mfm
      ensures r.Err? ==> Step(data, c) == Err(r.error)
      ensures r.Ok? ==>
        Step(data, c) == Ok(Config(position, r.value.state, r.value.previous, mfm.Tables(), r.value.currentEnum, r.value.currentFunction))
    {
      match state {
        case Comment =>
          SkipComment();
          r := Ok(Locals(previous, None, currentEnum, currentFunction));
        case FunctionEnum =>
          var index :- EnumHeader(c);
          r := Ok(Locals(FunctionEnumValue, previous, At(index), currentFunction));
        case FunctionEnumValue =>
          var special :- EnumValue(c, currentEnum.index);
          if !special {
            return Ok(Locals(state, previous, currentEnum, currentFunction));
          }
          var next :- SelectState(c.(pos := position, previous := state));
          r := Ok(Locals(next, state, currentEnum, currentFunction));
        case Function =>
          var index :- FunctionHeader(c);
          r := Ok(Locals(FunctionParameter, previous, currentEnum, At(index)));
        case FunctionParameter =>
          var passStart := position;
          var special :- Parameter(c, currentFunction.index);
          if !special {
            if position == passStart {
              return Err(NoProgress(position));
            }
            return Ok(Locals(state, previous, currentEnum, currentFunction));
          }
          var next :- SelectState(c.(pos := position, previous := state));
          r := Ok(Locals(next, state, currentEnum, currentFunction));
        case None =>
          var next :- SelectState(c);
          r := Ok(Locals(next, previous, currentEnum, currentFunction));
      }
    }

    /** Read (lines 33-119): the loop ends exactly as ParserSpec.Run does from
        the cursor and table it starts with, leaving the cursor at the end
        and the table Run builds. Where the source's parameter loop would spin
        forever, Read stops with NoProgress, as Run does. */
    method Read() returns (r: Result<()>)
      requires position <= |data| && D.UniqueKeys(mfm.enums) && D.UniqueKeys(mfm.functions)
      modifies this, mfm
      ensures var run := Run(data, Start(old(position), old(mfm.Tables())));
        && (r.Ok? <==> run.Ok?)
        && (r.Ok? ==> position == |data| && mfm.Tables() == run.value.tables)
        && (r.Err? ==> r.error == run.error)
    {
      var currentEnum: Ref := Null;
      var currentFunction: Ref := Null;
      var previous := None;
      var state := None;
      ghost var start := Start(position, mfm.Tables());
      while position < |data|
        invariant Wf(data, Config(position, state, previous, mfm.Tables(), currentEnum, currentFunction))
        invariant Run(data, Config(position, state, previous, mfm.Tables(), currentEnum, currentFunction))
               == Run(data, start)
        decreases |data| - position, Rank(state)
      {
        ghost var c := Config(position, state, previous, mfm.Tables(), currentEnum, currentFunction);
        var next := Iteration(c, state, previous, currentEnum, currentFunction);
        RunStep(data, c);
        if next.Err? {
          return Err(next.error);
        }
        state, previous, currentEnum, currentFunction :=
          next.value.state, next.value.previous, next.value.currentEnum, next.value.currentFunction;
      }
      r := Ok(());
    }
  }

  /** Read's local variables (lines 35-39): the state, the state a comment
      returns to, and the enum and function being filled. */
  datatype Locals = Locals(state: State, previous: State, currentEnum: Ref, currentFunction: Ref)
}
