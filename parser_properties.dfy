/** What the reader's loop guarantees, stated over the functional model of
    src/MfmToYaml/Readers/MfmReader.cs:33-160. */
module ParserProperties {
  import opened Bytes
  import opened Outcomes
  import opened Lexer
  import opened ParserSpec
  import D = Declarations

  lemma ExtendsTransitive(t: D.Tables, u: D.Tables, v: D.Tables)
    requires Extends(t, u) && Extends(u, v)
    ensures Extends(t, v)
  {
  }

  /** Across the whole loop the table only grows: entries are added at the
      end of a table and pairs at the end of an entry's list, so enum values
      and parameters keep the order in which they appear in the input. */
  lemma {:induction false} RunExtends(data: seq<Byte>, c: Config)
    requires Wf(data, c) && Run(data, c).Ok?
    ensures Extends(c.tables, Run(data, c).value.tables)
    decreases |data| - c.pos, Rank(c.state)
  {
    if c.pos < |data| {
      var next := Step(data, c).value;
      RunExtends(data, next);
      ExtendsTransitive(c.tables, next.tables, Run(data, c).value.tables);
    }
  }

  /** A comment seen at the top level or inside a list is skipped up to its
      LF, and the parser then resumes the state it was in when it saw the
      `#`, with the saved state cleared and the table untouched. */
  lemma CommentResumes(data: seq<Byte>, c: Config)
    requires Wf(data, c) && c.pos < |data|
    requires c.state == None || c.state == FunctionEnumValue || c.state == FunctionParameter
    requires var p := WhitespaceEnd(data, c.pos); p < |data| && data[p] == Hashtag
    ensures var p := WhitespaceEnd(data, c.pos);
      var inComment := c.(pos := p, state := Comment, previous := c.state);
      && Step(data, c) == Ok(inComment)
      && StepComment(data, inComment) == c.(pos := CommentEnd(data, p), previous := None)
  {
  }

  /** One parameter pass from a configuration whose next significant byte is
      a `,` or `]`: both tokens are empty, ("", "") is appended and the cursor
      stops on that byte. */
  lemma StallingPass(data: seq<Byte>, c: Config)
    requires Wf(data, c) && c.pos < |data| && c.state == FunctionParameter
    requires var p := WhitespaceEnd(data, c.pos); p < |data| && (data[p] == Comma || data[p] == CloseBracket)
    ensures ParameterIteration(data, c) ==
      Ok(c.(pos := WhitespaceEnd(data, c.pos), tables := D.AppendParameter(c.tables, c.currentFunction.index, ([], []))))
  {
    var p := WhitespaceEnd(data, c.pos);
    assert ReadSpan(data, p) == Ok(Token([], p)) by {
      assert TokenEnd(data, p) == p;
    }
    assert WhitespaceEnd(data, p) == p;
    assert TrimBraces([]) == [];
  }

  /** In a parameter list, a `,` or `]` where a parameter type should start
      makes the source loop for ever: the pass appends ("", "") and leaves the
      cursor on that byte, and the next pass does exactly the same again. The
      model reports the stall as NoProgress at that byte. */
  lemma ParameterStallsForever(data: seq<Byte>, c: Config)
    requires Wf(data, c) && c.pos < |data| && c.state == FunctionParameter
    requires var p := WhitespaceEnd(data, c.pos); p < |data| && (data[p] == Comma || data[p] == CloseBracket)
    ensures var p := WhitespaceEnd(data, c.pos);
      var i := c.currentFunction.index;
      var stalled := c.(pos := p, tables := D.AppendParameter(c.tables, i, ([], [])));
      && ParameterIteration(data, c) == Ok(stalled)
      && ParameterIteration(data, stalled) == Ok(stalled.(tables := D.AppendParameter(stalled.tables, i, ([], []))))
      && Step(data, c) == (if p == c.pos then Err(NoProgress(p)) else Ok(stalled))
      && (p != c.pos ==> Step(data, stalled) == Err(NoProgress(p)))
  {
    var p := WhitespaceEnd(data, c.pos);
    var i := c.currentFunction.index;
    var stalled := c.(pos := p, tables := D.AppendParameter(c.tables, i, ([], [])));
    StallingPass(data, c);
    assert WhitespaceEnd(data, p) == p;
    StallingPass(data, stalled);
  }

  /** The stall happens only there: a parameter pass that does not move the
      cursor started on a `,` or a `]`. */
  lemma StallOnlyAtDelimiter(data: seq<Byte>, c: Config)
    requires Wf(data, c) && c.pos < |data| && c.state == FunctionParameter
    requires Step(data, c).Err? && Step(data, c).error.NoProgress?
    ensures data[c.pos] == Comma || data[c.pos] == CloseBracket
  {
    var p := WhitespaceEnd(data, c.pos);
    assert p == c.pos;
    assert !IsSpecial(data[p]);
    assert ReadSpan(data, p).value.end == p;
  }

  /** An enum whose name is already in the table is rejected. */
  lemma DuplicateEnumRejected(data: seq<Byte>, c: Config)
    requires Wf(data, c) && c.pos < |data| && c.state == FunctionEnum
    requires var p := WhitespaceEnd(data, c.pos + 3);
      p <= |data| && ReadSpan(data, p).value.text in D.Keys(c.tables.enums)
    ensures StepEnum(data, c) == Err(DuplicateEnum(ReadSpan(data, WhitespaceEnd(data, c.pos + 3)).value.text))
  {
  }

  /** A function whose (group, type) is already in the table is rejected
      once its name has been read. */
  lemma DuplicateFunctionRejected(data: seq<Byte>, c: Config, k: KeyToken)
    requires Wf(data, c) && c.pos < |data| && c.state == Function
    requires ReadFunctionKey(data, c.pos) == Ok(k) && WhitespaceEnd(data, k.end) <= |data|
    requires (k.group, k.typeCode) in D.Keys(c.tables.functions)
    ensures StepFunction(data, c) == Err(DuplicateFunction(k.group, k.typeCode))
  {
  }

  /** Whitespace after the last item of a list (or at the top level) runs the
      cursor to the end, and the next byte is then read past the end of the
      buffer: trailing whitespace is an index-out-of-range failure. */
  lemma TrailingWhitespaceFails(data: seq<Byte>, c: Config)
    requires Wf(data, c) && c.pos < |data|
    requires c.state == None || c.state == FunctionEnumValue || c.state == FunctionParameter
    requires forall i :: c.pos <= i < |data| ==> IsWhitespace(data[i])
    ensures Step(data, c) == Err(IndexOutOfRange(|data|))
  {
    assert WhitespaceEnd(data, c.pos) == |data|;
  }

  lemma {:induction false} WhitespaceEndAgrees(data: seq<Byte>, other: seq<Byte>, pos: nat)
    requires |data| == |other|
    requires forall i :: pos <= i < |data| ==> data[i] == other[i]
    ensures WhitespaceEnd(data, pos) == WhitespaceEnd(other, pos)
    decreases |data| - pos
  {
    if pos < |data| {
      WhitespaceEndAgrees(data, other, pos + 1);
    }
  }

  lemma {:induction false} TokenEndAgrees(data: seq<Byte>, other: seq<Byte>, pos: nat)
    requires |data| == |other|
    requires forall i :: pos <= i < |data| ==> data[i] == other[i]
    ensures TokenEnd(data, pos) == TokenEnd(other, pos)
    decreases |data| - pos
  {
    if pos < |data| {
      TokenEndAgrees(data, other, pos + 1);
    }
  }

  lemma ReadSpanAgrees(data: seq<Byte>, other: seq<Byte>, pos: nat)
    requires |data| == |other|
    requires forall i :: pos <= i < |data| ==> data[i] == other[i]
    ensures ReadSpan(data, pos) == ReadSpan(other, pos)
  {
    TokenEndAgrees(data, other, pos);
    if pos <= |data| {
      var e := TokenEnd(data, pos);
      assert data[pos..e] == other[pos..e];
    }
  }

  /** The name and element-type reads of an enum header do not look at the
      two bytes after the `m`. */
  lemma EnumHeaderAgrees(data: seq<Byte>, pos: nat, x: Byte, y: Byte)
    requires pos + 2 < |data|
    ensures var other := data[pos + 1 := x][pos + 2 := y];
      var p := WhitespaceEnd(data, pos + 3);
      && WhitespaceEnd(other, pos + 3) == p
      && ReadSpan(other, p) == ReadSpan(data, p)
      && (p <= |data| ==>
            var e := ReadSpan(data, p).value.end;
            && WhitespaceEnd(other, e) == WhitespaceEnd(data, e)
            && ReadSpan(other, WhitespaceEnd(data, e)) == ReadSpan(data, WhitespaceEnd(data, e)))
  {
    var other := data[pos + 1 := x][pos + 2 := y];
    var p := WhitespaceEnd(data, pos + 3);
    WhitespaceEndAgrees(data, other, pos + 3);
    ReadSpanAgrees(data, other, p);
    if p <= |data| {
      var e := ReadSpan(data, p).value.end;
      WhitespaceEndAgrees(data, other, e);
      ReadSpanAgrees(data, other, WhitespaceEnd(data, e));
    }
  }

  /** The `map` keyword is never checked: the three bytes from the `m` on
      are skipped unread, so whatever two bytes follow the `m` the enum
      declaration reads the same. */
  lemma EnumKeywordUnchecked(data: seq<Byte>, c: Config, x: Byte, y: Byte)
    requires Wf(data, c) && c.pos + 2 < |data| && c.state == FunctionEnum
    ensures var other := data[c.pos + 1 := x][c.pos + 2 := y];
      Wf(other, c) && StepEnum(data, c) == StepEnum(other, c)
  {
    EnumHeaderAgrees(data, c.pos, x, y);
  }
}
