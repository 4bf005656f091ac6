/** The function key Mfm.Write emits (src/MfmToYaml/Mfm.cs:60-69) read back
    by the reader's function-header code (src/MfmToYaml/Readers/MfmReader.cs:74-83). */
module KeyRoundTrip {
  import opened Bytes
  import opened Outcomes
  import opened Numbers
  import opened Lexer
  import opened Events
  import ParserSpec

  /** Read from the `[`, the key text gives back the same (group, type), and
      the reader's cursor stops just past its `]`, whatever follows. */
  lemma EncodeKeyRoundTrip(group: Int32, typeCode: Int32, data: seq<Byte>)
    requires EncodeKey(group, typeCode) <= data
    ensures ParserSpec.ReadFunctionKey(data, 0)
         == Ok(ParserSpec.KeyToken(group, typeCode, |EncodeKey(group, typeCode)|))
  {
    var g, t := Decimal(group), Decimal(typeCode);
    RenderingIsNumberToken(group);
    RenderingIsNumberToken(typeCode);
    assert EncodeKey(group, typeCode) == [OpenBracket] + g + [Comma, Space] + t + [CloseBracket];
    KeyRead(data, group, typeCode, g, t, |EncodeKey(group, typeCode)|);
  }

  /** A key text `[` g `, ` t `]` made of two number tokens is read back
      whole, whatever follows it. */
  lemma KeyRead(data: seq<Byte>, group: Int32, typeCode: Int32, g: seq<Byte>, t: seq<Byte>, end: nat)
    requires NumberToken(g, group) && NumberToken(t, typeCode)
    requires [OpenBracket] + g + [Comma, Space] + t + [CloseBracket] <= data
    requires end == 4 + |g| + |t|
    ensures ParserSpec.ReadFunctionKey(data, 0) == Ok(ParserSpec.KeyToken(group, typeCode, end))
  {
    KeyLayout(g, t, data);
    SeparatorSkipped(data, 2 + |g|, t);
    FieldRead(data, 3 + |g|, typeCode, t);
    FieldRead(data, 1, group, g);
    KeyFromParts(data, group, typeCode, 1 + |g|, 3 + |g|, 3 + |g| + |t|, end);
  }

  /** A rendering is a non-empty run of token bytes that is not whitespace
      and parses back to its value. */
  predicate NumberToken(s: seq<Byte>, v: Int32) {
    && |s| >= 1
    && (forall i :: 0 <= i < |s| ==> IsTokenByte(s[i]) && !IsWhitespace(s[i]))
    && ParseInteger(s, MinInt32, MaxInt32) == Ok(v as int)
  }

  lemma RenderingIsNumberToken(v: Int32)
    ensures NumberToken(Decimal(v), v)
  {
    DecimalTokenBytes(v);
    ParseDecimal(v, MinInt32, MaxInt32);
  }

  /** Where the parts of a key text sit in whatever starts with it. */
  lemma KeyLayout(g: seq<Byte>, t: seq<Byte>, data: seq<Byte>)
    requires [OpenBracket] + g + [Comma, Space] + t + [CloseBracket] <= data
    ensures 3 + |g| + |t| < |data|
      && data[1..1 + |g|] == g && data[1 + |g|] == Comma && data[2 + |g|] == Space
      && data[3 + |g|..3 + |g| + |t|] == t && data[3 + |g| + |t|] == CloseBracket
  {
    var middle := [OpenBracket] + g + [Comma, Space];
    var key := middle + t + [CloseBracket];
    assert data[..|key|] == key;
    assert data[1..1 + |g|] == g by {
      assert data[..|middle|] == key[..|middle|] == middle;
    }
    assert data[3 + |g|..3 + |g| + |t|] == t by {
      assert data[..|middle| + |t|] == key[..|middle| + |t|] == middle + t;
    }
  }

  /** The single space after the comma is the only whitespace skipped: a
      number token does not start with whitespace. */
  lemma SeparatorSkipped(data: seq<Byte>, pos: nat, t: seq<Byte>)
    requires |t| >= 1 && !IsWhitespace(t[0]) && pos + |t| < |data|
    requires data[pos] == Space && data[pos + 1..pos + 1 + |t|] == t
    ensures WhitespaceEnd(data, pos) == pos + 1
  {
    assert data[pos + 1] == t[0];
  }

  /** A number token followed by `,` or `]` is read whole, with its value. */
  lemma FieldRead(data: seq<Byte>, pos: nat, v: Int32, s: seq<Byte>)
    requires NumberToken(s, v) && pos + |s| < |data| && data[pos..pos + |s|] == s
    requires data[pos + |s|] == Comma || data[pos + |s|] == CloseBracket
    ensures ParserSpec.ReadInteger(data, pos, MinInt32, MaxInt32) == Ok((v as int, pos + |s|))
  {
    assert ReadSpan(data, pos) == Ok(Token(s, pos + |s|)) by {
      assert forall i :: pos <= i < pos + |s| ==> data[i] == s[i - pos];
      TokenEndOver(data, pos, |s|);
    }
  }

  /** ReadFunctionKey from the results of its two integer reads. */
  lemma KeyFromParts(data: seq<Byte>, group: Int32, typeCode: Int32, groupEnd: nat, typeStart: nat, typeEnd: nat, end: nat)
    requires 0 < |data| && end == typeEnd + 1
    requires ParserSpec.ReadInteger(data, 1, MinInt32, MaxInt32) == Ok((group as int, groupEnd))
    requires WhitespaceEnd(data, groupEnd + 1) == typeStart
    requires ParserSpec.ReadInteger(data, typeStart, MinInt32, MaxInt32) == Ok((typeCode as int, typeEnd))
    ensures ParserSpec.ReadFunctionKey(data, 0) == Ok(ParserSpec.KeyToken(group, typeCode, end))
  {
    assert ParserSpec.ReadKeyType(data, (group as int, groupEnd)) == Ok(ParserSpec.KeyToken(group, typeCode, end));
  }
}
