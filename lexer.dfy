/** The cursor scans of MfmReader as functions of the buffer and a start
    offset (src/MfmToYaml/Readers/MfmReader.cs:121-160). The reader's methods
    are proved to move their cursor exactly as these say. */
module Lexer {
  import opened Bytes
  import opened Outcomes

  /** SkipWhitespace: where the run of space, tab, CR and LF bytes that
      starts at `pos` ends. A start past the end is left where it is. */
  function WhitespaceEnd(data: seq<Byte>, pos: nat): (e: nat)
    ensures pos <= e && (pos <= |data| ==> e <= |data|) && (pos >= |data| ==> e == pos)
    ensures forall i :: pos <= i < e ==> IsWhitespace(data[i])
    ensures e < |data| ==> !IsWhitespace(data[e])
    decreases |data| - pos
  {
    if pos < |data| && IsWhitespace(data[pos]) then WhitespaceEnd(data, pos + 1) else pos
  }

  /** SkipComment: stops at the first LF at or after `pos`, without consuming
      it, or at the end; entered on a byte other than LF it always moves. */
  function CommentEnd(data: seq<Byte>, pos: nat): (e: nat)
    ensures pos <= e && (pos <= |data| ==> e <= |data|) && (pos >= |data| ==> e == pos)
    ensures e < |data| ==> data[e] == Lf
    ensures forall i :: pos <= i < e ==> data[i] != Lf
    ensures pos < |data| && data[pos] != Lf ==> pos < e
    decreases |data| - pos
  {
    if pos < |data| && data[pos] != Lf then CommentEnd(data, pos + 1) else pos
  }

  /** The loop of ReadSpan: where the run of token bytes from `pos` ends. */
  function TokenEnd(data: seq<Byte>, pos: nat): (e: nat)
    ensures pos <= e && (pos <= |data| ==> e <= |data|) && (pos >= |data| ==> e == pos)
    ensures forall i :: pos <= i < e ==> IsTokenByte(data[i])
    ensures e < |data| ==> !IsTokenByte(data[e])
    decreases |data| - pos
  {
    if pos < |data| && IsTokenByte(data[pos]) then TokenEnd(data, pos + 1) else pos
  }

  /** A token cut out of the buffer, and the offset just past it. */
  datatype Token = Token(text: seq<Byte>, end: nat)

  /** ReadSpan: the maximal run of token bytes from `pos`, possibly empty;
      the slice fails when `pos` is past the end of the buffer. */
  function ReadSpan(data: seq<Byte>, pos: nat): (r: Result<Token>)
    ensures r.Ok? <==> pos <= |data|
    ensures r.Err? ==> r.error == SliceOutOfRange(pos)
    ensures r.Ok? ==> pos <= r.value.end <= |data| && r.value.text == data[pos..r.value.end]
    ensures r.Ok? ==> forall i :: 0 <= i < |r.value.text| ==> IsTokenByte(r.value.text[i])
    ensures r.Ok? && r.value.end < |data| ==> !IsTokenByte(data[r.value.end])
  {
    if pos > |data| then Err(SliceOutOfRange(pos))
    else
      var e := TokenEnd(data, pos);
      Ok(Token(data[pos..e], e))
  }

  /** Drops every leading `{` and `}`. */
  function TrimStart(s: seq<Byte>): (t: seq<Byte>)
    ensures |t| <= |s| && t == s[|s| - |t|..]
    ensures forall k :: 0 <= k < |s| - |t| ==> IsBrace(s[k])
    ensures t != [] ==> !IsBrace(t[0])
  {
    if s != [] && IsBrace(s[0]) then TrimStart(s[1..]) else s
  }

  /** Drops every trailing `{` and `}`. */
  function TrimEnd(s: seq<Byte>): (t: seq<Byte>)
    ensures |t| <= |s| && t == s[..|t|]
    ensures forall k :: |t| <= k < |s| ==> IsBrace(s[k])
    ensures t != [] ==> !IsBrace(t[|t| - 1])
  {
    if s != [] && IsBrace(s[|s| - 1]) then TrimEnd(s[..|s| - 1]) else s
  }

  /** `string.Trim('{', '}')`: the infix of `s` left after removing every
      leading and trailing brace; only braces are removed. */
  function TrimBraces(s: seq<Byte>): (t: seq<Byte>)
    ensures var a := |s| - |TrimStart(s)|;
      a + |t| <= |s| && t == s[a..a + |t|] &&
      (forall k :: 0 <= k < a ==> IsBrace(s[k])) &&
      (forall k :: a + |t| <= k < |s| ==> IsBrace(s[k]))
    ensures t != [] ==> !IsBrace(t[0]) && !IsBrace(t[|t| - 1])
  {
    TrimEnd(TrimStart(s))
  }

  /** A run of `n` token bytes from `pos` that the end of the buffer or a
      byte of another kind closes is exactly the token there. */
  lemma {:induction false} TokenEndOver(data: seq<Byte>, pos: nat, n: nat)
    requires pos + n <= |data|
    requires forall i :: pos <= i < pos + n ==> IsTokenByte(data[i])
    requires pos + n == |data| || !IsTokenByte(data[pos + n])
    ensures TokenEnd(data, pos) == pos + n
    decreases n
  {
    if n > 0 {
      TokenEndOver(data, pos + 1, n - 1);
    }
  }
}
