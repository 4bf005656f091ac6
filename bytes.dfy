/** Bytes of an MFM buffer and the character classes that drive the lexer
    (src/MfmToYaml/Readers/MfmReader.cs:19-27). */
module Bytes {
  /** One byte of the input buffer, written as the Latin-1 character with the
      same code, so that MFM text in lemmas reads as text. */
  type Byte = c: char | c as int < 256 witness ' '

  const Space: Byte := ' '
  const Tab: Byte := '\t'
  const Cr: Byte := '\r'
  const Lf: Byte := '\n'
  const Hashtag: Byte := '#'
  const Comma: Byte := ','
  const OpenBracket: Byte := '['
  const CloseBracket: Byte := ']'
  const OpenMap: Byte := 'm'
  const OpenBrace: Byte := '{'
  const CloseBrace: Byte := '}'
  const Minus: Byte := '-'
  const Plus: Byte := '+'
  const Bang: Byte := '!'

  /** The whitespace class: space, tab, CR and LF. */
  predicate IsWhitespace(b: Byte) {
    b == Space || b == Tab || b == Cr || b == Lf
  }

  /** A byte that may appear inside a token: not whitespace, `#`, `,` or `]`. */
  predicate IsTokenByte(b: Byte) {
    !IsWhitespace(b) && b != Hashtag && b != Comma && b != CloseBracket
  }

  /** A byte that may appear inside a comment: anything but LF. */
  predicate IsCommentByte(b: Byte) {
    b != Lf
  }

  /** `m`, `[` and `#` close an enum-value or parameter list. */
  predicate IsSpecial(b: Byte) {
    b == OpenMap || b == OpenBracket || b == Hashtag
  }

  predicate IsBrace(b: Byte) {
    b == OpenBrace || b == CloseBrace
  }

  predicate IsDigit(b: Byte) {
    '0' <= b <= '9'
  }

  predicate IsLower(b: Byte) {
    'a' <= b <= 'z'
  }

  /** ASCII upper-casing: `a`-`z` become `A`-`Z`, every other byte is kept. */
  function ToUpper(b: Byte): (u: Byte)
    ensures !IsLower(u)
    ensures IsLower(b) ==> u as int == b as int - 32
    ensures !IsLower(b) ==> u == b
  {
    if IsLower(b) then (b as int - 32) as char else b
  }
}
