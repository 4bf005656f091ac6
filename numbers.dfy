/** Integer tokens: the parse done by `Read<T>` (`long.Parse` / `int.Parse`
    with the invariant number format) and the decimal rendering done by
    `int.TryFormat` when a function key is written. */
module Numbers {
  import opened Bytes
  import opened Outcomes

  const MinInt32: int := -0x8000_0000
  const MaxInt32: int := 0x7FFF_FFFF
  const MinInt64: int := -0x8000_0000_0000_0000
  const MaxInt64: int := 0x7FFF_FFFF_FFFF_FFFF

  type Int32 = x: int | MinInt32 <= x <= MaxInt32
  type Int64 = x: int | MinInt64 <= x <= MaxInt64

  predicate AllDigits(s: seq<Byte>) {
    forall i :: 0 <= i < |s| ==> IsDigit(s[i])
  }

  function DigitValue(b: Byte): nat
    requires IsDigit(b)
  {
    b as int - '0' as int
  }

  function DigitByte(d: nat): (b: Byte)
    requires d < 10
    ensures IsDigit(b) && DigitValue(b) == d
  {
    ('0' as int + d) as char
  }

  /** The value of a run of decimal digits, most significant first. */
  function DigitsValue(s: seq<Byte>): nat
    requires AllDigits(s)
  {
    if s == [] then 0 else DigitsValue(s[..|s| - 1]) * 10 + DigitValue(s[|s| - 1])
  }

  /** The shortest decimal rendering of `n`: no leading zero, "0" for zero. */
  function Digits(n: nat): (s: seq<Byte>)
    ensures 1 <= |s| && AllDigits(s)
    ensures |s| > 1 ==> s[0] != '0'
  {
    if n < 10 then [DigitByte(n)] else Digits(n / 10) + [DigitByte(n % 10)]
  }

  /** Reading the rendering back gives `n`. */
  lemma {:induction false} DigitsReadBack(n: nat)
    ensures DigitsValue(Digits(n)) == n
  {
    if n >= 10 {
      DigitsReadBack(n / 10);
      var s := Digits(n);
      assert s[..|s| - 1] == Digits(n / 10);
    }
  }

  /** `int.TryFormat` / `long.TryFormat` with the invariant culture: a `-` sign
      for negative values, then the shortest decimal digits. */
  function Decimal(v: int): (s: seq<Byte>)
    ensures 1 <= |s|
    ensures v < 0 <==> s[0] == Minus
    ensures s[0] != Plus
  {
    if v < 0 then [Minus] + Digits(-v) else Digits(v)
  }

  /** The digit loop of `T.Parse`: the value of a run of digits, or -1 when
      the run holds a byte that is not a digit. */
  function DigitsParse(s: seq<Byte>): (m: int)
  {
    if s == [] then 0
    else
      var m := DigitsParse(s[..|s| - 1]);
      if m < 0 || !IsDigit(s[|s| - 1]) then -1 else m * 10 + DigitValue(s[|s| - 1])
  }

  lemma {:induction false} DigitsParseValue(s: seq<Byte>)
    ensures DigitsParse(s) >= 0 <==> AllDigits(s)
    ensures AllDigits(s) ==> DigitsParse(s) == DigitsValue(s)
  {
    if s != [] {
      DigitsParseValue(s[..|s| - 1]);
      assert AllDigits(s) ==> AllDigits(s[..|s| - 1]);
      assert !AllDigits(s[..|s| - 1]) ==> !AllDigits(s) by {
        if AllDigits(s) { assert forall i :: 0 <= i < |s| - 1 ==> s[..|s| - 1][i] == s[i]; }
      }
    }
  }

  /** The digits of a token once an optional leading `-` or `+` is set aside. */
  function DigitsPart(token: seq<Byte>): seq<Byte> {
    if token != [] && (token[0] == Minus || token[0] == Plus) then token[1..] else token
  }

  /** What the invariant integer parse accepts in a token: an optional sign,
      then one or more decimal digits, nothing else. */
  predicate NumberSyntax(token: seq<Byte>) {
    DigitsPart(token) != [] && AllDigits(DigitsPart(token))
  }

  /** The value such a token denotes. */
  function SignedValue(token: seq<Byte>): int
    requires NumberSyntax(token)
  {
    if token[0] == Minus then -(DigitsValue(DigitsPart(token)) as int) else DigitsValue(DigitsPart(token))
  }

  /** `T.Parse` of a whole token into the range `lo..hi`: a sign, then the
      digit loop; ParseIntegerMeaning says what it accepts and yields. */
  function ParseInteger(token: seq<Byte>, lo: int, hi: int): (r: Result<int>)
    ensures r.Ok? ==> lo <= r.value <= hi
    ensures token == [] ==> r == Err(NumberFormat(token))
    ensures r.Err? ==> r.error == NumberFormat(token) || r.error == NumberOverflow(token)
  {
    if token == [] then Err(NumberFormat(token))
    else
      var signed := token[0] == Minus || token[0] == Plus;
      var digits := if signed then token[1..] else token;
      var magnitude := DigitsParse(digits);
      if digits == [] || magnitude < 0 then Err(NumberFormat(token))
      else
        var v: int := if token[0] == Minus then -magnitude else magnitude;
        if lo <= v <= hi then Ok(v) else Err(NumberOverflow(token))
  }

  /** The parse succeeds exactly on a well-formed token whose value is in
      range, and then yields that value; a malformed token is a format
      error, a well-formed one out of range an overflow. */
  lemma ParseIntegerMeaning(token: seq<Byte>, lo: int, hi: int)
    ensures var r := ParseInteger(token, lo, hi);
      && (r.Ok? <==> NumberSyntax(token) && lo <= SignedValue(token) <= hi)
      && (r.Ok? ==> r.value == SignedValue(token))
      && (!NumberSyntax(token) ==> r == Err(NumberFormat(token)))
      && (NumberSyntax(token) && !(lo <= SignedValue(token) <= hi) ==> r == Err(NumberOverflow(token)))
  {
    if token != [] {
      DigitsParseValue(DigitsPart(token));
    }
  }

  /** What `Decimal` writes is a well-formed token denoting the value. */
  lemma DecimalSyntax(v: int)
    ensures NumberSyntax(Decimal(v)) && SignedValue(Decimal(v)) == v
  {
    var s := Decimal(v);
    if v < 0 {
      assert DigitsPart(s) == Digits(-v);
      DigitsReadBack(-v);
    } else {
      assert DigitsPart(s) == Digits(v) by { assert IsDigit(s[0]); }
      DigitsReadBack(v);
    }
  }

  /** Reading back what `Decimal` writes gives the same value. */
  lemma ParseDecimal(v: int, lo: int, hi: int)
    requires lo <= v <= hi
    ensures ParseInteger(Decimal(v), lo, hi) == Ok(v)
  {
    DecimalSyntax(v);
    ParseIntegerMeaning(Decimal(v), lo, hi);
  }

  function Pow10(k: nat): (p: nat)
    ensures p >= 1
  {
    if k == 0 then 1 else 10 * Pow10(k - 1)
  }

  /** `n` has at most `k` decimal digits exactly when it is below 10^k. */
  lemma {:induction false} DigitsFit(n: nat, k: nat)
    requires k >= 1
    ensures |Digits(n)| <= k <==> n < Pow10(k)
  {
    if n >= 10 {
      if k == 1 {
        assert |Digits(n)| == |Digits(n / 10)| + 1;
      } else {
        DigitsFit(n / 10, k - 1);
        assert n / 10 < Pow10(k - 1) <==> n < 10 * Pow10(k - 1);
      }
    }
  }

  /** A 32-bit value takes at most 11 bytes: a sign and ten digits. */
  lemma Int32DecimalLength(v: Int32)
    ensures |Decimal(v)| <= 11
    ensures |Decimal(v)| == 11 <==> v <= -1_000_000_000
  {
    assert Pow10(9) == 1_000_000_000;
    assert Pow10(10) == 10_000_000_000;
    if v < 0 {
      var m: nat := -(v as int);
      DigitsFit(m, 10);
      DigitsFit(m, 9);
    } else {
      DigitsFit(v, 10);
    }
  }
}
