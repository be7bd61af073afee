/** Reading a 64-bit policy limit back from a canonical number spelling. */
module Int64 {
  import opened Decimal
  import opened Numbers

  const INT32_MAX := 0x7fff_ffff
  const INT64_MAX := 0x7fff_ffff_ffff_ffff

  predicate InInt32(v: int) {
    -INT32_MAX - 1 <= v <= INT32_MAX
  }

  predicate InInt64(v: int) {
    -INT64_MAX - 1 <= v <= INT64_MAX
  }

  /** strconv.ParseInt in base ten with a range. */
  function ParseInRange(s: string, fits: int -> bool): Parsed {
    match ParseInteger(s)
    case NoNumber => NoNumber
    case Number(v) => if fits(v) then Number(v) else NoNumber
  }

  /** The scaled digits as text, or NoText for a fraction or more than nineteen digits. */
  datatype Text = NoText | Text(text: string)

  function ScaleDigits(digits: string, scale: int): Text {
    if scale < 0 then
      var keep := |digits| + scale;
      if keep < 0 || !(forall i | keep <= i < |digits| :: digits[i] == '0') then NoText
      else Text(TrimLeft(digits[..keep]))
    else if |digits| + scale > 19 then NoText
    else Text(digits + Zeros(scale))
  }

  function ReadLimit(negative: bool, whole: string, fraction: string, exponent: int): Parsed {
    var digits := TrimLeft(whole + fraction);
    if digits == "" then Number(0)
    else if !AllDigits(digits) then NoNumber
    else match ScaleDigits(digits, exponent - |fraction|)
      case NoText => NoNumber
      case Text(text) =>
        if text == "" then Number(0) else ParseInRange(if negative then "-" + text else text, InInt64)
  }

  /** The exponent part: absent, or a 32-bit integer. */
  function ReadShortTail(tail: string): Parsed {
    if tail == "" then Number(0) else ParseInRange(tail[1..], InInt32)
  }

  function ReadMantissaAndTail(negative: bool, mantissa: string, tail: string): Parsed {
    var p := IndexAny(mantissa, ".");
    var whole := mantissa[..p];
    var fraction := if p < |mantissa| then mantissa[p + 1..] else "";
    match ReadShortTail(tail)
    case NoNumber => NoNumber
    case Number(exponent) =>
      if whole == "" || (p < |mantissa| && fraction == "") then NoNumber
      else ReadLimit(negative, whole, fraction, exponent)
  }

  function ReadUnsignedInt64(negative: bool, body: string): Parsed {
    var k := IndexAny(body, "eE");
    ReadMantissaAndTail(negative, body[..k], body[k..])
  }

  /** canonicalNumberInt64. */
  function CanonicalNumberInt64(text: string): Parsed {
    if text != "" && text[0] == '-' then ReadUnsignedInt64(true, text[1..]) else ReadUnsignedInt64(false, text)
  }

  // ---- reading a spelled number text ----

  lemma SignRead(n: NumberText)
    requires WellFormed(n)
    ensures CanonicalNumberInt64(Spell(n)) == ReadUnsignedInt64(n.negative, SpellBody(n))
  {
    var text, body := Spell(n), SpellBody(n);
    assert IsDigit(n.whole[0]) && SpellMantissa(n)[0] == n.whole[0] && body[0] == n.whole[0];
    if n.negative {
      assert text[0] == '-' && text[1..] == body;
    } else {
      assert text == body;
    }
  }

  lemma BodyRead(n: NumberText)
    requires WellFormed(n)
    ensures ReadUnsignedInt64(n.negative, SpellBody(n)) ==
            ReadMantissaAndTail(n.negative, SpellMantissa(n), SpellExponent(n.exponent))
  {
    SplitExponent(n);
    Halves(SpellMantissa(n), SpellExponent(n.exponent));
  }

  lemma MantissaRead(n: NumberText, exponent: int)
    requires WellFormed(n) && ReadShortTail(SpellExponent(n.exponent)) == Number(exponent)
    ensures ReadMantissaAndTail(n.negative, SpellMantissa(n), SpellExponent(n.exponent)) ==
            ReadLimit(n.negative, n.whole, n.fraction, exponent)
  {
    var s := SpellMantissa(n);
    MantissaPoint(n);
    if n.fraction == "" {
      assert s == n.whole;
    } else {
      assert s[..|n.whole|] == n.whole && s[|n.whole| + 1..] == n.fraction;
    }
  }

  lemma IntTextParses(e: int)
    ensures ParseInteger(IntText(e)) == Number(e)
  {
    var t := IntText(e);
    if e < 0 {
      assert t[0] == '-' && t[1..] == NatText(-e);
    } else {
      assert IsDigit(t[0]);
    }
  }

  lemma TailReads(tail: string, text: string, e: int)
    requires tail == "e" + text && text == IntText(e)
    ensures ReadShortTail(tail) == if InInt32(e) then Number(e) else NoNumber
  {
    assert tail[1..] == text;
    IntTextParses(e);
  }

  lemma ScientificTail(d: Decomposed)
    requires d.Decimal? && Normal(d)
    ensures ReadShortTail(SpellExponent(TextOf(d).exponent)) ==
            (var e := d.power + |d.digits| - 1; if InInt32(e) then Number(e) else NoNumber)
  {
    var e := d.power + |d.digits| - 1;
    ExponentSpelled(e);
    TailReads("e" + IntText(e), IntText(e), e);
  }

  /** What reading the spelling of a normal decimal comes down to. */
  lemma ReadNormal(d: Decomposed)
    requires d.Decimal? && Normal(d)
    ensures CanonicalNumberInt64(Spell(TextOf(d))) ==
            if InInt32(d.power + |d.digits| - 1) then ReadLimit(d.negative, d.digits[..1], d.digits[1..],
                d.power + |d.digits| - 1)
            else NoNumber
  {
    var n := TextOf(d);
    TextWellFormed(d);
    SignRead(n);
    BodyRead(n);
    ScientificTail(d);
    if InInt32(d.power + |d.digits| - 1) {
      MantissaRead(n, d.power + |d.digits| - 1);
    }
  }

  lemma SignedTextParses(negative: bool, text: string)
    requires text != "" && AllDigits(text)
    ensures ParseInteger(if negative then "-" + text else text) ==
            Number(if negative then -(Digits(text) as int) else Digits(text))
  {
    if negative {
      assert ("-" + text)[1..] == text;
    } else {
      assert IsDigit(text[0]);
    }
  }

  lemma TrimLeftSame(s: string)
    requires s != "" && s[0] != '0'
    ensures TrimLeft(s) == s
  {
  }

  function Negate(negative: bool, v: int): int {
    if negative then -v else v
  }

  /** Trimmed digits with a negative scale are a fraction; otherwise zeros are appended. */
  lemma LimitOfTrimmed(negative: bool, digits: string, power: int)
    requires Trimmed(digits)
    ensures ReadLimit(negative, digits[..1], digits[1..], power + |digits| - 1) ==
            if power < 0 || |digits| + power > 19 then NoNumber else
              var v := Negate(negative, Shift(Digits(digits), power));
              if InInt64(v) then Number(v) else NoNumber
  {
    assert digits[..1] + digits[1..] == digits;
    TrimLeftSame(digits);
    if power < 0 {
      assert digits[|digits| - 1] != '0';
    } else if |digits| + power <= 19 {
      AppendZeros(digits, power);
      SignedTextParses(negative, digits + Zeros(power));
    }
  }

  // ---- arithmetic ----

  /** A normal decimal with a negative power is not an integer. */
  lemma FractionIsNoInteger(digits: string, power: int, v: nat)
    requires Trimmed(digits) && power < 0
    ensures Scaled(Digits(digits), power) != v as real
  {
    TrimmedEnds(digits);
    if Scaled(Digits(digits), power) == Scaled(v, 0) {
      SmallerPowerEndsInZero(Digits(digits), power, v, 0);
    }
  }

  lemma WholeIsShift(d: nat, power: nat)
    ensures Scaled(d, power) == Shift(d, power) as real
  {
    MoveZeros(d, power, 0);
  }

  lemma TwentyDigitsAreTooMany(digits: string, power: nat)
    requires Trimmed(digits) && |digits| + power > 19
    ensures Shift(Digits(digits), power) > INT64_MAX + 1
  {
    DigitsBounds(digits);
    ShiftMonotone(Shift(1, |digits| - 1), Digits(digits), power);
    ShiftShift(1, |digits| - 1, power);
    ShiftGrows(1, 19, |digits| - 1 + power);
    assert Shift(1, 19) == 10_000_000_000_000_000_000 by {
      assert Shift(1, 4) == 10000;
      assert Shift(1, 8) == 1_0000_0000;
      assert Shift(1, 12) == 1_0000_0000_0000;
      assert Shift(1, 16) == 1_0000_0000_0000_0000;
    }
  }

  /** The value of a normal decimal is the integer v exactly when its power is not negative and v is
      the shifted digits. */
  lemma DecimalIsInteger(d: Decomposed, v: int)
    requires d.Decimal? && Normal(d)
    ensures DecimalValue(d) == v as real <==> d.power >= 0 && v == Negate(d.negative, Shift(Digits(d.digits), d.power))
  {
    if d.power >= 0 {
      WholeIsShift(Digits(d.digits), d.power);
    } else {
      FractionIsNoInteger(d.digits, d.power, if v < 0 then -v else v);
      NormalNonzero(d);
    }
  }

  lemma DecimalLimit(d: Decomposed, v: int)
    requires d.Decimal? && Normal(d)
    ensures CanonicalNumberInt64(Spell(TextOf(d))) == Number(v) <==> InInt64(v) && DecimalValue(d) == v as real
  {
    ReadNormal(d);
    LimitOfTrimmed(d.negative, d.digits, d.power);
    DecimalIsInteger(d, v);
    if d.power >= 0 && |d.digits| + d.power > 19 {
      TwentyDigitsAreTooMany(d.digits, d.power);
    }
  }

  lemma ZeroLimit()
    ensures CanonicalNumberInt64("0") == Number(0)
  {
    var zero := "0";
    assert IndexAny(zero, "eE") == 1;
    assert zero[..1] == "0" && zero[1..] == "";
    assert IndexAny(zero, ".") == 1;
    assert TrimLeft("0" + "") == TrimLeft("");
  }

  /** Reading the canonical spelling of any number text gives v exactly when the text denotes the
      integer v within the 64-bit range; every other number is refused. */
  lemma LimitRoundTrip(n: NumberText, v: int)
    requires WellFormed(n)
    ensures CanonicalNumberInt64(CanonicalNumber(Spell(n))) == Number(v) <==> InInt64(v) && Value(n) == v as real
  {
    DecomposeKeepsValue(n);
    var d := Decompose(Spell(n));
    TextSpelled(d);
    if d.Zero? {
      ZeroLimit();
    } else {
      DecimalLimit(d, v);
    }
  }
}
