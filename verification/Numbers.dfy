/** JSON number texts (section 6 of RFC 8259), their exact values and their canonical spelling. */
module Numbers {
  import opened Decimal

  datatype Exponent = NoExponent | Exponent(marker: char, sign: string, digits: string)

  /** A number text by its parts; an absent fraction is the empty one. */
  datatype NumberText = NumberText(negative: bool, whole: string, fraction: string, exponent: Exponent)

  predicate WellFormedExponent(e: Exponent) {
    e.Exponent? ==>
      && (e.marker == 'e' || e.marker == 'E')
      && (e.sign == "" || e.sign == "+" || e.sign == "-")
      && e.digits != "" && AllDigits(e.digits)
  }

  predicate WellFormed(n: NumberText) {
    && n.whole != "" && AllDigits(n.whole) && (n.whole[0] != '0' || n.whole == "0")
    && AllDigits(n.fraction) && WellFormedExponent(n.exponent)
  }

  function SpellFraction(f: string): string {
    if f == "" then "" else "." + f
  }

  function SpellExponent(e: Exponent): string {
    match e
    case NoExponent => ""
    case Exponent(marker, sign, digits) => [marker] + (sign + digits)
  }

  function SpellMantissa(n: NumberText): string {
    n.whole + SpellFraction(n.fraction)
  }

  function Spell(n: NumberText): string {
    (if n.negative then "-" else "") + (SpellMantissa(n) + SpellExponent(n.exponent))
  }

  function ExponentValue(e: Exponent): int
    requires WellFormedExponent(e)
  {
    match e
    case NoExponent => 0
    case Exponent(_, sign, digits) => if sign == "-" then -(Digits(digits) as int) else Digits(digits)
  }

  function Signed(negative: bool, v: real): real {
    if negative then -v else v
  }

  /** digits * 10^power with a sign. */
  function RawValue(negative: bool, digits: string, power: int): real
    requires AllDigits(digits)
  {
    Signed(negative, Scaled(Digits(digits), power))
  }

  function DigitsOf(n: NumberText): string {
    n.whole + n.fraction
  }

  function PowerOf(n: NumberText): int
    requires WellFormedExponent(n.exponent)
  {
    ExponentValue(n.exponent) - |n.fraction|
  }

  /** The exact value of a number text. */
  function Value(n: NumberText): real
    requires WellFormed(n)
  {
    RawValue(n.negative, DigitsOf(n), PowerOf(n))
  }

  // ---- canonicalJSONNumber ----

  /** The first position of one of the characters, or the length. */
  function IndexAny(s: string, chars: string): (r: nat)
    ensures r <= |s| && (forall i | 0 <= i < r :: s[i] !in chars) && (r < |s| ==> s[r] in chars)
    decreases |s|
  {
    if s == "" || s[0] in chars then 0 else
      var r := IndexAny(s[1..], chars);
      assert forall i | 1 <= i < r + 1 :: s[i] == s[1..][i - 1];
      r + 1
  }

  datatype Parsed = NoNumber | Number(value: int)

  /** An optional sign and decimal digits, of any size. */
  function ParseInteger(s: string): Parsed {
    var negative := s != "" && s[0] == '-';
    var body := if s != "" && (s[0] == '-' || s[0] == '+') then s[1..] else s;
    if body == "" || !AllDigits(body) then NoNumber
    else Number(if negative then -(Digits(body) as int) else Digits(body))
  }

  function TrimPlus(s: string): string {
    if s != "" && s[0] == '+' then s[1..] else s
  }

  function RemovePoint(s: string): string {
    var p := IndexAny(s, ".");
    if p < |s| then s[..p] + s[p + 1..] else s
  }

  function FractionLength(s: string): int {
    var p := IndexAny(s, ".");
    if p < |s| then |s| - p - 1 else 0
  }

  /** What a number text comes down to: digits * 10^power without zeros at either end. */
  datatype Decomposed = Unreadable | Zero | Decimal(negative: bool, digits: string, power: int)

  function Kept(digits: string): string {
    TrimRight(TrimLeft(digits))
  }

  function TrailingZeros(digits: string): nat {
    |TrimLeft(digits)| - |Kept(digits)|
  }

  function Trim(negative: bool, digits: string, power: int): Decomposed {
    if Kept(digits) == "" then Zero else Decimal(negative, Kept(digits), power + TrailingZeros(digits))
  }

  datatype Raw = NotRead | Raw(negative: bool, digits: string, power: int)

  /** The exponent after its marker; an absent exponent is zero. */
  function ReadTail(tail: string): Parsed {
    if tail == "" then Number(0) else ParseInteger(TrimPlus(tail[1..]))
  }

  function ReadParts(negative: bool, mantissa: string, tail: string): Raw {
    match ReadTail(tail)
    case NoNumber => NotRead
    case Number(exponent) => Raw(negative, RemovePoint(mantissa), exponent - FractionLength(mantissa))
  }

  function ReadUnsigned(negative: bool, body: string): Raw {
    var k := IndexAny(body, "eE");
    ReadParts(negative, body[..k], body[k..])
  }

  function Read(text: string): Raw {
    if text != "" && text[0] == '-' then ReadUnsigned(true, text[1..]) else ReadUnsigned(false, text)
  }

  function Decompose(text: string): Decomposed {
    match Read(text)
    case NotRead => Unreadable
    case Raw(negative, digits, power) => Trim(negative, digits, power)
  }

  /** One digit, the rest after a point, and a decimal exponent. */
  function Scientific(negative: bool, digits: string, power: int): string
    requires digits != ""
  {
    (if negative then "-" else "") +
    (digits[..1] + (if |digits| > 1 then "." + digits[1..] else "") + ("e" + IntText(power + |digits| - 1)))
  }

  /** canonicalJSONNumber. */
  function CanonicalNumber(text: string): string {
    match Decompose(text)
    case Unreadable => text
    case Zero => "0"
    case Decimal(negative, digits, power) => if digits == "" then "0" else Scientific(negative, digits, power)
  }

  // ---- reading a spelled number ----

  lemma IndexAfter(a: string, b: string, chars: string)
    requires forall i | 0 <= i < |a| :: a[i] !in chars
    requires b == "" || b[0] in chars
    ensures IndexAny(a + b, chars) == |a|
  {
    var s := a + b;
    assert forall i | 0 <= i < |a| :: s[i] == a[i];
    assert b != "" ==> s[|a|] == b[0];
  }

  lemma ReadExponent(e: Exponent)
    requires WellFormedExponent(e) && e.Exponent?
    ensures ParseInteger(TrimPlus((e.sign + e.digits))) == Number(ExponentValue(e))
  {
    var t := e.sign + e.digits;
    if e.sign == "" {
      assert t == e.digits && IsDigit(t[0]);
    } else {
      assert t[0] == e.sign[0] && t[1..] == e.digits;
      assert IsDigit(e.digits[0]);
    }
  }

  lemma MantissaPoint(n: NumberText)
    requires WellFormed(n)
    ensures IndexAny(SpellMantissa(n), ".") == |n.whole|
  {
    forall i | 0 <= i < |n.whole| ensures n.whole[i] !in "." {
      assert IsDigit(n.whole[i]);
    }
    IndexAfter(n.whole, SpellFraction(n.fraction), ".");
  }

  lemma ReadMantissa(n: NumberText)
    requires WellFormed(n)
    ensures RemovePoint(SpellMantissa(n)) == n.whole + n.fraction
    ensures FractionLength(SpellMantissa(n)) == |n.fraction|
  {
    var s := SpellMantissa(n);
    MantissaPoint(n);
    if n.fraction == "" {
      assert s == n.whole;
    } else {
      assert s[..|n.whole|] == n.whole && s[|n.whole| + 1..] == n.fraction;
    }
  }

  lemma SplitExponent(n: NumberText)
    requires WellFormed(n)
    ensures IndexAny(SpellMantissa(n) + SpellExponent(n.exponent), "eE") == |SpellMantissa(n)|
  {
    var m := SpellMantissa(n);
    forall i | 0 <= i < |m| ensures m[i] !in "eE" {
      if i < |n.whole| {
        assert IsDigit(n.whole[i]);
      } else if i > |n.whole| {
        assert IsDigit(n.fraction[i - |n.whole| - 1]);
      }
    }
    IndexAfter(m, SpellExponent(n.exponent), "eE");
  }

  function SpellBody(n: NumberText): string {
    SpellMantissa(n) + SpellExponent(n.exponent)
  }

  lemma SignSplits(n: NumberText)
    requires WellFormed(n)
    ensures Read(Spell(n)) == ReadUnsigned(n.negative, SpellBody(n))
  {
    var text, body := Spell(n), SpellBody(n);
    assert IsDigit(n.whole[0]) && SpellMantissa(n)[0] == n.whole[0] && body[0] == n.whole[0];
    if n.negative {
      assert text[0] == '-' && text[1..] == body;
    } else {
      assert text == body;
    }
  }

  lemma ReadSpelledTail(e: Exponent)
    requires WellFormedExponent(e)
    ensures ReadTail(SpellExponent(e)) == Number(ExponentValue(e))
  {
    if e.Exponent? {
      assert SpellExponent(e)[1..] == e.sign + e.digits;
      ReadExponent(e);
    }
  }

  lemma Halves(a: string, b: string)
    ensures (a + b)[..|a|] == a && (a + b)[|a|..] == b
  {
  }

  lemma BodyHalves(negative: bool, n: NumberText)
    requires WellFormed(n)
    ensures ReadUnsigned(negative, SpellBody(n)) == ReadParts(negative, SpellMantissa(n), SpellExponent(n.exponent))
  {
    SplitExponent(n);
    Halves(SpellMantissa(n), SpellExponent(n.exponent));
  }

  /** The unsigned part reads back as its digits and its power of ten. */
  lemma BodySplits(n: NumberText)
    requires WellFormed(n)
    ensures ReadUnsigned(n.negative, SpellBody(n)) == Raw(n.negative, DigitsOf(n), PowerOf(n))
  {
    BodyHalves(n.negative, n);
    ReadSpelledTail(n.exponent);
    ReadMantissa(n);
  }

  predicate Normal(d: Decomposed) {
    d.Zero? || (d.Decimal? && Trimmed(d.digits))
  }

  function DecimalValue(d: Decomposed): real
    requires Normal(d)
  {
    match d
    case Zero => 0.0
    case Decimal(negative, digits, power) => RawValue(negative, digits, power)
  }

  lemma KeptTrimmed(digits: string)
    requires AllDigits(digits)
    ensures AllDigits(Kept(digits)) && (Kept(digits) != "" ==> Trimmed(Kept(digits)))
  {
    TrimLeftKeeps(digits);
    TrimRightShifts(TrimLeft(digits));
  }

  lemma KeptShifted(digits: string)
    requires AllDigits(digits) && AllDigits(Kept(digits))
    ensures Digits(digits) == Shift(Digits(Kept(digits)), TrailingZeros(digits))
  {
    TrimLeftKeeps(digits);
    TrimRightShifts(TrimLeft(digits));
  }

  lemma KeptScaled(digits: string, power: int)
    requires AllDigits(digits) && AllDigits(Kept(digits))
    ensures Scaled(Digits(digits), power) == Scaled(Digits(Kept(digits)), power + TrailingZeros(digits))
  {
    KeptShifted(digits);
    MoveZeros(Digits(Kept(digits)), TrailingZeros(digits), power);
  }

  lemma TrimNormal(negative: bool, digits: string, power: int)
    requires AllDigits(digits)
    ensures Normal(Trim(negative, digits, power))
  {
    KeptTrimmed(digits);
  }

  lemma TrimToZero(negative: bool, digits: string, power: int)
    requires AllDigits(digits) && Kept(digits) == ""
    ensures RawValue(negative, digits, power) == 0.0
  {
    assert Digits(digits) == 0 by {
      KeptShifted(digits);
      ShiftZero(TrailingZeros(digits));
    }
    ScaledSign(0, power);
  }

  lemma TrimToDecimal(negative: bool, digits: string, power: int)
    requires AllDigits(digits) && Trimmed(Kept(digits))
    ensures RawValue(negative, Kept(digits), power + TrailingZeros(digits)) == RawValue(negative, digits, power)
  {
    KeptScaled(digits, power);
  }

  lemma TrimValue(negative: bool, digits: string, power: int)
    requires AllDigits(digits) && Normal(Trim(negative, digits, power))
    ensures DecimalValue(Trim(negative, digits, power)) == RawValue(negative, digits, power)
  {
    if Kept(digits) == "" {
      TrimToZero(negative, digits, power);
    } else {
      TrimToDecimal(negative, digits, power);
    }
  }

  /** A spelled number reads back as its own digits and power of ten. */
  lemma ReadSpelled(n: NumberText)
    requires WellFormed(n)
    ensures Read(Spell(n)) == Raw(n.negative, DigitsOf(n), PowerOf(n))
  {
    SignSplits(n);
    BodySplits(n);
  }

  /** Decomposing a well-formed text keeps its exact value. */
  lemma DecomposeKeepsValue(n: NumberText)
    requires WellFormed(n)
    ensures Normal(Decompose(Spell(n))) && DecimalValue(Decompose(Spell(n))) == Value(n)
  {
    ReadSpelled(n);
    TrimNormal(n.negative, DigitsOf(n), PowerOf(n));
    TrimValue(n.negative, DigitsOf(n), PowerOf(n));
  }

  /** Normal decompositions of one value are equal. */
  lemma NormalUnique(c: Decomposed, d: Decomposed)
    requires Normal(c) && Normal(d) && DecimalValue(c) == DecimalValue(d)
    ensures c == d
  {
    if c.Decimal? {
      NormalNonzero(c);
    }
    if d.Decimal? {
      NormalNonzero(d);
    }
    if c.Decimal? && d.Decimal? {
      TrimmedEnds(c.digits);
      TrimmedEnds(d.digits);
      SignificandUnique(Digits(c.digits), c.power, Digits(d.digits), d.power);
      NoLeadingZeroInjective(c.digits, d.digits);
    }
  }

  lemma NormalNonzero(d: Decomposed)
    requires d.Decimal? && Normal(d)
    ensures if d.negative then DecimalValue(d) < 0.0 else DecimalValue(d) > 0.0
  {
    NonzeroDigits(d.digits);
    ScaledSign(Digits(d.digits), d.power);
  }

  // ---- the canonical spelling as a number text ----

  const ZERO := NumberText(false, "0", "", NoExponent)

  function ExponentOf(e: int): (x: Exponent)
    ensures WellFormedExponent(x) && ExponentValue(x) == e
  {
    Exponent('e', if e < 0 then "-" else "", NatText(if e < 0 then -e else e))
  }

  /** The number text that spells a normal decomposition. */
  function TextOf(d: Decomposed): NumberText
    requires Normal(d)
  {
    match d
    case Zero => ZERO
    case Decimal(negative, digits, power) =>
      NumberText(negative, digits[..1], digits[1..], ExponentOf(power + |digits| - 1))
  }

  lemma TextWellFormed(d: Decomposed)
    requires Normal(d)
    ensures WellFormed(TextOf(d))
  {
    if d.Decimal? {
      assert d.digits[..1][0] == d.digits[0];
    }
  }

  lemma ExponentSpelled(e: int)
    ensures SpellExponent(ExponentOf(e)) == "e" + IntText(e)
  {
    assert e >= 0 ==> "" + NatText(e) == NatText(e);
  }

  lemma TextSpelled(d: Decomposed)
    requires Normal(d)
    ensures Spell(TextOf(d)) == if d.Zero? then "0" else Scientific(d.negative, d.digits, d.power)
  {
    if d.Decimal? {
      ExponentSpelled(d.power + |d.digits| - 1);
    }
  }

  lemma TextDecomposes(d: Decomposed)
    requires Normal(d) && WellFormed(TextOf(d))
    ensures Value(TextOf(d)) == DecimalValue(d)
  {
    match d
    case Zero =>
      assert ZERO.whole + ZERO.fraction == "0" && "0"[..0] == "";
    case Decimal(negative, digits, power) =>
      assert digits[..1] + digits[1..] == digits;
  }

  /** canonicalJSONNumber maps every number text of the grammar to a number text of the grammar with
      the same exact value. */
  lemma CanonicalKeepsValue(n: NumberText) returns (m: NumberText)
    requires WellFormed(n)
    ensures WellFormed(m) && CanonicalNumber(Spell(n)) == Spell(m) && Value(m) == Value(n)
  {
    DecomposeKeepsValue(n);
    var d := Decompose(Spell(n));
    m := TextOf(d);
    TextWellFormed(d);
    TextSpelled(d);
    TextDecomposes(d);
  }

  /** Two number texts get one spelling exactly when their exact values are equal. */
  lemma SameSpellingIffSameValue(a: NumberText, b: NumberText)
    requires WellFormed(a) && WellFormed(b)
    ensures CanonicalNumber(Spell(a)) == CanonicalNumber(Spell(b)) <==> Value(a) == Value(b)
  {
    DecomposeKeepsValue(a);
    DecomposeKeepsValue(b);
    if Value(a) == Value(b) {
      NormalUnique(Decompose(Spell(a)), Decompose(Spell(b)));
    }
    if CanonicalNumber(Spell(a)) == CanonicalNumber(Spell(b)) {
      var m := CanonicalKeepsValue(a);
      var n := CanonicalKeepsValue(b);
      DecomposeKeepsValue(m);
      DecomposeKeepsValue(n);
    }
  }

  lemma CanonicalIdempotent(n: NumberText)
    requires WellFormed(n)
    ensures CanonicalNumber(CanonicalNumber(Spell(n))) == CanonicalNumber(Spell(n))
  {
    var m := CanonicalKeepsValue(n);
    SameSpellingIffSameValue(m, n);
  }
}
