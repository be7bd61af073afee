/** The surrogate scanner that runs over the raw bytes of a request before it is decoded. */
module UnicodeEscapes {
  type Byte = b: nat | b < 0x100

  const QUOTE: Byte := 0x22
  const BACKSLASH: Byte := 0x5c
  const LETTER_U: Byte := 0x75
  const NEWLINE: Byte := 0x0a
  const RETURN: Byte := 0x0d

  datatype Hex = NotHex | Hex(value: nat)

  function HexDigit(b: Byte): (h: Hex)
    ensures h.Hex? ==> h.value < 16
  {
    if 0x30 <= b <= 0x39 then Hex(b - 0x30)
    else if 0x61 <= b <= 0x66 then Hex(b - 0x61 + 10)
    else if 0x41 <= b <= 0x46 then Hex(b - 0x41 + 10)
    else NotHex
  }

  /** The value of the first n digits. */
  function HexValue(s: seq<Byte>, n: nat): (h: Hex)
    requires n <= |s|
  {
    if n == 0 then Hex(0) else
      var front, digit := HexValue(s, n - 1), HexDigit(s[n - 1]);
      if front.NotHex? || digit.NotHex? then NotHex else Hex(0x10 * front.value + digit.value)
  }

  function EscapeValue(s: seq<Byte>): (h: Hex) {
    if |s| < 4 then NotHex else HexValue(s, 4)
  }

  predicate High(v: nat) {
    0xd800 <= v <= 0xdbff
  }

  predicate Low(v: nat) {
    0xdc00 <= v <= 0xdfff
  }

  /** The scan of a text from outside any literal. */
  predicate Outside(s: seq<Byte>)
    decreases |s|
  {
    s == [] || (if s[0] == QUOTE then Inside(s[1..]) else Outside(s[1..]))
  }

  /** The scan from inside a literal. */
  predicate Inside(s: seq<Byte>)
    decreases |s|
  {
    if s == [] then true
    else if s[0] == QUOTE then Outside(s[1..])
    else if s[0] == NEWLINE || s[0] == RETURN then false
    else if s[0] != BACKSLASH then Inside(s[1..])
    else if |s| < 2 then false
    else if s[1] != LETTER_U then Inside(s[2..])
    else Escape(s)
  }

  /** The scan from the backslash of a unicode escape. */
  predicate Escape(s: seq<Byte>)
    requires |s| >= 2
    decreases |s|, 0
  {
    var v := EscapeValue(s[2..]);
    if v.NotHex? || Low(v.value) then false
    else if !High(v.value) then Inside(s[6..])
    else if |s| < 12 || s[6] != BACKSLASH || s[7] != LETTER_U then false
    else
      var w := EscapeValue(s[8..]);
      w.Hex? && Low(w.value) && Inside(s[12..])
  }

  /** unicodeEscapeValue: a loop over four digits. */
  method UnicodeEscapeValue(raw: seq<Byte>) returns (h: Hex)
    ensures h == EscapeValue(raw)
    ensures h.Hex? ==> |raw| >= 4 && h.value < 0x1_0000
  {
    if |raw| < 4 {
      return NotHex;
    }
    var value: nat := 0;
    for i := 0 to 4
      invariant HexValue(raw, i) == Hex(value)
      invariant value < (if i == 0 then 1 else if i == 1 then 0x10 else if i == 2 then 0x100
                         else if i == 3 then 0x1000 else 0x1_0000)
    {
      var digit := HexDigit(raw[i]);
      if digit.NotHex? {
        BadDigit(raw, i + 1, 4);
        return NotHex;
      }
      value := 0x10 * value + digit.value;
    }
    h := Hex(value);
  }

  lemma {:induction false} BadDigit(s: seq<Byte>, i: nat, n: nat)
    requires i <= n <= |s| && HexValue(s, i).NotHex?
    ensures HexValue(s, n).NotHex?
    decreases n
  {
    if i < n {
      BadDigit(s, i, n - 1);
    }
  }

  /** One turn of the inner loop: the verdict so far and the next position. */
  datatype Turn = Reject | Leave(next: nat) | Continue(next: nat)

  /** validUnicodeEscapes.  No index is ever out of bounds, both loops end, and the verdict is the scan's. */
  method ValidUnicodeEscapes(raw: seq<Byte>) returns (ok: bool)
    ensures ok == Outside(raw)
  {
    var index := 0;
    assert raw[0..] == raw;
    while index < |raw|
      invariant 0 <= index <= |raw|
      invariant Outside(raw) == Outside(raw[index..])
    {
      if raw[index] != QUOTE {
        index := index + 1;
        continue;
      }
      index := index + 1;
      var inside := true;
      while inside && index < |raw|
        invariant 0 <= index <= |raw|
        invariant Outside(raw) == if inside then Inside(raw[index..]) else Outside(raw[index..])
        decreases |raw| - index, if inside then 1 else 0
      {
        var turn := ScanTurn(raw, index);
        match turn
        case Reject => return false;
        case Leave(next) => index, inside := next, false;
        case Continue(next) => index := next;
      }
    }
    assert raw[index..] == [];
    ok := true;
  }

  method ScanTurn(raw: seq<Byte>, index: nat) returns (turn: Turn)
    requires index < |raw|
    ensures turn.Reject? ==> !Inside(raw[index..])
    ensures turn.Leave? ==> index < turn.next <= |raw| && Inside(raw[index..]) == Outside(raw[turn.next..])
    ensures turn.Continue? ==> index < turn.next <= |raw| && Inside(raw[index..]) == Inside(raw[turn.next..])
  {
    var s := raw[index..];
    if raw[index] == QUOTE {
      return Leave(index + 1);
    }
    if raw[index] == NEWLINE || raw[index] == RETURN {
      return Reject;
    }
    if raw[index] != BACKSLASH {
      return Continue(index + 1);
    }
    if index + 1 >= |raw| {
      return Reject;
    }
    if raw[index + 1] != LETTER_U {
      assert s[2..] == raw[index + 2..];
      return Continue(index + 2);
    }
    assert s[2..] == raw[index + 2..];
    turn := ScanEscape(raw, index);
  }

  method ScanEscape(raw: seq<Byte>, index: nat) returns (turn: Turn)
    requires index + 1 < |raw| && raw[index] == BACKSLASH && raw[index + 1] == LETTER_U
    ensures turn.Reject? ==> !Inside(raw[index..])
    ensures !turn.Leave?
    ensures turn.Continue? ==> index < turn.next <= |raw| && Inside(raw[index..]) == Inside(raw[turn.next..])
  {
    var s := raw[index..];
    assert s[2..] == raw[index + 2..];
    var v := UnicodeEscapeValue(raw[index + 2..]);
    if v.NotHex? {
      return Reject;
    }
    var last := index + 5;
    if High(v.value) {
      if last + 6 >= |raw| || raw[last + 1] != BACKSLASH || raw[last + 2] != LETTER_U {
        return Reject;
      }
      assert s[8..] == raw[last + 3..];
      var w := UnicodeEscapeValue(raw[last + 3..]);
      if w.NotHex? || !Low(w.value) {
        return Reject;
      }
      assert s[12..] == raw[last + 7..];
      return Continue(last + 7);
    }
    if Low(v.value) {
      return Reject;
    }
    assert s[6..] == raw[last + 1..];
    turn := Continue(last + 1);
  }

  // ---- what the scan accepts on lexically well-formed texts ----

  /** One unit of a string literal: a plain byte, a short escape, or a unicode escape with its digits. */
  datatype Unit = Plain(b: Byte) | Short(b: Byte) | Code(digits: seq<Byte>)

  predicate WellFormedUnit(u: Unit) {
    match u
    case Plain(b) => b >= 0x20 && b != QUOTE && b != BACKSLASH
    case Short(b) => b != LETTER_U
    case Code(digits) => |digits| == 4 && HexValue(digits, 4).Hex?
  }

  function CodeOf(u: Unit): nat
    requires u.Code? && WellFormedUnit(u)
  {
    HexValue(u.digits, 4).value
  }

  function SpellUnit(u: Unit): seq<Byte> {
    match u
    case Plain(b) => [b]
    case Short(b) => [BACKSLASH, b]
    case Code(digits) => [BACKSLASH, LETTER_U] + digits
  }

  /** The units of a literal, its closing quote, and what follows. */
  function SpellLiteral(us: seq<Unit>, rest: seq<Byte>): seq<Byte> {
    if us == [] then [QUOTE] + rest else SpellUnit(us[0]) + SpellLiteral(us[1..], rest)
  }

  predicate IsHigh(u: Unit)
    requires WellFormedUnit(u)
  {
    u.Code? && High(CodeOf(u))
  }

  predicate IsLow(u: Unit)
    requires WellFormedUnit(u)
  {
    u.Code? && Low(CodeOf(u))
  }

  predicate WellFormedUnits(us: seq<Unit>) {
    forall i | 0 <= i < |us| :: WellFormedUnit(us[i])
  }

  /** Sections 7 and 8.2 of RFC 8259: every high surrogate is directly followed by a low one, and every
      low surrogate directly follows a high one. */
  predicate Paired(us: seq<Unit>)
    requires WellFormedUnits(us)
  {
    && (forall i | 0 <= i < |us| && IsHigh(us[i]) :: i + 1 < |us| && IsLow(us[i + 1]))
    && (forall i | 0 <= i < |us| && IsLow(us[i]) :: i > 0 && IsHigh(us[i - 1]))
  }

  lemma HexPrefix(a: seq<Byte>, b: seq<Byte>, n: nat)
    requires n <= |a| && n <= |b| && a[..n] == b[..n]
    ensures HexValue(a, n) == HexValue(b, n)
  {
    if n > 0 {
      assert a[n - 1] == a[..n][n - 1] == b[n - 1];
      assert a[..n - 1] == a[..n][..n - 1] == b[..n - 1];
      HexPrefix(a, b, n - 1);
    }
  }

  lemma CodeReads(digits: seq<Byte>, rest: seq<Byte>)
    requires |digits| == 4
    ensures var s := [BACKSLASH, LETTER_U] + digits + rest;
            s[2..] == digits + rest && s[6..] == rest && EscapeValue(s[2..]) == HexValue(digits, 4)
  {
    assert (digits + rest)[..4] == digits[..4];
    HexPrefix(digits + rest, digits, 4);
  }

  /** A unit that is no surrogate is passed over. */
  lemma PassUnit(u: Unit, rest: seq<Byte>)
    requires WellFormedUnit(u) && !IsHigh(u) && !IsLow(u)
    ensures Inside(SpellUnit(u) + rest) == Inside(rest)
  {
    var s := SpellUnit(u) + rest;
    match u
    case Plain(b) => assert s[1..] == rest;
    case Short(b) => assert s[2..] == rest;
    case Code(digits) => CodeReads(digits, rest);
  }

  lemma LoneLow(u: Unit, rest: seq<Byte>)
    requires WellFormedUnit(u) && IsLow(u)
    ensures !Inside(SpellUnit(u) + rest)
  {
    CodeReads(u.digits, rest);
  }

  /** After a high surrogate only a low one is accepted, and the pair is passed over. */
  lemma PassPair(u: Unit, w: Unit, rest: seq<Byte>)
    requires WellFormedUnit(u) && WellFormedUnit(w) && IsHigh(u)
    ensures Inside(SpellUnit(u) + (SpellUnit(w) + rest)) == (IsLow(w) && Inside(rest))
  {
    var t := SpellUnit(w) + rest;
    var s := SpellUnit(u) + t;
    CodeReads(u.digits, t);
    assert s[6..] == t;
    if w.Code? {
      CodeReads(w.digits, rest);
      assert s[6] == t[0] && s[7] == t[1] && s[8..] == t[2..] && s[12..] == t[6..];
    } else {
      assert |s| >= 12 ==> s[6] == t[0] && s[7] == t[1];
    }
  }

  lemma HighAtEnd(u: Unit, rest: seq<Byte>)
    requires WellFormedUnit(u) && IsHigh(u)
    ensures !Inside(SpellUnit(u) + ([QUOTE] + rest))
  {
    var s := SpellUnit(u) + ([QUOTE] + rest);
    CodeReads(u.digits, [QUOTE] + rest);
    assert s[6] == QUOTE;
  }

  lemma PairedSkipsOne(us: seq<Unit>)
    requires us != [] && WellFormedUnits(us) && !IsHigh(us[0]) && !IsLow(us[0])
    ensures Paired(us) == Paired(us[1..])
  {
    var t := us[1..];
    assert forall i | 0 <= i < |t| :: t[i] == us[i + 1];
    if Paired(us) {
      forall i | 0 <= i < |t| && IsLow(t[i]) ensures i > 0 && IsHigh(t[i - 1]) {
        assert IsLow(us[i + 1]);
      }
      forall i | 0 <= i < |t| && IsHigh(t[i]) ensures i + 1 < |t| && IsLow(t[i + 1]) {
        assert IsHigh(us[i + 1]);
      }
    }
    if Paired(t) {
      forall i | 0 <= i < |us| && IsLow(us[i]) ensures i > 0 && IsHigh(us[i - 1]) {
        assert t[i - 1] == us[i];
      }
      forall i | 0 <= i < |us| && IsHigh(us[i]) ensures i + 1 < |us| && IsLow(us[i + 1]) {
        assert t[i - 1] == us[i];
      }
    }
  }

  lemma PairedSkipsTwo(us: seq<Unit>)
    requires |us| >= 2 && WellFormedUnits(us) && IsHigh(us[0]) && IsLow(us[1])
    ensures Paired(us) == Paired(us[2..])
  {
    var t := us[2..];
    assert forall i | 0 <= i < |t| :: t[i] == us[i + 2];
    if Paired(us) {
      forall i | 0 <= i < |t| && IsLow(t[i]) ensures i > 0 && IsHigh(t[i - 1]) {
        assert IsLow(us[i + 2]);
      }
      forall i | 0 <= i < |t| && IsHigh(t[i]) ensures i + 1 < |t| && IsLow(t[i + 1]) {
        assert IsHigh(us[i + 2]);
      }
    }
    if Paired(t) {
      forall i | 0 <= i < |us| && IsLow(us[i]) ensures i > 0 && IsHigh(us[i - 1]) {
        assert i >= 2 ==> t[i - 2] == us[i];
      }
      forall i | 0 <= i < |us| && IsHigh(us[i]) ensures i + 1 < |us| && IsLow(us[i + 1]) {
        assert i >= 2 ==> t[i - 2] == us[i];
      }
    }
  }

  lemma {:induction false} LiteralScan(us: seq<Unit>, rest: seq<Byte>)
    requires WellFormedUnits(us)
    ensures Inside(SpellLiteral(us, rest)) == (Paired(us) && Outside(rest))
    decreases |us|
  {
    if us == [] {
      assert ([QUOTE] + rest)[1..] == rest;
    } else if IsLow(us[0]) {
      LoneLow(us[0], SpellLiteral(us[1..], rest));
    } else if !IsHigh(us[0]) {
      PassUnit(us[0], SpellLiteral(us[1..], rest));
      LiteralScan(us[1..], rest);
      PairedSkipsOne(us);
    } else if |us| == 1 {
      HighAtEnd(us[0], rest);
    } else {
      assert us[1..][0] == us[1] && us[1..][1..] == us[2..];
      PassPair(us[0], us[1], SpellLiteral(us[2..], rest));
      if IsLow(us[1]) {
        LiteralScan(us[2..], rest);
        PairedSkipsTwo(us);
      }
    }
  }

  /** A text as the lexer sees it: bytes outside literals, and literals. */
  datatype Segment = Gap(b: Byte) | Literal(units: seq<Unit>)

  predicate WellFormedSegment(g: Segment) {
    match g
    case Gap(b) => b != QUOTE
    case Literal(units) => WellFormedUnits(units)
  }

  function SpellText(gs: seq<Segment>): seq<Byte> {
    if gs == [] then []
    else match gs[0]
      case Gap(b) => [b] + SpellText(gs[1..])
      case Literal(units) => [QUOTE] + SpellLiteral(units, SpellText(gs[1..]))
  }

  predicate PairedSegment(g: Segment)
    requires WellFormedSegment(g)
  {
    g.Literal? ==> Paired(g.units)
  }

  /** On a lexically well-formed text the scan accepts exactly correct pairing in every literal. */
  lemma {:induction false} ScanAcceptsPairedTexts(gs: seq<Segment>)
    requires forall i | 0 <= i < |gs| :: WellFormedSegment(gs[i])
    ensures Outside(SpellText(gs)) <==> forall i | 0 <= i < |gs| :: PairedSegment(gs[i])
    decreases |gs|
  {
    if gs != [] {
      var rest := gs[1..];
      ScanAcceptsPairedTexts(rest);
      assert forall i | 0 <= i < |rest| :: rest[i] == gs[i + 1];
      match gs[0]
      case Gap(b) =>
        assert SpellText(gs)[1..] == SpellText(rest);
      case Literal(units) =>
        assert SpellText(gs)[1..] == SpellLiteral(units, SpellText(rest));
        LiteralScan(units, SpellText(rest));
    }
  }
}
