/** The lexemes of a JSON text: string literals with the encoder's escapes, and numbers.  Positions into
    one fixed text are used throughout, so that nothing is copied while it is read. */
module JsonLexemes {
  import opened Decimal
  import opened Numbers

  datatype Result<+T> = Fail | Ok(value: T, next: nat)

  /** t stands in s at position i. */
  predicate At(s: string, i: nat, t: string) {
    i + |t| <= |s| && forall k | 0 <= k < |t| :: s[i + k] == t[k]
  }

  lemma AtSplit(s: string, i: nat, a: string, b: string)
    requires At(s, i, a + b)
    ensures At(s, i, a) && At(s, i + |a|, b)
  {
    forall k | 0 <= k < |a| ensures s[i + k] == a[k] {
      assert (a + b)[k] == a[k];
    }
    forall k | 0 <= k < |b| ensures s[i + |a| + k] == b[k] {
      assert s[i + (|a| + k)] == (a + b)[|a| + k] == b[k];
    }
  }

  // ---- string literals ----

  function HexDigit(d: nat): (c: char)
    requires d < 16
  {
    if d < 10 then '0' + d as char else 'a' + (d - 10) as char
  }

  datatype Hex = NotHex | Hex(value: nat)

  function HexOf(c: char): (h: Hex)
    ensures h.Hex? ==> h.value < 16
  {
    if '0' <= c <= '9' then Hex((c - '0') as nat)
    else if 'a' <= c <= 'f' then Hex((c - 'a') as nat + 10)
    else if 'A' <= c <= 'F' then Hex((c - 'A') as nat + 10)
    else NotHex
  }

  function UnicodeEscape(v: nat): string
    requires v < 0x1_0000
  {
    ['\\', 'u', HexDigit(v / 0x1000), HexDigit(v / 0x100 % 0x10), HexDigit(v / 0x10 % 0x10), HexDigit(v % 0x10)]
  }

  /** The encoder's spelling of one character. */
  function EscapeChar(c: char): string {
    if c == '\"' then "\\\""
    else if c == '\\' then "\\\\"
    else if c as int == 0x08 then "\\b"
    else if c as int == 0x0c then "\\f"
    else if c == '\n' then "\\n"
    else if c == '\r' then "\\r"
    else if c == '\t' then "\\t"
    else if c as int < 0x20 || c as int == 0x2028 || c as int == 0x2029 then UnicodeEscape(c as nat)
    else [c]
  }

  /** The escaped characters and the closing quote. */
  function EscapeAll(t: string): string {
    if t == "" then "\"" else EscapeChar(t[0]) + EscapeAll(t[1..])
  }

  /** canonicalJSONString. */
  function PrintString(t: string): string {
    "\"" + EscapeAll(t)
  }

  function HexAt(s: string, i: nat): (h: Hex)
    ensures h.Hex? ==> i + 4 <= |s| && h.value < 0x1_0000
  {
    if i + 4 > |s| then NotHex else
      var a, b, c, d := HexOf(s[i]), HexOf(s[i + 1]), HexOf(s[i + 2]), HexOf(s[i + 3]);
      if a.NotHex? || b.NotHex? || c.NotHex? || d.NotHex? then NotHex
      else Hex(0x1000 * a.value + 0x100 * b.value + 0x10 * c.value + d.value)
  }

  /** The code point of an escape starting at i, joining a high and a low surrogate. */
  function ReadUnicode(s: string, i: nat): (r: Result<char>)
    ensures r.Ok? ==> i < r.next <= |s|
  {
    var h := HexAt(s, i);
    if h.NotHex? || 0xdc00 <= h.value < 0xe000 then Fail
    else if h.value < 0xd800 || 0xe000 <= h.value then Ok(h.value as char, i + 4)
    else if i + 6 > |s| || s[i + 4] != '\\' || s[i + 5] != 'u' then Fail
    else
      var l := HexAt(s, i + 6);
      if l.NotHex? || !(0xdc00 <= l.value < 0xe000) then Fail
      else Ok((0x1_0000 + 0x400 * (h.value - 0xd800) + (l.value - 0xdc00)) as char, i + 10)
  }

  /** One character of a literal, plain or escaped. */
  function ReadChar(s: string, i: nat): (r: Result<char>)
    ensures r.Ok? ==> i < r.next <= |s|
  {
    if i >= |s| || s[i] as int < 0x20 || s[i] == '\"' then Fail
    else if s[i] != '\\' then Ok(s[i], i + 1)
    else if i + 1 >= |s| then Fail
    else match s[i + 1]
      case '\"' => Ok('\"', i + 2)
      case '\\' => Ok('\\', i + 2)
      case '/' => Ok('/', i + 2)
      case 'b' => Ok(0x08 as char, i + 2)
      case 'f' => Ok(0x0c as char, i + 2)
      case 'n' => Ok('\n', i + 2)
      case 'r' => Ok('\r', i + 2)
      case 't' => Ok('\t', i + 2)
      case 'u' => ReadUnicode(s, i + 2)
      case _ => Fail
  }

  /** The characters up to and including the closing quote. */
  function ReadChars(s: string, i: nat): (r: Result<string>)
    ensures r.Ok? ==> i < r.next <= |s|
    decreases |s| - i
  {
    if i < |s| && s[i] == '\"' then Ok("", i + 1)
    else if i >= |s| then Fail
    else
      var c := ReadChar(s, i);
      if c.Fail? then Fail else
        var rest := ReadChars(s, c.next);
        if rest.Fail? then Fail else Ok([c.value] + rest.value, rest.next)
  }

  function ReadString(s: string, i: nat): (r: Result<string>)
    ensures r.Ok? ==> i < r.next <= |s|
  {
    if i >= |s| || s[i] != '\"' then Fail else ReadChars(s, i + 1)
  }

  lemma HexDigitReads(d: nat)
    requires d < 16
    ensures HexOf(HexDigit(d)) == Hex(d)
  {
  }

  lemma HexDigitsOf(v: nat)
    requires v < 0x1_0000
    ensures v / 0x1000 < 16
    ensures v == 0x1000 * (v / 0x1000) + 0x100 * (v / 0x100 % 0x10) + 0x10 * (v / 0x10 % 0x10) + v % 0x10
  {
  }

  lemma HexReads(s: string, i: nat, v: nat)
    requires v < 0x1_0000 && At(s, i, UnicodeEscape(v))
    ensures s[i] == '\\' && s[i + 1] == 'u' && HexAt(s, i + 2) == Hex(v)
  {
    var t := UnicodeEscape(v);
    assert s[i] == t[0] && s[i + 1] == t[1] && s[i + 2] == t[2] && s[i + 3] == t[3] && s[i + 4] == t[4]
           && s[i + 5] == t[5];
    HexDigitReads(v / 0x1000);
    HexDigitReads(v / 0x100 % 0x10);
    HexDigitReads(v / 0x10 % 0x10);
    HexDigitReads(v % 0x10);
    HexDigitsOf(v);
  }

  lemma UnicodeEscapeReads(s: string, i: nat, v: nat)
    requires v < 0xd800 && At(s, i, UnicodeEscape(v))
    ensures ReadChar(s, i) == Ok(v as char, i + 6)
  {
    HexReads(s, i, v);
  }

  lemma EscapeReads(s: string, i: nat, c: char)
    requires At(s, i, EscapeChar(c))
    ensures ReadChar(s, i) == Ok(c, i + |EscapeChar(c)|)
    ensures i < |s| && s[i] != '\"'
  {
    var t := EscapeChar(c);
    assert s[i + 0] == t[0];
    if |t| == 2 {
      assert s[i + 1] == t[1];
    } else if |t| == 6 {
      UnicodeEscapeReads(s, i, c as nat);
    }
  }

  lemma CharsStep(s: string, i: nat, c: char, j: nat, t: string, k: nat)
    requires i < |s| && s[i] != '\"' && ReadChar(s, i) == Ok(c, j) && ReadChars(s, j) == Ok(t, k)
    ensures ReadChars(s, i) == Ok([c] + t, k)
  {
  }

  lemma OneCharRead(s: string, i: nat, c: char, t: string, k: nat)
    requires At(s, i, EscapeChar(c)) && ReadChars(s, i + |EscapeChar(c)|) == Ok(t, k)
    ensures ReadChars(s, i) == Ok([c] + t, k)
  {
    EscapeReads(s, i, c);
    CharsStep(s, i, c, i + |EscapeChar(c)|, t, k);
  }

  lemma {:induction false} CharsRead(s: string, i: nat, t: string)
    requires At(s, i, EscapeAll(t))
    ensures ReadChars(s, i) == Ok(t, i + |EscapeAll(t)|)
    decreases |t|
  {
    if t == "" {
      assert s[i + 0] == EscapeAll(t)[0];
    } else {
      AtSplit(s, i, EscapeChar(t[0]), EscapeAll(t[1..]));
      CharsRead(s, i + |EscapeChar(t[0])|, t[1..]);
      OneCharRead(s, i, t[0], t[1..], i + |EscapeAll(t)|);
      assert [t[0]] + t[1..] == t;
    }
  }

  /** A printed literal reads back as the string it prints. */
  lemma StringRead(s: string, i: nat, t: string)
    requires At(s, i, PrintString(t))
    ensures ReadString(s, i) == Ok(t, i + |PrintString(t)|)
    ensures i < |s| && s[i] == '\"'
  {
    AtSplit(s, i, "\"", EscapeAll(t));
    assert s[i + 0] == "\""[0];
    CharsRead(s, i + 1, t);
  }

  // ---- numbers ----

  /** The end of the run of digits that starts at i. */
  function DigitsEnd(s: string, i: nat): (r: nat)
    requires i <= |s|
    ensures i <= r <= |s| && (forall k | i <= k < r :: IsDigit(s[k])) && (r < |s| ==> !IsDigit(s[r]))
    decreases |s| - i
  {
    if i < |s| && IsDigit(s[i]) then DigitsEnd(s, i + 1) else i
  }

  function ReadWhole(s: string, i: nat): (r: Result<string>)
    ensures r.Ok? ==>
              i < r.next <= |s| && r.value == s[i..r.next] && AllDigits(r.value)
              && (r.value[0] != '0' || r.value == "0")
  {
    if i >= |s| || !IsDigit(s[i]) then Fail
    else if s[i] == '0' then Ok("0", i + 1)
    else Ok(s[i..DigitsEnd(s, i)], DigitsEnd(s, i))
  }

  /** An absent fraction is empty. */
  function ReadFraction(s: string, i: nat): (r: Result<string>)
    requires i <= |s|
    ensures r.Ok? ==> i <= r.next <= |s| && AllDigits(r.value)
  {
    if i == |s| || s[i] != '.' then Ok("", i) else
      var j := DigitsEnd(s, i + 1);
      if j == i + 1 then Fail else Ok(s[i + 1..j], j)
  }

  function ReadMarked(s: string, marker: char, sign: string, i: nat): (r: Result<Exponent>)
    requires i <= |s| && (marker == 'e' || marker == 'E') && (sign == "" || sign == "+" || sign == "-")
    ensures r.Ok? ==> i <= r.next <= |s| && WellFormedExponent(r.value)
  {
    var j := DigitsEnd(s, i);
    if j == i then Fail else Ok(Exponent(marker, sign, s[i..j]), j)
  }

  function ReadExponent(s: string, i: nat): (r: Result<Exponent>)
    requires i <= |s|
    ensures r.Ok? ==> i <= r.next <= |s| && WellFormedExponent(r.value)
  {
    if i == |s| || !(s[i] == 'e' || s[i] == 'E') then Ok(NoExponent, i)
    else if i + 1 < |s| && (s[i + 1] == '+' || s[i + 1] == '-') then ReadMarked(s, s[i], [s[i + 1]], i + 2)
    else ReadMarked(s, s[i], "", i + 1)
  }

  function ReadUnsignedNumber(s: string, negative: bool, i: nat): (r: Result<NumberText>)
    ensures r.Ok? ==> i < r.next <= |s| && WellFormed(r.value)
  {
    var whole := ReadWhole(s, i);
    if whole.Fail? then Fail else
      var fraction := ReadFraction(s, whole.next);
      if fraction.Fail? then Fail else
        var exponent := ReadExponent(s, fraction.next);
        if exponent.Fail? then Fail
        else Ok(NumberText(negative, whole.value, fraction.value, exponent.value), exponent.next)
  }

  function ReadNumber(s: string, i: nat): (r: Result<NumberText>)
    ensures r.Ok? ==> i < r.next <= |s| && WellFormed(r.value)
  {
    if i < |s| && s[i] == '-' then ReadUnsignedNumber(s, true, i + 1) else ReadUnsignedNumber(s, false, i)
  }

  /** Nothing at j could continue a number. */
  predicate EndsNumber(s: string, j: nat) {
    j < |s| ==> !IsDigit(s[j]) && s[j] != '.' && s[j] != 'e' && s[j] != 'E'
  }

  lemma AtSlice(s: string, i: nat, t: string)
    requires At(s, i, t)
    ensures s[i..i + |t|] == t
  {
  }

  lemma DigitsRead(s: string, i: nat, t: string)
    requires At(s, i, t) && AllDigits(t) && (i + |t| < |s| ==> !IsDigit(s[i + |t|]))
    ensures DigitsEnd(s, i) == i + |t|
  {
    var r := DigitsEnd(s, i);
    forall k | i <= k < i + |t| ensures IsDigit(s[k]) {
      assert s[i + (k - i)] == t[k - i];
    }
  }

  lemma WholeRead(s: string, i: nat, t: string)
    requires At(s, i, t) && t != "" && AllDigits(t) && (t[0] != '0' || t == "0")
    requires i + |t| < |s| ==> !IsDigit(s[i + |t|])
    ensures ReadWhole(s, i) == Ok(t, i + |t|)
  {
    assert s[i + 0] == t[0] && IsDigit(t[0]);
    if t[0] != '0' {
      DigitsRead(s, i, t);
      AtSlice(s, i, t);
    }
  }

  lemma FractionRead(s: string, i: nat, t: string)
    requires At(s, i, SpellFraction(t)) && AllDigits(t)
    requires var j := i + |SpellFraction(t)|; j < |s| ==> !IsDigit(s[j]) && s[j] != '.'
    ensures ReadFraction(s, i) == Ok(t, i + |SpellFraction(t)|)
  {
    if t != "" {
      AtSplit(s, i, ".", t);
      assert s[i + 0] == "."[0];
      DigitsRead(s, i + 1, t);
      AtSlice(s, i + 1, t);
    }
  }

  lemma ExponentRead(s: string, i: nat, e: Exponent)
    requires At(s, i, SpellExponent(e)) && WellFormedExponent(e) && EndsNumber(s, i + |SpellExponent(e)|)
    ensures ReadExponent(s, i) == Ok(e, i + |SpellExponent(e)|)
  {
    if e.Exponent? {
      AtSplit(s, i, [e.marker], e.sign + e.digits);
      assert s[i + 0] == [e.marker][0];
      AtSplit(s, i + 1, e.sign, e.digits);
      var k := i + 1 + |e.sign|;
      assert s[k + 0] == e.digits[0] && IsDigit(e.digits[0]);
      if e.sign != "" {
        assert s[i + 1 + 0] == e.sign[0];
        assert [s[i + 1]] == e.sign;
      }
      DigitsRead(s, k, e.digits);
      AtSlice(s, k, e.digits);
    }
  }

  lemma PartsRead(s: string, i: nat, n: NumberText, j: nat, k: nat, m: nat)
    requires ReadWhole(s, i) == Ok(n.whole, j) && ReadFraction(s, j) == Ok(n.fraction, k)
    requires ReadExponent(s, k) == Ok(n.exponent, m)
    ensures ReadUnsignedNumber(s, n.negative, i) == Ok(n, m)
  {
  }

  /** The parts of a spelled number follow each other, and none can be continued by the next. */
  lemma PartsAt(s: string, i: nat, n: NumberText)
    requires At(s, i, SpellBody(n)) && WellFormed(n) && EndsNumber(s, i + |SpellBody(n)|)
    ensures var j := i + |n.whole|; var k := j + |SpellFraction(n.fraction)|;
            && At(s, i, n.whole) && At(s, j, SpellFraction(n.fraction)) && At(s, k, SpellExponent(n.exponent))
            && (j < |s| ==> !IsDigit(s[j])) && (k < |s| ==> !IsDigit(s[k]) && s[k] != '.')
  {
    var f, e := SpellFraction(n.fraction), SpellExponent(n.exponent);
    AtSplit(s, i, SpellMantissa(n), e);
    AtSplit(s, i, n.whole, f);
    var j := i + |n.whole|;
    var k := j + |f|;
    assert e != "" ==> s[k + 0] == e[0];
    assert f != "" ==> s[j + 0] == f[0];
  }

  lemma UnsignedRead(s: string, i: nat, n: NumberText)
    requires At(s, i, SpellBody(n)) && WellFormed(n) && EndsNumber(s, i + |SpellBody(n)|)
    ensures ReadUnsignedNumber(s, n.negative, i) == Ok(n, i + |SpellBody(n)|)
  {
    var j := i + |n.whole|;
    var k := j + |SpellFraction(n.fraction)|;
    PartsAt(s, i, n);
    ExponentRead(s, k, n.exponent);
    FractionRead(s, j, n.fraction);
    WholeRead(s, i, n.whole);
    PartsRead(s, i, n, j, k, k + |SpellExponent(n.exponent)|);
  }

  /** A spelled number that nothing continues reads back as itself. */
  lemma NumberRead(s: string, i: nat, n: NumberText)
    requires At(s, i, Spell(n)) && WellFormed(n) && EndsNumber(s, i + |Spell(n)|)
    ensures ReadNumber(s, i) == Ok(n, i + |Spell(n)|)
    ensures i < |s| && (s[i] == '-' || IsDigit(s[i]))
  {
    if n.negative {
      AtSplit(s, i, "-", SpellBody(n));
      assert s[i + 0] == "-"[0];
      UnsignedRead(s, i + 1, n);
    } else {
      assert Spell(n) == SpellBody(n);
      assert s[i + 0] == SpellBody(n)[0] == n.whole[0] && IsDigit(n.whole[0]);
      UnsignedRead(s, i, n);
    }
  }
}
