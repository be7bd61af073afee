/** The two stages of reading a request: the surrogate scan over its UTF-8 bytes, and a decoder that
    replaces lone surrogates.  Together they read exactly what the strict reader reads. */
module EscapedTexts {
  import opened Decimal
  import opened Numbers
  import opened JsonLexemes
  import opened JsonTree
  import opened CanonicalJson
  import Scan = UnicodeEscapes

  // ---- UTF-8 ----

  function CharBytes(c: char): (bs: seq<Scan.Byte>)
    ensures bs != [] && (c as int < 0x80 ==> bs == [c as int])
    ensures c as int >= 0x80 ==> forall k | 0 <= k < |bs| :: bs[k] >= 0x80
  {
    var v := c as int;
    if v < 0x80 then [v]
    else if v < 0x800 then [0xc0 + v / 0x40, 0x80 + v % 0x40]
    else if v < 0x1_0000 then [0xe0 + v / 0x1000, 0x80 + v / 0x40 % 0x40, 0x80 + v % 0x40]
    else [0xf0 + v / 0x4_0000, 0x80 + v / 0x1000 % 0x40, 0x80 + v / 0x40 % 0x40, 0x80 + v % 0x40]
  }

  /** The bytes of s from position i on. */
  function Utf8(s: string, i: nat): seq<Scan.Byte>
    decreases |s| - i
  {
    if i >= |s| then [] else CharBytes(s[i]) + Utf8(s, i + 1)
  }

  // ---- the scan by characters ----

  predicate High(v: nat) {
    0xd800 <= v < 0xdc00
  }

  predicate Low(v: nat) {
    0xdc00 <= v < 0xe000
  }

  predicate Outside(s: string, i: nat)
    decreases |s| - i
  {
    i >= |s| || (if s[i] == '\"' then Inside(s, i + 1) else Outside(s, i + 1))
  }

  predicate Inside(s: string, i: nat)
    decreases |s| - i
  {
    if i >= |s| then true
    else if s[i] == '\"' then Outside(s, i + 1)
    else if s[i] == '\n' || s[i] == '\r' then false
    else if s[i] != '\\' then Inside(s, i + 1)
    else if i + 1 >= |s| then false
    else if s[i + 1] != 'u' then Inside(s, i + 2)
    else
      var v := HexAt(s, i + 2);
      if v.NotHex? || Low(v.value) then false
      else if !High(v.value) then Inside(s, i + 6)
      else if i + 7 >= |s| || s[i + 6] != '\\' || s[i + 7] != 'u' then false
      else
        var w := HexAt(s, i + 8);
        w.Hex? && Low(w.value) && Inside(s, i + 12)
  }

  lemma AsciiStep(s: string, i: nat)
    requires i < |s| && s[i] as int < 0x80
    ensures Utf8(s, i) != [] && Utf8(s, i)[0] == s[i] as int && Utf8(s, i)[1..] == Utf8(s, i + 1)
  {
  }

  /** Bytes of a character beyond ASCII are passed over, inside and outside a literal. */
  lemma {:induction false} PassHigh(bs: seq<Scan.Byte>, rest: seq<Scan.Byte>)
    requires forall k | 0 <= k < |bs| :: bs[k] >= 0x80
    ensures Scan.Outside(bs + rest) == Scan.Outside(rest) && Scan.Inside(bs + rest) == Scan.Inside(rest)
    decreases |bs|
  {
    if bs == [] {
      assert bs + rest == rest;
    } else {
      PassHigh(bs[1..], rest);
      assert (bs + rest)[1..] == bs[1..] + rest;
    }
  }

  /** A backslash hides the first byte after it; the other bytes of that character are passed over. */
  lemma PassHidden(s: string, i: nat)
    requires i + 1 < |s| && s[i] == '\\'
    ensures |Utf8(s, i)| >= 2 && Utf8(s, i)[1] == CharBytes(s[i + 1])[0]
    ensures Scan.Inside(Utf8(s, i)[2..]) == Scan.Inside(Utf8(s, i + 2))
  {
    AsciiStep(s, i);
    var bs := CharBytes(s[i + 1]);
    assert Utf8(s, i)[2..] == bs[1..] + Utf8(s, i + 2);
    PassHigh(bs[1..], Utf8(s, i + 2));
  }

  lemma SameDigit(c: char)
    ensures var h := Scan.HexDigit(CharBytes(c)[0]);
            if HexOf(c).Hex? then c as int < 0x80 && h.Hex? && h.value == HexOf(c).value else h.NotHex?
  {
  }

  /** The first k characters from i are hexadecimal digits. */
  predicate Digits(s: string, i: nat, k: nat) {
    i + k <= |s| && forall j | i <= j < i + k :: HexOf(s[j]).Hex?
  }

  lemma {:induction false} DigitBytes(s: string, i: nat, k: nat)
    requires Digits(s, i, k)
    ensures |Utf8(s, i)| >= k && Utf8(s, i)[k..] == Utf8(s, i + k)
    ensures forall j | 0 <= j < k :: Utf8(s, i)[j] == s[i + j] as int
    decreases k
  {
    if k > 0 {
      SameDigit(s[i]);
      AsciiStep(s, i);
      DigitBytes(s, i + 1, k - 1);
      assert Utf8(s, i)[k..] == Utf8(s, i)[1..][k - 1..];
      forall j | 1 <= j < k ensures Utf8(s, i)[j] == s[i + j] as int {
        assert Utf8(s, i)[j] == Utf8(s, i + 1)[j - 1];
      }
    }
  }

  lemma GoodDigits(s: string, i: nat)
    requires Digits(s, i, 4)
    ensures Scan.EscapeValue(Utf8(s, i)).Hex? && HexAt(s, i).Hex?
            && Scan.EscapeValue(Utf8(s, i)).value == HexAt(s, i).value
  {
    DigitBytes(s, i, 4);
    var b := Utf8(s, i);
    SameDigit(s[i]);
    SameDigit(s[i + 1]);
    SameDigit(s[i + 2]);
    SameDigit(s[i + 3]);
    assert b[0] == s[i] as int && b[1] == s[i + 1] as int && b[2] == s[i + 2] as int && b[3] == s[i + 3] as int;
    assert Scan.HexValue(b, 0) == Scan.Hex.Hex(0);
    var v1 := Scan.HexValue(b, 1);
    var v2 := Scan.HexValue(b, 2);
    var v3 := Scan.HexValue(b, 3);
    assert v1 == Scan.Hex.Hex(HexOf(s[i]).value);
    assert v2 == Scan.Hex.Hex(0x10 * v1.value + HexOf(s[i + 1]).value);
    assert v3 == Scan.Hex.Hex(0x10 * v2.value + HexOf(s[i + 2]).value);
  }

  /** With k digits and then something else, neither reading of the escape succeeds. */
  lemma BadDigits(s: string, i: nat, k: nat)
    requires k < 4 && Digits(s, i, k) && !Digits(s, i, k + 1)
    ensures HexAt(s, i).NotHex? && Scan.EscapeValue(Utf8(s, i)).NotHex?
  {
    DigitBytes(s, i, k);
    var b := Utf8(s, i);
    if i + k < |s| {
      SameDigit(s[i + k]);
      assert b[k] == Utf8(s, i + k)[0] == CharBytes(s[i + k])[0];
      assert i <= i + k < i + 4;
      if |b| >= 4 {
        Scan.BadDigit(b, k + 1, 4);
      }
    } else {
      assert b[k..] == [];
    }
  }

  lemma SameEscape(s: string, i: nat)
    ensures HexAt(s, i).Hex? <==> Digits(s, i, 4)
    ensures HexAt(s, i).Hex? <==> Scan.EscapeValue(Utf8(s, i)).Hex?
    ensures HexAt(s, i).Hex? ==>
              HexAt(s, i).value == Scan.EscapeValue(Utf8(s, i)).value && Utf8(s, i)[4..] == Utf8(s, i + 4)
  {
    if Digits(s, i, 4) {
      GoodDigits(s, i);
      DigitBytes(s, i, 4);
    } else if i <= |s| {
      var k := if !Digits(s, i, 1) then 0 else if !Digits(s, i, 2) then 1 else if !Digits(s, i, 3) then 2 else 3;
      BadDigits(s, i, k);
    }
  }

  /** The scan over bytes is the scan over characters. */
  lemma {:induction false} OutsideAlike(s: string, i: nat)
    ensures Scan.Outside(Utf8(s, i)) == Outside(s, i)
    decreases |s| - i, 2
  {
    if i < |s| {
      if s[i] as int < 0x80 {
        AsciiStep(s, i);
        OutsideAlike(s, i + 1);
        InsideAlike(s, i + 1);
      } else {
        PassHigh(CharBytes(s[i]), Utf8(s, i + 1));
        OutsideAlike(s, i + 1);
      }
    }
  }

  lemma {:induction false} InsideAlike(s: string, i: nat)
    ensures Scan.Inside(Utf8(s, i)) == Inside(s, i)
    decreases |s| - i, 2
  {
    if i < |s| {
      if s[i] as int >= 0x80 {
        PassHigh(CharBytes(s[i]), Utf8(s, i + 1));
        InsideAlike(s, i + 1);
      } else {
        AsciiStep(s, i);
        if s[i] == '\"' {
          OutsideAlike(s, i + 1);
        } else if s[i] != '\\' {
          InsideAlike(s, i + 1);
        } else if i + 1 < |s| {
          PassHidden(s, i);
          if s[i + 1] == 'u' {
            EscapeAlike(s, i);
          } else {
            InsideAlike(s, i + 2);
          }
        }
      }
    }
  }

  lemma {:induction false} EscapeAlike(s: string, i: nat)
    requires i + 1 < |s| && s[i] == '\\' && s[i + 1] == 'u'
    ensures Scan.Inside(Utf8(s, i)) == Inside(s, i)
    decreases |s| - i, 1
  {
    var b := Utf8(s, i);
    SecondEscape(s, i);
    var v := HexAt(s, i + 2);
    if v.Hex? && !Low(v.value) {
      if !High(v.value) {
        InsideAlike(s, i + 6);
      } else {
        PairAlike(s, i);
      }
    }
  }

  /** What the scan over bytes asks after a high surrogate, and what the scan over characters asks. */
  lemma PairInBytes(b: seq<Scan.Byte>)
    requires |b| >= 6 && b[0] == 0x5c && b[1] == 0x75
    requires Scan.EscapeValue(b[2..]).Hex? && Scan.High(Scan.EscapeValue(b[2..]).value)
    ensures Scan.Inside(b) <==>
      && |b| >= 12 && b[6] == 0x5c && b[7] == 0x75
      && Scan.EscapeValue(b[8..]).Hex? && Scan.Low(Scan.EscapeValue(b[8..]).value) && Scan.Inside(b[12..])
  {
    assert Scan.Inside(b) == Scan.Escape(b);
  }

  lemma PairInText(s: string, i: nat)
    requires i + 6 <= |s| && s[i] == '\\' && s[i + 1] == 'u' && HexAt(s, i + 2).Hex? && High(HexAt(s, i + 2).value)
    ensures Inside(s, i) <==>
      && i + 7 < |s| && s[i + 6] == '\\' && s[i + 7] == 'u'
      && HexAt(s, i + 8).Hex? && Low(HexAt(s, i + 8).value) && Inside(s, i + 12)
  {
  }

  lemma {:induction false} PairAlike(s: string, i: nat)
    requires i + 6 <= |s| && s[i] == '\\' && s[i + 1] == 'u' && HexAt(s, i + 2).Hex? && High(HexAt(s, i + 2).value)
    requires |Utf8(s, i)| >= 6 && Utf8(s, i)[0] == 0x5c && Utf8(s, i)[1] == 0x75 && Utf8(s, i)[6..] == Utf8(s, i + 6)
    requires Scan.EscapeValue(Utf8(s, i)[2..]).Hex? && Scan.EscapeValue(Utf8(s, i)[2..]).value == HexAt(s, i + 2).value
    ensures Scan.Inside(Utf8(s, i)) == Inside(s, i)
    decreases |s| - i, 0
  {
    var b := Utf8(s, i);
    var t := Utf8(s, i + 6);
    PairInBytes(b);
    PairInText(s, i);
    if i + 7 < |s| && s[i + 6] == '\\' && s[i + 7] == 'u' {
      SecondEscape(s, i + 6);
      assert b[6] == t[0] && b[7] == t[1] && b[8..] == t[2..];
      if HexAt(s, i + 8).Hex? {
        assert |b| >= 12 && b[12..] == t[6..];
        InsideAlike(s, i + 12);
      }
    } else {
      NoSecondEscape(s, i + 6);
      assert |b| >= 12 ==> b[6] == t[0] && b[7] == t[1];
    }
  }

  lemma SecondEscape(s: string, i: nat)
    requires i + 1 < |s| && s[i] == '\\' && s[i + 1] == 'u'
    ensures var t := Utf8(s, i);
            && |t| >= 2 && t[0] == 0x5c && t[1] == 0x75
            && (HexAt(s, i + 2).Hex? <==> Scan.EscapeValue(t[2..]).Hex?)
            && (HexAt(s, i + 2).Hex? ==> HexAt(s, i + 2).value == Scan.EscapeValue(t[2..]).value
                                         && |t| >= 6 && t[6..] == Utf8(s, i + 6))
  {
    AsciiStep(s, i);
    AsciiStep(s, i + 1);
    var t := Utf8(s, i);
    assert t[2..] == t[1..][1..] == Utf8(s, i + 2);
    SameEscape(s, i + 2);
    if HexAt(s, i + 2).Hex? {
      assert t[6..] == t[2..][4..];
    }
  }

  /** What does not start with an escape by characters does not by bytes. */
  lemma NoSecondEscape(s: string, i: nat)
    requires !(i + 1 < |s| && s[i] == '\\' && s[i + 1] == 'u')
    ensures |Utf8(s, i)| >= 2 ==> Utf8(s, i)[0] != 0x5c || Utf8(s, i)[1] != 0x75
  {
    if i < |s| && s[i] == '\\' {
      AsciiStep(s, i);
      if i + 1 < |s| {
        assert Utf8(s, i)[1] == Utf8(s, i + 1)[0] == CharBytes(s[i + 1])[0];
      }
    }
  }
}
