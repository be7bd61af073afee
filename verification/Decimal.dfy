/** Decimal digit strings and exact decimal scaling. */
module Decimal {

  /** d * 10^n. */
  function Shift(d: nat, n: nat): nat {
    if n == 0 then d else 10 * Shift(d, n - 1)
  }

  /** d * 10^p as an exact real, for any integer p. */
  function Scaled(d: nat, p: int): real
    decreases if p < 0 then -p else p
  {
    if p == 0 then d as real else if p > 0 then 10.0 * Scaled(d, p - 1) else Scaled(d, p + 1) / 10.0
  }

  lemma {:induction false} ScaledTen(d: nat, p: int)
    ensures Scaled(10 * d, p) == Scaled(d, p + 1) == 10.0 * Scaled(d, p)
    decreases if p < 0 then -p else p
  {
    if p > 0 {
      ScaledTen(d, p - 1);
    } else if p < 0 {
      ScaledTen(d, p + 1);
    }
  }

  /** Zeros move freely between the digits and the power of ten. */
  lemma {:induction false} MoveZeros(d: nat, n: nat, p: int)
    ensures Scaled(Shift(d, n), p) == Scaled(d, p + n)
  {
    if n > 0 {
      MoveZeros(d, n - 1, p);
      ScaledTen(Shift(d, n - 1), p);
      ScaledTen(d, p + n - 1);
    }
  }

  lemma {:induction false} ScaledInjective(a: nat, b: nat, p: int)
    requires Scaled(a, p) == Scaled(b, p)
    ensures a == b
    decreases if p < 0 then -p else p
  {
    if p > 0 {
      ScaledInjective(a, b, p - 1);
    } else if p < 0 {
      ScaledInjective(a, b, p + 1);
    }
  }

  lemma {:induction false} ScaledSign(d: nat, p: int)
    ensures Scaled(d, p) >= 0.0 && (Scaled(d, p) == 0.0 <==> d == 0)
    decreases if p < 0 then -p else p
  {
    if p > 0 {
      ScaledSign(d, p - 1);
    } else if p < 0 {
      ScaledSign(d, p + 1);
    }
  }

  lemma {:induction false} ShiftGrows(d: nat, m: nat, n: nat)
    requires m <= n
    ensures Shift(d, m) <= Shift(d, n)
  {
    if m < n {
      ShiftGrows(d, m, n - 1);
    }
  }

  lemma {:induction false} ShiftMonotone(a: nat, b: nat, n: nat)
    requires a <= b
    ensures Shift(a, n) <= Shift(b, n)
  {
    if n > 0 {
      ShiftMonotone(a, b, n - 1);
    }
  }

  lemma {:induction false} ShiftZero(n: nat)
    ensures Shift(0, n) == 0
  {
    if n > 0 {
      ShiftZero(n - 1);
    }
  }

  lemma {:induction false} ShiftShift(d: nat, m: nat, n: nat)
    ensures Shift(Shift(d, m), n) == Shift(d, m + n)
  {
    if n > 0 {
      ShiftShift(d, m, n - 1);
    }
  }

  /** Of two equal decimals the one with the smaller power has digits divisible by ten. */
  lemma SmallerPowerEndsInZero(a: nat, p: int, b: nat, q: int)
    requires p < q && Scaled(a, p) == Scaled(b, q)
    ensures a % 10 == 0
  {
    EqualAtPower(a, p, b, q - p);
    ShiftEndsInZero(b, q - p);
  }

  lemma EqualAtPower(a: nat, p: int, b: nat, n: nat)
    requires Scaled(a, p) == Scaled(b, p + n)
    ensures a == Shift(b, n)
  {
    MoveZeros(b, n, p);
    ScaledInjective(a, Shift(b, n), p);
  }

  lemma ShiftEndsInZero(b: nat, n: nat)
    requires n > 0
    ensures Shift(b, n) % 10 == 0
  {
    assert Shift(b, n) == 10 * Shift(b, n - 1);
  }

  /** A value a * 10^p with a not divisible by ten determines a and p. */
  lemma SignificandUnique(a: nat, p: int, b: nat, q: int)
    requires a % 10 != 0 && b % 10 != 0 && Scaled(a, p) == Scaled(b, q)
    ensures a == b && p == q
  {
    if p < q {
      SmallerPowerEndsInZero(a, p, b, q);
    } else if q < p {
      SmallerPowerEndsInZero(b, q, a, p);
    } else {
      ScaledInjective(a, b, p);
    }
  }

  // ---- digit strings ----

  predicate IsDigit(c: char) {
    '0' <= c <= '9'
  }

  predicate AllDigits(s: string) {
    forall i | 0 <= i < |s| :: IsDigit(s[i])
  }

  function DigitOf(c: char): nat
    requires IsDigit(c)
  {
    (c - '0') as nat
  }

  /** The number a digit string denotes. */
  function Digits(s: string): nat
    requires AllDigits(s)
    decreases |s|
  {
    if s == "" then 0 else 10 * Digits(s[..|s| - 1]) + DigitOf(s[|s| - 1])
  }

  /** A digit string of length n denotes less than ten to the n, and at least ten to the n - 1 when it
      does not start with a zero. */
  lemma {:induction false} DigitsBounds(s: string)
    requires AllDigits(s)
    ensures Digits(s) < Shift(1, |s|)
    ensures s != "" && s[0] != '0' ==> Digits(s) >= Shift(1, |s| - 1)
    decreases |s|
  {
    if s != "" {
      DigitsBounds(s[..|s| - 1]);
    }
  }

  /** Digit strings of one length are determined by their number. */
  lemma {:induction false} DigitsInjective(a: string, b: string)
    requires AllDigits(a) && AllDigits(b) && |a| == |b| && Digits(a) == Digits(b)
    ensures a == b
    decreases |a|
  {
    if a != "" {
      var n := |a| - 1;
      assert DigitOf(a[n]) == Digits(a) % 10 == DigitOf(b[n]);
      DigitsInjective(a[..n], b[..n]);
      assert a == a[..n] + [a[n]] && b == b[..n] + [b[n]];
    }
  }

  lemma ShorterIsSmaller(a: string, b: string)
    requires AllDigits(a) && AllDigits(b) && |a| < |b| && b[0] != '0'
    ensures Digits(a) < Digits(b)
  {
    DigitsBounds(a);
    DigitsBounds(b);
    ShiftGrows(1, |a|, |b| - 1);
  }

  /** Without leading zeros the number also determines the length. */
  lemma NoLeadingZeroInjective(a: string, b: string)
    requires AllDigits(a) && AllDigits(b) && Digits(a) == Digits(b)
    requires a != "" && a[0] != '0' && b != "" && b[0] != '0'
    ensures a == b
  {
    if |a| < |b| {
      ShorterIsSmaller(a, b);
    } else if |b| < |a| {
      ShorterIsSmaller(b, a);
    } else {
      DigitsInjective(a, b);
    }
  }

  // ---- trimming zeros ----

  function TrimLeft(s: string): (r: string)
    ensures |r| <= |s| && s[|s| - |r|..] == r
    ensures r != "" ==> r[0] != '0'
    decreases |s|
  {
    if s != "" && s[0] == '0' then TrimLeft(s[1..]) else s
  }

  function TrimRight(s: string): (r: string)
    ensures |r| <= |s| && s[..|r|] == r
    ensures r != "" ==> r[|r| - 1] != '0'
    decreases |s|
  {
    if s != "" && s[|s| - 1] == '0' then TrimRight(s[..|s| - 1]) else s
  }

  lemma {:induction false} LeadingZero(s: string)
    requires AllDigits(s) && s != "" && s[0] == '0'
    ensures AllDigits(s[1..]) && Digits(s[1..]) == Digits(s)
    decreases |s|
  {
    var n := |s| - 1;
    if n == 0 {
      assert s[..0] == "" && s[1..] == "";
    } else {
      LeadingZero(s[..n]);
      assert s[1..][..n - 1] == s[..n][1..] && s[1..][n - 1] == s[n];
    }
  }

  lemma {:induction false} TrimLeftKeeps(s: string)
    requires AllDigits(s)
    ensures AllDigits(TrimLeft(s)) && Digits(TrimLeft(s)) == Digits(s)
    decreases |s|
  {
    if s != "" && s[0] == '0' {
      LeadingZero(s);
      TrimLeftKeeps(s[1..]);
    }
  }

  lemma {:induction false} TrimRightShifts(s: string)
    requires AllDigits(s)
    ensures AllDigits(TrimRight(s)) && Digits(s) == Shift(Digits(TrimRight(s)), |s| - |TrimRight(s)|)
    decreases |s|
  {
    if s != "" && s[|s| - 1] == '0' {
      TrimRightShifts(s[..|s| - 1]);
    }
  }

  lemma {:induction false} TrimRightNonempty(s: string)
    requires s != "" && s[0] != '0'
    ensures TrimRight(s) != "" && TrimRight(s)[0] == s[0]
    decreases |s|
  {
    if s[|s| - 1] == '0' {
      TrimRightNonempty(s[..|s| - 1]);
    }
  }

  lemma {:induction false} NonzeroDigits(s: string)
    requires AllDigits(s) && s != "" && s[0] != '0'
    ensures Digits(s) > 0
    decreases |s|
  {
    if |s| > 1 {
      NonzeroDigits(s[..|s| - 1]);
    }
  }

  /** Digits with no zero at either end. */
  predicate Trimmed(digits: string) {
    digits != "" && AllDigits(digits) && digits[0] != '0' && digits[|digits| - 1] != '0'
  }

  lemma TrimmedEnds(s: string)
    requires Trimmed(s)
    ensures Digits(s) % 10 != 0
  {
    assert IsDigit(s[|s| - 1]);
  }

  function Zeros(n: nat): (s: string)
    ensures |s| == n && AllDigits(s)
  {
    seq(n, i => '0')
  }

  lemma {:induction false} AppendZeros(s: string, n: nat)
    requires AllDigits(s)
    ensures AllDigits(s + Zeros(n)) && Digits(s + Zeros(n)) == Shift(Digits(s), n)
    decreases n
  {
    if n == 0 {
      assert s + Zeros(n) == s;
    } else {
      AppendZeros(s, n - 1);
      assert (s + Zeros(n))[..|s| + n - 1] == s + Zeros(n - 1);
    }
  }

  // ---- printing naturals and integers ----

  function DigitChar(d: nat): (c: char)
    requires d < 10
    ensures IsDigit(c) && DigitOf(c) == d
  {
    '0' + d as char
  }

  function NatText(n: nat): (s: string)
    ensures AllDigits(s) && s != "" && Digits(s) == n
    ensures n > 0 ==> s[0] != '0'
    ensures n == 0 ==> s == "0"
  {
    if n < 10 then [DigitChar(n)]
    else
      var t := NatText(n / 10);
      assert (t + [DigitChar(n % 10)])[..|t|] == t;
      t + [DigitChar(n % 10)]
  }

  function IntText(i: int): string {
    if i < 0 then "-" + NatText(-i) else NatText(i)
  }
}
