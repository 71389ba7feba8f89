/** Decimal text of integers: what `String(n)` and `BigInt.toString()` print, and its reading. */
module Decimal {

  function Digit(d: nat): (c: char)
    requires d < 10
    ensures IsDigit(c) && DigitValue(c) == d
  {
    ['0', '1', '2', '3', '4', '5', '6', '7', '8', '9'][d]
  }

  predicate IsDigit(c: char) {
    '0' <= c <= '9'
  }

  function DigitValue(c: char): (d: nat)
    requires IsDigit(c)
    ensures d < 10
  {
    c as int - '0' as int
  }

  predicate AllDigits(s: string) {
    forall i :: 0 <= i < |s| ==> IsDigit(s[i])
  }

  function Pow10(k: nat): (p: nat)
    ensures p >= 1
  {
    if k == 0 then 1 else 10 * Pow10(k - 1)
  }

  function Dec(n: nat): (s: string)
    ensures s != "" && AllDigits(s)
  {
    if n < 10 then [Digit(n)] else Dec(n / 10) + [Digit(n % 10)]
  }

  function Text(n: int): string {
    if n < 0 then "-" + Dec(-n) else Dec(n)
  }

  function Value(s: string): nat
    requires AllDigits(s)
  {
    if s == "" then 0 else 10 * Value(s[..|s| - 1]) + DigitValue(s[|s| - 1])
  }

  function Zeros(k: nat): (s: string)
    ensures |s| == k && AllDigits(s)
  {
    if k == 0 then "" else Zeros(k - 1) + "0"
  }

  /** `s.padStart(width, "0")` */
  function PadStart(s: string, width: nat): string {
    if |s| >= width then s else Zeros(width - |s|) + s
  }

  /** `s.replace(/0+$/, "")` */
  function StripZeros(s: string): string {
    if s != "" && s[|s| - 1] == '0' then StripZeros(s[..|s| - 1]) else s
  }

  lemma {:induction false} ValueDec(n: nat)
    ensures Value(Dec(n)) == n
  {
    if n >= 10 {
      ValueDec(n / 10);
      var s := Dec(n);
      assert s[..|s| - 1] == Dec(n / 10);
    } else {
      assert Dec(n)[..0] == "";
    }
  }

  lemma DecInjective(a: nat, b: nat)
    requires Dec(a) == Dec(b)
    ensures a == b
  {
    ValueDec(a);
    ValueDec(b);
  }

  lemma {:induction false} ValueConcat(a: string, b: string)
    requires AllDigits(a) && AllDigits(b)
    ensures AllDigits(a + b) && Value(a + b) == Value(a) * Pow10(|b|) + Value(b)
  {
    hide Pow10;
    if b == "" {
      assert a + b == a && Pow10(0) == 1 by { Pow10Zero(); }
    } else {
      var b' := b[..|b| - 1];
      ValueConcat(a, b');
      assert (a + b)[..|a + b| - 1] == a + b';
      Pow10Succ(|b'|);
      ShiftDigit(Value(a), Pow10(|b'|), Value(b'), DigitValue(b[|b| - 1]));
    }
  }

  lemma Pow10Zero()
    ensures Pow10(0) == 1
  {
  }

  lemma Pow10Succ(k: nat)
    ensures Pow10(k + 1) == 10 * Pow10(k)
  {
  }

  lemma ShiftDigit(v: int, p: int, w: int, d: int)
    ensures 10 * (v * p + w) + d == v * (10 * p) + (10 * w + d)
  {
    assert 10 * (v * p) == v * (10 * p);
  }

  lemma {:induction false} ValueZeros(k: nat)
    ensures Value(Zeros(k)) == 0
  {
    if k > 0 {
      ValueZeros(k - 1);
      assert Zeros(k)[..k - 1] == Zeros(k - 1);
    }
  }

  lemma {:induction false} ValueBound(s: string)
    requires AllDigits(s)
    ensures Value(s) < Pow10(|s|)
  {
    if s != "" { ValueBound(s[..|s| - 1]); }
  }

  lemma PadStartValue(s: string, width: nat)
    requires AllDigits(s)
    ensures AllDigits(PadStart(s, width)) && Value(PadStart(s, width)) == Value(s)
    ensures |PadStart(s, width)| == if |s| >= width then |s| else width
  {
    hide Pow10, Value, Zeros;
    if |s| < width {
      ValueConcat(Zeros(width - |s|), s);
      ValueZeros(width - |s|);
    }
  }

  lemma {:induction false} StripZerosValue(s: string)
    requires AllDigits(s)
    ensures var t := StripZeros(s);
            && |t| <= |s| && AllDigits(t) && Value(s) == Value(t) * Pow10(|s| - |t|)
            && (t != "" ==> t[|t| - 1] != '0') && t == s[..|t|]
  {
    hide Pow10;
    if s != "" && s[|s| - 1] == '0' {
      var s' := s[..|s| - 1];
      StripZerosValue(s');
      var t := StripZeros(s');
      Pow10Succ(|s'| - |t|);
      ShiftDigit(Value(t), Pow10(|s'| - |t|), 0, 0);
    } else {
      Pow10Zero();
    }
  }

  lemma {:induction false} Pow10Add(a: nat, b: nat)
    ensures Pow10(a + b) == Pow10(a) * Pow10(b)
  {
    hide Pow10;
    if a > 0 {
      Pow10Add(a - 1, b);
      Pow10Succ(a - 1 + b);
      Pow10Succ(a - 1);
      ShiftDigit(Pow10(b), Pow10(a - 1), 0, 0);
    } else {
      Pow10Zero();
    }
  }

  /** A number below 10^k prints in at most k digits. */
  lemma {:induction false} DecWidth(n: nat, k: nat)
    requires n < Pow10(k) && k > 0
    ensures |Dec(n)| <= k
  {
    if n >= 10 {
      assert k > 1 by { assert Pow10(1) == 10 * Pow10(0); }
      DecWidth(n / 10, k - 1);
    }
  }
}
