/** JavaScript's bitwise operators, on two's-complement integers of unbounded width (BigInt) and on 32 bits (number). */
module Bits {

  function Pow2(k: nat): (p: nat)
    ensures p >= 1
  {
    if k == 0 then 1 else 2 * Pow2(k - 1)
  }

  lemma {:induction false} Pow2Add(a: nat, b: nat)
    ensures Pow2(a + b) == Pow2(a) * Pow2(b)
  {
    if a > 0 { Pow2Add(a - 1, b); }
  }

  lemma {:induction false} Pow2Monotone(a: nat, b: nat)
    requires a <= b
    ensures Pow2(a) <= Pow2(b)
  {
    if a < b { Pow2Monotone(a, b - 1); }
  }

  lemma Pow2Of64()
    ensures Pow2(31) == 0x8000_0000 && Pow2(32) == 0x1_0000_0000
    ensures Pow2(64) == 0x1_0000_0000_0000_0000
  {
    assert Pow2(8) == 256;
    assert Pow2(16) == 65536 by { Pow2Add(8, 8); }
    assert Pow2(32) == 0x1_0000_0000 by { Pow2Add(16, 16); }
    assert Pow2(64) == 0x1_0000_0000_0000_0000 by { Pow2Add(32, 32); }
    assert Pow2(32) == 2 * Pow2(31);
  }

  function Magnitude(a: int): nat {
    if a >= 0 then a else -a - 1
  }

  /** `a | b` on BigInts: bit by bit, with every negative number having infinitely many leading ones. */
  function BitOr(a: int, b: int): int
    decreases Magnitude(a) + Magnitude(b)
  {
    if Magnitude(a) == 0 && Magnitude(b) == 0 then if a == -1 || b == -1 then -1 else 0
    else 2 * BitOr(a / 2, b / 2) + (if a % 2 == 1 || b % 2 == 1 then 1 else 0)
  }

  function Bit(a: int, i: nat): int
    decreases i
  {
    if i == 0 then a % 2 else Bit(a / 2, i - 1)
  }

  lemma BitOrHalves(a: int, b: int)
    ensures BitOr(a, b) == 2 * BitOr(a / 2, b / 2) + (if a % 2 == 1 || b % 2 == 1 then 1 else 0)
  {
  }

  /** What `|` means: each bit of the result is set exactly when it is set in one of the operands. */
  lemma {:induction false} BitOrBits(a: int, b: int, i: nat)
    ensures Bit(BitOr(a, b), i) == if Bit(a, i) == 1 || Bit(b, i) == 1 then 1 else 0
    decreases i
  {
    BitOrHalves(a, b);
    if i > 0 { BitOrBits(a / 2, b / 2, i - 1); }
  }

  lemma {:induction false} BitOrZero(a: int)
    ensures BitOr(a, 0) == a && BitOr(0, a) == a
    decreases Magnitude(a)
  {
    if Magnitude(a) > 0 { BitOrZero(a / 2); }
  }

  /** Or-ing in a value that fits below a left-shifted one is adding it, for negative high parts as well. */
  lemma {:induction false} BitOrDisjoint(h: int, k: nat, low: int)
    requires 0 <= low < Pow2(k)
    ensures BitOr(h * Pow2(k), low) == h * Pow2(k) + low
    ensures BitOr(low, h * Pow2(k)) == h * Pow2(k) + low
  {
    if k == 0 {
      BitOrZero(h);
    } else {
      var a := h * Pow2(k);
      assert a == 2 * (h * Pow2(k - 1));
      BitOrHalves(a, low);
      BitOrHalves(low, a);
      BitOrDisjoint(h, k - 1, low / 2);
    }
  }

  /** The value of a number after a 32-bit operator: its low 32 bits read as signed. */
  function ToInt32(n: int): (r: int)
    ensures -0x8000_0000 <= r < 0x8000_0000
  {
    var m := n % 0x1_0000_0000;
    if m < 0x8000_0000 then m else m - 0x1_0000_0000
  }

  /** `x << s` on numbers: the shift count is taken modulo 32. */
  function Shl32(x: int, s: nat): int {
    ToInt32(x * Pow2(s % 32))
  }
}
