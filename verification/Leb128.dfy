/**
 `readLEB128` of indexer/src/wasmBuildMetadata.js and indexer/src/wasmContractSpec.js, against the LEB128
 encoding of section 5.2.2 of the WebAssembly Core Specification 1.0.
 */
module Leb128 {
  import opened Bits

  type byte = b: int | 0 <= b < 256
  type bytes = seq<byte>

  /** `buf[i]` inside bitwise operators, where reading past the end counts as 0. */
  function At(buf: bytes, i: nat): byte {
    if i < |buf| then buf[i] else 0
  }

  /** `result |= (byte & 0x7f) << shift` */
  function Accumulate(result: int, b: byte, shift: nat): int {
    BitOr(result, Shl32(b % 128, shift))
  }

  /** What the loop computes from a given point on: the value, and the offset after the last byte read. */
  function ReadFrom(buf: bytes, offset: nat, result: int, shift: nat): (r: (int, nat))
    ensures r.1 > offset
    decreases |buf| - offset
  {
    var b := At(buf, offset);
    var result' := Accumulate(result, b, shift);
    if b >= 128 then ReadFrom(buf, offset + 1, result', shift + 7) else (result', offset + 1)
  }

  function ReadLEB(buf: bytes, offset: nat): (r: (int, nat))
    ensures r.1 > offset
  {
    ReadFrom(buf, offset, 0, 0)
  }

  method ReadLEB128(buf: bytes, start: nat) returns (value: int, offset: nat)
    ensures (value, offset) == ReadLEB(buf, start)
  {
    var result, shift := 0, 0;
    offset := start;
    var b := At(buf, offset);
    offset := offset + 1;
    result := Accumulate(result, b, shift);
    shift := shift + 7;
    while b >= 128
      invariant offset > start && (b >= 128 ==> offset <= |buf|)
      invariant ReadLEB(buf, start) == if b >= 128 then ReadFrom(buf, offset, result, shift) else (result, offset)
      decreases if b >= 128 then |buf| - offset + 1 else 0
    {
      b := At(buf, offset);
      offset := offset + 1;
      result := Accumulate(result, b, shift);
      shift := shift + 7;
    }
    return result, offset;
  }

  /** The canonical encoding of section 5.2.2: seven bits a byte, least significant first. */
  function EncodeLEB(n: nat): bytes {
    if n < 128 then [n] else [n % 128 + 128] + EncodeLEB(n / 128)
  }

  lemma Groups()
    ensures Pow2(0) == 1 && Pow2(7) == 128 && Pow2(14) == 16384 && Pow2(21) == 2097152 && Pow2(28) == 268435456
  {
    assert Pow2(7) == 128;
    Pow2Add(7, 7);
    Pow2Add(7, 14);
    Pow2Add(14, 14);
  }

  /** The value of a shifted group; only the fifth group can reach the sign bit. */
  lemma ShiftedGroup(x: int, shift: nat)
    requires shift in {0, 7, 14, 21, 28} && 0 <= x < 128
    ensures shift != 28 ==> Shl32(x, shift) == x * Pow2(shift)
    ensures shift == 28 && x < 8 ==> Shl32(x, shift) == x * Pow2(28)
    ensures shift == 28 && 8 <= x < 16 ==> Shl32(x, shift) == (x - 16) * Pow2(28)
  {
    Groups();
    assert shift % 32 == shift;
    if shift == 0 {
      ToInt32Small(x * 1);
    } else if shift == 7 {
      ToInt32Small(x * 128);
    } else if shift == 14 {
      ToInt32Small(x * 16384);
    } else if shift == 21 {
      ToInt32Small(x * 2097152);
    } else if x < 16 {
      ToInt32Small(x * 268435456);
    }
  }

  lemma ToInt32Small(n: int)
    requires 0 <= n < 0x1_0000_0000
    ensures ToInt32(n) == if n < 0x8000_0000 then n else n - 0x1_0000_0000
  {
  }

  /** One more group of seven bits that does not reach the sign bit is added. */
  lemma AddGroup(low: nat, x: int, shift: nat)
    requires shift in {0, 7, 14, 21} && low < Pow2(shift) && 0 <= x < 128
    ensures BitOr(low, Shl32(x, shift)) == low + x * Pow2(shift)
  {
    ShiftedGroup(x, shift);
    BitOrDisjoint(x, shift, low);
  }

  lemma GroupBounds(low: nat, x: int, shift: nat)
    requires shift in {0, 7, 14, 21} && low < Pow2(shift) && 0 <= x < 128
    ensures Pow2(shift + 7) == 128 * Pow2(shift)
    ensures low + x * Pow2(shift) < Pow2(shift + 7) <= 0x1000_0000
  {
    Groups();
    assert Pow2(7) == 128 && Pow2(0) == 1;
    Pow2Add(7, shift);
    var p := Pow2(shift);
    assert x * p <= 127 * p;
  }

  /** The last group may reach the sign bit. */
  lemma AddTopGroup(low: nat, x: int, shift: nat)
    requires shift in {0, 7, 14, 21, 28} && low < Pow2(shift) && 0 <= x < 128
    requires low + x * Pow2(shift) < 0x1_0000_0000
    ensures BitOr(low, Shl32(x, shift)) == ToInt32(low + x * Pow2(shift))
  {
    Groups();
    ToInt32Small(low + x * Pow2(shift));
    if shift == 28 {
      ShiftedGroup(x, shift);
      BitOrDisjoint(if x < 8 then x else x - 16, 28, low);
    } else {
      AddGroup(low, x, shift);
      GroupBounds(low, x, shift);
    }
  }

  lemma SplitGroup(low: nat, m: nat, p: nat)
    ensures low + m * p == (low + (m % 128) * p) + (m / 128) * (128 * p)
  {
    var q, r := m / 128, m % 128;
    assert m == 128 * q + r;
    assert (128 * q + r) * p == q * (128 * p) + r * p;
  }

  lemma NoMoreThanFiveGroups(m: nat, shift: nat)
    requires shift in {0, 7, 14, 21, 28} && m * Pow2(shift) < 0x1_0000_0000 && m >= 128
    ensures shift != 28
  {
    Groups();
  }

  /** One turn of the loop on an encoding. */
  lemma ReadTurn(buf: bytes, offset: nat, low: nat, shift: nat, m: nat)
    requires offset <= |buf| && EncodeLEB(m) <= buf[offset..]
    ensures m < 128 ==> ReadFrom(buf, offset, low, shift) == (BitOr(low, Shl32(m, shift)), offset + 1)
    ensures m >= 128 ==> ReadFrom(buf, offset, low, shift) ==
                         ReadFrom(buf, offset + 1, BitOr(low, Shl32(m % 128, shift)), shift + 7)
    ensures m >= 128 ==> offset < |buf| && EncodeLEB(m / 128) <= buf[offset + 1..]
  {
    hide BitOr, Shl32, EncodeLEB;
    EncodedHead(m);
    assert buf[offset] == buf[offset..][0] == EncodeLEB(m)[0];
    assert buf[offset + 1..] == buf[offset..][1..];
  }

  /** `n` is what has been read so far, `low`, with the bits still to be read, `m`, above it. */
  ghost predicate Split(n: nat, low: nat, m: nat, shift: nat) {
    shift in {0, 7, 14, 21, 28} && low < Pow2(shift) && n == low + m * Pow2(shift) && n < 0x1_0000_0000
  }

  lemma SplitNext(n: nat, low: nat, m: nat, shift: nat) returns (low': nat)
    requires Split(n, low, m, shift) && m >= 128
    ensures low' == BitOr(low, Shl32(m % 128, shift)) && Split(n, low', m / 128, shift + 7)
  {
    assert shift != 28 by { NoMoreThanFiveGroups(m, shift); }
    low' := low + (m % 128) * Pow2(shift);
    assert low' == BitOr(low, Shl32(m % 128, shift)) by { AddGroup(low, m % 128, shift); }
    assert low' < Pow2(shift + 7) && Pow2(shift + 7) == 128 * Pow2(shift) by { GroupBounds(low, m % 128, shift); }
    assert low' + (m / 128) * Pow2(shift + 7) == n by { SplitGroup(low, m, Pow2(shift)); }
  }

  lemma SplitLast(n: nat, low: nat, m: nat, shift: nat)
    requires Split(n, low, m, shift) && m < 128
    ensures BitOr(low, Shl32(m, shift)) == ToInt32(n)
  {
    AddTopGroup(low, m, shift);
  }

  lemma EncodedHead(n: nat)
    ensures |EncodeLEB(n)| >= 1
    ensures n < 128 ==> EncodeLEB(n) == [n]
    ensures n >= 128 ==> EncodeLEB(n)[0] == n % 128 + 128 && EncodeLEB(n)[1..] == EncodeLEB(n / 128)
  {
  }

  /** The loop, started with the low `shift` bits already read, on the encoding of the remaining bits. */
  lemma {:induction false} ReadEncoded(buf: bytes, offset: nat, n: nat, low: nat, shift: nat, m: nat)
    requires Split(n, low, m, shift)
    requires offset <= |buf| && EncodeLEB(m) <= buf[offset..]
    ensures ReadFrom(buf, offset, low, shift) == (ToInt32(n), offset + |EncodeLEB(m)|)
    decreases m
  {
    hide ReadFrom, EncodeLEB, Pow2, BitOr, Shl32, ToInt32, Split;
    ReadTurn(buf, offset, low, shift, m);
    EncodedHead(m);
    if m < 128 {
      SplitLast(n, low, m, shift);
    } else {
      var low' := SplitNext(n, low, m, shift);
      ReadEncoded(buf, offset + 1, n, low', shift + 7, m / 128);
    }
  }

  /** Decoding the encoding of a 32-bit integer gives its value as a signed 32-bit number. */
  lemma DecodeEncode(pre: bytes, n: nat, post: bytes)
    requires n < 0x1_0000_0000
    ensures ReadLEB(pre + EncodeLEB(n) + post, |pre|) == (ToInt32(n), |pre| + |EncodeLEB(n)|)
  {
    hide ReadFrom, EncodeLEB, ToInt32;
    var buf := pre + EncodeLEB(n) + post;
    assert buf[|pre|..] == EncodeLEB(n) + post;
    ReadEncoded(buf, |pre|, n, 0, 0, n);
  }

  /** The decoder inverts the encoding of a 32-bit integer exactly below 2^31; from there on it reads negative. */
  lemma DecodesExactlyBelow2To31(n: nat)
    requires n < 0x1_0000_0000
    ensures ReadLEB(EncodeLEB(n), 0).0 == n <==> n < 0x8000_0000
    ensures n >= 0x8000_0000 ==> ReadLEB(EncodeLEB(n), 0).0 == n - 0x1_0000_0000 < 0
  {
    hide ReadLEB, EncodeLEB;
    DecodeEncode([], n, []);
    assert [] + EncodeLEB(n) + [] == EncodeLEB(n);
  }
}
