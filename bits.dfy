/**
 * Bit-level view of the integers the ALU harness works on.
 *
 * The harness is written against unbounded integers and uses the
 * integer operators `&`, `|`, `^`, `~`, `>>` and `& 0xFF`. Bit sequences are
 * least-significant bit first (index 0 is bit 0), which is also the order
 * of the GPIO pin arrays of the hardware adapter.
 */
module Bits {

  type Bit = x: int | 0 <= x < 2
  type Byte = x: int | 0 <= x < 256

  function Pow2(n: nat): (p: nat)
    ensures p >= 1
  {
    if n == 0 then 1 else 2 * Pow2(n - 1)
  }

  /** `x >> i` for a non-negative shift: floor division by 2^i, one halving at a time. */
  function Shr(x: int, i: nat): int
    decreases i
  {
    if i == 0 then x else Shr(x / 2, i - 1)
  }

  /** The low n bits of x; element i is `(x >> i) & 1` (also for negative x). */
  function ToBits(x: int, n: nat): (s: seq<Bit>)
    ensures |s| == n
    decreases n
  {
    if n == 0 then [] else [x % 2] + ToBits(x / 2, n - 1)
  }

  /** The value of an LSB-first bit sequence: the sum of s[i] * 2^i. */
  function FromBits(s: seq<Bit>): (v: nat)
    ensures v < Pow2(|s|)
  {
    if s == [] then 0 else s[0] + 2 * FromBits(s[1..])
  }

  /** The contribution of one bit at position k: `b << k`. */
  function Weight(b: Bit, k: nat): nat
  {
    if b == 1 then Pow2(k) else 0
  }

  lemma {:induction false} ToBitsAt(x: int, n: nat, i: nat)
    requires i < n
    ensures ToBits(x, n)[i] == Shr(x, i) % 2
    decreases n
  {
    if i > 0 {
      ToBitsAt(x / 2, n - 1, i - 1);
    }
  }

  /** Appending a most-significant bit adds its weight. */
  lemma {:induction false} FromBitsAppend(s: seq<Bit>, b: Bit)
    ensures FromBits(s + [b]) == FromBits(s) + Weight(b, |s|)
  {
    if s != [] {
      assert (s + [b])[1..] == s[1..] + [b];
      FromBitsAppend(s[1..], b);
    }
  }

  /** A product with a positive factor m is at least m once the other factor is positive. */
  lemma {:induction false} MulAtLeast(m: nat, d: nat)
    requires m >= 1 && d >= 1
    ensures m * d >= m
    decreases d
  {
    if d > 1 {
      MulAtLeast(m, d - 1);
      assert m * d == m * (d - 1) + m;
    }
  }

  /** Any decomposition x == m*q + r with 0 <= r < m is the Euclidean one. */
  lemma ModUnique(x: int, m: nat, q: int, r: int)
    requires m >= 1 && 0 <= r < m && x == m * q + r
    ensures x % m == r
  {
    var d := q - x / m;
    assert x == m * (x / m) + x % m;
    assert m * d == x % m - r by {
      assert m * d == m * q - m * (x / m);
    }
    if d >= 1 {
      MulAtLeast(m, d);
    } else if d <= -1 {
      MulAtLeast(m, -d);
    }
  }

  /** Euclidean remainder by 2p splits into the low bit and the remainder of the half. */
  lemma ModDouble(x: int, p: nat)
    requires p >= 1
    ensures x % (2 * p) == x % 2 + 2 * ((x / 2) % p)
  {
    var q, r := x / 2, x % 2;
    var t, u := q / p, q % p;
    assert q == p * t + u;
    assert x == (2 * p) * t + (2 * u + r) by {
      assert x == 2 * q + r;
      assert 2 * q == (2 * p) * t + 2 * u;
    }
    ModUnique(x, 2 * p, t, 2 * u + r);
  }

  /** Decoding the low n bits of x gives x modulo 2^n. */
  lemma {:induction false} FromToBits(x: int, n: nat)
    ensures FromBits(ToBits(x, n)) == x % Pow2(n)
    decreases n
  {
    if n > 0 {
      FromToBits(x / 2, n - 1);
      assert ToBits(x, n)[1..] == ToBits(x / 2, n - 1);
      ModDouble(x, Pow2(n - 1));
    }
  }

  /** Encoding a decoded sequence at its own width gives the sequence back. */
  lemma {:induction false} ToFromBits(s: seq<Bit>)
    ensures ToBits(FromBits(s), |s|) == s
  {
    if s != [] {
      var v := FromBits(s);
      assert v % 2 == s[0] && v / 2 == FromBits(s[1..]);
      ToFromBits(s[1..]);
    }
  }

  lemma ByteRoundTrip(x: Byte)
    ensures FromBits(ToBits(x, 8)) == x
  {
    Pow2Byte();
    FromToBitsBelow(x, 8);
  }

  /** A value below 2^n survives the round trip through n bits. */
  lemma FromToBitsBelow(x: int, n: nat)
    requires 0 <= x < Pow2(n)
    ensures FromBits(ToBits(x, n)) == x
  {
    FromToBits(x, n);
  }

  lemma Pow2Byte()
    ensures Pow2(7) == 128 && Pow2(8) == 256
  {
  }

  lemma {:induction false} FromBitsZero(s: seq<Bit>)
    ensures FromBits(s) == 0 <==> forall i :: 0 <= i < |s| ==> s[i] == 0
  {
    if s != [] {
      FromBitsZero(s[1..]);
      assert forall i :: 1 <= i < |s| ==> s[i] == s[1..][i - 1];
    }
  }

  // ---------------------------------------------------------------------
  // Python integer operators on bytes
  // ---------------------------------------------------------------------

  /** `x & 0xFF` (the remainder is never negative, as in Python). */
  function Mask(x: int): (r: Byte)
  {
    x % 256
  }

  /** `(x & 0x80) != 0`: bit 7 of the two's-complement form of x. */
  predicate Bit7(x: int)
  {
    x % 256 >= 128
  }

  /** `(~x) & 0xFF`, where `~x == -x - 1`. */
  function Not8(x: int): (r: Byte)
  {
    Mask(-x - 1)
  }

  datatype BitOp = AndOp | OrOp | XorOp

  function ApplyBit(op: BitOp, p: Bit, q: Bit): Bit
  {
    match op
    case AndOp => if p == 1 && q == 1 then 1 else 0
    case OrOp => if p == 1 || q == 1 then 1 else 0
    case XorOp => if p != q then 1 else 0
  }

  /** The operator applied position by position to two bit sequences of one length. */
  function ZipBits(op: BitOp, s: seq<Bit>, t: seq<Bit>): (r: seq<Bit>)
    requires |s| == |t|
    ensures |r| == |s|
  {
    if s == [] then [] else [ApplyBit(op, s[0], t[0])] + ZipBits(op, s[1..], t[1..])
  }

  lemma {:induction false} ZipBitsAt(op: BitOp, s: seq<Bit>, t: seq<Bit>, i: nat)
    requires |s| == |t| && i < |s|
    ensures ZipBits(op, s, t)[i] == ApplyBit(op, s[i], t[i])
  {
    if i > 0 {
      ZipBitsAt(op, s[1..], t[1..], i - 1);
    }
  }

  /** The operator on the low n bits of x and y, from bit 0 upwards. */
  function BitwiseN(op: BitOp, x: int, y: int, n: nat): (r: nat)
    ensures r < Pow2(n)
    decreases n
  {
    if n == 0 then 0 else ApplyBit(op, x % 2, y % 2) + 2 * BitwiseN(op, x / 2, y / 2, n - 1)
  }

  /** `x & y`, `x | y` or `x ^ y` on two bytes. */
  function Bitwise(op: BitOp, x: Byte, y: Byte): (r: Byte)
  {
    BitwiseN(op, x, y, 8)
  }

  /** The bits of the result are the operator applied to the operands' bits. */
  lemma {:induction false} BitwiseNBits(op: BitOp, x: int, y: int, n: nat)
    ensures ToBits(BitwiseN(op, x, y, n), n) == ZipBits(op, ToBits(x, n), ToBits(y, n))
    decreases n
  {
    if n > 0 {
      var v := BitwiseN(op, x, y, n);
      assert v % 2 == ApplyBit(op, x % 2, y % 2) && v / 2 == BitwiseN(op, x / 2, y / 2, n - 1);
      BitwiseNBits(op, x / 2, y / 2, n - 1);
      assert ToBits(x, n)[1..] == ToBits(x / 2, n - 1);
      assert ToBits(y, n)[1..] == ToBits(y / 2, n - 1);
    }
  }

  function And8(x: Byte, y: Byte): Byte { Bitwise(AndOp, x, y) }
  function Or8(x: Byte, y: Byte): Byte { Bitwise(OrOp, x, y) }
  function Xor8(x: Byte, y: Byte): Byte { Bitwise(XorOp, x, y) }

  /** The two's-complement reading of a byte. */
  function Signed(x: Byte): int
  {
    if x >= 128 then x - 256 else x
  }

  /** Each bit of a bitwise result is the operator applied to the operands' bits. */
  lemma BitwiseAt(op: BitOp, x: Byte, y: Byte, i: nat)
    requires i < 8
    ensures ToBits(Bitwise(op, x, y), 8)[i] == ApplyBit(op, ToBits(x, 8)[i], ToBits(y, 8)[i])
  {
    BitwiseNBits(op, x, y, 8);
    ZipBitsAt(op, ToBits(x, 8), ToBits(y, 8), i);
  }

  /** Bit 7 of a byte is the top element of its bit sequence. */
  lemma Bit7Bits(x: Byte)
    ensures Bit7(x) <==> ToBits(x, 8)[7] == 1
  {
    ByteRoundTrip(x);
    TopBit(ToBits(x, 8));
  }

  /** An eight-bit sequence encodes a value of at least 128 exactly when its top bit is set. */
  lemma TopBit(s: seq<Bit>)
    requires |s| == 8
    ensures FromBits(s) >= 128 <==> s[7] == 1
  {
    assert s == s[..7] + [s[7]];
    FromBitsAppend(s[..7], s[7]);
    Pow2Byte();
  }

  lemma BitwiseBit7(op: BitOp, x: Byte, y: Byte)
    ensures Bit7(Bitwise(op, x, y)) <==> ApplyBit(op, ToBits(x, 8)[7], ToBits(y, 8)[7]) == 1
  {
    Bit7Bits(Bitwise(op, x, y));
    BitwiseAt(op, x, y, 7);
  }

  lemma XorBit7(x: Byte, y: Byte)
    ensures Bit7(Xor8(x, y)) <==> (Bit7(x) != Bit7(y))
  {
    BitwiseBit7(XorOp, x, y);
    Bit7Bits(x);
    Bit7Bits(y);
  }

  lemma AndBit7(x: Byte, y: Byte)
    ensures Bit7(And8(x, y)) <==> (Bit7(x) && Bit7(y))
  {
    BitwiseBit7(AndOp, x, y);
    Bit7Bits(x);
    Bit7Bits(y);
  }

  /** The bits of 0x80: only bit 7 is set. */
  lemma MaskBits()
    ensures ToBits(0x80, 8) == [0, 0, 0, 0, 0, 0, 0, 1]
  {
  }

  lemma SignMaskValue(x: Byte)
    ensures And8(x, 0x80) == Weight(ToBits(x, 8)[7], 7)
  {
    var s := ToBits(x, 8);
    var v := And8(x, 0x80);
    var low: seq<Bit> := [0, 0, 0, 0, 0, 0, 0];
    assert ToBits(v, 8) == low + [s[7]] by {
      MaskBits();
      AndTop(s);
      BitwiseNBits(AndOp, x, 0x80, 8);
    }
    assert FromBits(low) == 0;
    ByteRoundTrip(v);
    FromBitsAppend(low, s[7]);
  }

  /** And-ing eight bits with the pattern of 0x80 keeps only the top bit. */
  lemma AndTop(s: seq<Bit>)
    requires |s| == 8
    ensures ZipBits(AndOp, s, [0, 0, 0, 0, 0, 0, 0, 1]) == [0, 0, 0, 0, 0, 0, 0] + [s[7]]
  {
    var m: seq<Bit> := [0, 0, 0, 0, 0, 0, 0, 1];
    forall i | 0 <= i < 8
      ensures ZipBits(AndOp, s, m)[i] == ([0, 0, 0, 0, 0, 0, 0] + [s[7]])[i]
    {
      ZipBitsAt(AndOp, s, m, i);
    }
  }

  /** `x & 0x80` on a byte is 128 when bit 7 is set and 0 otherwise. */
  lemma SignBit(x: Byte)
    ensures And8(x, 0x80) == if x >= 128 then 128 else 0
  {
    SignMaskValue(x);
    Bit7Bits(x);
    Pow2Byte();
  }

  lemma MaskByte(x: Byte)
    ensures Mask(x) == x
  {
  }

  /** `(x & 0x80) != 0` on a byte is exactly its bit 7. */
  lemma SignMask(x: Byte)
    ensures And8(x, 0x80) != 0 <==> Bit7(x)
  {
    SignMaskValue(x);
    Bit7Bits(x);
  }

  /** Setting bit 7 of a byte whose bit 7 is clear adds 128; or-ing with 0 changes nothing. */
  lemma OrHighBit(x: Byte, y: Byte)
    requires x < 128 && (y == 0 || y == 128)
    ensures Or8(x, y) == x + y
  {
    var s := ToBits(x, 8);
    var top: Bit := if y == 128 then 1 else 0;
    OrHighBits(x, y);
    ByteRoundTrip(Or8(x, y));
    FromBitsAppend(s[..7], top);
    LowSeven(x);
    Pow2Byte();
  }

  lemma OrHighBits(x: Byte, y: Byte)
    requires x < 128 && (y == 0 || y == 128)
    ensures ToBits(Or8(x, y), 8) == ToBits(x, 8)[..7] + [if y == 128 then 1 else 0]
  {
    var top: Bit := if y == 128 then 1 else 0;
    assert ToBits(y, 8) == [0, 0, 0, 0, 0, 0, 0, top] by {
      if y == 128 {
        MaskBits();
      } else {
        assert ToBits(0, 8) == [0, 0, 0, 0, 0, 0, 0, 0];
      }
    }
    assert ToBits(x, 8)[7] == 0 by {
      LowSeven(x);
    }
    OrTop(ToBits(x, 8), top);
    BitwiseNBits(OrOp, x, y, 8);
  }

  /** Below 128, a byte is the value of its low seven bits. */
  lemma LowSeven(x: Byte)
    requires x < 128
    ensures ToBits(x, 8)[7] == 0
    ensures FromBits(ToBits(x, 8)[..7]) == x
  {
    var s := ToBits(x, 8);
    Bit7Bits(x);
    ByteRoundTrip(x);
    assert s == s[..7] + [s[7]];
    FromBitsAppend(s[..7], s[7]);
  }

  /** Or-ing eight bits whose top bit is clear with a pattern that is zero below the top. */
  lemma OrTop(s: seq<Bit>, top: Bit)
    requires |s| == 8 && s[7] == 0
    ensures ZipBits(OrOp, s, [0, 0, 0, 0, 0, 0, 0, top]) == s[..7] + [top]
  {
    var m: seq<Bit> := [0, 0, 0, 0, 0, 0, 0, top];
    forall i | 0 <= i < 8
      ensures ZipBits(OrOp, s, m)[i] == (s[..7] + [top])[i]
    {
      ZipBitsAt(OrOp, s, m, i);
    }
  }

  lemma NotIsComplement(x: Byte)
    ensures Not8(x) == 255 - x
  {
  }

  /** `~x & 0xFF` flips every one of the eight bits. */
  lemma {:induction false} NotFlipsBits(x: Byte, i: nat)
    requires i < 8
    ensures ToBits(Not8(x), 8)[i] == 1 - ToBits(x, 8)[i]
  {
    var s := ToBits(x, 8);
    var flipped := seq(8, j requires 0 <= j < 8 => 1 - s[j]);
    ComplementSum(s);
    ByteRoundTrip(x);
    assert FromBits(flipped) == Not8(x);
    ToFromBits(flipped);
  }

  lemma {:induction false} ComplementSum(s: seq<Bit>)
    ensures FromBits(seq(|s|, j requires 0 <= j < |s| => 1 - s[j])) + FromBits(s) == Pow2(|s|) - 1
  {
    if s != [] {
      var f := seq(|s|, j requires 0 <= j < |s| => 1 - s[j]);
      var t := s[1..];
      assert f[1..] == seq(|t|, j requires 0 <= j < |t| => 1 - t[j]);
      ComplementSum(t);
    }
  }

  // ---------------------------------------------------------------------
  // Bit reversal
  // ---------------------------------------------------------------------

  function Reverse(s: seq<Bit>): (r: seq<Bit>)
    ensures |r| == |s|
  {
    if s == [] then [] else Reverse(s[1..]) + [s[0]]
  }

  lemma {:induction false} ReverseAt(s: seq<Bit>, k: nat)
    requires k < |s|
    ensures Reverse(s)[k] == s[|s| - 1 - k]
  {
    if k < |s| - 1 {
      ReverseAt(s[1..], k);
    }
  }

  lemma ReverseReverse(s: seq<Bit>)
    ensures Reverse(Reverse(s)) == s
  {
    forall k | 0 <= k < |s|
      ensures Reverse(Reverse(s))[k] == s[k]
    {
      ReverseAt(Reverse(s), k);
      ReverseAt(s, |s| - 1 - k);
    }
  }

  /** REV_A on a byte: bit i of the operand becomes bit 7 - i of the result. */
  function RevByte(a: Byte): (r: Byte)
  {
    FromBits(Reverse(ToBits(a, 8)))
  }

  lemma RevByteBits(a: Byte, i: nat)
    requires i < 8
    ensures ToBits(RevByte(a), 8)[7 - i] == ToBits(a, 8)[i]
  {
    ToFromBits(Reverse(ToBits(a, 8)));
    ReverseAt(ToBits(a, 8), 7 - i);
  }

  lemma RevByteInvolution(a: Byte)
    ensures RevByte(RevByte(a)) == a
  {
    ToFromBits(Reverse(ToBits(a, 8)));
    ReverseReverse(ToBits(a, 8));
    ByteRoundTrip(a);
  }

  /** The sum that the REV_A loop has built after visiting bits 0 .. i-1 of s. */
  function RevSum(s: seq<Bit>, i: nat): nat
    requires i <= |s|
  {
    if i == 0 then 0 else RevSum(s, i - 1) + Weight(s[i - 1], |s| - i)
  }

  lemma {:induction false} RevSumCons(s: seq<Bit>, k: nat)
    requires 1 <= k <= |s|
    ensures RevSum(s, k) == Weight(s[0], |s| - 1) + RevSum(s[1..], k - 1)
  {
    if k > 1 {
      RevSumCons(s, k - 1);
    }
  }

  lemma {:induction false} RevSumIsReverse(s: seq<Bit>)
    ensures RevSum(s, |s|) == FromBits(Reverse(s))
  {
    if s != [] {
      RevSumCons(s, |s|);
      RevSumIsReverse(s[1..]);
      FromBitsAppend(Reverse(s[1..]), s[0]);
    }
  }

  /**
   * The REV_A loop: for each i in 0..7, when `a & (1 << i)` is set it does
   * `result |= 1 << (7 - i)`. Bit 7 - i of result is still clear at that
   * point, so the `|=` adds `1 << (7 - i)`.
   */
  method ReverseBitsLoop(a: Byte) returns (result: Byte)
    ensures result == RevByte(a)
    ensures forall i :: 0 <= i < 8 ==> ToBits(result, 8)[7 - i] == ToBits(a, 8)[i]
  {
    ghost var s := ToBits(a, 8);
    var acc: nat := 0;
    for i := 0 to 8
      invariant acc == RevSum(s, i)
    {
      ToBitsAt(a, 8, i);
      if Shr(a, i) % 2 == 1 {
        acc := acc + Pow2(7 - i);
      }
    }
    RevSumIsReverse(s);
    result := acc;
    forall i | 0 <= i < 8
      ensures ToBits(result, 8)[7 - i] == ToBits(a, 8)[i]
    {
      RevByteBits(a, i);
    }
  }
}
