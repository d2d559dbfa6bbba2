/** Machine integers of the C# source: bytes, 32-bit ints, and the bitwise OR used by the encoder. */
module Bytes {

  /** A C# `byte`. */
  type byte = x: int | 0 <= x < 0x100

  /** A C# `int`. */
  type int32 = x: int | -0x8000_0000 <= x < 0x8000_0000

  /** 2^k. */
  function Pow2(k: nat): (r: nat)
    ensures r >= 1
  {
    if k == 0 then 1 else 2 * Pow2(k - 1)
  }

  /** The powers of two the encoder and decoders use. */
  lemma Pow2Values()
    ensures Pow2(7) == 0x80 && Pow2(8) == 0x100 && Pow2(16) == 0x1_0000
    ensures Pow2(23) == 0x80_0000 && Pow2(24) == 0x100_0000
    ensures Pow2(31) == 0x8000_0000 && Pow2(32) == 0x1_0000_0000
  {
    assert Pow2(1) == 0x2;
    assert Pow2(2) == 0x4;
    assert Pow2(3) == 0x8;
    assert Pow2(4) == 0x10;
    assert Pow2(5) == 0x20;
    assert Pow2(6) == 0x40;
    assert Pow2(7) == 0x80;
    assert Pow2(8) == 0x100;
    assert Pow2(9) == 0x200;
    assert Pow2(10) == 0x400;
    assert Pow2(11) == 0x800;
    assert Pow2(12) == 0x1000;
    assert Pow2(13) == 0x2000;
    assert Pow2(14) == 0x4000;
    assert Pow2(15) == 0x8000;
    assert Pow2(16) == 0x10000;
    assert Pow2(17) == 0x20000;
    assert Pow2(18) == 0x40000;
    assert Pow2(19) == 0x80000;
    assert Pow2(20) == 0x100000;
    assert Pow2(21) == 0x200000;
    assert Pow2(22) == 0x400000;
    assert Pow2(23) == 0x800000;
    assert Pow2(24) == 0x1000000;
    assert Pow2(25) == 0x2000000;
    assert Pow2(26) == 0x4000000;
    assert Pow2(27) == 0x8000000;
    assert Pow2(28) == 0x10000000;
    assert Pow2(29) == 0x20000000;
    assert Pow2(30) == 0x40000000;
    assert Pow2(31) == 0x80000000;
    assert Pow2(32) == 0x100000000;
  }

  /** Bitwise OR of two non-negative integers, bit by bit from the least significant end. */
  function OrNat(a: nat, b: nat): nat
  {
    if a == 0 then b
    else if b == 0 then a
    else 2 * OrNat(a / 2, b / 2) + (if a % 2 == 1 || b % 2 == 1 then 1 else 0)
  }

  /** The 32-bit two's-complement pattern of x, as an unsigned value. */
  function Unsigned32(x: int32): (u: nat)
    ensures u < 0x1_0000_0000
    ensures x >= 0 ==> u == x
    ensures x < 0 ==> u >= 0x8000_0000
  {
    x % 0x1_0000_0000
  }

  /** OR never clears a bit: it is at least each operand. */
  lemma {:induction false} OrNatAtLeast(a: nat, b: nat)
    ensures OrNat(a, b) >= a && OrNat(a, b) >= b
  {
    if a != 0 && b != 0 {
      OrNatAtLeast(a / 2, b / 2);
    }
  }

  /** OR of two values below 2^k stays below 2^k. */
  lemma {:induction false} OrNatBelow(a: nat, b: nat, k: nat)
    requires a < Pow2(k) && b < Pow2(k)
    ensures OrNat(a, b) < Pow2(k)
  {
    if a != 0 && b != 0 {
      assert k > 0;
      OrNatBelow(a / 2, b / 2, k - 1);
    }
  }

  /** OR with the single bit 2^k: sets it when it is clear, and changes nothing when it is set. */
  lemma {:induction false} OrNatBit(a: nat, k: nat)
    requires a < 2 * Pow2(k)
    ensures OrNat(a, Pow2(k)) == if a < Pow2(k) then a + Pow2(k) else a
  {
    if a != 0 && k > 0 {
      OrNatBit(a / 2, k - 1);
    }
  }

  /** The sign bit of an OR is set exactly when one operand's is. */
  lemma OrNatSignBit(a: int32, b: int32)
    ensures OrNat(Unsigned32(a), Unsigned32(b)) < 0x1_0000_0000
    ensures OrNat(Unsigned32(a), Unsigned32(b)) >= Unsigned32(a)
    ensures OrNat(Unsigned32(a), Unsigned32(b)) >= Unsigned32(b)
    ensures a >= 0 && b >= 0 ==> OrNat(Unsigned32(a), Unsigned32(b)) < 0x8000_0000
  {
    Pow2Values();
    OrNatAtLeast(Unsigned32(a), Unsigned32(b));
    OrNatBelow(Unsigned32(a), Unsigned32(b), 32);
    if a >= 0 && b >= 0 {
      OrNatBelow(a, b, 31);
    }
  }

  /** C#'s `a | b` on two `int`s. */
  function Or32(a: int32, b: int32): (r: int32)
    ensures a >= 0 && b >= 0 ==> r >= a && r >= b
    ensures a < 0 || b < 0 ==> r < 0
  {
    OrNatSignBit(a, b);
    var u := OrNat(Unsigned32(a), Unsigned32(b));
    if u >= 0x8000_0000 then u - 0x1_0000_0000 else u
  }

  /** On two bytes, OR is a byte. */
  lemma OrOfBytes(a: int32, b: int32)
    requires 0 <= a < 0x100 && 0 <= b < 0x100
    ensures 0 <= Or32(a, b) < 0x100
    ensures Or32(a, b) == OrNat(a, b)
  {
    Pow2Values();
    OrNatBelow(a, b, 8);
  }

  /** OR with 0 changes nothing. */
  lemma OrZero(b: int32)
    requires b >= 0
    ensures Or32(0, b) == b
  {
  }

  /** ORing a byte with 0x80 sets its top bit. */
  lemma OrHighBit(x: int32)
    requires 0 <= x < 0x100
    ensures Or32(x, 0x80) == if x < 0x80 then x + 0x80 else x
  {
    Pow2Values();
    OrOfBytes(x, 0x80);
    OrNatBit(x, 7);
  }

  /** C#'s unchecked `int` arithmetic: x reduced to the 32-bit two's-complement range. */
  function Wrap32(x: int): (r: int32)
    ensures (x - r) % 0x1_0000_0000 == 0
    ensures -0x8000_0000 <= x < 0x8000_0000 ==> r == x
  {
    var u := x % 0x1_0000_0000;
    if u >= 0x8000_0000 then u - 0x1_0000_0000 else u
  }

  /** Two ints congruent modulo 2^32 wrap to the same int32. */
  lemma WrapCongruent(x: int, y: int, k: int)
    requires x == y + k * 0x1_0000_0000
    ensures Wrap32(x) == Wrap32(y)
  {
    DivModUnique(x, 0x1_0000_0000, y / 0x1_0000_0000 + k, y % 0x1_0000_0000);
  }

  /** Wrapping a running sum after every step gives the wrap of the whole sum. */
  lemma WrapAdd(x: int, y: int)
    ensures Wrap32(Wrap32(x) + y) == Wrap32(x + y)
  {
    var k := (x - Wrap32(x)) / 0x1_0000_0000;
    assert x - Wrap32(x) == k * 0x1_0000_0000;
    WrapCongruent(x + y, Wrap32(x) + y, k);
  }

  /** Wrapped subtraction is undone by adding the subtrahend back (with wrap-around). */
  lemma SubtractAddBack(a: int32, b: int32)
    ensures Wrap32(Wrap32(a - b) + b) == a
  {
    var d := Wrap32(a - b);
    var k := (a - b - d) / 0x1_0000_0000;
    assert a - b - d == k * 0x1_0000_0000;
    WrapCongruent(a, d + b, k);
  }

  // Little-endian byte arithmetic on (possibly negative) ints

  lemma MulAtLeast(k: int, d: int)
    requires k >= 1 && d > 0
    ensures k * d >= d
  {
    var j := k - 1;
    assert k * d == j * d + d;
  }

  /** Euclidean division is determined by any quotient and remainder that fit. */
  lemma DivModUnique(x: int, d: int, q: int, r: int)
    requires d > 0 && x == q * d + r && 0 <= r < d
    ensures x / d == q && x % d == r
  {
    var q' := x / d;
    var r' := x % d;
    assert (q - q') * d == r' - r by {
      assert x == q' * d + r';
      assert q * d - q' * d == (q - q') * d;
    }
    if q' < q {
      MulAtLeast(q - q', d);
    } else if q' > q {
      assert (q' - q) * d == -((q - q') * d);
      MulAtLeast(q' - q, d);
    }
  }

  /** Peeling off the low byte of a remainder and of a quotient. */
  lemma PeelByte(x: int, m: int)
    requires m > 0
    ensures x % (0x100 * m) == x % 0x100 + 0x100 * ((x / 0x100) % m)
    ensures x / 0x100 / m == x / (0x100 * m)
  {
    var q := x / 0x100;
    var r0 := x % 0x100;
    var q2 := q / m;
    var r1 := q % m;
    assert x == 0x100 * q + r0;
    assert q == m * q2 + r1;
    assert x == (0x100 * m) * q2 + (0x100 * r1 + r0);
    DivModUnique(x, 0x100 * m, q2, 0x100 * r1 + r0);
  }

  /** The two low bytes of x read back as x modulo 2^16. */
  lemma Low16(x: int)
    ensures x % 0x100 + (x / 0x100 % 0x100) * 0x100 == x % 0x1_0000
  {
    PeelByte(x, 0x100);
  }
  /** Two bytes and seven bits read back as x modulo 2^23. */
  lemma Low23(x: int)
    ensures x % 0x100 + (x / 0x100 % 0x100) * 0x100 + (x / 0x1_0000 % 0x80) * 0x1_0000 == x % 0x80_0000
  {
    PeelByte(x, 0x8000);
    PeelByte(x / 0x100, 0x80);
    PeelByte(x, 0x100);
  }
  /** Three bytes read back as x modulo 2^24. */
  lemma Low24(x: int)
    ensures x % 0x100 + (x / 0x100 % 0x100) * 0x100 + (x / 0x1_0000 % 0x100) * 0x1_0000 == x % 0x100_0000
  {
    PeelByte(x, 0x1_0000);
    PeelByte(x / 0x100, 0x100);
    PeelByte(x, 0x100);
  }
  /** Three bytes and seven bits read back as x modulo 2^31. */
  lemma Low31(x: int)
    ensures x % 0x100 + (x / 0x100 % 0x100) * 0x100 + (x / 0x1_0000 % 0x100) * 0x1_0000 + (x / 0x100_0000 % 0x80) * 0x100_0000 == x % 0x8000_0000
  {
    PeelByte(x, 0x80_0000);
    PeelByte(x / 0x100, 0x8000);
    PeelByte(x / 0x100 / 0x100, 0x80);
    PeelByte(x, 0x100);
    PeelByte(x, 0x1_0000);
  }
}
