/** Bytes as integers from 0 to 255, their exclusive or, and big-endian integers. */
module Bytes {

  type Byte = b: int | 0 <= b < 256

  /** A Go string element as the byte it is. */
  function ByteOf(c: char): Byte {
    c as int % 256
  }

  function ToBytes(s: string): (b: seq<Byte>)
    ensures |b| == |s|
  {
    seq(|s|, i requires 0 <= i < |s| => ByteOf(s[i]))
  }

  function FromBytes(b: seq<Byte>): (s: string)
    ensures |s| == |b|
  {
    seq(|b|, i requires 0 <= i < |b| => b[i] as char)
  }

  /** Every char stands for one byte. */
  predicate IsByteText(s: string) {
    forall i :: 0 <= i < |s| ==> s[i] as int < 256
  }

  lemma FromToBytes(s: string)
    requires IsByteText(s)
    ensures FromBytes(ToBytes(s)) == s
  {}

  // ----- exclusive or -----

  /** Exclusive or of the n low bits: each bit is the sum of the two bits modulo 2. */
  function XorBits(a: nat, b: nat, n: nat): nat {
    if n == 0 then 0 else (a + b) % 2 + 2 * XorBits(a / 2, b / 2, n - 1)
  }

  function PowerOf2(n: nat): nat {
    if n == 0 then 1 else 2 * PowerOf2(n - 1)
  }

  lemma {:induction false} XorBitsBound(a: nat, b: nat, n: nat)
    ensures XorBits(a, b, n) < PowerOf2(n)
  {
    if n > 0 { XorBitsBound(a / 2, b / 2, n - 1); }
  }

  lemma LowBit(a: nat, b: nat, t: nat)
    ensures ((a + b) % 2 + 2 * t) / 2 == t
    ensures ((a + b) % 2 + 2 * t + b) % 2 == a % 2
  {
    assert (a + b) % 2 + 2 * t + b == a + 2 * (b + t - (a + b) / 2);
  }

  lemma {:induction false} XorBitsTwice(a: nat, b: nat, n: nat)
    requires a < PowerOf2(n)
    ensures XorBits(XorBits(a, b, n), b, n) == a
  {
    if n > 0 {
      LowBit(a, b, XorBits(a / 2, b / 2, n - 1));
      XorBitsTwice(a / 2, b / 2, n - 1);
    }
  }

  function Xor(a: Byte, b: Byte): Byte {
    XorBitsBound(a, b, 8);
    XorBits(a, b, 8)
  }

  lemma XorTwice(a: Byte, b: Byte)
    ensures Xor(Xor(a, b), b) == a
  {
    XorBitsTwice(a, b, 8);
  }

  /** Bit k of a number, the lowest being bit 0. */
  function Bit(n: nat, k: nat): nat {
    if k == 0 then n % 2 else Bit(n / 2, k - 1)
  }

  lemma {:induction false} XorBitsBit(a: nat, b: nat, n: nat, k: nat)
    requires k < n
    ensures Bit(XorBits(a, b, n), k) == (Bit(a, k) + Bit(b, k)) % 2
  {
    LowBit(a, b, XorBits(a / 2, b / 2, n - 1));
    if k > 0 { XorBitsBit(a / 2, b / 2, n - 1, k - 1); }
  }

  /** A bit of the exclusive or is set exactly when the two bits differ. */
  lemma XorMeaning(a: Byte, b: Byte, k: nat)
    requires k < 8
    ensures Bit(Xor(a, b), k) == 1 <==> Bit(a, k) != Bit(b, k)
  {
    XorBitsBit(a, b, 8, k);
    BitIsBit(a, k);
    BitIsBit(b, k);
  }

  lemma {:induction false} BitIsBit(n: nat, k: nat)
    ensures 0 <= Bit(n, k) < 2
  {
    if k > 0 { BitIsBit(n / 2, k - 1); }
  }

  function XorSeq(a: seq<Byte>, b: seq<Byte>): (r: seq<Byte>)
    requires |a| == |b|
    ensures |r| == |a|
    ensures forall i :: 0 <= i < |a| ==> r[i] == Xor(a[i], b[i])
  {
    seq(|a|, i requires 0 <= i < |a| => Xor(a[i], b[i]))
  }

  // ----- big-endian integers -----

  function BigEndian(b: seq<Byte>): nat {
    if b == [] then 0 else 256 * BigEndian(b[..|b| - 1]) + b[|b| - 1]
  }

  /** The n low-order bytes of a value, most significant first. */
  function BigEndianBytes(value: nat, n: nat): (b: seq<Byte>)
    ensures |b| == n
  {
    if n == 0 then [] else BigEndianBytes(value / 256, n - 1) + [value % 256]
  }

  function PowerOf256(n: nat): nat {
    if n == 0 then 1 else 256 * PowerOf256(n - 1)
  }

  lemma {:induction false} BigEndianRoundTrip(value: nat, n: nat)
    requires value < PowerOf256(n)
    ensures BigEndian(BigEndianBytes(value, n)) == value
  {
    if n > 0 {
      BigEndianRoundTrip(value / 256, n - 1);
      var b := BigEndianBytes(value, n);
      assert b[..|b| - 1] == BigEndianBytes(value / 256, n - 1);
    }
  }

  lemma {:induction false} BigEndianBound(b: seq<Byte>)
    ensures BigEndian(b) < PowerOf256(|b|)
  {
    if b != [] { BigEndianBound(b[..|b| - 1]); }
  }

  lemma {:induction false} BigEndianInjective(b: seq<Byte>)
    ensures BigEndianBytes(BigEndian(b), |b|) == b
  {
    if b != [] {
      BigEndianInjective(b[..|b| - 1]);
      assert b == b[..|b| - 1] + [b[|b| - 1]];
    }
  }

  lemma BigEndian2(value: nat)
    ensures BigEndianBytes(value, 2) == [value / 256 % 256, value % 256]
  {
    assert BigEndianBytes(value / 256, 1) == BigEndianBytes(value / 256 / 256, 0) + [value / 256 % 256];
  }

  lemma BigEndian4(value: nat)
    ensures BigEndianBytes(value, 4) ==
            [value / 0x100_0000 % 256, value / 0x1_0000 % 256, value / 0x100 % 256, value % 256]
  {
    BigEndian2(value / 0x1_0000);
    var v1 := value / 256;
    var v2 := v1 / 256;
    assert v2 == value / 0x1_0000 && v2 / 256 == value / 0x100_0000;
    assert BigEndianBytes(value, 4) == BigEndianBytes(v1, 3) + [value % 256];
    assert BigEndianBytes(v1, 3) == BigEndianBytes(v2, 2) + [v1 % 256];
  }
}
