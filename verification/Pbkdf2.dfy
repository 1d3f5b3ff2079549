/** PBKDF2 with HMAC-SHA-256: the definition of section 5.2 of RFC 8018, and the loops that
    compute it. HMAC is a parameter: any function to 32 bytes. */
module Pbkdf2 {
  import opened Bytes

  const HASH_LENGTH := 32

  type Digest = d: seq<Byte> | |d| == 32 witness seq(32, _ => 0)

  type Prf = (seq<Byte>, seq<Byte>) -> Digest

  // ----- the definition -----

  /** U_k of the block: the k-th iterate of the PRF. */
  function U(prf: Prf, password: seq<Byte>, salt: seq<Byte>, block: nat, k: nat): Digest
    requires k >= 1
  {
    if k == 1 then prf(password, salt + BigEndianBytes(block, 4))
    else prf(password, U(prf, password, salt, block, k - 1))
  }

  /** The exclusive or of U_1 to U_count. */
  function T(prf: Prf, password: seq<Byte>, salt: seq<Byte>, block: nat, count: nat): Digest
    requires count >= 1
  {
    if count == 1 then U(prf, password, salt, block, 1)
    else XorSeq(T(prf, password, salt, block, count - 1), U(prf, password, salt, block, count))
  }

  /** T_1 to T_blocks, concatenated. */
  function Blocks(prf: Prf, password: seq<Byte>, salt: seq<Byte>, count: nat, blocks: nat): (b: seq<Byte>)
    requires count >= 1
    ensures |b| == blocks * HASH_LENGTH
  {
    if blocks == 0 then []
    else Blocks(prf, password, salt, count, blocks - 1) + T(prf, password, salt, blocks, count)
  }

  function Ceiling(a: nat, b: nat): nat
    requires b > 0
  {
    (a + b - 1) / b
  }

  lemma CeilingCovers(length: nat)
    ensures Ceiling(length, HASH_LENGTH) * HASH_LENGTH >= length
    ensures length > 0 ==> (Ceiling(length, HASH_LENGTH) - 1) * HASH_LENGTH < length
  {}

  /** The derived key. RFC 8018 asks for at most 2^32 - 1 blocks. */
  function DerivedKey(prf: Prf, password: seq<Byte>, salt: seq<Byte>, count: nat, length: nat): (key: seq<Byte>)
    requires count >= 1
    ensures |key| == length
  {
    CeilingCovers(length);
    Blocks(prf, password, salt, count, Ceiling(length, HASH_LENGTH))[..length]
  }

  // ----- the loops -----

  /** t[j] ^= u[j] for every j. */
  method XorInto(t: array<Byte>, u: seq<Byte>)
    requires t.Length == |u|
    modifies t
    ensures t[..] == XorSeq(old(t[..]), u)
  {
    for j := 0 to t.Length
      invariant forall k :: 0 <= k < j ==> t[k] == Xor(old(t[k]), u[k])
      invariant forall k :: j <= k < t.Length ==> t[k] == old(t[k])
    {
      t[j] := Xor(t[j], u[j]);
    }
  }

  /** One block: the body of the outer loop. */
  method DeriveBlock(prf: Prf, password: seq<Byte>, salt: seq<Byte>, iterations: int, block: nat)
    returns (t: array<Byte>)
    requires block < 0x1_0000_0000
    ensures fresh(t)
    ensures t[..] == T(prf, password, salt, block, if iterations >= 1 then iterations else 1)
  {
    hide XorSeq, BigEndianBytes;
    var counter := new Byte[4];
    counter[0] := block / 0x100_0000 % 256;
    counter[1] := block / 0x1_0000 % 256;
    counter[2] := block / 0x100 % 256;
    counter[3] := block % 256;
    assert counter[..] == BigEndianBytes(block, 4) by { BigEndian4(block); }

    var u := prf(password, salt + counter[..]);
    t := new Byte[HASH_LENGTH](j requires 0 <= j < HASH_LENGTH => u[j]);
    assert t[..] == u;
    var i := 1;
    while i < iterations
      invariant 1 <= i <= (if iterations >= 1 then iterations else 1)
      invariant u == U(prf, password, salt, block, i)
      invariant t.Length == HASH_LENGTH && fresh(t)
      invariant t[..] == T(prf, password, salt, block, i)
    {
      u := prf(password, u);
      XorInto(t, u);
      i := i + 1;
    }
  }

  /** The counter bytes are the low 32 bits of the block number, so they are the INT(i) of the
      definition while the block number fits in 32 bits. A count below 1 acts as 1. */
  method DeriveKey(prf: Prf, password: seq<Byte>, salt: seq<Byte>, iterations: int, keyLength: nat)
    returns (key: seq<Byte>)
    requires Ceiling(keyLength, HASH_LENGTH) < 0x1_0000_0000
    ensures key == DerivedKey(prf, password, salt, if iterations >= 1 then iterations else 1, keyLength)
  {
    ghost var count := if iterations >= 1 then iterations else 1;
    var blocks := (keyLength + HASH_LENGTH - 1) / HASH_LENGTH;
    var result: seq<Byte> := [];
    for block := 1 to blocks + 1
      invariant result == Blocks(prf, password, salt, count, block - 1)
    {
      var t := DeriveBlock(prf, password, salt, iterations, block);
      result := result + t[..];
    }
    CeilingCovers(keyLength);
    return result[..keyLength];
  }

  // ----- what the definition gives -----

  /** Byte j of U_1 to U_count, exclusive-ored together. */
  function XorColumn(prf: Prf, password: seq<Byte>, salt: seq<Byte>, block: nat, count: nat, j: nat): Byte
    requires count >= 1 && j < HASH_LENGTH
  {
    if count == 1 then U(prf, password, salt, block, 1)[j]
    else Xor(XorColumn(prf, password, salt, block, count - 1, j), U(prf, password, salt, block, count)[j])
  }

  lemma {:induction false} BlockColumn(prf: Prf, password: seq<Byte>, salt: seq<Byte>, block: nat, count: nat, j: nat)
    requires count >= 1 && j < HASH_LENGTH
    ensures T(prf, password, salt, block, count)[j] == XorColumn(prf, password, salt, block, count, j)
  {
    if count > 1 { BlockColumn(prf, password, salt, block, count - 1, j); }
  }

  lemma {:induction false} BlocksAt(prf: Prf, password: seq<Byte>, salt: seq<Byte>, count: nat, blocks: nat, k: nat)
    requires count >= 1 && k < blocks * HASH_LENGTH
    ensures Blocks(prf, password, salt, count, blocks)[k] ==
            T(prf, password, salt, k / HASH_LENGTH + 1, count)[k % HASH_LENGTH]
  {
    if k < (blocks - 1) * HASH_LENGTH {
      BlocksAt(prf, password, salt, count, blocks - 1, k);
    }
  }

  /** Byte k of the key is byte k mod 32 of U_1 to U_count of block k / 32 + 1, exclusive-ored. */
  lemma DerivedKeyAt(prf: Prf, password: seq<Byte>, salt: seq<Byte>, count: nat, length: nat, k: nat)
    requires count >= 1 && k < length
    ensures DerivedKey(prf, password, salt, count, length)[k] ==
            XorColumn(prf, password, salt, k / HASH_LENGTH + 1, count, k % HASH_LENGTH)
  {
    CeilingCovers(length);
    BlocksAt(prf, password, salt, count, Ceiling(length, HASH_LENGTH), k);
    BlockColumn(prf, password, salt, k / HASH_LENGTH + 1, count, k % HASH_LENGTH);
  }

  /** A shorter key is a prefix of a longer one: no byte depends on where the key is cut. */
  lemma DerivedKeyPrefix(prf: Prf, password: seq<Byte>, salt: seq<Byte>, count: nat, short: nat, long: nat)
    requires count >= 1 && short <= long
    ensures DerivedKey(prf, password, salt, count, short) == DerivedKey(prf, password, salt, count, long)[..short]
  {
    forall k | 0 <= k < short
      ensures DerivedKey(prf, password, salt, count, short)[k] == DerivedKey(prf, password, salt, count, long)[k]
    {
      DerivedKeyAt(prf, password, salt, count, short, k);
      DerivedKeyAt(prf, password, salt, count, long, k);
    }
  }

  /** A key of one block, spelled out for the first two iteration counts: the counter of the
      first block is the four bytes 0, 0, 0, 1, and each iterate is the PRF of the one before. */
  lemma ShortKey(prf: Prf, password: seq<Byte>, salt: seq<Byte>, length: nat)
    requires 0 < length <= 32
    ensures var first := prf(password, salt + [0, 0, 0, 1]);
            && DerivedKey(prf, password, salt, 1, length) == first[..length]
            && DerivedKey(prf, password, salt, 2, length) == XorSeq(first, prf(password, first))[..length]
  {
    hide XorSeq;
    BigEndian4(1);
    OneBlock(prf, password, salt, 1);
    OneBlock(prf, password, salt, 2);
    assert Ceiling(length, HASH_LENGTH) == 1;
  }

  lemma OneBlock(prf: Prf, password: seq<Byte>, salt: seq<Byte>, count: nat)
    requires count >= 1
    ensures Blocks(prf, password, salt, count, 1) == T(prf, password, salt, 1, count)
  {
    hide T;
    var t: seq<Byte> := T(prf, password, salt, 1, count);
    assert Blocks(prf, password, salt, count, 1) == Blocks(prf, password, salt, count, 0) + t == [] + t == t;
  }
}
