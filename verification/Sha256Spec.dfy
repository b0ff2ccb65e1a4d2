/** SHA-256 as the standard defines it, in arithmetic modulo 2^32 (FIPS 180-4). */
module Sha256Spec {
  import opened BlockChaining
  import opened Bytes

  /** The hash value: eight words of 32 bits. */
  type Hash = s: seq<bv32> | |s| == 8 witness seq(8, _ => 0)

  /** The eight working variables. */
  datatype Chain = Chain(a: bv32, b: bv32, c: bv32, d: bv32, e: bv32, f: bv32, g: bv32, h: bv32)

  /** Section 4.2.2 of FIPS 180-4. */
  const K0: seq<bv32> :=
    [0x428a2f98, 0x71374491, 0xb5c0fbcf, 0xe9b5dba5, 0x3956c25b, 0x59f111f1, 0x923f82a4, 0xab1c5ed5]
  const K1: seq<bv32> :=
    [0xd807aa98, 0x12835b01, 0x243185be, 0x550c7dc3, 0x72be5d74, 0x80deb1fe, 0x9bdc06a7, 0xc19bf174]
  const K2: seq<bv32> :=
    [0xe49b69c1, 0xefbe4786, 0x0fc19dc6, 0x240ca1cc, 0x2de92c6f, 0x4a7484aa, 0x5cb0a9dc, 0x76f988da]
  const K3: seq<bv32> :=
    [0x983e5152, 0xa831c66d, 0xb00327c8, 0xbf597fc7, 0xc6e00bf3, 0xd5a79147, 0x06ca6351, 0x14292967]
  const K4: seq<bv32> :=
    [0x27b70a85, 0x2e1b2138, 0x4d2c6dfc, 0x53380d13, 0x650a7354, 0x766a0abb, 0x81c2c92e, 0x92722c85]
  const K5: seq<bv32> :=
    [0xa2bfe8a1, 0xa81a664b, 0xc24b8b70, 0xc76c51a3, 0xd192e819, 0xd6990624, 0xf40e3585, 0x106aa070]
  const K6: seq<bv32> :=
    [0x19a4c116, 0x1e376c08, 0x2748774c, 0x34b0bcb5, 0x391c0cb3, 0x4ed8aa4a, 0x5b9cca4f, 0x682e6ff3]
  const K7: seq<bv32> :=
    [0x748f82ee, 0x78a5636f, 0x84c87814, 0x8cc70208, 0x90befffa, 0xa4506ceb, 0xbef9a3f7, 0xc67178f2]

  const K: seq<bv32> := K0 + K1 + K2 + K3 + K4 + K5 + K6 + K7

  /** Section 5.3.3 of FIPS 180-4. */
  const H0: Hash := [0x6a09e667, 0xbb67ae85, 0x3c6ef372, 0xa54ff53a, 0x510e527f, 0x9b05688c, 0x1f83d9ab, 0x5be0cd19]

  /** Addition modulo 2^32. */
  function Add(x: bv32, y: bv32): bv32 {
    x + y
  }

  function Xor3(x: bv32, y: bv32, z: bv32): bv32 {
    x ^ y ^ z
  }

  // Section 4.1.2 of FIPS 180-4.

  function Ch(x: bv32, y: bv32, z: bv32): bv32 {
    (x & y) ^ (!x & z)
  }

  function Maj(x: bv32, y: bv32, z: bv32): bv32 {
    (x & y) ^ (x & z) ^ (y & z)
  }

  function BigSigma0(x: bv32): bv32 {
    Xor3(x.RotateRight(2), x.RotateRight(13), x.RotateRight(22))
  }

  function BigSigma1(x: bv32): bv32 {
    Xor3(x.RotateRight(6), x.RotateRight(11), x.RotateRight(25))
  }

  function SmallSigma0(x: bv32): bv32 {
    Xor3(x.RotateRight(7), x.RotateRight(18), x >> 3)
  }

  function SmallSigma1(x: bv32): bv32 {
    Xor3(x.RotateRight(17), x.RotateRight(19), x >> 10)
  }

  function BigEndianWord(b0: bv8, b1: bv8, b2: bv8, b3: bv8): bv32 {
    ((b0 as bv32) << 24) | ((b1 as bv32) << 16) | ((b2 as bv32) << 8) | (b3 as bv32)
  }

  /** The message schedule, section 6.2.2 step 1. */
  function Schedule(block: Block, t: nat): bv32
    requires t < 64
  {
    if t < 16
      then BigEndianWord(block[4 * t] as bv8, block[4 * t + 1] as bv8, block[4 * t + 2] as bv8, block[4 * t + 3] as bv8)
    else Add(Add(Add(SmallSigma1(Schedule(block, t - 2)), Schedule(block, t - 7)),
                 SmallSigma0(Schedule(block, t - 15))), Schedule(block, t - 16))
  }

  function T1(v: Chain, k: bv32, w: bv32): bv32 {
    Add(Add(Add(Add(v.h, BigSigma1(v.e)), Ch(v.e, v.f, v.g)), k), w)
  }

  function T2(v: Chain): bv32 {
    Add(BigSigma0(v.a), Maj(v.a, v.b, v.c))
  }

  /** One round of section 6.2.2 step 3. */
  function Round(v: Chain, k: bv32, w: bv32): Chain {
    Chain(Add(T1(v, k, w), T2(v)), v.a, v.b, v.c, Add(v.d, T1(v, k, w)), v.e, v.f, v.g)
  }

  function Rounds(v: Chain, block: Block, t: nat): Chain
    requires t <= 64
  {
    if t == 0 then v else Round(Rounds(v, block, t - 1), K[t - 1], Schedule(block, t - 1))
  }

  /** Step 2: the working variables start as the hash value. */
  function Start(v: Hash): Chain {
    Chain(v[0], v[1], v[2], v[3], v[4], v[5], v[6], v[7])
  }

  /** The working variables after all rounds. */
  function Mixed(v: Hash, block: Block): Hash {
    var r := Rounds(Start(v), block, 64);
    [r.a, r.b, r.c, r.d, r.e, r.f, r.g, r.h]
  }

  /** Section 6.2.2: the hash value after one more block. */
  function Compress(v: Hash, block: Block): Hash {
    var r := Mixed(v, block);
    seq(8, j requires 0 <= j < 8 => Add(v[j], r[j]))
  }

  /** The number of zero bytes in the padding of a message of n bytes. */
  function ZeroCount(n: nat): nat {
    (119 - n % 64) % 64
  }

  /** Section 5.1.1: a one bit, zeros, and the message length in bits as a 64-bit integer. */
  function Padding(n: nat): seq<Byte> {
    [0x80] + seq(ZeroCount(n), _ => 0) + BigEndian(8 * n % TWO_TO_64, 8)
  }

  lemma ZeroCountFills(n: nat)
    ensures (n + (ZeroCount(n) + 9)) % 64 == 0
  {
  }

  /** The zero bytes are the least number that puts the length field at the end of a block. */
  lemma ZeroCountIsLeast(n: nat, z: nat)
    requires z < ZeroCount(n)
    ensures (n + 1 + ZeroCount(n)) % 64 == 56
    ensures (n + 1 + z) % 64 != 56
  {
  }

  lemma PaddedLength(n: nat)
    ensures |Padding(n)| == ZeroCount(n) + 9
    ensures (n + |Padding(n)|) % 64 == 0
  {
    ZeroCountFills(n);
  }

  function Sha256(message: seq<Byte>): Hash {
    PaddedLength(|message|);
    Absorb(Compress, H0, message + Padding(|message|))
  }

  /** Byte i of a word, most significant first. */
  function ByteOfWord(x: bv32, i: nat): Byte
    requires i < 4
  {
    match i
    case 0 => ((x >> 24) as bv8) as nat
    case 1 => (((x >> 16) & 0xff) as bv8) as nat
    case 2 => (((x >> 8) & 0xff) as bv8) as nat
    case 3 => ((x & 0xff) as bv8) as nat
  }

  /** The digest as bytes: section 6.2.2, the concatenated words of the final hash value. */
  function Digest(v: seq<bv32>): seq<Byte> {
    seq(4 * |v|, k requires 0 <= k < 4 * |v| => ByteOfWord(v[k / 4], k % 4))
  }

  // Words and bytes as numbers: the most significant byte comes first.

  function Number(x: bv32): nat {
    x as nat
  }

  function ByteNumber(b: bv8): Byte {
    b as nat
  }

  lemma OrIsSum(b0: bv8, b1: bv8, b2: bv8, b3: bv8)
    ensures (((b0 as bv32) << 24) | ((b1 as bv32) << 16) | ((b2 as bv32) << 8) | (b3 as bv32)) as nat
         == 0x100_0000 * (b0 as nat) + 0x1_0000 * (b1 as nat) + 0x100 * (b2 as nat) + b3 as nat
  {
  }

  lemma NumberIs(x: bv32)
    ensures Number(x) == x as nat
  {
  }

  lemma OrNumber(b0: bv8, b1: bv8, b2: bv8, b3: bv8)
    ensures Number(((b0 as bv32) << 24) | ((b1 as bv32) << 16) | ((b2 as bv32) << 8) | (b3 as bv32))
         == 0x100_0000 * (ByteNumber(b0) as nat) + 0x1_0000 * (ByteNumber(b1) as nat) + 0x100 * (ByteNumber(b2) as nat)
            + ByteNumber(b3)
  {
    hide Number;
    OrIsSum(b0, b1, b2, b3);
    NumberIs(((b0 as bv32) << 24) | ((b1 as bv32) << 16) | ((b2 as bv32) << 8) | (b3 as bv32));
  }

  lemma FourBytes(s: seq<Byte>)
    requires |s| == 4
    ensures var b0: nat, b1: nat, b2: nat, b3: nat := s[0], s[1], s[2], s[3];
      FromBigEndian(s) == 0x100_0000 * b0 + 0x1_0000 * b1 + 0x100 * b2 + b3
  {
    assert s[..3][..2] == s[..2] && s[..2][..1] == s[..1] && s[..1][..0] == [];
    assert FromBigEndian(s[..1]) == s[0];
    assert FromBigEndian(s[..2]) == 256 * FromBigEndian(s[..1]) + s[1];
    assert FromBigEndian(s[..3]) == 256 * FromBigEndian(s[..2]) + s[2];
  }

  /** A word made of four bytes is the number that these bytes denote. */
  lemma WordIsBigEndian(b0: bv8, b1: bv8, b2: bv8, b3: bv8)
    ensures Number(BigEndianWord(b0, b1, b2, b3))
         == FromBigEndian([ByteNumber(b0), ByteNumber(b1), ByteNumber(b2), ByteNumber(b3)])
  {
    hide Number, ByteNumber, FromBigEndian;
    OrNumber(b0, b1, b2, b3);
    FourBytes([ByteNumber(b0), ByteNumber(b1), ByteNumber(b2), ByteNumber(b3)]);
  }

  lemma ByteKept(b: Byte)
    ensures ByteNumber(b as bv8) == b
  {
    assert b % 256 == b;
  }

  /** The first 16 words of the schedule are the block itself, read as big-endian numbers. */
  lemma ScheduleStartsWithBlock(block: Block, t: nat)
    requires t < 16
    ensures Number(Schedule(block, t)) == FromBigEndian(block[4 * t..4 * t + 4])
  {
    var s := block[4 * t..4 * t + 4];
    ByteKept(s[0]);
    ByteKept(s[1]);
    ByteKept(s[2]);
    ByteKept(s[3]);
    WordIsBigEndian(s[0] as bv8, s[1] as bv8, s[2] as bv8, s[3] as bv8);
    hide BigEndianWord, FromBigEndian, Number, ByteNumber;
    assert s == [s[0], s[1], s[2], s[3]];
  }

  lemma BytesMakeWord(x: bv32)
    ensures x == BigEndianWord((x >> 24) as bv8, ((x >> 16) & 0xff) as bv8, ((x >> 8) & 0xff) as bv8, (x & 0xff) as bv8)
  {
  }

  lemma BytesOfWord(x: bv32)
    ensures [ByteOfWord(x, 0), ByteOfWord(x, 1), ByteOfWord(x, 2), ByteOfWord(x, 3)]
      == [ByteNumber((x >> 24) as bv8), ByteNumber(((x >> 16) & 0xff) as bv8), ByteNumber(((x >> 8) & 0xff) as bv8),
          ByteNumber((x & 0xff) as bv8)]
  {
  }

  /** Four bytes of the digest at a time are the words of the hash value, as big-endian numbers. */
  lemma DigestIsBigEndian(v: Hash, i: nat)
    requires i < 8
    ensures |Digest(v)| == 32 && FromBigEndian(Digest(v)[4 * i..4 * i + 4]) == Number(v[i])
  {
    hide FromBigEndian, Number, ByteNumber, BigEndianWord, ByteOfWord;
    var x := v[i];
    BytesMakeWord(x);
    BytesOfWord(x);
    WordIsBigEndian((x >> 24) as bv8, ((x >> 16) & 0xff) as bv8, ((x >> 8) & 0xff) as bv8, (x & 0xff) as bv8);
    DigestBytes(v, i);
  }

  lemma DigestBytes(v: Hash, i: nat)
    requires i < 8
    ensures |Digest(v)| == 32
    ensures Digest(v)[4 * i..4 * i + 4]
      == [ByteOfWord(v[i], 0), ByteOfWord(v[i], 1), ByteOfWord(v[i], 2), ByteOfWord(v[i], 3)]
  {
    hide ByteOfWord;
  }
}
