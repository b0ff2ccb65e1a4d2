/** The check value by which implementations of this check word are known: 0x29b1 for the digits "123456789". */
module Crc16Example {
  import opened Bytes
  import opened Crc16

  /** A hexadecimal digit at place i of a list of bits. */
  predicate Hex(bits: seq<bool>, i: nat, digit: nat)
    requires i + 4 <= |bits|
  {
    && bits[i] == (digit / 8 % 2 == 1) && bits[i + 1] == (digit / 4 % 2 == 1)
    && bits[i + 2] == (digit / 2 % 2 == 1) && bits[i + 3] == (digit % 2 == 1)
  }

  /** The four digits of a register. */
  predicate Reads(c: Register, p: nat, q: nat, r: nat, s: nat) {
    Hex(c, 0, p) && Hex(c, 4, q) && Hex(c, 8, r) && Hex(c, 12, s)
  }

  lemma LastDigit(v: nat, digit: nat, n: nat)
    requires digit < 16
    ensures Bits(16 * v + digit, n + 4)[..n] == Bits(v, n) && Hex(Bits(16 * v + digit, n + 4), n, digit)
  {
    var w := 16 * v + digit;
    assert w / 2 / 2 / 2 / 2 == v;
    assert Bits(w, n + 4) == Bits(w / 2, n + 3) + [w % 2 == 1];
    assert Bits(w / 2, n + 3) == Bits(w / 2 / 2, n + 2) + [w / 2 % 2 == 1];
    assert Bits(w / 2 / 2, n + 2) == Bits(w / 2 / 2 / 2, n + 1) + [w / 2 / 2 % 2 == 1];
    assert Bits(w / 2 / 2 / 2, n + 1) == Bits(v, n) + [w / 2 / 2 / 2 % 2 == 1];
  }

  lemma HexOfPrefix(bits: seq<bool>, n: nat, i: nat, digit: nat)
    requires i + 4 <= n <= |bits| && Hex(bits[..n], i, digit)
    ensures Hex(bits, i, digit)
  {
  }

  lemma TwoDigits(p: nat, q: nat)
    requires p < 16 && q < 16
    ensures Hex(Bits(16 * p + q, 8), 0, p) && Hex(Bits(16 * p + q, 8), 4, q)
  {
    hide Bits, Hex;
    LastDigit(p, q, 4);
    LastDigit(0, p, 0);
    HexOfPrefix(Bits(16 * p + q, 8), 4, 0, p);
  }

  lemma FourDigits(p: nat, q: nat, r: nat, s: nat)
    requires p < 16 && q < 16 && r < 16 && s < 16
    ensures Reads(Bits(4096 * p + 256 * q + 16 * r + s, 16), p, q, r, s)
  {
    hide Bits, Hex;
    var u := 16 * p + q;
    var v := 16 * u + r;
    var b := Bits(16 * v + s, 16);
    LastDigit(v, s, 12);
    LastDigit(u, r, 8);
    TwoDigits(p, q);
    HexOfPrefix(b[..12], 8, 0, p);
    HexOfPrefix(b[..12], 8, 4, q);
    HexOfPrefix(b, 12, 0, p);
    HexOfPrefix(b, 12, 4, q);
    HexOfPrefix(b, 12, 8, r);
  }

  /** One bit of the division. */
  function After(c: Register, bit: bool): Register {
    BitStep(Xor(c, BitAt(0, bit)))
  }

  lemma Tap(i: nat)
    requires i < 16
    ensures POLYNOMIAL[i] <==> i == 3 || i == 10 || i == 15
  {
    FourDigits(1, 0, 2, 1);
    assert POLYNOMIAL == Bits(0x1021, 16);
    hide POLYNOMIAL, Bits;
  }

  lemma Place(c: Register, bit: bool, i: nat)
    requires i < 16
    ensures After(c, bit)[i] == ((i < 15 && c[i + 1]) != ((i == 3 || i == 10 || i == 15) && c[0] != bit))
  {
    var d := Xor(c, BitAt(0, bit));
    assert d[0] == (c[0] != bit) && (i < 15 ==> d[i + 1] == c[i + 1]);
    BitStepAt(d, i);
    Tap(i);
    hide BitStep, POLYNOMIAL, Xor, BitAt;
  }

  /** d is c one bit further, x being the bit that falls out. */
  predicate Shifted(c: Register, x: bool, d: Register) {
    && d[0] == c[1] && d[1] == c[2] && d[2] == c[3] && d[3] == (c[4] != x) && d[4] == c[5] && d[5] == c[6]
    && d[6] == c[7] && d[7] == c[8] && d[8] == c[9] && d[9] == c[10] && d[10] == (c[11] != x) && d[11] == c[12]
    && d[12] == c[13] && d[13] == c[14] && d[14] == c[15] && d[15] == x
  }

  lemma Places(c: Register, bit: bool)
    ensures Shifted(c, c[0] != bit, After(c, bit))
  {
    hide After;
    forall i | 0 <= i < 16
      ensures After(c, bit)[i] == ((i < 15 && c[i + 1]) != ((i == 3 || i == 10 || i == 15) && c[0] != bit))
    {
      Place(c, bit, i);
    }
  }

  /** Four bits further: each bit that falls out is subtracted at three places. */
  predicate ShiftedByFour(c: Register, x0: bool, x1: bool, x2: bool, x3: bool, d: Register) {
    && d[0] == (c[4] != x0) && d[1] == (c[5] != x1) && d[2] == (c[6] != x2) && d[3] == (c[7] != x3)
    && d[4] == c[8] && d[5] == c[9] && d[6] == c[10] && d[7] == (c[11] != x0)
    && d[8] == (c[12] != x1) && d[9] == (c[13] != x2) && d[10] == (c[14] != x3) && d[11] == c[15]
    && d[12] == x0 && d[13] == x1 && d[14] == x2 && d[15] == x3
  }

  lemma FourTimes(c: Register, x0: bool, c1: Register, x1: bool, c2: Register, x2: bool, c3: Register, x3: bool,
                  d: Register)
    requires Shifted(c, x0, c1) && Shifted(c1, x1, c2) && Shifted(c2, x2, c3) && Shifted(c3, x3, d)
    ensures ShiftedByFour(c, x0, x1, x2, x3, d) && c1[0] == c[1] && c2[0] == c[2] && c3[0] == c[3]
  {
  }

  function AfterAll(c: Register, b: seq<bool>): Register
    requires |b| == 8
  {
    After(After(After(After(After(After(After(After(c, b[0]), b[1]), b[2]), b[3]), b[4]), b[5]), b[6]), b[7])
  }

  lemma FedBit(c: Register, b: seq<bool>, i: nat)
    requires i < |b|
    ensures Feed(c, b[i..]) == Feed(After(c, b[i]), b[i + 1..])
  {
    assert b[i..][1..] == b[i + 1..];
    hide BitStep, Xor, BitAt;
  }

  lemma FedByte(c: Register, b: seq<bool>)
    requires |b| == 8
    ensures Feed(c, b) == AfterAll(c, b)
  {
    assert b[0..] == b && b[8..] == [];
    var c8 := AfterAll(c, b);
    assert Feed(c8, b[8..]) == c8;
    hide After, Feed;
    FedBit(c, b, 0);
    var c1 := After(c, b[0]);
    FedBit(c1, b, 1);
    var c2 := After(c1, b[1]);
    FedBit(c2, b, 2);
    var c3 := After(c2, b[2]);
    FedBit(c3, b, 3);
    var c4 := After(c3, b[3]);
    FedBit(c4, b, 4);
    var c5 := After(c4, b[4]);
    FedBit(c5, b, 5);
    var c6 := After(c5, b[5]);
    FedBit(c6, b, 6);
    FedBit(After(c6, b[6]), b, 7);
  }

  lemma FourPlaces(c: Register, b0: bool, b1: bool, b2: bool, b3: bool)
    ensures ShiftedByFour(c, c[0] != b0, c[1] != b1, c[2] != b2, c[3] != b3,
                          After(After(After(After(c, b0), b1), b2), b3))
  {
    hide *;
    var c1 := After(c, b0);
    var c2 := After(c1, b1);
    var c3 := After(c2, b2);
    Places(c, b0);
    Places(c1, b1);
    Places(c2, b2);
    Places(c3, b3);
    FourTimes(c, c[0] != b0, c1, c1[0] != b1, c2, c2[0] != b2, c3, c3[0] != b3, After(c3, b3));
  }

  /** m is c four bits further, and d another four, when the bits of b are fed. */
  predicate ByteShifted(c: Register, b: seq<bool>, m: Register, d: Register)
    requires |b| == 8
  {
    && ShiftedByFour(c, c[0] != b[0], c[1] != b[1], c[2] != b[2], c[3] != b[3], m)
    && ShiftedByFour(m, m[0] != b[4], m[1] != b[5], m[2] != b[6], m[3] != b[7], d)
  }

  lemma BytePlaces(c: Register, b: seq<bool>) returns (m: Register)
    requires |b| == 8
    ensures ByteShifted(c, b, m, Feed(c, b))
  {
    hide Feed, After, ShiftedByFour;
    m := After(After(After(After(c, b[0]), b[1]), b[2]), b[3]);
    FedByte(c, b);
    FourPlaces(c, b[0], b[1], b[2], b[3]);
    FourPlaces(m, b[4], b[5], b[6], b[7]);
  }

  /** One more byte of a message, given by its two digits. */
  lemma NextByte(message: seq<Byte>, p: nat, q: nat) returns (m: Register)
    requires p < 16 && q < 16
    ensures var b := Bits(16 * p + q, 8);
      Hex(b, 0, p) && Hex(b, 4, q) && ByteShifted(Crc(message), b, m, Crc(message + [16 * p + q]))
  {
    assert MessageBits([16 * p + q]) == Bits(16 * p + q, 8) by {
      assert [16 * p + q][1..] == [] && MessageBits([]) == [];
    }
    hide *;
    TwoDigits(p, q);
    CrcAppend(message, [16 * p + q]);
    m := BytePlaces(Crc(message), Bits(16 * p + q, 8));
  }

  lemma Digit1(c: Register, b: seq<bool>, m: Register, d: Register)
    requires |b| == 8 && Hex(b, 0, 3) && Hex(b, 4, 1) && ByteShifted(c, b, m, d) && Reads(c, 0xf, 0xf, 0xf, 0xf)
    ensures Reads(d, 0xc, 0x7, 0x8, 0x2)
  {
  }

  lemma Digit2(c: Register, b: seq<bool>, m: Register, d: Register)
    requires |b| == 8 && Hex(b, 0, 3) && Hex(b, 4, 2) && ByteShifted(c, b, m, d) && Reads(c, 0xc, 0x7, 0x8, 0x2)
    ensures Reads(d, 0x3, 0xd, 0xb, 0xa)
  {
  }

  lemma Digit3(c: Register, b: seq<bool>, m: Register, d: Register)
    requires |b| == 8 && Hex(b, 0, 3) && Hex(b, 4, 3) && ByteShifted(c, b, m, d) && Reads(c, 0x3, 0xd, 0xb, 0xa)
    ensures Reads(d, 0x5, 0xb, 0xc, 0xe)
  {
  }

  lemma Digit4(c: Register, b: seq<bool>, m: Register, d: Register)
    requires |b| == 8 && Hex(b, 0, 3) && Hex(b, 4, 4) && ByteShifted(c, b, m, d) && Reads(c, 0x5, 0xb, 0xc, 0xe)
    ensures Reads(d, 0x5, 0x3, 0x4, 0x9)
  {
  }

  lemma Digit5(c: Register, b: seq<bool>, m: Register, d: Register)
    requires |b| == 8 && Hex(b, 0, 3) && Hex(b, 4, 5) && ByteShifted(c, b, m, d) && Reads(c, 0x5, 0x3, 0x4, 0x9)
    ensures Reads(d, 0x4, 0x5, 0x6, 0x0)
  {
  }

  lemma Digit6(c: Register, b: seq<bool>, m: Register, d: Register)
    requires |b| == 8 && Hex(b, 0, 3) && Hex(b, 4, 6) && ByteShifted(c, b, m, d) && Reads(c, 0x4, 0x5, 0x6, 0x0)
    ensures Reads(d, 0x2, 0xe, 0xf, 0x4)
  {
  }

  lemma Digit7(c: Register, b: seq<bool>, m: Register, d: Register)
    requires |b| == 8 && Hex(b, 0, 3) && Hex(b, 4, 7) && ByteShifted(c, b, m, d) && Reads(c, 0x2, 0xe, 0xf, 0x4)
    ensures Reads(d, 0x7, 0x7, 0x1, 0x8)
  {
  }

  lemma Digit8(c: Register, b: seq<bool>, m: Register, d: Register)
    requires |b| == 8 && Hex(b, 0, 3) && Hex(b, 4, 8) && ByteShifted(c, b, m, d) && Reads(c, 0x7, 0x7, 0x1, 0x8)
    ensures Reads(d, 0xa, 0x1, 0x2, 0xb)
  {
  }

  lemma Digit9(c: Register, b: seq<bool>, m: Register, d: Register)
    requires |b| == 8 && Hex(b, 0, 3) && Hex(b, 4, 9) && ByteShifted(c, b, m, d) && Reads(c, 0xa, 0x1, 0x2, 0xb)
    ensures Reads(d, 0x2, 0x9, 0xb, 0x1)
  {
  }

  lemma FirstRegister()
    ensures Reads(Crc([]), 0xf, 0xf, 0xf, 0xf)
  {
    FourDigits(15, 15, 15, 15);
    assert MessageBits([]) == [];
    assert Crc([]) == Bits(0xffff, 16);
    hide Bits;
  }

  lemma SameDigits(x: seq<bool>, y: seq<bool>, p: nat, q: nat)
    requires |x| == |y| == 8 && Hex(x, 0, p) && Hex(x, 4, q) && Hex(y, 0, p) && Hex(y, 4, q)
    ensures x == y
  {
  }

  lemma OneByte(bits: seq<bool>, p: nat, q: nat)
    requires |bits| == 8 && p < 16 && q < 16 && Hex(bits, 0, p) && Hex(bits, 4, q)
    ensures Value(bits) == 16 * p + q
  {
    assert Power(8) == 256;
    hide Bits, Value, Hex, Power;
    TwoDigits(p, q);
    SameDigits(bits, Bits(16 * p + q, 8), p, q);
    ValueOfBits(16 * p + q, 8);
  }

  lemma WordOfDigits(c: Register)
    requires Reads(c, 0x2, 0x9, 0xb, 0x1)
    ensures CheckWord(c) == [0x29, 0xb1]
  {
    hide Value, Power;
    OneByte(c[..8], 0x2, 0x9);
    OneByte(c[8..], 0xb, 0x1);
  }

  /** The check word of "123456789" in ASCII. */
  lemma KnownCheckValue()
    ensures CheckWord(Crc([0x31, 0x32, 0x33, 0x34, 0x35, 0x36, 0x37, 0x38, 0x39])) == [0x29, 0xb1]
  {
    hide *;
    FirstRegister();
    var m1 := NextByte([], 3, 1);
    assert [] + [0x31] == [0x31];
    Digit1(Crc([]), Bits(0x31, 8), m1, Crc([0x31]));
    var m2 := NextByte([0x31], 3, 2);
    assert [0x31] + [0x32] == [0x31, 0x32];
    Digit2(Crc([0x31]), Bits(0x32, 8), m2, Crc([0x31, 0x32]));
    var m3 := NextByte([0x31, 0x32], 3, 3);
    assert [0x31, 0x32] + [0x33] == [0x31, 0x32, 0x33];
    Digit3(Crc([0x31, 0x32]), Bits(0x33, 8), m3, Crc([0x31, 0x32, 0x33]));
    var m4 := NextByte([0x31, 0x32, 0x33], 3, 4);
    assert [0x31, 0x32, 0x33] + [0x34] == [0x31, 0x32, 0x33, 0x34];
    Digit4(Crc([0x31, 0x32, 0x33]), Bits(0x34, 8), m4, Crc([0x31, 0x32, 0x33, 0x34]));
    var m5 := NextByte([0x31, 0x32, 0x33, 0x34], 3, 5);
    assert [0x31, 0x32, 0x33, 0x34] + [0x35] == [0x31, 0x32, 0x33, 0x34, 0x35];
    Digit5(Crc([0x31, 0x32, 0x33, 0x34]), Bits(0x35, 8), m5, Crc([0x31, 0x32, 0x33, 0x34, 0x35]));
    var m6 := NextByte([0x31, 0x32, 0x33, 0x34, 0x35], 3, 6);
    assert [0x31, 0x32, 0x33, 0x34, 0x35] + [0x36] == [0x31, 0x32, 0x33, 0x34, 0x35, 0x36];
    Digit6(Crc([0x31, 0x32, 0x33, 0x34, 0x35]), Bits(0x36, 8), m6, Crc([0x31, 0x32, 0x33, 0x34, 0x35, 0x36]));
    var m7 := NextByte([0x31, 0x32, 0x33, 0x34, 0x35, 0x36], 3, 7);
    assert [0x31, 0x32, 0x33, 0x34, 0x35, 0x36] + [0x37] == [0x31, 0x32, 0x33, 0x34, 0x35, 0x36, 0x37];
    Digit7(Crc([0x31, 0x32, 0x33, 0x34, 0x35, 0x36]), Bits(0x37, 8), m7,
           Crc([0x31, 0x32, 0x33, 0x34, 0x35, 0x36, 0x37]));
    var m8 := NextByte([0x31, 0x32, 0x33, 0x34, 0x35, 0x36, 0x37], 3, 8);
    assert [0x31, 0x32, 0x33, 0x34, 0x35, 0x36, 0x37] + [0x38] == [0x31, 0x32, 0x33, 0x34, 0x35, 0x36, 0x37, 0x38];
    Digit8(Crc([0x31, 0x32, 0x33, 0x34, 0x35, 0x36, 0x37]), Bits(0x38, 8), m8,
           Crc([0x31, 0x32, 0x33, 0x34, 0x35, 0x36, 0x37, 0x38]));
    var m9 := NextByte([0x31, 0x32, 0x33, 0x34, 0x35, 0x36, 0x37, 0x38], 3, 9);
    assert [0x31, 0x32, 0x33, 0x34, 0x35, 0x36, 0x37, 0x38] + [0x39]
      == [0x31, 0x32, 0x33, 0x34, 0x35, 0x36, 0x37, 0x38, 0x39];
    Digit9(Crc([0x31, 0x32, 0x33, 0x34, 0x35, 0x36, 0x37, 0x38]), Bits(0x39, 8), m9,
           Crc([0x31, 0x32, 0x33, 0x34, 0x35, 0x36, 0x37, 0x38, 0x39]));
    WordOfDigits(Crc([0x31, 0x32, 0x33, 0x34, 0x35, 0x36, 0x37, 0x38, 0x39]));
  }
}
