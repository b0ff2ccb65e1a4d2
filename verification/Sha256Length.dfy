/**
 The message length counter of the hasher: four 16-bit digits, least significant first, each stored
 in a 64-bit word. Shifts and masks of these words are written as division and remainder.
 */
module Sha256Length {
  import opened BitOps
  import opened Bytes

  predicate Digits(d: seq<nat>) {
    |d| == 4 && forall i | 0 <= i < 4 :: d[i] < 0x1_0000
  }

  function Value(d: seq<nat>): nat
    requires |d| == 4
  {
    d[0] + 0x1_0000 * d[1] + 0x1_0000_0000 * d[2] + 0x1_0000_0000_0000 * d[3]
  }

  function Place(i: nat): nat
    requires i <= 4
  {
    match i case 0 => 1 case 1 => 0x1_0000 case 2 => 0x1_0000_0000 case 3 => 0x1_0000_0000_0000 case 4 => TWO_TO_64
  }

  /** What the digits denote together with a carry into place i. */
  function Total(d: seq<nat>, i: nat, carry: nat): nat
    requires |d| == 4 && i <= 4
  {
    Value(d) + Place(i) * carry
  }

  lemma TotalEnds(d: seq<nat>, i: nat, carry: nat)
    requires |d| == 4 && i <= 4
    ensures Total(d, i, 0) == Value(d)
    ensures Total(d, 4, carry) == Value(d) + TWO_TO_64 * carry
  {
  }

  /** Moving the carry out of digit i into the next place keeps the total. */
  lemma CarryStep(d: seq<nat>, i: nat, carry: nat, e: seq<nat>, carry': nat)
    requires |d| == 4 && i < 4
    requires carry' == (d[i] + carry) / 0x1_0000
    requires e == d[i := (d[i] + carry) % 0x1_0000]
    ensures Total(e, i + 1, carry') == Total(d, i, carry)
  {
    var x := d[i] + carry;
    assert x == 0x1_0000 * carry' + e[i];
    match i case 0 => case 1 => case 2 => case 3 =>
  }

  /** A digit plus a carry fits a word, and the next carry stays small. */
  lemma WordSum(x: nat, carry: nat)
    requires x + carry < TWO_TO_64
    ensures (x + carry) % TWO_TO_64 == x + carry
    ensures (x + carry) / 0x1_0000 < 0x1_0000_0000_0000
    ensures x + carry < 0x1_0000 ==> (x + carry) / 0x1_0000 == 0 && (x + carry) % 0x1_0000 == x + carry
  {
  }

  lemma Reduces(v: nat, total: nat, wraps: int)
    requires v < TWO_TO_64 && total == v + TWO_TO_64 * wraps
    ensures v == total % TWO_TO_64
  {
  }

  lemma ValueBound(d: seq<nat>)
    requires Digits(d)
    ensures Value(d) < TWO_TO_64
  {
  }

  /** The loop of add_to_data_length: every digit ends below 2^16; lost is what leaves the top digit. */
  method PropagateCarry(d: array<nat>) returns (ghost lost: nat)
    requires d.Length == 4 && d[0] < TWO_TO_64 && forall j | 0 < j < 4 :: d[j] < 0x1_0000
    modifies d
    ensures Digits(d[..]) && Value(d[..]) + TWO_TO_64 * lost == old(Value(d[..]))
  {
    hide Total, Value;
    var carry := 0;
    var i := 0;
    TotalEnds(d[..], i, carry);
    while i < 4
      invariant 0 <= i <= 4 && 0 <= carry < 0x1_0000_0000_0000
      invariant forall j | 0 <= j < i :: d[j] < 0x1_0000
      invariant forall j | i <= j < 4 && j > 0 :: d[j] < 0x1_0000
      invariant i == 0 ==> carry == 0 && d[0] < TWO_TO_64
      invariant Total(d[..], i, carry) == old(Value(d[..]))
    {
      ghost var before := d[..];
      WordSum(d[i], carry);
      d[i] := (d[i] + carry) % TWO_TO_64;
      if d[i] < 0x1_0000 {
        CarryStep(before, i, carry, d[..], 0);
        TotalEnds(d[..], i + 1, 0);
        return 0;
      }
      CarryStep(before, i, carry, before[i := d[i] % 0x1_0000], d[i] / 0x1_0000);
      carry := d[i] / 0x1_0000;
      d[i] := d[i] % 0x1_0000;
      assert d[..] == before[i := d[i]];
      i := i + 1;
    }
    TotalEnds(d[..], i, carry);
    return carry;
  }

  /** add_to_data_length: the digits denote the sum modulo 2^64, for every size n cast to a 64-bit word. */
  method AddToDataLength(d: array<nat>, n: nat)
    requires d.Length == 4 && Digits(d[..]) && n < TWO_TO_64
    modifies d
    ensures Digits(d[..]) && Value(d[..]) == (old(Value(d[..])) + n) % TWO_TO_64
  {
    ghost var sum := Value(d[..]) + n;
    ghost var wraps := (d[0] + n) / TWO_TO_64;
    d[0] := (d[0] + n) % TWO_TO_64;
    assert Value(d[..]) + TWO_TO_64 * wraps == sum;
    ghost var lost := PropagateCarry(d);
    ValueBound(d[..]);
    Reduces(Value(d[..]), sum, wraps + lost);
  }

  /** Shifting a digit left by three and or-ing in three carried bits is multiplying by eight and adding them. */
  lemma ShiftOrIsSum(x: nat, carry: nat)
    requires carry < 8
    ensures Or(Shl(x, 3), carry) == 8 * x + carry
  {
    OrIsSum(x, 3, carry);
    assert Shl(x, 3) == 2 * Shl(x, 2) && Shl(x, 2) == 2 * Shl(x, 1) && Shl(x, 1) == 2 * Shl(x, 0);
  }

  /** The digits of eight times the value. */
  predicate ShiftedUpTo(d: seq<nat>, b: seq<nat>, i: nat)
    requires |d| == 4 && |b| == 4 && i <= 4
  {
    forall j | 0 <= j < i :: b[j] == (8 * d[j] + CarryInto(d, j)) % 0x1_0000
  }

  function CarryInto(d: seq<nat>, i: nat): nat
    requires |d| == 4 && i <= 4
  {
    if i == 0 then 0 else d[i - 1] / 0x2000
  }

  lemma ShiftedDigit(x: nat, c: nat)
    requires x < 0x1_0000 && c < 8
    ensures 8 * x + c == (8 * x + c) % 0x1_0000 + 0x1_0000 * (x / 0x2000)
    ensures x / 0x2000 < 8
  {
  }

  lemma ShiftedValue(d: seq<nat>, b: seq<nat>)
    requires Digits(d) && |b| == 4 && ShiftedUpTo(d, b, 4)
    ensures Digits(b) && Value(b) == 8 * Value(d) % TWO_TO_64
  {
    ShiftedDigit(d[0], 0);
    ShiftedDigit(d[1], CarryInto(d, 1));
    ShiftedDigit(d[2], CarryInto(d, 2));
    ShiftedDigit(d[3], CarryInto(d, 3));
    assert Value(b) + TWO_TO_64 * (d[3] / 0x2000) == 8 * Value(d);
    ValueBound(b);
    Reduces(Value(b), 8 * Value(d), d[3] / 0x2000);
  }

  function DigitBytes(x: nat): seq<Byte> {
    [x / 256 % 256, x % 256]
  }

  /** The lowest digit of v + 2^16 rest gives the last two bytes. */
  lemma BigEndianDigit(x: nat, rest: nat, size: nat)
    requires x < 0x1_0000
    ensures BigEndian(x + 0x1_0000 * rest, size + 2) == BigEndian(rest, size) + DigitBytes(x)
  {
    var v := x + 0x1_0000 * rest;
    assert v % 256 == x % 256 && v / 256 == x / 256 + 256 * rest;
    assert (v / 256) % 256 == x / 256 % 256 && v / 256 / 256 == rest;
    assert BigEndian(v, size + 2) == BigEndian(v / 256, size + 1) + [v % 256];
    assert BigEndian(v / 256, size + 1) == BigEndian(rest, size) + [x / 256 % 256];
  }

  lemma ValueByDigits(b: seq<nat>)
    requires Digits(b)
    ensures Value(b) == b[0] + 0x1_0000 * (b[1] + 0x1_0000 * (b[2] + 0x1_0000 * (b[3] + 0x1_0000 * 0)))
  {
  }

  lemma WrittenByDigits(b: seq<nat>)
    requires |b| == 4
    ensures Written(b, 0) == [] + DigitBytes(b[3]) + DigitBytes(b[2]) + DigitBytes(b[1]) + DigitBytes(b[0])
  {
    hide DigitBytes;
    assert Written(b, 4) == [];
    assert Written(b, 2) == Written(b, 3) + DigitBytes(b[2]);
    assert Written(b, 0) == Written(b, 1) + DigitBytes(b[0]);
  }

  lemma BigEndianDigits(b: seq<nat>)
    requires Digits(b)
    ensures BigEndian(Value(b), 8) == Written(b, 0)
  {
    hide BigEndian, DigitBytes, Written, Value;
    ValueByDigits(b);
    WrittenByDigits(b);
    var v3 := b[3] + 0x1_0000 * 0;
    var v2 := b[2] + 0x1_0000 * v3;
    var v1 := b[1] + 0x1_0000 * v2;
    NoBytes();
    BigEndianDigit(b[3], 0, 0);
    BigEndianDigit(b[2], v3, 2);
    BigEndianDigit(b[1], v2, 4);
    BigEndianDigit(b[0], v1, 6);
  }

  lemma NoBytes()
    ensures BigEndian(0, 0) == []
  {
  }

  /** The bytes of the digits from the highest down to digit i. */
  function Written(b: seq<nat>, i: nat): seq<Byte>
    requires |b| == 4
    decreases 4 - i
  {
    if i >= 4 then [] else Written(b, i + 1) + DigitBytes(b[i])
  }

  /** One digit: "<<= 3", "|= carry", "&= 65535" and the next carry. */
  lemma ShiftStep(x: nat, c: nat)
    requires x < 0x1_0000 && c < 8
    ensures Or(Shl(x, 3), c) % 0x1_0000 == (8 * x + c) % 0x1_0000
    ensures x / 0x2000 % 0x1_0000 == x / 0x2000
  {
    hide Or, Shl;
    ShiftOrIsSum(x, c);
  }

  lemma NothingShifted(d: seq<nat>, b: seq<nat>)
    requires |d| == 4 && |b| == 4
    ensures ShiftedUpTo(d, b, 0) && CarryInto(d, 0) == 0
  {
  }

  lemma ShiftedNext(d: seq<nat>, b: seq<nat>, i: nat)
    requires |d| == 4 && |b| == 4 && i < 4 && ShiftedUpTo(d, b, i)
    ensures ShiftedUpTo(d, b[i := (8 * d[i] + CarryInto(d, i)) % 0x1_0000], i + 1)
  {
    hide CarryInto;
  }

  lemma Carries(d: seq<nat>, i: nat)
    requires Digits(d) && i < 4
    ensures CarryInto(d, i) < 8 && d[i] < 0x1_0000 && CarryInto(d, i + 1) == d[i] / 0x2000
  {
  }

  /** Converts the byte count to a bit count. */
  method ShiftDigits(d: array<nat>) returns (bits: array<nat>)
    requires d.Length == 4 && Digits(d[..])
    ensures fresh(bits) && bits.Length == 4
    ensures Digits(bits[..]) && Value(bits[..]) == 8 * Value(d[..]) % TWO_TO_64
  {
    bits := new nat[4](_ => 0);
    ghost var start := d[..];
    for i := 0 to 4
      invariant d[..] == start
      invariant forall j | 0 <= j < i :: bits[j] == d[j]
    {
      bits[i] := d[i];
    }
    var carry := 0;
    NothingShifted(start, bits[..]);
    hide Or, Shl, CarryInto, Value, ShiftedUpTo;
    for i := 0 to 4
      invariant d[..] == start
      invariant carry == CarryInto(start, i)
      invariant ShiftedUpTo(start, bits[..], i)
      invariant forall j | i <= j < 4 :: bits[j] == start[j]
    {
      var before := bits[i];
      Carries(start, i);
      ShiftStep(before, carry);
      ShiftedNext(start, bits[..], i);
      ghost var shifted := bits[..][i := (8 * start[i] + CarryInto(start, i)) % 0x1_0000];
      bits[i] := Or(Shl(before, 3), carry) % 0x1_0000;
      assert bits[..] == shifted;
      carry := before / 0x2000 % 0x1_0000;
    }
    ShiftedValue(start, bits[..]);
  }

  /** write_data_bit_length: the big-endian bit count modulo 2^64. */
  method WriteDataBitLength(d: array<nat>) returns (out: seq<Byte>)
    requires d.Length == 4 && Digits(d[..])
    ensures out == BigEndian(8 * Value(d[..]) % TWO_TO_64, 8)
  {
    var bits := ShiftDigits(d);
    BigEndianDigits(bits[..]);
    out := [];
    for i := 4 downto 0
      invariant out == Written(bits[..], i)
    {
      out := out + [bits[i] / 256 % 256];
      out := out + [bits[i] % 256];
    }
  }
}
