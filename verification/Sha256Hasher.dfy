/** The incremental hasher and the chunked reader around it; both compute the specification. */
module Sha256Hasher {
  import opened Bytes
  import opened Sequences
  import opened BlockChaining
  import opened Sha256Spec
  import opened Sha256Length
  import opened Sha256Block

  /** The padding splits where finish splits it: the tail with its one bit and zeros, then the length. */
  lemma PaddedTail(done: seq<Byte>, tail: seq<Byte>)
    requires |done| % 64 == 0 && |tail| < 64
    ensures var n := |done| + |tail|;
      ZeroCount(n) == if |tail| <= 55 then 55 - |tail| else 119 - |tail|
  {
  }

  function Zeros(n: nat): seq<Byte> {
    seq(n, _ => 0)
  }

  /** The one or two blocks that finish feeds. */
  function LastBlocks(tail: seq<Byte>, length: seq<Byte>): seq<Byte>
    requires |tail| < 64 && |length| == 8
  {
    tail + [0x80] + Zeros(if |tail| <= 55 then 55 - |tail| else 119 - |tail|) + length
  }

  lemma LastBlocksArePadding(done: seq<Byte>, tail: seq<Byte>)
    requires |done| % 64 == 0 && |tail| < 64
    ensures var n := |done| + |tail|;
      tail + Padding(n) == LastBlocks(tail, BigEndian(8 * n % TWO_TO_64, 8))
  {
    PaddedTail(done, tail);
  }

  lemma LastBlocksAreWhole(tail: seq<Byte>, length: seq<Byte>)
    requires |tail| < 64 && |length| == 8
    ensures |LastBlocks(tail, length)| == if |tail| <= 55 then 64 else 128
  {
  }

  lemma Sha256OfParts(done: seq<Byte>, tail: seq<Byte>)
    requires |done| % 64 == 0 && |tail| < 64
    ensures var length := BigEndian(8 * |done + tail| % TWO_TO_64, 8);
      && |LastBlocks(tail, length)| % 64 == 0
      && Sha256(done + tail) == Absorb(Compress, Absorb(Compress, H0, done), LastBlocks(tail, length))
  {
    hide Compress, H0, Holds, Absorb;
    var n := |done + tail|;
    var last := LastBlocks(tail, BigEndian(8 * n % TWO_TO_64, 8));
    LastBlocksAreWhole(tail, BigEndian(8 * n % TWO_TO_64, 8));
    LastBlocksArePadding(done, tail);
    PaddedLength(n);
    Assoc(done, tail, Padding(n));
    AbsorbAppend(Compress, H0, done, last);
  }

  lemma MultipleSum(a: nat, b: nat)
    requires a % 64 == 0 && b % 64 == 0
    ensures (a + b) % 64 == 0
  {
  }

  lemma SumModulo(a: nat, b: nat)
    ensures (a % TWO_TO_64 + b % TWO_TO_64) % TWO_TO_64 == (a + b) % TWO_TO_64
  {
  }

  /** Feeds every whole block of data; i bytes are used up. */
  method HashBlocks(h: array<bv64>, data: seq<Byte>, ghost done: seq<Byte>) returns (i: nat)
    requires h.Length == 8 && |done| % 64 == 0 && Holds(h[..], Absorb(Compress, H0, done))
    modifies h
    ensures i <= |data| < i + 64 && i % 64 == 0
    ensures Holds(h[..], Absorb(Compress, H0, done + data[..i]))
  {
    hide Compress, H0, Holds, Absorb;
    i := 0;
    assert done + data[..0] == done;
    while i + 64 <= |data|
      invariant 0 <= i <= |data| && i % 64 == 0
      invariant Holds(h[..], Absorb(Compress, H0, done + data[..i]))
    {
      ghost var before := done + data[..i];
      var block: Block := data[i..i + 64];
      HashBlock(h, block, Absorb(Compress, H0, before));
      AbsorbBlock(Compress, H0, before, block);
      ExtendPrefix(done, data, i, i + 64);
      i := i + 64;
    }
  }

  /** finish when the length field needs a block of its own. */
  method FinishLong(h: array<bv64>, temp: array<Byte>, tail: seq<Byte>, length: seq<Byte>, ghost v: Hash)
    requires h.Length == 8 && Holds(h[..], v) && 55 < |tail| < 64 && |length| == 8
    requires temp.Length == 64 && temp[..] == tail + [0x80] + Zeros(63 - |tail|)
    modifies h, temp
    ensures |LastBlocks(tail, length)| == 128 && Holds(h[..], Absorb(Compress, v, LastBlocks(tail, length)))
  {
    hide Compress, Holds, Absorb;
    FillZero(temp, |tail| + 1, 64);
    var first: Block := temp[..];
    assert first == tail + [0x80] + Zeros(63 - |tail|);
    HashBlock(h, first, v);
    FillZero(temp, 0, 60);
    CopyInto(temp, 56, length);
    assert temp[..] == Zeros(56) + length;
    TwoBlocks(v, tail, length, first, temp[..]);
    HashBlock(h, temp[..], Compress(v, first));
  }

  method FinishShort(h: array<bv64>, temp: array<Byte>, tail: seq<Byte>, length: seq<Byte>, ghost v: Hash)
    requires h.Length == 8 && Holds(h[..], v) && |tail| <= 55 && |length| == 8
    requires temp.Length == 64 && temp[..] == tail + [0x80] + Zeros(63 - |tail|)
    modifies h, temp
    ensures |LastBlocks(tail, length)| == 64 && Holds(h[..], Absorb(Compress, v, LastBlocks(tail, length)))
  {
    hide Compress, Holds, Absorb;
    FillZero(temp, |tail| + 1, 60);
    CopyInto(temp, 56, length);
    assert temp[..] == tail + [0x80] + Zeros(55 - |tail|) + length;
    OneBlock(v, tail, length, temp[..]);
    HashBlock(h, temp[..], v);
  }

  class Hasher {
    var buffer: seq<Byte>
    const lengthDigits: array<nat>
    const h: array<bv64>
    /** The bytes compressed into h so far. */
    ghost var done: seq<Byte>

    ghost predicate Valid()
      reads this, lengthDigits, h
    {
      && lengthDigits.Length == 4 && h.Length == 8
      && |buffer| < 64 && |done| % 64 == 0
      && Holds(h[..], Absorb(Compress, H0, done))
      && Digits(lengthDigits[..]) && Value(lengthDigits[..]) == |Absorbed()| % TWO_TO_64
    }

    /** Everything processed since the constructor. */
    ghost function Absorbed(): seq<Byte>
      reads this
    {
      done + buffer
    }

    constructor ()
      ensures Valid() && Absorbed() == []
      ensures fresh(lengthDigits) && fresh(h)
    {
      buffer := [];
      done := [];
      lengthDigits := new nat[4](_ => 0);
      h := new bv64[8](i requires 0 <= i < 8 => Wide(H0[i]));
    }

    /** Any number of bytes at a time; fewer than 64 stay in the buffer. */
    method Process(input: seq<Byte>)
      requires Valid()
      modifies this, lengthDigits, h
      ensures Valid() && Absorbed() == old(Absorbed()) + input
    {
      hide Compress, H0, Holds, Absorb, Value, Digits;
      SumModulo(|Absorbed()|, |input|);
      AddToDataLength(lengthDigits, |input| % TWO_TO_64);
      buffer := buffer + input;
      var i := HashBlocks(h, buffer, done);
      CutAnywhere(done, buffer, i);
      Assoc(done, old(buffer), input);
      MultipleSum(|done|, i);
      done := done + buffer[..i];
      buffer := buffer[i..];
      assert |Absorbed()| == |old(Absorbed())| + |input|;
    }

    /** Pads and compresses the rest. */
    method Finish()
      requires Valid()
      modifies h
      ensures Holds(h[..], Sha256(Absorbed()))
    {
      hide Compress, H0, Holds, Absorb, Value, Digits;
      var temp := new Byte[64](_ => 0);
      var remains := |buffer|;
      CopyInto(temp, 0, buffer);
      temp[remains] := 0x80;
      assert temp[..] == buffer + [0x80] + Zeros(63 - remains);
      var length := WriteDataBitLength(lengthDigits);
      LengthOfTotal(|Absorbed()|);
      Sha256OfParts(done, buffer);
      if remains > 55 {
        FinishLong(h, temp, buffer, length, Absorb(Compress, H0, done));
      } else {
        FinishShort(h, temp, buffer, length, Absorb(Compress, H0, done));
      }
    }

    /** The digest bytes, or the first ones if there is room for fewer than 32. */
    method GetHashBytes(room: nat, ghost v: Hash) returns (out: seq<Byte>)
      requires Holds(h[..], v)
      ensures out == Digest(v)[..if room < 32 then room else 32]
    {
      out := [];
      for word := 0 to 8
        invariant out == Digest(v)[..if room < 4 * word then room else 4 * word]
      {
        var i := 0;
        while i < 4 && |out| < room
          invariant 0 <= i <= 4
          invariant out == Digest(v)[..if room < 4 * word + i then room else 4 * word + i]
        {
          WideByteRefines(v[word], i);
          assert Digest(v)[4 * word + i] == ByteOfWord(v[word], i);
          out := out + [WideByte(h[word], i)];
          i := i + 1;
        }
      }
    }
  }

  lemma LengthOfTotal(n: nat)
    ensures 8 * (n % TWO_TO_64) % TWO_TO_64 == 8 * n % TWO_TO_64
  {
    assert n == n % TWO_TO_64 + TWO_TO_64 * (n / TWO_TO_64);
    Reduces(8 * (n % TWO_TO_64) % TWO_TO_64, 8 * n, 8 * (n % TWO_TO_64) / TWO_TO_64 + 8 * (n / TWO_TO_64));
  }

  /** The byte that get_hash_bytes takes out of a 64-bit word. */
  function WideByte(x: bv64, i: nat): Byte
    requires i < 4
  {
    match i
    case 0 => (((x >> 24) & 0xff) as bv8) as nat
    case 1 => (((x >> 16) & 0xff) as bv8) as nat
    case 2 => (((x >> 8) & 0xff) as bv8) as nat
    case 3 => ((x & 0xff) as bv8) as nat
  }

  lemma WideByteRefines(x: bv32, i: nat)
    requires i < 4
    ensures WideByte(Wide(x), i) == ByteOfWord(x, i)
  {
    assert (Wide(x) >> 24) & 0xff == Wide(x >> 24);
    assert (Wide(x) >> 16) & 0xff == Wide((x >> 16) & 0xff);
    assert (Wide(x) >> 8) & 0xff == Wide((x >> 8) & 0xff);
    assert Wide(x) & 0xff == Wide(x & 0xff);
  }

  method CopyInto(a: array<Byte>, at: nat, s: seq<Byte>)
    requires at + |s| <= a.Length
    modifies a
    ensures a[..] == old(a[..at]) + s + old(a[at + |s|..])
  {
    for i := 0 to |s|
      invariant forall j | 0 <= j < a.Length :: a[j] == if at <= j < at + i then s[j - at] else old(a[j])
    {
      a[at + i] := s[i];
    }
  }

  method FillZero(a: array<Byte>, from: nat, to: nat)
    requires from <= to <= a.Length
    modifies a
    ensures a[..] == old(a[..from]) + Zeros(to - from) + old(a[to..])
  {
    for i := from to to
      invariant forall j | 0 <= j < a.Length :: a[j] == if from <= j < i then 0 else old(a[j])
    {
      a[i] := 0;
    }
  }

  lemma OneBlock(v: Hash, tail: seq<Byte>, length: seq<Byte>, temp: Block)
    requires |tail| <= 55 && |length| == 8
    requires temp == tail + [0x80] + Zeros(55 - |tail|) + length
    ensures |LastBlocks(tail, length)| == 64
    ensures Absorb(Compress, v, LastBlocks(tail, length)) == Compress(v, temp)
  {
    AbsorbBlock(Compress, v, [], temp);
    assert [] + temp == temp;
  }

  lemma TwoBlocks(v: Hash, tail: seq<Byte>, length: seq<Byte>, first: Block, second: Block)
    requires 55 < |tail| < 64 && |length| == 8
    requires first == tail + [0x80] + Zeros(63 - |tail|)
    requires second == Zeros(56) + length
    ensures |LastBlocks(tail, length)| == 128
    ensures Absorb(Compress, v, LastBlocks(tail, length)) == Compress(Compress(v, first), second)
  {
    assert LastBlocks(tail, length) == first + second;
    AbsorbBlock(Compress, v, first, second);
    AbsorbBlock(Compress, v, [], first);
    assert [] + first == first;
  }

  /** However a message is cut into process calls, the digest is the specification's of the whole message. */
  method HashPieces(pieces: seq<seq<Byte>>) returns (out: seq<Byte>)
    ensures out == Digest(Sha256(Joined(pieces)))
  {
    hide Compress, H0, Holds, Absorb, Value, Digits;
    var hasher := new Hasher();
    for i := 0 to |pieces|
      invariant hasher.Valid() && fresh(hasher) && fresh(hasher.lengthDigits) && fresh(hasher.h)
      invariant hasher.Absorbed() + Joined(pieces[i..]) == Joined(pieces)
    {
      assert pieces[i..][0] == pieces[i] && pieces[i..][1..] == pieces[i + 1..];
      hasher.Process(pieces[i]);
    }
    assert hasher.Absorbed() == Joined(pieces);
    hasher.Finish();
    out := hasher.GetHashBytes(32, Sha256(Joined(pieces)));
  }

  function Joined(pieces: seq<seq<Byte>>): seq<Byte> {
    if pieces == [] then [] else pieces[0] + Joined(pieces[1..])
  }

  /** hash256_impl for input iterators: reads through a buffer of any positive size. */
  method HashChunked(input: seq<Byte>, bufferSize: nat) returns (out: seq<Byte>)
    requires bufferSize >= 1
    ensures out == Digest(Sha256(input))
  {
    hide Compress, H0, Holds, Absorb, Value, Digits;
    var buffer := new Byte[bufferSize](_ => 0);
    var hasher := new Hasher();
    var first := 0;
    while first != |input|
      invariant 0 <= first <= |input|
      invariant hasher.Valid() && fresh(hasher) && fresh(hasher.lengthDigits) && fresh(hasher.h) && fresh(buffer)
      invariant buffer.Length == bufferSize
      invariant hasher.Absorbed() == input[..first]
      decreases |input| - first
    {
      var size := bufferSize;
      ghost var start := first;
      var i := 0;
      while i != bufferSize
        modifies buffer
        invariant 0 <= i <= bufferSize && first == start + i <= |input|
        invariant buffer[..i] == input[start..first]
        decreases bufferSize - i
      {
        if first == |input| {
          size := i;
          break;
        }
        buffer[i] := input[first];
        i, first := i + 1, first + 1;
      }
      hasher.Process(buffer[..size]);
      assert input[..start] + input[start..first] == input[..first];
    }
    assert input[..first] == input;
    hasher.Finish();
    out := hasher.GetHashBytes(32, Sha256(input));
  }
}
