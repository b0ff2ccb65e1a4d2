/** Bytes as the numbers 0 to 255, and integers written as big-endian bytes. */
module Bytes {

  type Byte = b: nat | b < 256

  const TWO_TO_64: nat := 0x1_0000_0000_0000_0000

  /** The big-endian form of v in size bytes; bits that do not fit are dropped. */
  function BigEndian(v: nat, size: nat): (s: seq<Byte>)
    ensures |s| == size
  {
    if size == 0 then [] else BigEndian(v / 256, size - 1) + [v % 256]
  }

  /** The number that big-endian bytes denote. */
  function FromBigEndian(s: seq<Byte>): nat {
    if s == [] then 0 else 256 * FromBigEndian(s[..|s| - 1]) + s[|s| - 1]
  }

  /** 256 to the power of size. */
  function Range(size: nat): nat {
    if size == 0 then 1 else 256 * Range(size - 1)
  }

  lemma {:induction false} FromOfBigEndian(v: nat, size: nat)
    requires v < Range(size)
    ensures FromBigEndian(BigEndian(v, size)) == v
  {
    if size > 0 {
      assert v / 256 < Range(size - 1);
      FromOfBigEndian(v / 256, size - 1);
      assert BigEndian(v, size)[..size - 1] == BigEndian(v / 256, size - 1);
    }
  }

  lemma {:induction false} OfFromBigEndian(s: seq<Byte>)
    ensures FromBigEndian(s) < Range(|s|)
    ensures BigEndian(FromBigEndian(s), |s|) == s
    decreases |s|
  {
    if s != [] {
      var front, last := s[..|s| - 1], s[|s| - 1];
      OfFromBigEndian(front);
      var v := FromBigEndian(s);
      assert v == 256 * FromBigEndian(front) + last;
      assert v / 256 == FromBigEndian(front) && v % 256 == last;
      assert s == front + [last];
    }
  }
}
