/**
 Where everything stands in the bytes of a frame, at explicit offsets and with explicit weights: what a
 receiver that follows IEEE Std C37.118.2-2011 reads, said without the functions that write it.
 */
module FrameLayout {
  import opened Bytes
  import opened Crc16
  import opened FrameHeader
  import opened FrameWords
  import opened Wrappers

  /** The unsigned number of two, three and four bytes, the most significant first. */
  function Two(data: seq<Byte>, i: nat): nat
    requires i + 2 <= |data|
  {
    256 * data[i] as nat + data[i + 1] as nat
  }

  function Three(data: seq<Byte>, i: nat): nat
    requires i + 3 <= |data|
  {
    65536 * data[i] as nat + Two(data, i + 1)
  }

  function Four(data: seq<Byte>, i: nat): nat
    requires i + 4 <= |data|
  {
    65536 * Two(data, i) + Two(data, i + 2)
  }

  /** The signed number of two bytes. */
  function SignedTwo(data: seq<Byte>, i: nat): int
    requires i + 2 <= |data|
  {
    if data[i] < 128 then Two(data, i) else Two(data, i) - 65536
  }

  lemma SignedTwoIs(data: seq<Byte>, i: nat, x: int)
    requires i + 2 <= |data| && -32768 <= x <= 32767 && Two(data, i) == Unsigned16(x)
    ensures SignedTwo(data, i) == x
  {
  }

  lemma Scaled(a: nat, r: nat)
    ensures a * (256 * r) == 256 * (a * r)
  {
  }

  /** The bytes of a number that consists of a high and a low part. */
  lemma {:induction false} HighAndLow(a: nat, b: nat, n: nat, m: nat)
    requires b < Range(m)
    ensures BigEndian(a * Range(m) + b, n + m) == BigEndian(a, n) + BigEndian(b, m)
    decreases m
  {
    if m > 0 {
      var p := a * Range(m - 1);
      Scaled(a, Range(m - 1));
      assert a * Range(m) + b == 256 * p + b;
      assert (256 * p + b) / 256 == p + b / 256 && (256 * p + b) % 256 == b % 256;
      HighAndLow(a, b / 256, n, m - 1);
      assert BigEndian(256 * p + b, n + m) == BigEndian(p + b / 256, n + m - 1) + [b % 256];
    }
  }

  lemma TwoAt(data: seq<Byte>, i: nat, v: nat)
    requires At(data, i, BigEndian(v, 2)) && v < 65536
    ensures i + 2 <= |data| && Two(data, i) == v
  {
    assert BigEndian(v, 2) == [v / 256, v % 256] by {
      assert BigEndian(v / 256, 1) == BigEndian(v / 256 / 256, 0) + [v / 256 % 256];
    }
    assert data[i] == data[i..i + 2][0] && data[i + 1] == data[i..i + 2][1];
  }

  lemma FourAt(data: seq<Byte>, i: nat, v: nat)
    requires At(data, i, BigEndian(v, 4)) && v < TWO_TO_32
    ensures i + 4 <= |data| && Four(data, i) == v
  {
    hide At, BigEndian;
    RangesOfSizes();
    HighAndLow(v / 65536, v % 65536, 2, 2);
    AtSplits(data, i, BigEndian(v / 65536, 2), BigEndian(v % 65536, 2));
    TwoAt(data, i, v / 65536);
    TwoAt(data, i + 2, v % 65536);
  }

  lemma TwiceTwoAt(data: seq<Byte>, i: nat, a: nat, b: nat)
    requires At(data, i, BigEndian(a * 65536 + b, 4)) && a < 65536 && b < 65536
    ensures i + 4 <= |data| && Two(data, i) == a && Two(data, i + 2) == b
  {
    hide At, BigEndian;
    RangesOfSizes();
    HighAndLow(a, b, 2, 2);
    AtSplits(data, i, BigEndian(a, 2), BigEndian(b, 2));
    TwoAt(data, i, a);
    TwoAt(data, i + 2, b);
  }

  lemma OneAndThreeAt(data: seq<Byte>, i: nat, a: nat, b: nat)
    requires At(data, i, BigEndian(a * TWO_TO_24 + b, 4)) && a < 256 && b < TWO_TO_24
    ensures i + 4 <= |data| && data[i] == a && Three(data, i + 1) == b
  {
    FourAt(data, i, a * TWO_TO_24 + b);
  }

  lemma TwiceFourAt(data: seq<Byte>, i: nat, a: nat, b: nat)
    requires At(data, i, BigEndian(a * TWO_TO_32 + b, 8)) && a < TWO_TO_32 && b < TWO_TO_32
    ensures i + 8 <= |data| && Four(data, i) == a && Four(data, i + 4) == b
  {
    hide At, BigEndian;
    RangesOfSizes();
    HighAndLow(a, b, 4, 4);
    AtSplits(data, i, BigEndian(a, 4), BigEndian(b, 4));
    FourAt(data, i, a);
    FourAt(data, i + 4, b);
  }

  /** Element j of a list of words. */
  lemma {:induction false} WordOfList(data: seq<Byte>, i: nat, ws: seq<nat>, size: nat, j: nat)
    requires At(data, i, WordsBytes(ws, size)) && j < |ws|
    ensures At(data, i + j * size, BigEndian(ws[j], size))
    decreases j
  {
    AtSplits(data, i, BigEndian(ws[0], size), WordsBytes(ws[1..], size));
    if j > 0 {
      hide At, BigEndian;
      WordOfList(data, i + size, ws[1..], size, j - 1);
      assert i + size + (j - 1) * size == i + j * size;
    }
  }

  lemma HeaderBytesAt(data: seq<Byte>, h: Header, size: nat)
    requires HeaderOk(h) && size < 65536 && At(data, 0, HeaderBytes(h, size))
    ensures |data| >= 14 && data[0] == 0xaa && data[1] == 16 * h.kind + h.version
    ensures Two(data, 2) == size && Two(data, 4) == h.id && Four(data, 6) == h.time.soc
      && Four(data, 10) == h.time.frasec
  {
    var sync, id, soc, frasec :=
      BigEndian(0xaa00 + 16 * h.kind + h.version, 2), BigEndian(h.id, 2), BigEndian(h.time.soc, 4),
      BigEndian(h.time.frasec, 4);
    hide BigEndian, At, SetFrasec, GetFrasec;
    AtFive(data, 0, sync, BigEndian(size, 2), id, soc, frasec);
    TwoAt(data, 0, 0xaa00 + 16 * h.kind + h.version);
    TwoAt(data, 2, size);
    TwoAt(data, 4, h.id);
    FourAt(data, 6, h.time.soc);
    FourAt(data, 10, h.time.frasec);
  }

  /** The fields of the header, and the body between header and check word. */
  lemma HeaderLayout(h: Header, body: seq<Byte>, now: Time, data: seq<Byte>)
    requires HeaderOk(h) && TimeOk(now) && Framed(h, body, now) == Some(data)
    ensures |data| == 16 + |body| && At(data, 14, body) && CheckCrc(data)
    ensures data[0] == 0xaa && data[1] == 16 * h.kind + h.version
    ensures Two(data, 2) == |data| && Two(data, 4) == h.id
    ensures var stamped := h.time.soc == 0 && h.time.frasec == 0;
      && Four(data, 6) == (if stamped then now.soc else h.time.soc)
      && Four(data, 10) == (if stamped then now.frasec else h.time.frasec)
  {
    hide CheckCrc, Crc, CheckWord, HeaderBytes, SetFrasec, GetFrasec, HeaderOk, TimeOk, At;
    FramedReads(h, body, now, data);
    HeaderAt(h, body, now, data);
    SentHeaderOk(h, now);
    HeaderBytesAt(data, h.(time := Stamped(h.time, now)), 16 + |body|);
  }

  lemma HeaderAt(h: Header, body: seq<Byte>, now: Time, data: seq<Byte>)
    requires Framed(h, body, now) == Some(data)
    ensures At(data, 0, HeaderBytes(h.(time := Stamped(h.time, now)), 16 + |body|))
  {
    hide Crc, CheckWord, HeaderBytes, At;
    var head := HeaderBytes(h.(time := Stamped(h.time, now)), 16 + |body|);
    AtParts(head, body, CheckWord(Crc(head + body)));
  }

  lemma SentHeaderOk(h: Header, now: Time)
    requires HeaderOk(h) && TimeOk(now)
    ensures HeaderOk(h.(time := Stamped(h.time, now)))
  {
    hide SetFrasec, GetFrasec;
  }

  /** The bytes of the fraction of second: the quality byte with its flags, then 24 bits. */
  predicate FrasecStands(data: seq<Byte>, f: Frasec) {
    && |data| >= 14
    && data[10] as int == f.quality + (if f.leapPending then 16 else 0) + (if f.leapOccurred then 32 else 0)
                          + (if f.leapMinus then 64 else 0)
    && Three(data, 11) == f.seconds
  }

  lemma FrasecLayout(data: seq<Byte>, f: Frasec, w: nat)
    requires SetFrasec(f) == Some(w) && |data| >= 14 && Four(data, 10) == w
    ensures FrasecStands(data, f)
    ensures w == 0 <==> f == Frasec(0, false, false, false, 0)
  {
    var flags := Flag(f.leapMinus, 64) + Flag(f.leapOccurred, 32) + Flag(f.leapPending, 16) + f.quality;
    var low := Three(data, 11);
    assert flags * TWO_TO_24 + f.seconds == data[10] as nat * TWO_TO_24 + low && low < TWO_TO_24;
  }

  /** The time in the header, or the current time if it is all zero. */
  predicate TimeStands(data: seq<Byte>, soc: int, frasec: Frasec, now: Time) {
    |data| >= 14 &&
    if soc == 0 && frasec == Frasec(0, false, false, false, 0)
    then Four(data, 6) == now.soc && Four(data, 10) == now.frasec
    else Four(data, 6) == soc && FrasecStands(data, frasec)
  }

  lemma FrasecZero(f: Frasec)
    requires SetFrasec(f).Some?
    ensures SetFrasec(f).value == 0 <==> f == Frasec(0, false, false, false, 0)
  {
  }

  lemma TimeLayout(data: seq<Byte>, soc: nat, frasec: Frasec, w: nat, now: Time)
    requires SetFrasec(frasec) == Some(w) && |data| >= 14
    requires Four(data, 6) == Stamped(Time(soc, w), now).soc && Four(data, 10) == Stamped(Time(soc, w), now).frasec
    ensures TimeStands(data, soc, frasec, now)
  {
    hide SetFrasec, Four, FrasecStands;
    FrasecZero(frasec);
    if !(soc == 0 && w == 0) {
      FrasecLayout(data, frasec, w);
    }
  }
}
