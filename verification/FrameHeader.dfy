/** What all C37.118 frames share: the time stamp, the data format and the framing around the body. */
module FrameHeader {
  import opened Bytes
  import opened Crc16
  import opened FrameWords
  import opened Wrappers

  const TWO_TO_24: nat := 0x100_0000
  const TWO_TO_32: nat := 0x1_0000_0000

  // Fraction of second and time quality.

  datatype Frasec = Frasec(seconds: int, leapMinus: bool, leapOccurred: bool, leapPending: bool, quality: int)

  function Flag(b: bool, weight: nat): nat {
    if b then weight else 0
  }

  predicate FrasecOk(f: Frasec) {
    0 <= f.seconds < TWO_TO_24 && 0 <= f.quality <= 15 && f.quality !in {12, 13, 14}
  }

  /** set_frasec: the word, or an error. */
  function SetFrasec(f: Frasec): Option<nat> {
    if FrasecOk(f) then
      Some((Flag(f.leapMinus, 64) + Flag(f.leapOccurred, 32) + Flag(f.leapPending, 16) + f.quality) * TWO_TO_24
           + f.seconds)
    else None
  }

  predicate HasBit(w: nat, weight: nat)
    requires weight > 0
  {
    w / weight % 2 == 1
  }

  /** _int2frasec */
  function GetFrasec(w: nat): Frasec {
    var flags := w / TWO_TO_24;
    Frasec(w % TWO_TO_24, HasBit(flags, 64), HasBit(flags, 32), HasBit(flags, 16), flags % 16)
  }

  lemma FrasecRoundTrip(f: Frasec)
    requires SetFrasec(f).Some?
    ensures SetFrasec(f).value < TWO_TO_32 && GetFrasec(SetFrasec(f).value) == f
  {
    var w := SetFrasec(f).value;
    var flags := Flag(f.leapMinus, 64) + Flag(f.leapOccurred, 32) + Flag(f.leapPending, 16) + f.quality;
    assert w / TWO_TO_24 == flags && w % TWO_TO_24 == f.seconds;
  }

  lemma FlagBits(flags: nat)
    requires flags < 256
    ensures flags == Flag(flags >= 128, 128) + Flag(HasBit(flags, 64), 64) + Flag(HasBit(flags, 32), 32)
                     + Flag(HasBit(flags, 16), 16) + flags % 16
  {
    assert flags / 32 == flags / 16 / 2 && flags / 64 == flags / 32 / 2 && flags / 128 == flags / 64 / 2;
  }

  /** A time word survives decoding exactly when its reserved bit is clear and its quality code is in use. */
  lemma FrasecWordSurvives(w: nat)
    requires w < TWO_TO_32
    ensures SetFrasec(GetFrasec(w)) == Some(w) <==> w < TWO_TO_32 / 2 && w / TWO_TO_24 % 16 !in {12, 13, 14}
  {
    var flags := w / TWO_TO_24;
    FlagBits(flags);
    hide HasBit;
    assert flags >= 128 <==> w >= TWO_TO_32 / 2;
  }

  // Data formats.

  datatype Format = Format(polar: bool, phasorFloat: bool, analogFloat: bool, freqFloat: bool)

  /** _format2int */
  function FormatCode(f: Format): nat {
    Flag(f.polar, 1) + Flag(f.phasorFloat, 2) + Flag(f.analogFloat, 4) + Flag(f.freqFloat, 8)
  }

  /** _int2format */
  function FormatOf(code: nat): Format {
    Format(HasBit(code, 1), HasBit(code, 2), HasBit(code, 4), HasBit(code, 8))
  }

  lemma FormatRoundTrip(f: Format)
    ensures FormatCode(f) < 16 && FormatOf(FormatCode(f)) == f
  {
  }

  function PhasorSize(f: Format): nat {
    if f.phasorFloat then 8 else 4
  }

  /** The size of analog values and of frequencies. */
  function NumberSize(float: bool): nat {
    if float then 4 else 2
  }

  // Framing.

  datatype Time = Time(soc: nat, frasec: nat)

  datatype Header = Header(kind: nat, version: nat, id: nat, time: Time)

  predicate TimeOk(t: Time) {
    t.soc < TWO_TO_32 && SetFrasec(GetFrasec(t.frasec)) == Some(t.frasec) && t.frasec < TWO_TO_32
  }

  /** What the setters leave in a frame. */
  predicate HeaderOk(h: Header) {
    h.kind <= 5 && 1 <= h.version <= 15 && 1 <= h.id <= 65534 && TimeOk(h.time)
  }

  /** A frame whose time is all zero is stamped with the current time when it is sent. */
  function Stamped(t: Time, now: Time): Time {
    if t.soc == 0 && t.frasec == 0 then now else t
  }

  function HeaderBytes(h: Header, size: nat): (b: seq<Byte>)
    ensures |b| == 14
  {
    BigEndian(0xaa00 + 16 * h.kind + h.version, 2) + BigEndian(size, 2) + BigEndian(h.id, 2)
    + BigEndian(h.time.soc, 4) + BigEndian(h.time.frasec, 4)
  }

  /** CommonFrame.convert2bytes: header, body and check word, or an overflow of the size field. */
  function Framed(h: Header, body: seq<Byte>, now: Time): Option<seq<Byte>> {
    if 16 + |body| > 65535 then None
    else
      var message := HeaderBytes(h.(time := Stamped(h.time, now)), 16 + |body|) + body;
      Some(message + CheckWord(Crc(message)))
  }

  /** What the decoders read back from the fixed places. */
  function ReadId(data: seq<Byte>): nat {
    WordAt(data, 4, 2)
  }

  function ReadTime(data: seq<Byte>): Time {
    Time(WordAt(data, 6, 4), WordAt(data, 10, 4))
  }

  /** The frame type in the second byte. */
  function ReadKind(data: seq<Byte>): nat
    requires |data| >= 2
  {
    data[1] / 16
  }

  /** The setters of a decoded frame keep the time word, or refuse its quality code. */
  function AcceptTime(t: Time): Option<Time> {
    match SetFrasec(GetFrasec(t.frasec))
    case Some(w) => Some(Time(t.soc, w))
    case None => None
  }

  lemma RangesOfSizes()
    ensures Range(2) == 65536 && Range(4) == TWO_TO_32 && Range(8) == TWO_TO_32 * TWO_TO_32
  {
    assert Range(1) == 256 && Range(2) == 65536 && Range(3) == TWO_TO_24 && Range(4) == TWO_TO_32;
    assert Range(5) == 256 * Range(4) && Range(6) == 256 * Range(5) && Range(7) == 256 * Range(6);
  }

  lemma HeaderReads(data: seq<Byte>, h: Header, size: nat)
    requires HeaderOk(h) && size < 65536 && At(data, 0, HeaderBytes(h, size))
    ensures ReadId(data) == h.id && ReadTime(data) == h.time && WordAt(data, 2, 2) == size
    ensures ReadKind(data) == h.kind && data[0] == 0xaa && data[1] % 16 == h.version
  {
    RangesOfSizes();
    hide At, WordAt, BigEndian, Range, SetFrasec, GetFrasec;
    var sync, id, soc, frasec :=
      BigEndian(0xaa00 + 16 * h.kind + h.version, 2), BigEndian(h.id, 2), BigEndian(h.time.soc, 4),
      BigEndian(h.time.frasec, 4);
    AtFive(data, 0, sync, BigEndian(size, 2), id, soc, frasec);
    FirstTwo(data, sync);
    SyncBytes(h.kind, h.version);
    WordAtReads(data, 2, size, 2);
    WordAtReads(data, 4, h.id, 2);
    WordAtReads(data, 6, h.time.soc, 4);
    WordAtReads(data, 10, h.time.frasec, 4);
  }

  lemma FirstTwo(data: seq<Byte>, bytes: seq<Byte>)
    requires At(data, 0, bytes) && |bytes| == 2
    ensures |data| >= 2 && data[0] == bytes[0] && data[1] == bytes[1]
  {
    assert data[0..2][0] == bytes[0] && data[0..2][1] == bytes[1];
  }

  lemma SyncBytes(kind: nat, version: nat)
    requires kind <= 5 && version <= 15
    ensures var sync := BigEndian(0xaa00 + 16 * kind + version, 2);
      sync[0] == 0xaa && sync[1] / 16 == kind && sync[1] % 16 == version
  {
    var v := 0xaa00 + 16 * kind + version;
    assert v % 256 == 16 * kind + version && v / 256 == 0xaa;
    assert BigEndian(v / 256, 1) == BigEndian(v / 256 / 256, 0) + [0xaa];
  }

  /** The parts of a framed body, as the decoder finds them. */
  lemma FramedReads(h: Header, body: seq<Byte>, now: Time, data: seq<Byte>)
    requires HeaderOk(h) && TimeOk(now) && Framed(h, body, now) == Some(data)
    ensures CheckCrc(data) && |data| == 16 + |body| && At(data, 14, body)
    ensures data[0] == 0xaa && data[1] % 16 == h.version && WordAt(data, 2, 2) == |data| && ReadKind(data) == h.kind
    ensures ReadId(data) == h.id && ReadTime(data) == Stamped(h.time, now)
    ensures AcceptTime(ReadTime(data)) == Some(Stamped(h.time, now))
  {
    hide CheckCrc, Crc, CheckWord, HeaderBytes, ReadKind, WordAt, At, SetFrasec, GetFrasec, ReadId, ReadTime;
    var sent := h.(time := Stamped(h.time, now));
    var head := HeaderBytes(sent, 16 + |body|);
    AppendedCheckIsValid(head + body);
    AtParts(head, body, CheckWord(Crc(head + body)));
    HeaderReads(data, sent, 16 + |body|);
  }
}
