/**
 The bytes of a configuration frame, from the description it was built from: tables 8 and 9 of
 IEEE Std C37.118.2-2011, at explicit offsets, for names that are ASCII.
 */
module ConfigLayout {
  import opened BitOps
  import opened Bytes
  import opened ConfigFrames
  import opened ConfigUnits
  import opened FrameHeader
  import opened FrameLayout
  import opened FrameWords
  import opened Wrappers

  /** A name of 16 characters: cut, or filled up with spaces. */
  predicate TextStands(data: seq<Byte>, i: nat, name: Name) {
    i + 16 <= |data| && forall k | 0 <= k < 16 :: data[i + k] == if k < |name| then name[k] as int else 32
  }

  predicate NamesStand(data: seq<Byte>, i: nat, names: seq<Name>) {
    forall j | 0 <= j < |names| :: TextStands(data, i + j * 16, names[j])
  }

  /** Voltage or current, and 24 bits of scale. */
  predicate PhasorUnitStands(data: seq<Byte>, i: nat, u: PhasorUnit) {
    i + 4 <= |data| && data[i] == (if u.current then 1 else 0) && Three(data, i + 1) == u.scale
  }

  /** The type, and the scale in 24-bit two's complement, which the largest scale does not fit. */
  predicate AnalogUnitStands(data: seq<Byte>, i: nat, u: AnalogUnit) {
    && i + 4 <= |data| && data[i] == (if u.kind.Rms? then 1 else if u.kind.Peak? then 2 else 0)
    && Three(data, i + 1) == if u.scale < 0 then u.scale + 0x100_0000 else u.scale
  }

  /** Two masks, if the second does not reach into the first. */
  predicate DigitalUnitStands(data: seq<Byte>, i: nat, u: DigitalUnit) {
    i + 4 <= |data| && (u.second < 65536 ==> Two(data, i) == u.first && Two(data, i + 2) == u.second)
  }

  predicate PhasorUnitsStand(data: seq<Byte>, i: nat, us: seq<PhasorUnit>) {
    forall j | 0 <= j < |us| :: PhasorUnitStands(data, i + j * 4, us[j])
  }

  predicate AnalogUnitsStand(data: seq<Byte>, i: nat, us: seq<AnalogUnit>) {
    forall j | 0 <= j < |us| :: AnalogUnitStands(data, i + j * 4, us[j])
  }

  predicate DigitalUnitsStand(data: seq<Byte>, i: nat, us: seq<DigitalUnit>) {
    forall j | 0 <= j < |us| :: DigitalUnitStands(data, i + j * 4, us[j])
  }

  /** STN, IDCODE, FORMAT, PHNMR, ANNMR and DGNMR. */
  predicate HeadStands(data: seq<Byte>, i: nat, s: StreamConfig) {
    && i + 26 <= |data| && TextStands(data, i, s.station) && Two(data, i + 16) == s.idCode
    && Two(data, i + 18) == (if s.format.polar then 1 else 0) + (if s.format.phasorFloat then 2 else 0)
                            + (if s.format.analogFloat then 4 else 0) + (if s.format.freqFloat then 8 else 0)
    && Two(data, i + 20) == s.phasorNum && Two(data, i + 22) == s.analogNum && Two(data, i + 24) == s.digitalNum
  }

  /** FNOM and CFGCNT. */
  predicate TailStands(data: seq<Byte>, i: nat, s: StreamConfig) {
    i + 4 <= |data| && Two(data, i) == (if s.fnom == 50 then 1 else 0) && Two(data, i + 2) == s.cfgCount
  }

  /** One configuration block from byte i on. */
  predicate BlockStands(data: seq<Byte>, i: nat, s: StreamConfig) {
    var units := i + 26 + 16 * |s.channelNames|;
    var analogs := units + 4 * |s.phasorUnits|;
    var digitals := analogs + 4 * |s.analogUnits|;
    && HeadStands(data, i, s) && NamesStand(data, i + 26, s.channelNames)
    && PhasorUnitsStand(data, units, s.phasorUnits) && AnalogUnitsStand(data, analogs, s.analogUnits)
    && DigitalUnitsStand(data, digitals, s.digitalUnits)
    && TailStands(data, digitals + 4 * |s.digitalUnits|, s)
  }

  /** The first byte of block i. */
  function Offset(ss: seq<StreamConfig>, i: nat): nat
    requires i <= |ss|
  {
    if i == 0 then 20
    else
      var s := ss[i - 1];
      Offset(ss, i - 1) + 30 + 16 * |s.channelNames| + 4 * (|s.phasorUnits| + |s.analogUnits| + |s.digitalUnits|)
  }

  /** All names are ASCII, as far as they are kept. */
  predicate AsciiKept(s: StreamConfig) {
    IsAscii(Kept(s.station)) && forall n | n in s.channelNames :: IsAscii(Kept(n))
  }

  // Names.

  lemma {:induction false} EncodedByte(name: Name, k: nat)
    requires IsAscii(name) && k < |name|
    ensures |Encoded(name)| == |name| && Encoded(name)[k] == name[k] as int
    decreases k
  {
    AsciiSurvives(name);
    assert name[0] in name && forall c | c in name[1..] :: c in name;
    if k > 0 {
      EncodedByte(name[1..], k - 1);
      assert Encoded(name)[1..] == Encoded(name[1..]);
    }
  }

  lemma {:induction false} SpacesAre(n: nat, k: nat)
    requires k < n
    ensures Spaces(n)[k] == ' '
    decreases k
  {
    if k > 0 {
      SpacesAre(n - 1, k - 1);
    }
  }

  lemma PadAt(name: Name, k: nat)
    requires k < 16
    ensures Pad(name)[k] == if k < |name| then name[k] else ' '
  {
    if |name| <= k {
      SpacesAre(16 - |name|, k - |name|);
    }
  }

  lemma TextLayout(data: seq<Byte>, i: nat, name: Name)
    requires IsAscii(Kept(name)) && At(data, i, Encoded(Pad(name)))
    ensures TextStands(data, i, name) && |Encoded(Pad(name))| == 16
  {
    var text := Pad(name);
    PadIsAscii(name);
    AsciiSurvives(text);
    forall k | 0 <= k < 16
      ensures i + k < |data| && data[i + k] == if k < |name| then name[k] as int else 32
    {
      EncodedByte(text, k);
      PadAt(name, k);
      assert data[i + k] == data[i..i + 16][k];
    }
  }

  lemma {:induction false} NameOfList(data: seq<Byte>, i: nat, names: seq<Name>, j: nat)
    requires Padded(names) && AllAscii(names) && At(data, i, NamesBytes(names)) && j < |names|
    ensures At(data, i + j * 16, Encoded(names[j]))
    decreases j
  {
    hide At, Encoded, IsAscii;
    AllOfList(names);
    hide Padded, AllAscii;
    AtSplits(data, i, Encoded(names[0]), NamesBytes(names[1..]));
    if j > 0 {
      AsciiSurvives(names[0]);
      NameOfList(data, i + 16, names[1..], j - 1);
    }
  }

  lemma {:induction false} PaddedName(names: seq<Name>, j: nat)
    requires j < |names|
    ensures PadAll(names)[j] == Pad(names[j])
    decreases j
  {
    hide Pad;
    if j > 0 {
      PaddedName(names[1..], j - 1);
    }
  }

  lemma NamesLayout(data: seq<Byte>, i: nat, names: seq<Name>)
    requires (forall n | n in names :: IsAscii(Kept(n))) && At(data, i, NamesBytes(PadAll(names)))
    ensures NamesStand(data, i, names)
  {
    hide At, IsAscii, Kept, TextStands, NamesBytes, PadAll, Pad, Encoded, AllAscii, Padded;
    PadAllIsAscii(names);
    forall j | 0 <= j < |names|
      ensures TextStands(data, i + j * 16, names[j])
    {
      NameOfList(data, i, PadAll(names), j);
      PaddedName(names, j);
      TextLayout(data, i + j * 16, names[j]);
    }
  }

  // Units.

  lemma DigitalWord(u: DigitalUnit)
    requires SetDigitalUnit(u).Some? && u.second < 65536
    ensures SetDigitalUnit(u).value == u.first * 65536 + u.second
  {
    Powers();
    OrIsSum(u.first, 16, u.second);
    hide Or;
    Shl16(u.first);
  }

  lemma Shl16(a: nat)
    ensures Shl(a, 16) == a * 65536
  {
    ShlByFour(a, 12);
    ShlByFour(a, 8);
    ShlByFour(a, 4);
    ShlByFour(a, 0);
  }

  lemma ShlByFour(a: nat, k: nat)
    ensures Shl(a, k + 4) == 16 * Shl(a, k)
  {
    assert Shl(a, k + 2) == 4 * Shl(a, k);
  }

  lemma FirstMaskFits(u: DigitalUnit)
    requires SetDigitalUnit(u).Some?
    ensures 0 <= u.first < 65536
  {
  }

  /** What is read back of a digital unit whose second mask fits: the first mask 65536 times too large. */
  lemma DigitalUnitReported(u: DigitalUnit)
    requires SetDigitalUnit(u).Some? && u.second < 65536
    ensures GetDigitalUnit(SetDigitalUnit(u).value) == Some(DigitalUnit(65536 * u.first, u.second))
  {
    FirstMaskFits(u);
    DigitalWord(u);
    hide SetDigitalUnit;
    var w := SetDigitalUnit(u).value;
    assert w / 65536 == u.first && w % 65536 == u.second by {
      HalvesOf(u.first, u.second);
    }
  }

  lemma HalvesOf(a: nat, b: nat)
    requires b < 65536
    ensures (a * 65536 + b) / 65536 == a && (a * 65536 + b) % 65536 == b
  {
  }

  lemma PhasorUnitsLayout(data: seq<Byte>, i: nat, us: seq<PhasorUnit>, ws: seq<nat>)
    requires SetAll(SetPhasorUnit, us) == Some(ws) && At(data, i, WordsBytes(ws, 4))
    ensures PhasorUnitsStand(data, i, us)
  {
    hide At, WordsBytes, SetAll, BigEndian, Three;
    SetAllElements(SetPhasorUnit, us);
    forall j | 0 <= j < |us|
      ensures PhasorUnitStands(data, i + j * 4, us[j])
    {
      WordOfList(data, i, ws, 4, j);
      OneAndThreeAt(data, i + j * 4, Low(us[j].current), us[j].scale);
    }
  }

  lemma AnalogUnitsLayout(data: seq<Byte>, i: nat, us: seq<AnalogUnit>, ws: seq<Option<nat>>)
    requires SetAll(SetAnalogUnit, us) == Some(ws) && Complete(ws) && At(data, i, WordsBytes(Given(ws), 4))
    ensures AnalogUnitsStand(data, i, us)
  {
    hide At, WordsBytes, SetAll, BigEndian, Three;
    SetAllElements(SetAnalogUnit, us);
    forall j | 0 <= j < |us|
      ensures AnalogUnitStands(data, i + j * 4, us[j])
    {
      WordOfList(data, i, Given(ws), 4, j);
      OneAndThreeAt(data, i + j * 4, KindCode(us[j].kind), ScaleBits(us[j].scale));
    }
  }

  lemma DigitalUnitsLayout(data: seq<Byte>, i: nat, us: seq<DigitalUnit>, ws: seq<nat>)
    requires SetAll(SetDigitalUnit, us) == Some(ws) && At(data, i, WordsBytes(ws, 4))
    ensures DigitalUnitsStand(data, i, us)
  {
    hide WordsBytes, SetAll, BigEndian, Two, SetDigitalUnit;
    SetAllElements(SetDigitalUnit, us);
    forall j | 0 <= j < |us|
      ensures DigitalUnitStands(data, i + j * 4, us[j])
    {
      WordOfList(data, i, ws, 4, j);
      if us[j].second < 65536 {
        DigitalWord(us[j]);
        FirstMaskFits(us[j]);
        TwiceTwoAt(data, i + j * 4, us[j].first, us[j].second);
      }
    }
  }

  // Blocks.

  /** What the setters leave of a description. */
  lemma SetParts(s: StreamConfig, w: StreamWords)
    requires SetStream(s) == Some(w)
    ensures w.station == Pad(s.station) && w.idCode == s.idCode <= 65534 && w.format == s.format
    ensures w.phasorNum == s.phasorNum <= 65535 && w.analogNum == s.analogNum <= 65535
    ensures w.digitalNum == s.digitalNum <= 65535 && w.channelNames == PadAll(s.channelNames)
    ensures SetAll(SetPhasorUnit, s.phasorUnits) == Some(w.phasorUnits)
    ensures SetAll(SetAnalogUnit, s.analogUnits) == Some(w.analogUnits)
    ensures SetAll(SetDigitalUnit, s.digitalUnits) == Some(w.digitalUnits)
    ensures SetFnom(s.fnom) == Some(w.fnom) && w.cfgCount == s.cfgCount <= 65535
    ensures StreamOk(w)
  {
    SetStreamOk(s);
    hide SetAll, SetPhasorUnit, SetAnalogUnit, SetDigitalUnit, Pad, PadAll, StreamOk;
  }

  lemma HeadLayout(data: seq<Byte>, i: nat, s: StreamConfig, w: StreamWords)
    requires SetStream(s) == Some(w) && IsAscii(Kept(s.station)) && At(data, i, HeadBytes(w))
    ensures HeadStands(data, i, s) && |HeadBytes(w)| == 26
  {
    hide At, BigEndian, Encoded, Pad, TextStands, Two, SetStream, IsAscii, Kept, StreamOk;
    SetParts(s, w);
    HeadSplits(data, i, w);
    TextLayout(data, i, s.station);
    TwoAt(data, i + 16, w.idCode);
    TwoAt(data, i + 18, FormatCode(w.format));
    TwoAt(data, i + 20, w.phasorNum);
    TwoAt(data, i + 22, w.analogNum);
    TwoAt(data, i + 24, w.digitalNum);
  }

  lemma TailLayout(data: seq<Byte>, i: nat, s: StreamConfig, w: StreamWords)
    requires SetStream(s) == Some(w) && At(data, i, BigEndian(w.fnom, 2)) && At(data, i + 2, BigEndian(w.cfgCount, 2))
    ensures TailStands(data, i, s)
  {
    hide At, BigEndian, Two, SetStream, StreamOk;
    SetParts(s, w);
    TwoAt(data, i, w.fnom);
    TwoAt(data, i + 2, w.cfgCount);
  }

  lemma NamesLength(s: StreamConfig, w: StreamWords)
    requires SetStream(s) == Some(w) && AsciiKept(s)
    ensures |NamesBytes(w.channelNames)| == 16 * |s.channelNames|
  {
    SetParts(s, w);
    PadAllIsAscii(s.channelNames);
    NamesSpan(w.channelNames);
    Spans(|s.channelNames|, 16);
    hide SetStream, StreamOk;
  }

  lemma {:induction false} Spans(n: nat, size: nat)
    ensures Span(n, size) == size * n
  {
    if n > 0 {
      Spans(n - 1, size);
    }
  }

  lemma UnitParts(data: seq<Byte>, i: nat, w: StreamWords)
    requires UnitsFit(w) && At(data, i, UnitBytes(w))
    ensures At(data, i, WordsBytes(w.phasorUnits, 4))
    ensures var a := i + 4 * |w.phasorUnits|; var d := a + 4 * |w.analogUnits|;
      && At(data, a, WordsBytes(Given(w.analogUnits), 4)) && At(data, d, WordsBytes(w.digitalUnits, 4))
      && i + |UnitBytes(w)| == d + 4 * |w.digitalUnits|
  {
    hide At, WordsBytes, Span, Fit;
    Spans(|w.phasorUnits|, 4);
    Spans(|w.analogUnits|, 4);
    Spans(|w.digitalUnits|, 4);
    var p, a, d := WordsBytes(w.phasorUnits, 4), WordsBytes(Given(w.analogUnits), 4), WordsBytes(w.digitalUnits, 4);
    AtSplits(data, i, p + a, d);
    AtSplits(data, i, p, a);
  }

  lemma UnitsLayout(data: seq<Byte>, i: nat, s: StreamConfig, w: StreamWords)
    requires SetStream(s) == Some(w) && UnitsFit(w) && At(data, i, UnitBytes(w))
    ensures PhasorUnitsStand(data, i, s.phasorUnits)
    ensures AnalogUnitsStand(data, i + 4 * |s.phasorUnits|, s.analogUnits)
    ensures DigitalUnitsStand(data, i + 4 * |s.phasorUnits| + 4 * |s.analogUnits|, s.digitalUnits)
    ensures |UnitBytes(w)| == 4 * |s.phasorUnits| + 4 * |s.analogUnits| + 4 * |s.digitalUnits|
  {
    hide At, WordsBytes, Span, SetStream, StreamOk, PhasorUnitsStand, AnalogUnitsStand, DigitalUnitsStand, Fit, Given,
      Complete, UnitBytes;
    SetParts(s, w);
    UnitParts(data, i, w);
    PhasorUnitsLayout(data, i, s.phasorUnits, w.phasorUnits);
    AnalogUnitsLayout(data, i + 4 * |s.phasorUnits|, s.analogUnits, w.analogUnits);
    DigitalUnitsLayout(data, i + 4 * |s.phasorUnits| + 4 * |s.analogUnits|, s.digitalUnits, w.digitalUnits);
  }

  lemma BlockLayout(data: seq<Byte>, i: nat, s: StreamConfig, w: StreamWords)
    requires SetStream(s) == Some(w) && UnitsFit(w) && AsciiKept(s) && At(data, i, StreamBytes(w))
    ensures BlockStands(data, i, s)
    ensures |StreamBytes(w)| ==
      30 + 16 * |s.channelNames| + 4 * (|s.phasorUnits| + |s.analogUnits| + |s.digitalUnits|)
  {
    hide At, HeadBytes, NamesBytes, UnitBytes, StreamBytes, UnitsFit, BigEndian, SetStream, StreamOk, IsAscii, Kept;
    hide HeadStands, NamesStand, PhasorUnitsStand, AnalogUnitsStand, DigitalUnitsStand, TailStands;
    hide SetAll, SetPhasorUnit, SetAnalogUnit, SetDigitalUnit, Pad, PadAll;
    SetParts(s, w);
    PartsAt(data, i, w);
    HeadLayout(data, i, s, w);
    NamesLength(s, w);
    NamesLayout(data, i + 26, s.channelNames);
    var units := i + 26 + 16 * |s.channelNames|;
    UnitsLayout(data, units, s, w);
    TailLayout(data, units + |UnitBytes(w)|, s, w);
  }

  // All blocks.

  lemma {:induction false} BlocksLayout(data: seq<Byte>, start: nat, ss: seq<StreamConfig>, ws: seq<StreamWords>,
                                        n: nat)
    requires SetStreams(ss) == Some(ws) && AllFit(ws) && At(data, start, StreamsBytes(ws)) && n < |ss|
    requires forall s | s in ss :: AsciiKept(s)
    ensures BlockStands(data, start + Offset(ss, n) - 20, ss[n])
    decreases n
  {
    hide At, StreamBytes, SetStream, UnitsFit, AsciiKept, BlockStands;
    assert ss[0] in ss && forall s | s in ss[1..] :: s in ss;
    assert ws == [ws[0]] + SetStreams(ss[1..]).value && ws[0] in ws && forall w | w in ws[1..] :: w in ws;
    AtSplits(data, start, StreamBytes(ws[0]), StreamsBytes(ws[1..]));
    BlockLayout(data, start, ss[0], ws[0]);
    if n > 0 {
      BlocksLayout(data, start + |StreamBytes(ws[0])|, ss[1..], ws[1..], n - 1);
      OffsetFromFront(ss, n);
    }
  }

  /** Offsets counted from the first block on. */
  lemma {:induction false} OffsetFromFront(ss: seq<StreamConfig>, n: nat)
    requires 0 < n <= |ss|
    ensures Offset(ss, n) == Offset(ss, 1) + Offset(ss[1..], n - 1) - 20
    decreases n
  {
    if n > 1 {
      OffsetFromFront(ss, n - 1);
      assert ss[1..][n - 2] == ss[n - 1];
    }
  }

  lemma {:induction false} BlocksLength(ss: seq<StreamConfig>, ws: seq<StreamWords>)
    requires SetStreams(ss) == Some(ws) && AllFit(ws) && forall s | s in ss :: AsciiKept(s)
    ensures 20 + |StreamsBytes(ws)| == Offset(ss, |ss|)
    decreases |ss|
  {
    hide StreamBytes, SetStream, UnitsFit, AsciiKept, BlockStands;
    if ss != [] {
      assert ss[0] in ss && forall s | s in ss[1..] :: s in ss;
      assert ws == [ws[0]] + SetStreams(ss[1..]).value && ws[0] in ws && forall w | w in ws[1..] :: w in ws;
      BlocksLength(ss[1..], ws[1..]);
      assert StreamBytes(ws[0])[0..|StreamBytes(ws[0])|] == StreamBytes(ws[0]);
      BlockLayout(StreamBytes(ws[0]), 0, ss[0], ws[0]);
      OffsetFromFront(ss, |ss|);
    }
  }

  /** The body of the frame around the blocks. */
  lemma BodyParts(data: seq<Byte>, c: Config)
    requires AllFit(c.streams) && -32767 <= c.dataRate <= 32767 && c.timeBase < TWO_TO_24 && |c.streams| < 65536
    requires At(data, 14, Body(c)) && |data| == 16 + |Body(c)|
    ensures |data| == 24 + |StreamsBytes(c.streams)| && At(data, 20, StreamsBytes(c.streams))
    ensures Four(data, 14) == c.timeBase && Two(data, 18) == |c.streams| && SignedTwo(data, |data| - 4) == c.dataRate
  {
    hide At, StreamsBytes, AllFit, BigEndian, Two, Four;
    var a, b, s, r := BigEndian(c.timeBase, 4), BigEndian(|c.streams|, 2), StreamsBytes(c.streams),
      BigEndian(Unsigned16(c.dataRate), 2);
    AtSplits(data, 14, a + b + s, r);
    AtSplits(data, 14, a + b, s);
    AtSplits(data, 14, a, b);
    FourAt(data, 14, c.timeBase);
    TwoAt(data, 18, |c.streams|);
    TwoAt(data, |data| - 4, Unsigned16(c.dataRate));
    SignedTwoIs(data, |data| - 4, c.dataRate);
  }

  /** What the constructor leaves in the frame. */
  lemma BuildParts(kind: nat, version: int, id: int, soc: int, frasec: Frasec, timeBase: int, ss: seq<StreamConfig>,
                   dataRate: int, c: Config)
    requires Build(kind, version, id, soc, frasec, timeBase, ss, dataRate) == Some(c)
    ensures c.kind == kind && c.version == version && c.id == id && c.time.soc == soc && 0 <= soc
    ensures SetFrasec(frasec) == Some(c.time.frasec) && SetStreams(ss) == Some(c.streams)
    ensures c.timeBase == timeBase < TWO_TO_24 && c.dataRate == dataRate && -32767 <= dataRate <= 32767
    ensures |ss| <= 65535 && HeaderOk(Header(c.kind, c.version, c.id, c.time))
  {
    BuildOk(kind, version, id, soc, frasec, timeBase, ss, dataRate);
    hide SetStreams, SetFrasec, AllOk, HeaderOk;
  }

  lemma EncodeParts(c: Config, now: Time, data: seq<Byte>)
    requires -32767 <= c.dataRate <= 32767 && Encode(c, now) == Some(data)
    ensures AllFit(c.streams) && Framed(Header(c.kind, c.version, c.id, c.time), Body(c), now) == Some(data)
  {
    hide AllFit, Body, Framed;
  }

  /**
   What stands in the bytes of a configuration frame that is sent: the sync word of its type and version, size,
   id, time, time base, the number of blocks, every block, and the data rate before the check word.
   */
  lemma SentLayout(kind: nat, version: int, id: int, soc: int, frasec: Frasec, timeBase: int, ss: seq<StreamConfig>,
                   dataRate: int, c: Config, now: Time, data: seq<Byte>)
    requires Build(kind, version, id, soc, frasec, timeBase, ss, dataRate) == Some(c) && TimeOk(now)
    requires Encode(c, now) == Some(data)
    ensures |data| >= 24 && data[0] == 0xaa && data[1] == 16 * kind + version
    ensures Two(data, 2) == |data| && Two(data, 4) == id && TimeStands(data, soc, frasec, now)
    ensures Four(data, 14) == timeBase && Two(data, 18) == |ss| && SignedTwo(data, |data| - 4) == dataRate
    ensures (forall s | s in ss :: AsciiKept(s)) ==>
      && |data| == Offset(ss, |ss|) + 4
      && forall i | 0 <= i < |ss| :: BlockStands(data, Offset(ss, i), ss[i])
  {
    hide At, Build, Encode, Body, AllFit, SetStreams, SetFrasec, Framed, Four, Two, SignedTwo, TimeOk, HeaderOk, Offset,
      TimeStands, AsciiKept, BlockStands, StreamsBytes;
    BuildParts(kind, version, id, soc, frasec, timeBase, ss, dataRate, c);
    EncodeParts(c, now, data);
    HeaderLayout(Header(c.kind, c.version, c.id, c.time), Body(c), now, data);
    TimeLayout(data, soc, frasec, c.time.frasec, now);
    BodyParts(data, c);
    if forall s | s in ss :: AsciiKept(s) {
      BlocksLength(ss, c.streams);
      forall i | 0 <= i < |ss|
        ensures BlockStands(data, Offset(ss, i), ss[i])
      {
        BlocksLayout(data, 20, ss, c.streams, i);
      }
    }
  }
}
