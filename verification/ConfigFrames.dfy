/** Configuration frames, versions 1 and 2, for any number of streams. */
module ConfigFrames {
  import opened Bytes
  import opened ConfigUnits
  import opened Crc16
  import opened FrameHeader
  import opened FrameWords
  import opened Sequences
  import opened Wrappers

  /** One stream as the caller describes it. */
  datatype StreamConfig = StreamConfig(
    station: Name, idCode: int, format: Format, phasorNum: int, analogNum: int, digitalNum: int,
    channelNames: seq<Name>, phasorUnits: seq<PhasorUnit>, analogUnits: seq<AnalogUnit>,
    digitalUnits: seq<DigitalUnit>, fnom: int, cfgCount: int)

  /** One stream as the frame holds it; the word of an analog unit of unknown type is missing. */
  datatype StreamWords = StreamWords(
    station: Name, idCode: nat, format: Format, phasorNum: nat, analogNum: nat, digitalNum: nat,
    channelNames: seq<Name>, phasorUnits: seq<nat>, analogUnits: seq<Option<nat>>, digitalUnits: seq<nat>,
    fnom: nat, cfgCount: nat)

  /** kind is 2 for version 1 and 3 for version 2 of the configuration frame. */
  datatype Config = Config(kind: nat, version: nat, id: nat, time: Time, timeBase: nat, streams: seq<StreamWords>,
                           dataRate: int)

  // Building a frame.

  predicate Count16(n: int) {
    0 <= n <= 65535
  }

  /** _fnom2int */
  function SetFnom(fnom: int): Option<nat> {
    if fnom == 50 then Some(1) else if fnom == 60 then Some(0) else None
  }

  /** _int2fnom */
  function GetFnom(w: nat): int {
    if w == 0 then 60 else 50
  }

  predicate CountsOk(s: StreamConfig) {
    && Count16(s.phasorNum) && Count16(s.analogNum) && Count16(s.digitalNum) && Count16(s.cfgCount)
    && |s.channelNames| == s.phasorNum + s.analogNum + 16 * s.digitalNum
    && |s.phasorUnits| == s.phasorNum && |s.analogUnits| == s.analogNum && |s.digitalUnits| == s.digitalNum
  }

  function SetStream(s: StreamConfig): Option<StreamWords> {
    if !(1 <= s.idCode <= 65534) || !CountsOk(s) then None
    else match (SetAll(SetPhasorUnit, s.phasorUnits), SetAll(SetAnalogUnit, s.analogUnits),
                SetAll(SetDigitalUnit, s.digitalUnits), SetFnom(s.fnom)) {
      case (Some(p), Some(a), Some(d), Some(f)) =>
        Some(StreamWords(Pad(s.station), s.idCode, s.format, s.phasorNum, s.analogNum, s.digitalNum,
                         PadAll(s.channelNames), p, a, d, f, s.cfgCount))
      case _ => None
    }
  }

  function SetStreams(ss: seq<StreamConfig>): (r: Option<seq<StreamWords>>)
    ensures r.Some? ==> |r.value| == |ss|
    decreases |ss|
  {
    if ss == [] then Some([])
    else match (SetStream(ss[0]), SetStreams(ss[1..])) {
      case (Some(w), Some(ws)) => Some([w] + ws)
      case _ => None
    }
  }

  /** The constructor: every part is checked, or nothing is built. */
  function Build(kind: nat, version: int, id: int, soc: int, frasec: Frasec, timeBase: int, streams: seq<StreamConfig>,
                 dataRate: int)
    : Option<Config>
  {
    if kind !in {2, 3} || !(1 <= version <= 15) || !(1 <= id <= 65534) || !(0 <= soc < TWO_TO_32)
      || !(1 <= timeBase < TWO_TO_24)
      || !(1 <= |streams| <= 65535) || !(-32767 <= dataRate <= 32767) then None
    else match (SetFrasec(frasec), SetStreams(streams)) {
      case (Some(w), Some(ws)) => Some(Config(kind, version, id, Time(soc, w), timeBase, ws, dataRate))
      case _ => None
    }
  }

  /** What the setters guarantee about the words of a stream. */
  ghost predicate StreamOk(w: StreamWords) {
    && |w.station| == 16 && Padded(w.channelNames) && 1 <= w.idCode <= 65534 && w.cfgCount < 65536 && w.fnom <= 1
    && w.phasorNum == |w.phasorUnits| < 65536 && w.analogNum == |w.analogUnits| < 65536
    && w.digitalNum == |w.digitalUnits| < 65536
    && |w.channelNames| == w.phasorNum + w.analogNum + 16 * w.digitalNum
    && Fit(w.phasorUnits, 4) && (forall u | u in w.phasorUnits :: Stable(SetPhasorUnit, GetPhasorUnit, u))
    && (forall u | u in w.analogUnits :: AnalogStable(u))
  }

  // Encoding.

  function HeadBytes(w: StreamWords): seq<Byte> {
    Encoded(w.station) + BigEndian(w.idCode, 2) + BigEndian(FormatCode(w.format), 2) + BigEndian(w.phasorNum, 2)
    + BigEndian(w.analogNum, 2) + BigEndian(w.digitalNum, 2)
  }

  predicate Complete(us: seq<Option<nat>>) {
    forall u | u in us :: u.Some?
  }

  function Given(us: seq<Option<nat>>): (ws: seq<nat>)
    requires Complete(us)
    ensures |ws| == |us| && forall i | 0 <= i < |us| :: us[i] == Some(ws[i])
    decreases |us|
  {
    if us == [] then [] else
      assert us[0] in us && forall u | u in us[1..] :: u in us;
      [us[0].value] + Given(us[1..])
  }

  /** No analog word is missing and no digital word is too large, which only the encoder finds out. */
  predicate UnitsFit(w: StreamWords) {
    Complete(w.analogUnits) && Fit(Given(w.analogUnits), 4) && Fit(w.digitalUnits, 4)
  }

  function UnitBytes(w: StreamWords): seq<Byte>
    requires UnitsFit(w)
  {
    WordsBytes(w.phasorUnits, 4) + WordsBytes(Given(w.analogUnits), 4) + WordsBytes(w.digitalUnits, 4)
  }

  function StreamBytes(w: StreamWords): seq<Byte>
    requires UnitsFit(w)
  {
    HeadBytes(w) + NamesBytes(w.channelNames) + UnitBytes(w) + BigEndian(w.fnom, 2) + BigEndian(w.cfgCount, 2)
  }

  predicate AllFit(ws: seq<StreamWords>) {
    forall w | w in ws :: UnitsFit(w)
  }

  function StreamsBytes(ws: seq<StreamWords>): seq<Byte>
    requires AllFit(ws)
    decreases |ws|
  {
    if ws == [] then [] else
      assert ws[0] in ws && forall w | w in ws[1..] :: w in ws;
      StreamBytes(ws[0]) + StreamsBytes(ws[1..])
  }

  function Body(c: Config): seq<Byte>
    requires AllFit(c.streams) && -32768 <= c.dataRate < 65536
  {
    BigEndian(c.timeBase, 4) + BigEndian(|c.streams|, 2) + StreamsBytes(c.streams)
      + BigEndian(Unsigned16(c.dataRate), 2)
  }

  /** convert2bytes of a frame that the constructor has built. */
  function Encode(c: Config, now: Time): Option<seq<Byte>>
    requires -32768 <= c.dataRate < 65536
  {
    if AllFit(c.streams) then Framed(Header(c.kind, c.version, c.id, c.time), Body(c), now) else None
  }

  method EncodeStream(w: StreamWords) returns (b: Option<seq<Byte>>)
    requires StreamOk(w)
    ensures b == if UnitsFit(w) then Some(StreamBytes(w)) else None
  {
    hide Fit, Padded, BigEndian, FormatCode, Stable, AnalogStable, NamesBytes, Encoded;
    if !Complete(w.analogUnits) {
      return None;
    }
    var head := Encoded(w.station) + BigEndian(w.idCode, 2) + BigEndian(FormatCode(w.format), 2)
      + BigEndian(w.phasorNum, 2)
      + BigEndian(w.analogNum, 2) + BigEndian(w.digitalNum, 2);
    var p := List2Bytes(w.phasorUnits, 4);
    var a := List2Bytes(Given(w.analogUnits), 4);
    var d := List2Bytes(w.digitalUnits, 4);
    if a == None || d == None {
      return None;
    }
    return Some(head + NamesBytes(w.channelNames) + (p.value + a.value + d.value) + BigEndian(w.fnom, 2)
                + BigEndian(w.cfgCount, 2));
  }

  lemma {:induction false} StreamsBytesAppend(ws: seq<StreamWords>, w: StreamWords)
    requires AllFit(ws) && UnitsFit(w)
    ensures AllFit(ws + [w]) && StreamsBytes(ws + [w]) == StreamsBytes(ws) + StreamBytes(w)
    decreases |ws|
  {
    hide StreamBytes, UnitsFit;
    if ws == [] {
      assert ws + [w] == [w] && [w][1..] == [];
      assert StreamsBytes([w]) == StreamBytes(w) + [];
    } else {
      assert ws[0] in ws && forall v | v in ws[1..] :: v in ws;
      StreamsBytesAppend(ws[1..], w);
      assert (ws + [w])[0] == ws[0] && (ws + [w])[1..] == ws[1..] + [w];
      Assoc(StreamBytes(ws[0]), StreamsBytes(ws[1..]), StreamBytes(w));
    }
  }

  /** convert2bytes as the source runs it: one configuration block after the other. */
  method ConvertToBytes(c: Config, now: Time) returns (r: Option<seq<Byte>>)
    requires ConfigOk(c)
    ensures r == Encode(c, now)
  {
    hide StreamBytes, Framed, UnitsFit, BigEndian, StreamOk;
    var head := BigEndian(c.timeBase, 4) + BigEndian(|c.streams|, 2);
    var blocks: seq<Byte> := [];
    for i := 0 to |c.streams|
      invariant AllFit(c.streams[..i]) && blocks == StreamsBytes(c.streams[..i])
    {
      assert c.streams[i] in c.streams && c.streams[..i + 1] == c.streams[..i] + [c.streams[i]];
      assert StreamOk(c.streams[i]);
      var block := EncodeStream(c.streams[i]);
      if block == None {
        return None;
      }
      StreamsBytesAppend(c.streams[..i], c.streams[i]);
      blocks := blocks + block.value;
    }
    assert c.streams[..|c.streams|] == c.streams;
    return Framed(Header(c.kind, c.version, c.id, c.time), head + blocks + BigEndian(Unsigned16(c.dataRate), 2), now);
  }

  // Decoding.

  datatype Layout = Layout(phasors: nat, analogs: nat, digitals: nat, names: nat, phasorUnits: nat, analogUnits: nat,
                           digitalUnits: nat, tail: nat)

  /** Where the parts of the stream at start stand, according to its own counts. */
  function LayoutAt(data: seq<Byte>, start: nat): Layout {
    var p, a, d := WordAt(data, start + 20, 2), WordAt(data, start + 22, 2), WordAt(data, start + 24, 2);
    var names := start + 26;
    var phasorUnits := names + Span(p + a + 16 * d, 16);
    var analogUnits := phasorUnits + Span(p, 4);
    var digitalUnits := analogUnits + Span(a, 4);
    Layout(p, a, d, names, phasorUnits, analogUnits, digitalUnits, digitalUnits + Span(d, 4))
  }

  function StreamAt(data: seq<Byte>, start: nat): Option<StreamConfig> {
    var l := LayoutAt(data, start);
    match (NameAt(data, start), NamesAt(data, l.names, l.phasors + l.analogs + 16 * l.digitals),
           GetAll(GetPhasorUnit, WordsAt(data, l.phasorUnits, l.phasors, 4)),
           GetAll(GetAnalogUnit, WordsAt(data, l.analogUnits, l.analogs, 4)),
           GetAll(GetDigitalUnit, WordsAt(data, l.digitalUnits, l.digitals, 4)))
    case (Some(station), Some(names), Some(p), Some(a), Some(d)) =>
      Some(StreamConfig(station, WordAt(data, start + 16, 2), FormatOf(WordAt(data, start + 18, 2)),
                        l.phasors, l.analogs, l.digitals, names, p, a, d,
                        GetFnom(WordAt(data, l.tail, 2)), WordAt(data, l.tail + 2, 2)))
    case _ => None
  }

  function StreamsAt(data: seq<Byte>, start: nat, n: nat): Option<seq<StreamConfig>>
    decreases n
  {
    if n == 0 then Some([])
    else match (StreamAt(data, start), StreamsAt(data, LayoutAt(data, start).tail + 4, n - 1)) {
      case (Some(s), Some(ss)) => Some([s] + ss)
      case _ => None
    }
  }

  /** data[-4:-2] as a signed number. */
  function RateAt(data: seq<Byte>): int
    requires |data| >= 2
  {
    Signed16(FromBigEndian(Slice(data, if |data| < 4 then 0 else |data| - 4, |data| - 2)))
  }

  /**
   convert2frame of the class of the given kind: check, read, and build the frame again through its
   setters, as version 1. The frame type that stands in the data is not looked at.
   */
  function Decode(data: seq<Byte>, kind: nat): Option<Config> {
    if !CheckCrc(data) then None
    else match StreamsAt(data, 20, WordAt(data, 18, 2))
      case None => None
      case Some(ss) =>
        Build(kind, 1, ReadId(data), ReadTime(data).soc, GetFrasec(ReadTime(data).frasec),
              WordAt(data, 14, 4) % TWO_TO_24, ss, RateAt(data))
  }

  /** The loops over the names of a stream. */
  method ReadNames(data: seq<Byte>, startByte: nat, n: nat) returns (r: Option<seq<Name>>, next: nat)
    ensures r == NamesAt(data, startByte, n) && (r.Some? ==> next == startByte + Span(n, 16))
  {
    hide NameAt;
    var names: seq<Name> := [];
    next := startByte;
    PrependNothing(NamesAt(data, startByte, n));
    var left: nat := n;
    while left > 0
      invariant left <= n && next + Span(left, 16) == startByte + Span(n, 16)
      invariant NamesAt(data, startByte, n) == Prepend(names, NamesAt(data, next, left))
    {
      var name := NameAt(data, next);
      if name == None {
        return None, next;
      }
      MovePrepended(names, name.value, NamesAt(data, next + 16, left - 1));
      names := names + [name.value];
      next := next + 16;
      left := left - 1;
    }
    assert names + [] == names;
    r := Some(names);
  }

  method ReadStream(data: seq<Byte>, startByte: nat) returns (r: Option<StreamConfig>, next: nat)
    ensures r == StreamAt(data, startByte) && (r.Some? ==> next == LayoutAt(data, startByte).tail + 4)
  {
    hide WordAt, WordsAt, NameAt, NamesAt, GetPhasorUnit, GetAnalogUnit, GetDigitalUnit, GetAll, FormatOf;
    var station := NameAt(data, startByte);
    var p, a, d := WordAt(data, startByte + 20, 2), WordAt(data, startByte + 22, 2), WordAt(data, startByte + 24, 2);
    next := startByte + 26;
    var names, phasorWords, analogWords, digitalWords;
    names, next := ReadNames(data, next, p + a + 16 * d);
    if station == None || names == None {
      return None, next;
    }
    phasorWords, next := ReadWords(data, next, p, 4);
    analogWords, next := ReadWords(data, next, a, 4);
    digitalWords, next := ReadWords(data, next, d, 4);
    var phasorUnits, analogUnits, digitalUnits :=
      GetAll(GetPhasorUnit, phasorWords), GetAll(GetAnalogUnit, analogWords), GetAll(GetDigitalUnit, digitalWords);
    if phasorUnits == None || analogUnits == None || digitalUnits == None {
      return None, next;
    }
    r := Some(StreamConfig(station.value, WordAt(data, startByte + 16, 2), FormatOf(WordAt(data, startByte + 18, 2)),
                           p, a, d, names.value, phasorUnits.value, analogUnits.value, digitalUnits.value,
                           GetFnom(WordAt(data, next, 2)), WordAt(data, next + 2, 2)));
    next := next + 4;
  }

  method ReadStreams(data: seq<Byte>, first: nat, n: nat) returns (r: Option<seq<StreamConfig>>)
    ensures r == StreamsAt(data, first, n)
  {
    hide StreamAt, LayoutAt;
    var ss: seq<StreamConfig> := [];
    var startByte: nat, left: nat := first, n;
    PrependNothing(StreamsAt(data, first, n));
    while left > 0
      invariant left <= n && StreamsAt(data, first, n) == Prepend(ss, StreamsAt(data, startByte, left))
    {
      var s, next := ReadStream(data, startByte);
      if s == None {
        return None;
      }
      MovePrepended(ss, s.value, StreamsAt(data, next, left - 1));
      ss := ss + [s.value];
      startByte := next;
      left := left - 1;
    }
    assert ss + [] == ss;
    r := Some(ss);
  }

  /** convert2frame as the source runs it: startByte moves over the streams, then the frame is built. */
  method ConvertToFrame(data: seq<Byte>, kind: nat) returns (r: Option<Config>)
    ensures r == Decode(data, kind)
  {
    hide StreamsAt, Build, WordAt, Crc, CheckWord;
    if !CheckCrc(data) {
      return None;
    }
    var ss := ReadStreams(data, 20, WordAt(data, 18, 2));
    if ss == None {
      return None;
    }
    r := Build(kind, 1, ReadId(data), ReadTime(data).soc, GetFrasec(ReadTime(data).frasec),
               WordAt(data, 14, 4) % TWO_TO_24, ss.value, RateAt(data));
  }

  // The round trip.

  lemma SetUnits(s: StreamConfig)
    requires SetStream(s).Some?
    ensures var w := SetStream(s).value;
      && (forall u | u in w.phasorUnits :: u < TWO_TO_32 && Stable(SetPhasorUnit, GetPhasorUnit, u))
      && (forall u | u in w.analogUnits :: AnalogStable(u))
  {
    hide SetPhasorUnit, SetAnalogUnit, SetDigitalUnit, GetPhasorUnit, GetAnalogUnit, Stable, AnalogStable, Pad,
      PadAll, CountsOk;
    var w := SetStream(s).value;
    SetAllElements(SetPhasorUnit, s.phasorUnits);
    SetAllElements(SetAnalogUnit, s.analogUnits);
    forall i | 0 <= i < |w.phasorUnits|
      ensures w.phasorUnits[i] < TWO_TO_32 && Stable(SetPhasorUnit, GetPhasorUnit, w.phasorUnits[i])
    {
      PhasorUnitRoundTrip(s.phasorUnits[i]);
    }
    forall i | 0 <= i < |w.analogUnits| ensures AnalogStable(w.analogUnits[i]) {
      AnalogUnitRoundTrip(s.analogUnits[i]);
    }
  }

  lemma SetStreamOk(s: StreamConfig)
    requires SetStream(s).Some?
    ensures StreamOk(SetStream(s).value)
  {
    SetUnits(s);
    RangesOfSizes();
    hide Range, Stable, AnalogStable;
  }

  predicate HeadOk(w: StreamWords) {
    |w.station| == 16 && w.idCode < 65536 && w.phasorNum < 65536 && w.analogNum < 65536 && w.digitalNum < 65536
  }

  lemma HeadSplits(data: seq<Byte>, start: nat, w: StreamWords)
    requires At(data, start, HeadBytes(w))
    ensures At(data, start, Encoded(w.station))
    ensures var next := start + |Encoded(w.station)|;
      && At(data, next, BigEndian(w.idCode, 2)) && At(data, next + 2, BigEndian(FormatCode(w.format), 2))
      && At(data, next + 4, BigEndian(w.phasorNum, 2)) && At(data, next + 6, BigEndian(w.analogNum, 2))
      && At(data, next + 8, BigEndian(w.digitalNum, 2))
  {
    hide BigEndian, FormatCode, At, Encoded;
    AtSix(data, start, Encoded(w.station), BigEndian(w.idCode, 2), BigEndian(FormatCode(w.format), 2),
          BigEndian(w.phasorNum, 2), BigEndian(w.analogNum, 2), BigEndian(w.digitalNum, 2));
  }

  lemma HeadReads(data: seq<Byte>, start: nat, w: StreamWords)
    requires HeadOk(w) && IsAscii(w.station) && At(data, start, HeadBytes(w))
    ensures WordAt(data, start + 16, 2) == w.idCode && FormatOf(WordAt(data, start + 18, 2)) == w.format
    ensures WordAt(data, start + 20, 2) == w.phasorNum && WordAt(data, start + 22, 2) == w.analogNum
    ensures WordAt(data, start + 24, 2) == w.digitalNum
  {
    RangesOfSizes();
    FormatRoundTrip(w.format);
    AsciiSurvives(w.station);
    hide Range, BigEndian, FormatOf, FormatCode, At, WordAt, Encoded, IsAscii;
    HeadSplits(data, start, w);
    WordAtReads(data, start + 16, w.idCode, 2);
    WordAtReads(data, start + 18, FormatCode(w.format), 2);
    WordAtReads(data, start + 20, w.phasorNum, 2);
    WordAtReads(data, start + 22, w.analogNum, 2);
    WordAtReads(data, start + 24, w.digitalNum, 2);
  }

  lemma UnitsRead(data: seq<Byte>, start: nat, w: StreamWords)
    requires UnitsFit(w) && At(data, start, UnitBytes(w)) && Fit(w.phasorUnits, 4)
    ensures var a := start + Span(|w.phasorUnits|, 4); var d := a + Span(|w.analogUnits|, 4);
      && WordsAt(data, start, |w.phasorUnits|, 4) == w.phasorUnits
      && WordsAt(data, a, |w.analogUnits|, 4) == Given(w.analogUnits)
      && WordsAt(data, d, |w.digitalUnits|, 4) == w.digitalUnits
      && start + |UnitBytes(w)| == d + Span(|w.digitalUnits|, 4)
  {
    hide At, WordsAt, WordsBytes, Fit, Complete;
    var p, a, d := WordsBytes(w.phasorUnits, 4), WordsBytes(Given(w.analogUnits), 4), WordsBytes(w.digitalUnits, 4);
    AtSplits(data, start, p + a, d);
    AtSplits(data, start, p, a);
    WordsAtReads(data, start, w.phasorUnits, 4);
    WordsAtReads(data, start + |p|, Given(w.analogUnits), 4);
    WordsAtReads(data, start + |p| + |a|, w.digitalUnits, 4);
  }

  /** The parts of a stream stand one after the other. */
  lemma PartsAt(data: seq<Byte>, start: nat, w: StreamWords)
    requires UnitsFit(w) && At(data, start, StreamBytes(w))
    ensures var n := start + |HeadBytes(w)|; var u := n + |NamesBytes(w.channelNames)|; var t := u + |UnitBytes(w)|;
      && At(data, start, HeadBytes(w)) && At(data, n, NamesBytes(w.channelNames)) && At(data, u, UnitBytes(w))
      && At(data, t, BigEndian(w.fnom, 2)) && At(data, t + 2, BigEndian(w.cfgCount, 2))
      && start + |StreamBytes(w)| == t + 4
  {
    hide At, HeadBytes, NamesBytes, UnitBytes, UnitsFit, BigEndian;
    AtFive(data, start, HeadBytes(w), NamesBytes(w.channelNames), UnitBytes(w), BigEndian(w.fnom, 2),
           BigEndian(w.cfgCount, 2));
  }

  lemma HeadLength(w: StreamWords)
    requires |w.station| == 16 && IsAscii(w.station)
    ensures |HeadBytes(w)| == 26
  {
    AsciiSurvives(w.station);
    hide BigEndian, Encoded;
  }

  /** All names of a stream are ASCII. */
  predicate AsciiNames(w: StreamWords) {
    IsAscii(w.station) && AllAscii(w.channelNames)
  }

  /**
   The counts and the names that the decoder reads from the bytes of a stream: names that are not
   ASCII are refused.
   */
  lemma NamesRead(data: seq<Byte>, start: nat, w: StreamWords)
    requires StreamOk(w) && UnitsFit(w) && At(data, start, StreamBytes(w))
    ensures NameAt(data, start) == if IsAscii(w.station) then Some(w.station) else None
    ensures IsAscii(w.station) ==>
      var l := LayoutAt(data, start);
      && l.phasors == w.phasorNum && l.analogs == w.analogNum && l.digitals == w.digitalNum
      && WordAt(data, start + 16, 2) == w.idCode && FormatOf(WordAt(data, start + 18, 2)) == w.format
      && NamesAt(data, l.names, l.phasors + l.analogs + 16 * l.digitals)
           == if AllAscii(w.channelNames) then Some(w.channelNames) else None
  {
    hide At, WordAt, NameAt, NamesAt, HeadBytes, NamesBytes, UnitBytes, BigEndian, StreamBytes, Stable, AnalogStable,
      Fit, FormatOf;
    hide IsAscii, AllAscii, Encoded, UnitsFit, Padded;
    PartsAt(data, start, w);
    HeadSplits(data, start, w);
    NameAtReads(data, start, w.station);
    if IsAscii(w.station) {
      HeadReads(data, start, w);
      HeadLength(w);
      NamesAtReads(data, start + 26, w.channelNames);
    }
  }

  /** What the decoder reads from the bytes of a stream with ASCII names, and where it then stands. */
  lemma StreamReads(data: seq<Byte>, start: nat, w: StreamWords)
    requires StreamOk(w) && UnitsFit(w) && AsciiNames(w) && At(data, start, StreamBytes(w))
    ensures LayoutAt(data, start).tail + 4 == start + |StreamBytes(w)|
    ensures var l := LayoutAt(data, start);
      && WordsAt(data, l.phasorUnits, l.phasors, 4) == w.phasorUnits
      && WordsAt(data, l.analogUnits, l.analogs, 4) == Given(w.analogUnits)
      && WordsAt(data, l.digitalUnits, l.digitals, 4) == w.digitalUnits
      && WordAt(data, l.tail, 2) == w.fnom && WordAt(data, l.tail + 2, 2) == w.cfgCount
  {
    RangesOfSizes();
    hide At, WordAt, WordsAt, NameAt, NamesAt, HeadBytes, NamesBytes, UnitBytes, BigEndian, StreamBytes, Stable,
      AnalogStable, Padded;
    hide Fit, Range, FormatOf, UnitsFit, IsAscii, AllAscii;
    HeadLength(w);
    PartsAt(data, start, w);
    NamesRead(data, start, w);
    NamesSpan(w.channelNames);
    var u := start + 26 + Span(|w.channelNames|, 16);
    UnitsRead(data, u, w);
    WordAtReads(data, u + |UnitBytes(w)|, w.fnom, 2);
    WordAtReads(data, u + |UnitBytes(w)| + 2, w.cfgCount, 2);
  }

  predicate MasksZero(w: StreamWords) {
    forall u | u in w.digitalUnits :: u < 65536
  }

  lemma PhasorsReread(ws: seq<nat>)
    requires forall w | w in ws :: Stable(SetPhasorUnit, GetPhasorUnit, w)
    ensures GetAll(GetPhasorUnit, ws).Some? && SetAll(SetPhasorUnit, GetAll(GetPhasorUnit, ws).value) == Some(ws)
  {
    forall i | 0 <= i < |ws|
      ensures GetPhasorUnit(ws[i]).Some? && SetPhasorUnit(GetPhasorUnit(ws[i]).value) == Some(ws[i])
    {
      assert Stable(SetPhasorUnit, GetPhasorUnit, ws[i]);
    }
    hide SetPhasorUnit, GetPhasorUnit;
    RereadAll(SetPhasorUnit, GetPhasorUnit, ws, ws);
  }

  lemma AnalogsReread(us: seq<Option<nat>>)
    requires Complete(us) && forall u | u in us :: AnalogStable(u)
    ensures GetAll(GetAnalogUnit, Given(us)).Some?
      && SetAll(SetAnalogUnit, GetAll(GetAnalogUnit, Given(us)).value) == Some(us)
  {
    var ws := Given(us);
    forall i | 0 <= i < |ws|
      ensures GetAnalogUnit(ws[i]).Some? && SetAnalogUnit(GetAnalogUnit(ws[i]).value) == Some(us[i])
    {
      assert AnalogStable(us[i]);
    }
    hide SetAnalogUnit, GetAnalogUnit;
    RereadAll(SetAnalogUnit, GetAnalogUnit, ws, us);
  }

  lemma UnitsReread(w: StreamWords)
    requires StreamOk(w) && UnitsFit(w)
    ensures var p, a, d := GetAll(GetPhasorUnit, w.phasorUnits), GetAll(GetAnalogUnit, Given(w.analogUnits)),
      GetAll(GetDigitalUnit, w.digitalUnits);
      && p.Some? && a.Some? && d.Some?
      && SetAll(SetPhasorUnit, p.value) == Some(w.phasorUnits) && SetAll(SetAnalogUnit, a.value) == Some(w.analogUnits)
      && SetAll(SetDigitalUnit, d.value) == if MasksZero(w) then Some(w.digitalUnits) else None
  {
    RangesOfSizes();
    hide Range, SetPhasorUnit, GetPhasorUnit, SetAnalogUnit, GetAnalogUnit, SetDigitalUnit, GetDigitalUnit, SetAll,
      GetAll, Stable, AnalogStable;
    PhasorsReread(w.phasorUnits);
    AnalogsReread(w.analogUnits);
    DigitalUnitsReread(w.digitalUnits);
  }

  /**
   Reading one stream and setting it again: names that are not ASCII cannot be read, first digital masks
   that are not zero cannot be set again, and otherwise the words come back.
   */
  lemma StreamReread(data: seq<Byte>, start: nat, w: StreamWords)
    requires StreamOk(w) && UnitsFit(w) && At(data, start, StreamBytes(w))
    ensures StreamAt(data, start).Some? <==> AsciiNames(w)
    ensures AsciiNames(w) ==>
      && LayoutAt(data, start).tail + 4 == start + |StreamBytes(w)|
      && SetStream(StreamAt(data, start).value) == if MasksZero(w) then Some(w) else None
  {
    hide At, WordAt, WordsAt, NameAt, NamesAt, StreamBytes, LayoutAt, Fit, FormatOf, UnitsFit, IsAscii, AllAscii, Given,
      Complete, MasksZero;
    hide SetPhasorUnit, GetPhasorUnit, SetAnalogUnit, GetAnalogUnit, SetDigitalUnit, GetDigitalUnit, SetAll, GetAll,
      Stable, AnalogStable;
    NamesRead(data, start, w);
    UnitsReread(w);
    if AsciiNames(w) {
      StreamReads(data, start, w);
    }
  }

  ghost predicate AllOk(ws: seq<StreamWords>) {
    forall w | w in ws :: StreamOk(w)
  }

  lemma {:induction false} SetStreamsOk(ss: seq<StreamConfig>)
    requires SetStreams(ss).Some?
    ensures AllOk(SetStreams(ss).value)
    decreases |ss|
  {
    hide SetStream;
    if ss != [] {
      SetStreamOk(ss[0]);
      SetStreamsOk(ss[1..]);
    }
  }

  predicate AllMasksZero(ws: seq<StreamWords>) {
    forall w | w in ws :: MasksZero(w)
  }

  predicate AllAsciiNames(ws: seq<StreamWords>) {
    forall w | w in ws :: AsciiNames(w)
  }

  lemma AllOfStreams(ws: seq<StreamWords>)
    requires ws != []
    ensures AllOk(ws) <==> StreamOk(ws[0]) && AllOk(ws[1..])
    ensures AllFit(ws) <==> UnitsFit(ws[0]) && AllFit(ws[1..])
    ensures AllMasksZero(ws) <==> MasksZero(ws[0]) && AllMasksZero(ws[1..])
    ensures AllAsciiNames(ws) <==> AsciiNames(ws[0]) && AllAsciiNames(ws[1..])
  {
    hide StreamOk, UnitsFit, MasksZero, AsciiNames;
    assert ws == [ws[0]] + ws[1..];
  }

  lemma {:induction false} StreamsReread(data: seq<Byte>, start: nat, ws: seq<StreamWords>)
    requires AllOk(ws) && AllFit(ws) && At(data, start, StreamsBytes(ws))
    ensures StreamsAt(data, start, |ws|).Some? <==> AllAsciiNames(ws)
    ensures AllAsciiNames(ws) ==>
      && |StreamsAt(data, start, |ws|).value| == |ws|
      && SetStreams(StreamsAt(data, start, |ws|).value) == if AllMasksZero(ws) then Some(ws) else None
    decreases |ws|
  {
    hide At, StreamBytes, StreamAt, SetStream, StreamOk, LayoutAt, MasksZero, UnitsFit, AsciiNames;
    if ws != [] {
      AllOfStreams(ws);
      hide AllOk, AllFit, AllMasksZero, AllAsciiNames;
      AtSplits(data, start, StreamBytes(ws[0]), StreamsBytes(ws[1..]));
      StreamReread(data, start, ws[0]);
      if AsciiNames(ws[0]) {
        var next := start + |StreamBytes(ws[0])|;
        StreamsReread(data, next, ws[1..]);
        if AllAsciiNames(ws[1..]) {
          var s, ss := StreamAt(data, start).value, StreamsAt(data, next, |ws| - 1).value;
          assert ([s] + ss)[1..] == ss && ws == [ws[0]] + ws[1..];
        }
      }
    }
  }

  lemma RateReads(data: seq<Byte>, rate: int)
    requires |data| >= 4 && -32767 <= rate <= 32767 && At(data, |data| - 4, BigEndian(Unsigned16(rate), 2))
    ensures RateAt(data) == rate
  {
    RangesOfSizes();
    WordAtReads(data, |data| - 4, Unsigned16(rate), 2);
    hide Range, BigEndian;
  }

  lemma BodyReads(data: seq<Byte>, c: Config)
    requires AllFit(c.streams) && -32767 <= c.dataRate <= 32767 && c.timeBase < TWO_TO_24 && |c.streams| < 65536
    requires At(data, 14, Body(c)) && |data| == 16 + |Body(c)|
    ensures WordAt(data, 14, 4) == c.timeBase && WordAt(data, 18, 2) == |c.streams| && RateAt(data) == c.dataRate
    ensures At(data, 20, StreamsBytes(c.streams))
  {
    RangesOfSizes();
    hide At, WordAt, StreamsBytes, Range, RateAt, Unsigned16, AllFit, BigEndian;
    var a, b, s, r := BigEndian(c.timeBase, 4), BigEndian(|c.streams|, 2), StreamsBytes(c.streams),
      BigEndian(Unsigned16(c.dataRate), 2);
    AtSplits(data, 14, a + b + s, r);
    AtSplits(data, 14, a + b, s);
    AtSplits(data, 14, a, b);
    WordAtReads(data, 14, c.timeBase, 4);
    WordAtReads(data, 18, |c.streams|, 2);
    RateReads(data, c.dataRate);
  }

  /** What the constructor guarantees. */
  ghost predicate ConfigOk(c: Config) {
    && c.kind in {2, 3} && HeaderOk(Header(c.kind, c.version, c.id, c.time)) && 1 <= c.timeBase < TWO_TO_24
    && 1 <= |c.streams| <= 65535 && -32767 <= c.dataRate <= 32767 && AllOk(c.streams)
  }

  lemma BuildOk(kind: nat, version: int, id: int, soc: int, frasec: Frasec, timeBase: int, ss: seq<StreamConfig>,
                dataRate: int)
    requires Build(kind, version, id, soc, frasec, timeBase, ss, dataRate).Some?
    ensures ConfigOk(Build(kind, version, id, soc, frasec, timeBase, ss, dataRate).value)
  {
    FrasecRoundTrip(frasec);
    SetStreamsOk(ss);
    hide SetStreams, SetFrasec, GetFrasec, AllOk;
  }

  lemma BuildAgain(c: Config, kind: nat, ss: seq<StreamConfig>)
    requires ConfigOk(c) && kind in {2, 3} && |ss| == |c.streams|
    requires SetStreams(ss) == Some(c.streams) || SetStreams(ss) == None
    ensures Build(kind, 1, c.id, c.time.soc, GetFrasec(c.time.frasec), c.timeBase, ss, c.dataRate) ==
      if SetStreams(ss).Some? then Some(c.(kind := kind, version := 1)) else None
  {
    hide SetStreams, SetFrasec, GetFrasec, AllOk;
  }

  /** The fields that the decoder passes to the constructor. */
  lemma FieldsRead(c: Config, now: Time, data: seq<Byte>)
    requires ConfigOk(c) && TimeOk(now) && Encode(c, now) == Some(data)
    ensures CheckCrc(data) && ReadKind(data) == c.kind && ReadId(data) == c.id && ReadTime(data) == Stamped(c.time, now)
    ensures WordAt(data, 14, 4) == c.timeBase && WordAt(data, 18, 2) == |c.streams| && RateAt(data) == c.dataRate
    ensures AllFit(c.streams) && At(data, 20, StreamsBytes(c.streams))
  {
    hide CheckCrc, At, Body, WordAt, Framed, ReadKind, RateAt, StreamsBytes, AllOk, AllFit, ReadId, ReadTime;
    FramedReads(Header(c.kind, c.version, c.id, c.time), Body(c), now, data);
    BodyReads(data, c);
  }

  /**
   Round trip: whatever configuration the constructor has built and the encoder sends, the decoder of
   either kind reads back field by field, as version 1 of its kind, if and only if every name is ASCII
   and every digital word has a zero first mask; and the type field leads to the kind that was sent.
   */
  lemma ConfigRoundTrip(c: Config, now: Time, data: seq<Byte>, kind: nat)
    requires ConfigOk(c) && TimeOk(now) && Encode(c, now) == Some(data) && kind in {2, 3}
    ensures Decode(data, kind) ==
      if AllAsciiNames(c.streams) && AllMasksZero(c.streams)
      then Some(c.(kind := kind, version := 1, time := Stamped(c.time, now))) else None
    ensures CheckCrc(data) && ReadKind(data) == c.kind
  {
    hide Build, CheckCrc, At, Encode, StreamsAt, SetStreams, GetFrasec, SetFrasec, WordAt, ReadKind, RateAt,
      StreamsBytes, AllMasksZero;
    hide AllOk, AllFit, AllAsciiNames, ReadId, ReadTime, ConfigOk, TimeOk, Stamped;
    FieldsRead(c, now, data);
    TimeBaseFits(c);
    StreamsReread(data, 20, c.streams);
    if AllAsciiNames(c.streams) {
      SentOk(c, now);
      BuildAgain(c.(time := Stamped(c.time, now)), kind, StreamsAt(data, 20, |c.streams|).value);
    }
  }

  lemma TimeBaseFits(c: Config)
    requires ConfigOk(c)
    ensures c.timeBase % TWO_TO_24 == c.timeBase && AllOk(c.streams)
  {
    hide AllOk;
  }

  lemma SentOk(c: Config, now: Time)
    requires ConfigOk(c) && TimeOk(now)
    ensures ConfigOk(c.(time := Stamped(c.time, now)))
  {
    hide AllOk, TimeOk;
  }

  /** No analog unit of a type without a code, and no second mask of more than 32 bits. */
  predicate Sendable(s: StreamConfig) {
    (forall u | u in s.analogUnits :: !u.kind.Other?) && forall u | u in s.digitalUnits :: u.second < TWO_TO_32
  }

  lemma SendableUnits(s: StreamConfig)
    requires SetStream(s).Some?
    ensures UnitsFit(SetStream(s).value) <==> Sendable(s)
  {
    var w := SetStream(s).value;
    AnalogsGiven(s.analogUnits, w.analogUnits);
    DigitalsFit(s.digitalUnits, w.digitalUnits);
    hide SetAll, SetAnalogUnit, SetDigitalUnit, Complete, Fit, SetPhasorUnit, CountsOk;
  }

  lemma AnalogsGiven(us: seq<AnalogUnit>, ws: seq<Option<nat>>)
    requires SetAll(SetAnalogUnit, us) == Some(ws)
    ensures Complete(ws) <==> forall u | u in us :: !u.kind.Other?
    ensures Complete(ws) ==> Fit(Given(ws), 4)
  {
    SetAllElements(SetAnalogUnit, us);
    RangesOfSizes();
    hide SetAll, SetAnalogUnit, Range, GetAnalogUnit;
    forall i | 0 <= i < |us|
      ensures (ws[i].Some? <==> !us[i].kind.Other?) && (ws[i].Some? ==> ws[i].value < TWO_TO_32)
    {
      AnalogUnitRoundTrip(us[i]);
    }
    assert forall i | 0 <= i < |us| :: us[i] in us && ws[i] in ws;
  }

  lemma DigitalsFit(us: seq<DigitalUnit>, ws: seq<nat>)
    requires SetAll(SetDigitalUnit, us) == Some(ws)
    ensures Fit(ws, 4) <==> forall u | u in us :: u.second < TWO_TO_32
  {
    SetAllElements(SetDigitalUnit, us);
    RangesOfSizes();
    hide SetAll, SetDigitalUnit, Range;
    forall i | 0 <= i < |us|
      ensures ws[i] < TWO_TO_32 <==> us[i].second < TWO_TO_32
    {
      DigitalUnitRoundTrip(us[i]);
    }
    assert forall i | 0 <= i < |us| :: us[i] in us && ws[i] in ws;
  }

  lemma {:induction false} SendableStreams(ss: seq<StreamConfig>)
    requires SetStreams(ss).Some?
    ensures AllFit(SetStreams(ss).value) <==> forall s | s in ss :: Sendable(s)
    decreases |ss|
  {
    hide SetStream, Sendable, UnitsFit;
    if ss != [] {
      var ws := SetStreams(ss).value;
      SendableUnits(ss[0]);
      SendableStreams(ss[1..]);
      assert ws == [ws[0]] + SetStreams(ss[1..]).value && ss == [ss[0]] + ss[1..];
    }
  }

  /** A configuration that was built can be sent exactly when all its units can and the frame is not too large. */
  lemma EncodeSucceeds(kind: nat, version: int, id: int, soc: int, frasec: Frasec, timeBase: int, ss: seq<StreamConfig>,
                       dataRate: int, now: Time)
    requires Build(kind, version, id, soc, frasec, timeBase, ss, dataRate).Some?
    ensures var c := Build(kind, version, id, soc, frasec, timeBase, ss, dataRate).value;
      && (AllFit(c.streams) <==> forall s | s in ss :: Sendable(s))
      && (Encode(c, now).Some? <==> AllFit(c.streams) && 16 + |Body(c)| <= 65535)
  {
    SendableStreams(ss);
    hide SetStreams, SetFrasec, Sendable, UnitsFit, Body;
  }

  /** In the caller's terms: zero first masks, second masks of 16 bits, ASCII in what is kept of each name. */
  predicate Restorable(s: StreamConfig) {
    && (forall u | u in s.digitalUnits :: u.first == 0 && u.second < 65536)
    && IsAscii(Kept(s.station)) && forall n | n in s.channelNames :: IsAscii(Kept(n))
  }

  lemma MasksOf(us: seq<DigitalUnit>, ws: seq<nat>)
    requires SetAll(SetDigitalUnit, us) == Some(ws)
    ensures (forall w | w in ws :: w < 65536) <==> forall u | u in us :: u.first == 0 && u.second < 65536
  {
    SetAllElements(SetDigitalUnit, us);
    hide SetAll, SetDigitalUnit;
    forall i | 0 <= i < |us|
      ensures ws[i] < 65536 <==> us[i].first == 0 && us[i].second < 65536
    {
      DigitalUnitRoundTrip(us[i]);
    }
    assert forall i | 0 <= i < |us| :: us[i] in us && ws[i] in ws;
  }

  lemma RestorableStream(s: StreamConfig)
    requires SetStream(s).Some?
    ensures AsciiNames(SetStream(s).value) && MasksZero(SetStream(s).value) <==> Restorable(s)
  {
    MasksOf(s.digitalUnits, SetStream(s).value.digitalUnits);
    PadIsAscii(s.station);
    PadAllIsAscii(s.channelNames);
    hide SetAll, SetDigitalUnit, SetAnalogUnit, SetPhasorUnit, CountsOk, Pad, PadAll, IsAscii, AllAscii, Kept;
  }

  lemma {:induction false} RestorableStreams(ss: seq<StreamConfig>)
    requires SetStreams(ss).Some?
    ensures var ws := SetStreams(ss).value;
      AllAsciiNames(ws) && AllMasksZero(ws) <==> forall s | s in ss :: Restorable(s)
    decreases |ss|
  {
    hide SetStream, Restorable, AsciiNames, MasksZero;
    if ss != [] {
      var ws := SetStreams(ss).value;
      RestorableStream(ss[0]);
      RestorableStreams(ss[1..]);
      assert ws == [ws[0]] + SetStreams(ss[1..]).value && ss == [ss[0]] + ss[1..];
    }
  }

  /**
   The round trip from the constructor's arguments on: what comes back is the frame, exactly for
   restorable streams.
   */
  lemma BuiltConfigReturns(kind: nat, version: int, id: int, soc: int, frasec: Frasec, timeBase: int,
                           ss: seq<StreamConfig>, dataRate: int, now: Time, data: seq<Byte>, reader: nat)
    requires Build(kind, version, id, soc, frasec, timeBase, ss, dataRate).Some? && TimeOk(now) && reader in {2, 3}
    requires Encode(Build(kind, version, id, soc, frasec, timeBase, ss, dataRate).value, now) == Some(data)
    ensures var c := Build(kind, version, id, soc, frasec, timeBase, ss, dataRate).value;
      Decode(data, reader) == if forall s | s in ss :: Restorable(s)
        then Some(c.(kind := reader, version := 1, time := Stamped(c.time, now))) else None
  {
    hide Encode, Decode, SetStreams, AllAsciiNames, AllMasksZero, Restorable, TimeOk, ConfigOk, SetFrasec;
    var c := Build(kind, version, id, soc, frasec, timeBase, ss, dataRate).value;
    assert SetStreams(ss) == Some(c.streams);
    hide Build;
    BuildOk(kind, version, id, soc, frasec, timeBase, ss, dataRate);
    RestorableStreams(ss);
    ConfigRoundTrip(c, now, data, reader);
  }
}
