/** Data frames: any number of streams, each with its own format and channel counts. */
module DataFrames {
  import opened Bytes
  import opened Crc16
  import opened FrameHeader
  import opened FrameWords
  import opened MeasurementWords
  import opened StatWords
  import opened Wrappers

  /** What the configuration says about one stream. */
  datatype Spec = Spec(format: Format, phasors: nat, analogs: nat, digitals: nat)

  /** The measurements of one stream, as the caller gives them and as the getters report them. */
  datatype Values = Values(stat: StatInput, phasors: seq<Phasor>, freq: int, dfreq: int, analogs: seq<int>,
                           digitals: seq<int>)

  /** The same as the words the frame holds. */
  datatype Words = Words(stat: nat, phasors: seq<nat>, freq: nat, dfreq: nat, analogs: seq<nat>, digitals: seq<nat>)

  datatype Frame = Frame(id: nat, time: Time, streams: seq<Words>)

  // Building a frame.

  function SetStream(v: Values, spec: Spec): Option<Words> {
    var f := spec.format;
    if |v.phasors| != spec.phasors || |v.analogs| != spec.analogs || |v.digitals| != spec.digitals then None
    else match (SetStat(v.stat), SetPhasors(v.phasors, f), SetNumber(v.freq, f.freqFloat),
                SetNumber(v.dfreq, f.freqFloat), SetNumbers(v.analogs, f.analogFloat), SetDigitals(v.digitals)) {
      case (Some(s), Some(p), Some(q), Some(d), Some(a), Some(g)) => Some(Words(s, p, q, d, a, g))
      case _ => None
    }
  }

  function SetStreams(vs: seq<Values>, cfg: seq<Spec>): (r: Option<seq<Words>>)
    ensures r.Some? ==> |r.value| == |vs| == |cfg|
    decreases |vs|
  {
    if |vs| != |cfg| then None
    else if vs == [] then Some([])
    else match (SetStream(vs[0], cfg[0]), SetStreams(vs[1..], cfg[1..])) {
      case (Some(w), Some(ws)) => Some([w] + ws)
      case _ => None
    }
  }

  /** The constructor: every part is checked, or nothing is built. */
  function Build(id: int, soc: int, frasec: Frasec, vs: seq<Values>, cfg: seq<Spec>): Option<Frame> {
    if !(1 <= id <= 65534) || !(0 <= soc < TWO_TO_32) then None
    else match (SetFrasec(frasec), SetStreams(vs, cfg)) {
      case (Some(w), Some(streams)) => Some(Frame(id, Time(soc, w), streams))
      case _ => None
    }
  }

  /** The getters of one stream. */
  function GetStream(w: Words, f: Format): Option<Values> {
    match GetStat(w.stat)
    case None => None
    case Some(s) =>
      Some(Values(Fields(s), GetPhasors(w.phasors, f), GetNumber(w.freq, f.freqFloat), GetNumber(w.dfreq, f.freqFloat),
                  GetNumbers(w.analogs, f.analogFloat), w.digitals))
  }

  // Encoding.

  function StreamBytes(w: Words, f: Format): seq<Byte> {
    BigEndian(w.stat, 2) + WordsBytes(w.phasors, PhasorSize(f)) + BigEndian(w.freq, NumberSize(f.freqFloat))
    + BigEndian(w.dfreq, NumberSize(f.freqFloat)) + WordsBytes(w.analogs, NumberSize(f.analogFloat))
      + WordsBytes(w.digitals, 2)
  }

  predicate StreamFits(w: Words, f: Format) {
    && w.stat < Range(2) && Fit(w.phasors, PhasorSize(f))
    && w.freq < Range(NumberSize(f.freqFloat)) && w.dfreq < Range(NumberSize(f.freqFloat))
    && Fit(w.analogs, NumberSize(f.analogFloat)) && Fit(w.digitals, 2)
  }

  function Body(ws: seq<Words>, cfg: seq<Spec>): seq<Byte>
    requires |ws| == |cfg|
    decreases |ws|
  {
    if ws == [] then [] else StreamBytes(ws[0], cfg[0].format) + Body(ws[1..], cfg[1..])
  }

  predicate BodyFits(ws: seq<Words>, cfg: seq<Spec>)
    requires |ws| == |cfg|
  {
    forall i | 0 <= i < |ws| :: StreamFits(ws[i], cfg[i].format)
  }

  /** convert2bytes: a word or a frame that is too large is refused. Data frames have type 0 and version 1. */
  function Encode(f: Frame, cfg: seq<Spec>, now: Time): Option<seq<Byte>>
    requires |f.streams| == |cfg|
  {
    if BodyFits(f.streams, cfg) then Framed(Header(0, 1, f.id, f.time), Body(f.streams, cfg), now) else None
  }

  lemma {:induction false} BodyAppend(a: seq<Words>, b: seq<Words>, c: seq<Spec>, d: seq<Spec>)
    requires |a| == |c| && |b| == |d|
    ensures Body(a + b, c + d) == Body(a, c) + Body(b, d)
    decreases |a|
  {
    hide StreamBytes;
    if a == [] {
      assert a + b == b && c + d == d;
    } else {
      assert (a + b)[1..] == a[1..] + b && (c + d)[1..] == c[1..] + d;
      BodyAppend(a[1..], b, c[1..], d);
    }
  }

  method EncodeStream(w: Words, f: Format) returns (r: Option<seq<Byte>>)
    ensures r == if StreamFits(w, f) then Some(StreamBytes(w, f)) else None
  {
    hide Range, BigEndian;
    var phasors := List2Bytes(w.phasors, PhasorSize(f));
    var analogs := List2Bytes(w.analogs, NumberSize(f.analogFloat));
    var digitals := List2Bytes(w.digitals, 2);
    var stat := ToBytes(w.stat, 2);
    var freq := ToBytes(w.freq, NumberSize(f.freqFloat));
    var dfreq := ToBytes(w.dfreq, NumberSize(f.freqFloat));
    if stat == None || phasors == None || freq == None || dfreq == None || analogs == None || digitals == None {
      return None;
    }
    return Some(stat.value + phasors.value + freq.value + dfreq.value + analogs.value + digitals.value);
  }

  /** convert2bytes as the source runs it: the streams are concatenated in a loop. */
  method ConvertToBytes(f: Frame, cfg: seq<Spec>, now: Time) returns (r: Option<seq<Byte>>)
    requires |f.streams| == |cfg|
    ensures r == Encode(f, cfg, now)
  {
    hide StreamFits, StreamBytes, Framed;
    var body: seq<Byte> := [];
    var i := 0;
    while i < |cfg|
      invariant i <= |cfg| && BodyFits(f.streams[..i], cfg[..i]) && body == Body(f.streams[..i], cfg[..i])
    {
      var part := EncodeStream(f.streams[i], cfg[i].format);
      if part == None {
        return None;
      }
      OneStream(f.streams, cfg, i);
      body := body + part.value;
      i := i + 1;
    }
    assert f.streams[..i] == f.streams && cfg[..i] == cfg;
    return Framed(Header(0, 1, f.id, f.time), body, now);
  }

  lemma OneStream(ws: seq<Words>, cfg: seq<Spec>, i: nat)
    requires |ws| == |cfg| && i < |ws|
    ensures Body(ws[..i + 1], cfg[..i + 1]) == Body(ws[..i], cfg[..i]) + StreamBytes(ws[i], cfg[i].format)
  {
    hide StreamBytes;
    assert ws[..i + 1] == ws[..i] + [ws[i]] && cfg[..i + 1] == cfg[..i] + [cfg[i]];
    BodyAppend(ws[..i], [ws[i]], cfg[..i], [cfg[i]]);
    assert [ws[i]][1..] == [] && [cfg[i]][1..] == [];
    assert Body([ws[i]], [cfg[i]]) == StreamBytes(ws[i], cfg[i].format) + [];
  }

  // Decoding.

  function StreamSpan(spec: Spec): nat {
    2 + Span(spec.phasors, PhasorSize(spec.format)) + 2 * NumberSize(spec.format.freqFloat)
    + Span(spec.analogs, NumberSize(spec.format.analogFloat)) + Span(spec.digitals, 2)
  }

  lemma {:induction false} SpanIs(n: nat, size: nat)
    ensures Span(n, size) == n * size
  {
    if n > 0 {
      SpanIs(n - 1, size);
    }
  }

  /**
   The sizes the standard gives: STAT and digital words of 2 bytes, phasors of 8 or 4, frequencies
   and analog values of 4 or 2.
   */
  lemma StreamSpanIs(spec: Spec)
    ensures StreamSpan(spec) == 2 + spec.phasors * (if spec.format.phasorFloat then 8 else 4)
      + (if spec.format.freqFloat then 8 else 4)
                                + spec.analogs * (if spec.format.analogFloat then 4 else 2) + spec.digitals * 2
  {
    SpanIs(spec.phasors, PhasorSize(spec.format));
    SpanIs(spec.analogs, NumberSize(spec.format.analogFloat));
    SpanIs(spec.digitals, 2);
  }

  /** The words of one stream where the decoder looks for them. */
  function WordsOfStream(data: seq<Byte>, start: nat, spec: Spec): Words {
    var f := spec.format;
    var phasors := start + 2;
    var freq := phasors + Span(spec.phasors, PhasorSize(f));
    var dfreq := freq + NumberSize(f.freqFloat);
    var analogs := dfreq + NumberSize(f.freqFloat);
    var digitals := analogs + Span(spec.analogs, NumberSize(f.analogFloat));
    Words(WordAt(data, start, 2), WordsAt(data, phasors, spec.phasors, PhasorSize(f)),
          WordAt(data, freq, NumberSize(f.freqFloat)), WordAt(data, dfreq, NumberSize(f.freqFloat)),
          WordsAt(data, analogs, spec.analogs, NumberSize(f.analogFloat)), WordsAt(data, digitals, spec.digitals, 2))
  }

  /** The values of all streams from start on, or an unknown code in one of them. */
  function StreamsAt(data: seq<Byte>, start: nat, cfg: seq<Spec>): Option<seq<Values>>
    decreases |cfg|
  {
    if cfg == [] then Some([])
    else match (GetStream(WordsOfStream(data, start, cfg[0]), cfg[0].format),
                StreamsAt(data, start + StreamSpan(cfg[0]), cfg[1..])) {
      case (Some(v), Some(vs)) => Some([v] + vs)
      case _ => None
    }
  }

  /** Where the decoder stands after all streams. */
  function End(start: nat, cfg: seq<Spec>): nat
    decreases |cfg|
  {
    if cfg == [] then start else End(start + StreamSpan(cfg[0]), cfg[1..])
  }

  /** convert2frame: check, read, and build the frame again through its setters. */
  function Decode(data: seq<Byte>, cfg: seq<Spec>): Option<Frame> {
    if !CheckCrc(data) then None
    else match StreamsAt(data, 14, cfg)
      case None => None
      case Some(vs) => Build(ReadId(data), ReadTime(data).soc, GetFrasec(ReadTime(data).frasec), vs, cfg)
  }

  method ReadStream(data: seq<Byte>, startByte: nat, spec: Spec) returns (w: Words, next: nat)
    ensures w == WordsOfStream(data, startByte, spec) && next == startByte + StreamSpan(spec)
  {
    hide WordAt, WordsAt;
    var f := spec.format;
    next := startByte + 2;
    var phasors, analogs, digitals;
    phasors, next := ReadWords(data, next, spec.phasors, PhasorSize(f));
    var freq := WordAt(data, next, NumberSize(f.freqFloat));
    next := next + NumberSize(f.freqFloat);
    var dfreq := WordAt(data, next, NumberSize(f.freqFloat));
    next := next + NumberSize(f.freqFloat);
    analogs, next := ReadWords(data, next, spec.analogs, NumberSize(f.analogFloat));
    digitals, next := ReadWords(data, next, spec.digitals, 2);
    w := Words(WordAt(data, startByte, 2), phasors, freq, dfreq, analogs, digitals);
  }

  /** convert2frame as the source runs it: startByte moves over the streams, then the frame is built. */
  method ConvertToFrame(data: seq<Byte>, cfg: seq<Spec>) returns (r: Option<Frame>)
    ensures r == Decode(data, cfg)
  {
    hide CheckCrc, WordsOfStream, StreamSpan, GetStream, Build;
    if !CheckCrc(data) {
      return None;
    }
    var vs: seq<Values> := [];
    var startByte, i := 14, 0;
    assert cfg[0..] == cfg;
    PrependNothing(StreamsAt(data, 14, cfg));
    while i < |cfg|
      invariant i <= |cfg|
      invariant StreamsAt(data, 14, cfg) == Prepend(vs, StreamsAt(data, startByte, cfg[i..]))
    {
      var w, next := ReadStream(data, startByte, cfg[i]);
      var v := GetStream(w, cfg[i].format);
      assert cfg[i..][0] == cfg[i] && cfg[i..][1..] == cfg[i + 1..];
      if v == None {
        return None;
      }
      MovePrepended(vs, v.value, StreamsAt(data, next, cfg[i + 1..]));
      vs := vs + [v.value];
      startByte := next;
      i := i + 1;
    }
    assert vs + [] == vs;
    r := Build(ReadId(data), ReadTime(data).soc, GetFrasec(ReadTime(data).frasec), vs, cfg);
  }

  // The round trip.

  predicate Matches(w: Words, spec: Spec) {
    |w.phasors| == spec.phasors && |w.analogs| == spec.analogs && |w.digitals| == spec.digitals
  }

  /** Reading one stream undoes writing it, and moves on by exactly its bytes. */
  lemma StreamReads(data: seq<Byte>, start: nat, w: Words, spec: Spec)
    requires Matches(w, spec) && StreamFits(w, spec.format) && At(data, start, StreamBytes(w, spec.format))
    ensures |StreamBytes(w, spec.format)| == StreamSpan(spec) && WordsOfStream(data, start, spec) == w
  {
    hide At, WordAt, WordsAt, BigEndian, WordsBytes, Range, Fit, PhasorSize, NumberSize;
    var p, q, a := PhasorSize(spec.format), NumberSize(spec.format.freqFloat), NumberSize(spec.format.analogFloat);
    AtSix(data, start, BigEndian(w.stat, 2), WordsBytes(w.phasors, p), BigEndian(w.freq, q), BigEndian(w.dfreq, q),
          WordsBytes(w.analogs, a), WordsBytes(w.digitals, 2));
    var phasors := start + 2;
    var freq := phasors + Span(spec.phasors, p);
    var analogs := freq + q + q;
    WordAtReads(data, start, w.stat, 2);
    WordsAtReads(data, phasors, w.phasors, p);
    WordAtReads(data, freq, w.freq, q);
    WordAtReads(data, freq + q, w.dfreq, q);
    WordsAtReads(data, analogs, w.analogs, a);
    WordsAtReads(data, analogs + Span(spec.analogs, a), w.digitals, 2);
  }

  /** What the receiver holds: every word but STAT is as it was sent. */
  function Received(w: Words): Words
    requires GetStat(w.stat).Some?
  {
    w.(stat := Restat(w.stat))
  }

  predicate Readable(ws: seq<Words>) {
    forall w | w in ws :: GetStat(w.stat).Some?
  }

  function AllReceived(ws: seq<Words>): (r: seq<Words>)
    requires Readable(ws)
    ensures |r| == |ws| && forall i | 0 <= i < |ws| :: r[i] == Received(ws[i])
    decreases |ws|
  {
    if ws == [] then [] else [Received(ws[0])] + AllReceived(ws[1..])
  }

  /** What the setters made of a stream matches its configuration and fits, but for STAT. */
  lemma SetStreamFits(v: Values, spec: Spec)
    requires SetStream(v, spec).Some?
    ensures var w := SetStream(v, spec).value;
      && Matches(w, spec) && (StreamFits(w, spec.format) <==> w.stat < Range(2))
      && (GetStat(w.stat).Some? ==> GetStream(w, spec.format) == Some(v.(stat := Fields(GetStat(w.stat).value))))
  {
    var f := spec.format;
    hide SetPhasors, SetNumbers, SetDigitals, GetPhasors, GetNumbers, SetNumber, GetNumber, Range, GetStat,
      SetStat, Fit;
    PhasorsRoundTrip(v.phasors, f);
    NumberRoundTrip(v.freq, f.freqFloat);
    NumberRoundTrip(v.dfreq, f.freqFloat);
    NumbersRoundTrip(v.analogs, f.analogFloat);
    DigitalsRoundTrip(v.digitals);
  }

  /** Setting again what was read gives the received words. */
  lemma SetStreamAgain(v: Values, spec: Spec)
    requires SetStream(v, spec).Some? && GetStat(SetStream(v, spec).value.stat).Some?
    ensures var w := SetStream(v, spec).value;
      SetStream(v.(stat := Fields(GetStat(w.stat).value)), spec) == Some(Received(w))
  {
    hide SetPhasors, SetNumbers, SetDigitals, SetNumber, GetStat, StatWord;
  }

  /** One stream, read and set again: STAT decides whether it can be read. */
  lemma StreamReread(data: seq<Byte>, start: nat, v: Values, w: Words, spec: Spec)
    requires SetStream(v, spec) == Some(w) && StreamFits(w, spec.format) && At(data, start, StreamBytes(w, spec.format))
    ensures |StreamBytes(w, spec.format)| == StreamSpan(spec)
    ensures var r := GetStream(WordsOfStream(data, start, spec), spec.format);
      && (r.Some? <==> GetStat(w.stat).Some?)
      && (r.Some? ==> SetStream(r.value, spec) == Some(Received(w)))
  {
    hide At, StreamBytes, WordsOfStream, StreamFits, StreamSpan, SetStream, GetStat;
    SetStreamFits(v, spec);
    StreamReads(data, start, w, spec);
    if GetStat(w.stat).Some? {
      SetStreamAgain(v, spec);
    }
  }

  lemma AllOfStreams(ws: seq<Words>, cfg: seq<Spec>)
    requires ws != [] && |ws| == |cfg|
    ensures Readable(ws) <==> GetStat(ws[0].stat).Some? && Readable(ws[1..])
    ensures BodyFits(ws, cfg) <==> StreamFits(ws[0], cfg[0].format) && BodyFits(ws[1..], cfg[1..])
  {
    hide GetStat, StreamFits;
    assert ws == [ws[0]] + ws[1..] && cfg == [cfg[0]] + cfg[1..];
  }

  lemma SetParts(vs: seq<Values>, ws: seq<Words>, cfg: seq<Spec>)
    requires SetStreams(vs, cfg) == Some(ws) && cfg != []
    ensures |vs| == |ws| == |cfg|
    ensures SetStream(vs[0], cfg[0]) == Some(ws[0]) && SetStreams(vs[1..], cfg[1..]) == Some(ws[1..])
  {
    hide SetStream;
    assert ws[1..] == SetStreams(vs[1..], cfg[1..]).value;
  }

  lemma SetCons(v: Values, more: seq<Values>, w: Words, ws: seq<Words>, cfg: seq<Spec>)
    requires cfg != [] && SetStream(v, cfg[0]) == Some(w) && SetStreams(more, cfg[1..]) == Some(ws)
    ensures SetStreams([v] + more, cfg) == Some([w] + ws)
  {
    hide SetStream;
    assert ([v] + more)[1..] == more;
  }

  lemma {:induction false} StreamsRead(data: seq<Byte>, start: nat, vs: seq<Values>, ws: seq<Words>, cfg: seq<Spec>)
    requires SetStreams(vs, cfg) == Some(ws) && BodyFits(ws, cfg) && At(data, start, Body(ws, cfg))
    ensures End(start, cfg) == start + |Body(ws, cfg)|
    ensures StreamsAt(data, start, cfg).Some? <==> Readable(ws)
    ensures Readable(ws) ==> SetStreams(StreamsAt(data, start, cfg).value, cfg) == Some(AllReceived(ws))
    decreases |cfg|
  {
    hide At, StreamBytes, WordsOfStream, StreamFits, StreamSpan, SetStream, GetStream, GetStat, Received;
    if cfg != [] {
      var w, spec, next := ws[0], cfg[0], start + StreamSpan(cfg[0]);
      SetParts(vs, ws, cfg);
      AllOfStreams(ws, cfg);
      hide BodyFits, Readable, SetStreams;
      AtSplits(data, start, StreamBytes(w, spec.format), Body(ws[1..], cfg[1..]));
      StreamReread(data, start, vs[0], w, spec);
      StreamsRead(data, next, vs[1..], ws[1..], cfg[1..]);
      hide Body;
      if Readable(ws) {
        SetCons(GetStream(WordsOfStream(data, start, spec), spec.format).value, StreamsAt(data, next, cfg[1..]).value,
                Received(w), AllReceived(ws[1..]), cfg);
      }
    }
  }

  /**
   Round trip: whatever frame the constructor accepts and the encoder sends, the decoder reads back
   with the same id, time, phasors, frequencies, analog and digital words, the frame starts with the
   sync word of a data frame, the size field is the number of bytes and the decoder stops at the check
   word. It fails exactly when some trigger reason has no name; STAT itself is changed as
   StatWordNeverSurvives and StatReported say.
   */
  lemma DataRoundTrip(id: int, soc: int, frasec: Frasec, vs: seq<Values>, cfg: seq<Spec>, f: Frame, now: Time,
                      data: seq<Byte>)
    requires Build(id, soc, frasec, vs, cfg) == Some(f) && TimeOk(now) && Encode(f, cfg, now) == Some(data)
    ensures Decode(data, cfg) ==
      if Readable(f.streams) then Some(Frame(f.id, Stamped(f.time, now), AllReceived(f.streams))) else None
    ensures data[0] == 0xaa && data[1] == 0x01 && WordAt(data, 2, 2) == |data| && End(14, cfg) == |data| - 2
  {
    hide CheckCrc, At, Body, BodyFits, StreamsAt, SetStreams, GetFrasec, SetFrasec, Readable, WordAt, Framed, End;
    FrasecRoundTrip(frasec);
    var body := Body(f.streams, cfg);
    FramedReads(Header(0, 1, f.id, f.time), body, now, data);
    StreamsRead(data, 14, vs, f.streams, cfg);
  }

  /** A frame can be sent exactly when its size fits the size field and no measurement status overflows. */
  lemma EncodeSucceeds(id: int, soc: int, frasec: Frasec, vs: seq<Values>, cfg: seq<Spec>, f: Frame, now: Time)
    requires Build(id, soc, frasec, vs, cfg) == Some(f)
    ensures Encode(f, cfg, now).Some? <==>
      End(16, cfg) <= 65535 && forall i | 0 <= i < |f.streams| :: f.streams[i].stat < Range(2)
  {
    hide SetFrasec;
    BodySpan(vs, f.streams, cfg, 16);
  }

  lemma {:induction false} BodySpan(vs: seq<Values>, ws: seq<Words>, cfg: seq<Spec>, start: nat)
    requires SetStreams(vs, cfg) == Some(ws)
    ensures End(start, cfg) == start + |Body(ws, cfg)|
    ensures BodyFits(ws, cfg) <==> forall i | 0 <= i < |ws| :: ws[i].stat < Range(2)
    decreases |cfg|
  {
    hide SetStream, StreamBytes, StreamFits, StreamSpan, Range;
    if cfg != [] {
      assert ws[1..] == SetStreams(vs[1..], cfg[1..]).value && ws == [ws[0]] + ws[1..];
      SetStreamFits(vs[0], cfg[0]);
      StreamBytesSpan(ws[0], cfg[0]);
      BodySpan(vs[1..], ws[1..], cfg[1..], start + StreamSpan(cfg[0]));
    }
  }

  lemma StreamBytesSpan(w: Words, spec: Spec)
    requires Matches(w, spec)
    ensures |StreamBytes(w, spec.format)| == StreamSpan(spec)
  {
    hide BigEndian, WordsBytes;
  }

  /**
   The getters of the received stream report exactly what the sender was given, if and only if its STAT
   fields are ones that survive; and then the STAT word fits.
   */
  lemma ValuesSurvive(v: Values, spec: Spec)
    requires SetStream(v, spec).Some? && v.stat.Fields?
    ensures var w := SetStream(v, spec).value;
      && (GetStat(w.stat).Some? && GetStream(Received(w), spec.format) == Some(v) <==> Good(v.stat.stat))
      && (Good(v.stat.stat) ==> w.stat < Range(2))
  {
    hide SetPhasors, SetNumbers, SetDigitals, GetPhasors, GetNumbers, SetNumber, GetNumber, GetStat, StatWord, Range;
    RangesOfSizes();
    StatReported(v.stat.stat);
    StatFits(v.stat.stat);
    var w := SetStream(v, spec).value;
    SetStreamFits(v, spec);
    if GetStat(w.stat).Some? {
      SetStreamAgain(v, spec);
      var again := v.(stat := Fields(GetStat(w.stat).value));
      SetStreamFits(again, spec);
    }
  }
}
