/**
 The bytes of a data frame, from the values it was built from: every measurement at its offset and in its
 format, as tables 5 to 7 of IEEE Std C37.118.2-2011 give them and as any other receiver reads them.
 */
module DataLayout {
  import opened Bytes
  import opened DataFrames
  import opened FrameHeader
  import opened FrameLayout
  import opened FrameWords
  import opened MeasurementWords
  import opened StatWords
  import opened Wrappers

  /** STAT as a number, or its fields with the weights of their bits. */
  predicate StatStands(data: seq<Byte>, i: nat, stat: StatInput) {
    i + 2 <= |data| &&
    match stat
    case Raw(word) => Two(data, i) == word
    case Fields(s) => InRange(s) ==>
      Two(data, i) ==
        s.reason + 16 * s.unlocked + 64 * s.timeQuality + (if s.modified then 512 else 0)
        + (if s.cfgChange then 1024 else 0) + (if s.trigger then 2048 else 0) + (if s.byArrival then 4096 else 0)
        + (if s.sync then 0 else 8192) + 32768 * s.status
  }

  /** Two floats, magnitude and signed angle, or two signed numbers. */
  predicate PhasorStands(data: seq<Byte>, i: nat, p: Phasor, f: Format) {
    if f.phasorFloat then i + 8 <= |data| && Four(data, i) == p.first && Four(data, i + 4) == p.second
    else
      && i + 4 <= |data| && (if f.polar then Two(data, i) else SignedTwo(data, i)) == p.first
      && SignedTwo(data, i + 2) == p.second
  }

  predicate NumberStands(data: seq<Byte>, i: nat, x: int, float: bool) {
    if float then i + 4 <= |data| && Four(data, i) == x else i + 2 <= |data| && SignedTwo(data, i) == x
  }

  predicate PhasorsStand(data: seq<Byte>, i: nat, ps: seq<Phasor>, f: Format) {
    forall j | 0 <= j < |ps| :: PhasorStands(data, i + j * (if f.phasorFloat then 8 else 4), ps[j], f)
  }

  predicate NumbersStand(data: seq<Byte>, i: nat, xs: seq<int>, float: bool) {
    forall j | 0 <= j < |xs| :: NumberStands(data, i + j * (if float then 4 else 2), xs[j], float)
  }

  predicate DigitalsStand(data: seq<Byte>, i: nat, xs: seq<int>) {
    forall j | 0 <= j < |xs| :: i + j * 2 + 2 <= |data| && Two(data, i + j * 2) == xs[j]
  }

  /** The places of the six parts of a stream. */
  datatype Places = Places(stat: nat, phasors: nat, freq: nat, dfreq: nat, analogs: nat, digitals: nat)

  function PlacesFrom(i: nat, phasors: nat, analogs: nat, f: Format): Places {
    var freq := i + 2 + phasors * (if f.phasorFloat then 8 else 4);
    var dfreq := freq + (if f.freqFloat then 4 else 2);
    var numbers := dfreq + (if f.freqFloat then 4 else 2);
    Places(i, i + 2, freq, dfreq, numbers, numbers + analogs * (if f.analogFloat then 4 else 2))
  }

  predicate StandAt(data: seq<Byte>, at: Places, v: Values, f: Format) {
    && StatStands(data, at.stat, v.stat) && PhasorsStand(data, at.phasors, v.phasors, f)
    && NumberStands(data, at.freq, v.freq, f.freqFloat) && NumberStands(data, at.dfreq, v.dfreq, f.freqFloat)
    && NumbersStand(data, at.analogs, v.analogs, f.analogFloat) && DigitalsStand(data, at.digitals, v.digitals)
  }

  /** All measurements of one stream, from byte i on. */
  predicate ValuesStand(data: seq<Byte>, i: nat, v: Values, spec: Spec) {
    && |v.phasors| == spec.phasors && |v.analogs| == spec.analogs && |v.digitals| == spec.digitals
    && StandAt(data, PlacesFrom(i, spec.phasors, spec.analogs, spec.format), v, spec.format)
  }

  /** The first byte of stream i, behind the header and the streams before it. */
  function Offset(cfg: seq<Spec>, i: nat): nat
    requires i <= |cfg|
  {
    if i == 0 then 14
    else
      var s := cfg[i - 1];
      Offset(cfg, i - 1) + 2 + s.phasors * (if s.format.phasorFloat then 8 else 4)
      + (if s.format.freqFloat then 8 else 4)
      + s.analogs * (if s.format.analogFloat then 4 else 2) + s.digitals * 2
  }

  lemma StatLayout(data: seq<Byte>, i: nat, stat: StatInput)
    requires SetStat(stat).Some? && SetStat(stat).value < 65536 && At(data, i, BigEndian(SetStat(stat).value, 2))
    ensures StatStands(data, i, stat)
  {
    hide At, BigEndian, StatWord;
    TwoAt(data, i, SetStat(stat).value);
    if stat.Fields? && InRange(stat.stat) {
      StatBits(stat.stat);
    }
  }

  lemma PhasorLayout(data: seq<Byte>, i: nat, p: Phasor, f: Format)
    requires SetPhasor(p, f).Some? && At(data, i, BigEndian(SetPhasor(p, f).value, PhasorSize(f)))
    ensures PhasorStands(data, i, p, f)
  {
    hide At, BigEndian, Two, Four, SignedTwo;
    if f.phasorFloat {
      TwiceFourAt(data, i, p.first, p.second);
    } else {
      TwiceTwoAt(data, i, Unsigned16(p.first), Unsigned16(p.second));
      SignedTwoIs(data, i + 2, p.second);
      if !f.polar {
        SignedTwoIs(data, i, p.first);
      }
    }
  }

  lemma NumberLayout(data: seq<Byte>, i: nat, x: int, float: bool)
    requires SetNumber(x, float).Some? && At(data, i, BigEndian(SetNumber(x, float).value, NumberSize(float)))
    ensures NumberStands(data, i, x, float)
  {
    hide At, BigEndian, Two, Four, SignedTwo;
    if float {
      FourAt(data, i, x);
    } else {
      TwoAt(data, i, Unsigned16(x));
      SignedTwoIs(data, i, x);
    }
  }

  lemma {:induction false} PhasorOfList(ps: seq<Phasor>, f: Format, j: nat)
    requires SetPhasors(ps, f).Some? && j < |ps|
    ensures SetPhasor(ps[j], f) == Some(SetPhasors(ps, f).value[j])
    decreases j
  {
    hide SetPhasor;
    if j > 0 {
      PhasorOfList(ps[1..], f, j - 1);
    }
  }

  lemma {:induction false} NumberOfList(xs: seq<int>, float: bool, j: nat)
    requires SetNumbers(xs, float).Some? && j < |xs|
    ensures SetNumber(xs[j], float) == Some(SetNumbers(xs, float).value[j])
    decreases j
  {
    hide SetNumber;
    if j > 0 {
      NumberOfList(xs[1..], float, j - 1);
    }
  }

  lemma PhasorsLayout(data: seq<Byte>, i: nat, ps: seq<Phasor>, f: Format)
    requires SetPhasors(ps, f).Some? && At(data, i, WordsBytes(SetPhasors(ps, f).value, PhasorSize(f)))
    ensures PhasorsStand(data, i, ps, f)
  {
    hide At, SetPhasors, SetPhasor, WordsBytes, BigEndian, PhasorStands;
    forall j | 0 <= j < |ps|
      ensures PhasorStands(data, i + j * PhasorSize(f), ps[j], f)
    {
      PhasorOfList(ps, f, j);
      WordOfList(data, i, SetPhasors(ps, f).value, PhasorSize(f), j);
      PhasorLayout(data, i + j * PhasorSize(f), ps[j], f);
    }
  }

  lemma NumbersLayout(data: seq<Byte>, i: nat, xs: seq<int>, float: bool)
    requires SetNumbers(xs, float).Some? && At(data, i, WordsBytes(SetNumbers(xs, float).value, NumberSize(float)))
    ensures NumbersStand(data, i, xs, float)
  {
    hide At, SetNumbers, SetNumber, WordsBytes, BigEndian, NumberStands;
    forall j | 0 <= j < |xs|
      ensures NumberStands(data, i + j * NumberSize(float), xs[j], float)
    {
      NumberOfList(xs, float, j);
      WordOfList(data, i, SetNumbers(xs, float).value, NumberSize(float), j);
      NumberLayout(data, i + j * NumberSize(float), xs[j], float);
    }
  }

  lemma DigitalsLayout(data: seq<Byte>, i: nat, xs: seq<int>)
    requires SetDigitals(xs).Some? && At(data, i, WordsBytes(SetDigitals(xs).value, 2))
    ensures DigitalsStand(data, i, xs)
  {
    RangesOfSizes();
    hide At, WordsBytes, BigEndian, Two, SetDigitals, Range;
    DigitalsRoundTrip(xs);
    forall j | 0 <= j < |xs|
      ensures i + j * 2 + 2 <= |data| && Two(data, i + j * 2) == xs[j]
    {
      WordOfList(data, i, SetDigitals(xs).value, 2, j);
      assert xs[j] in SetDigitals(xs).value;
      TwoAt(data, i + j * 2, xs[j]);
    }
  }

  /** The parts of what was set. */
  lemma SetParted(v: Values, w: Words, spec: Spec)
    requires SetStream(v, spec) == Some(w)
    ensures |v.phasors| == spec.phasors && |v.analogs| == spec.analogs && |v.digitals| == spec.digitals
    ensures SetStat(v.stat) == Some(w.stat) && SetPhasors(v.phasors, spec.format) == Some(w.phasors)
    ensures SetNumber(v.freq, spec.format.freqFloat) == Some(w.freq)
    ensures SetNumber(v.dfreq, spec.format.freqFloat) == Some(w.dfreq)
    ensures SetNumbers(v.analogs, spec.format.analogFloat) == Some(w.analogs)
    ensures SetDigitals(v.digitals) == Some(w.digitals)
  {
  }

  /** The six parts of a stream stand where they should. */
  predicate PartsStand(data: seq<Byte>, at: Places, w: Words, f: Format) {
    && At(data, at.stat, BigEndian(w.stat, 2)) && At(data, at.phasors, WordsBytes(w.phasors, PhasorSize(f)))
    && At(data, at.freq, BigEndian(w.freq, NumberSize(f.freqFloat)))
    && At(data, at.dfreq, BigEndian(w.dfreq, NumberSize(f.freqFloat)))
    && At(data, at.analogs, WordsBytes(w.analogs, NumberSize(f.analogFloat)))
    && At(data, at.digitals, WordsBytes(w.digitals, 2))
  }

  lemma PlacesAre(i: nat, n: nat, m: nat, f: Format)
    ensures var freq := i + 2 + Span(n, PhasorSize(f));
      var numbers := freq + NumberSize(f.freqFloat) + NumberSize(f.freqFloat);
      PlacesFrom(i, n, m, f) == Places(i, i + 2, freq, freq + NumberSize(f.freqFloat), numbers,
                                       numbers + Span(m, NumberSize(f.analogFloat)))
  {
    hide Span;
    SpanIs(n, PhasorSize(f));
    SpanIs(m, NumberSize(f.analogFloat));
  }

  lemma PartsOfStream(data: seq<Byte>, i: nat, w: Words, f: Format)
    requires At(data, i, StreamBytes(w, f))
    ensures PartsStand(data, PlacesFrom(i, |w.phasors|, |w.analogs|, f), w, f)
  {
    var p, q, a := PhasorSize(f), NumberSize(f.freqFloat), NumberSize(f.analogFloat);
    hide At, BigEndian, WordsBytes, PlacesFrom, PhasorSize, NumberSize, Span;
    PlacesAre(i, |w.phasors|, |w.analogs|, f);
    AtSix(data, i, BigEndian(w.stat, 2), WordsBytes(w.phasors, p), BigEndian(w.freq, q), BigEndian(w.dfreq, q),
          WordsBytes(w.analogs, a), WordsBytes(w.digitals, 2));
  }

  lemma StreamLayout(data: seq<Byte>, i: nat, v: Values, w: Words, spec: Spec)
    requires SetStream(v, spec) == Some(w) && w.stat < 65536 && At(data, i, StreamBytes(w, spec.format))
    ensures ValuesStand(data, i, v, spec)
  {
    var f := spec.format;
    hide At, BigEndian, WordsBytes, StreamBytes, SetStream, SetStat, SetPhasors, SetNumber, SetNumbers, SetDigitals,
      StatStands, PhasorsStand, NumberStands, NumbersStand, DigitalsStand, PlacesFrom, PhasorSize, NumberSize;
    SetParted(v, w, spec);
    PartsOfStream(data, i, w, f);
    var at := PlacesFrom(i, |w.phasors|, |w.analogs|, f);
    StatLayout(data, at.stat, v.stat);
    PhasorsLayout(data, at.phasors, v.phasors, f);
    NumberLayout(data, at.freq, v.freq, f.freqFloat);
    NumberLayout(data, at.dfreq, v.dfreq, f.freqFloat);
    NumbersLayout(data, at.analogs, v.analogs, f.analogFloat);
    DigitalsLayout(data, at.digitals, v.digitals);
  }

  /** Stream i among the streams. */
  lemma {:induction false} StreamOfBody(vs: seq<Values>, ws: seq<Words>, cfg: seq<Spec>, i: nat)
    requires SetStreams(vs, cfg) == Some(ws) && i < |cfg|
    ensures SetStream(vs[i], cfg[i]) == Some(ws[i])
    ensures Offset(cfg, i + 1) == Offset(cfg, i) + |StreamBytes(ws[i], cfg[i].format)|
    decreases i
  {
    hide SetStream, StreamBytes;
    SetElement(vs, ws, cfg, i);
    StreamSpanIs(cfg[i]);
    SetMatches(vs[i], ws[i], cfg[i]);
    StreamBytesSpan(ws[i], cfg[i]);
  }

  lemma {:induction false} SetElement(vs: seq<Values>, ws: seq<Words>, cfg: seq<Spec>, i: nat)
    requires SetStreams(vs, cfg) == Some(ws) && i < |cfg|
    ensures SetStream(vs[i], cfg[i]) == Some(ws[i])
    decreases i
  {
    hide SetStream;
    SetParts(vs, ws, cfg);
    if i > 0 {
      SetElement(vs[1..], ws[1..], cfg[1..], i - 1);
    }
  }

  lemma SetMatches(v: Values, w: Words, spec: Spec)
    requires SetStream(v, spec) == Some(w)
    ensures Matches(w, spec)
  {
    hide SetStat, SetPhasors, SetNumber, SetNumbers, SetDigitals;
  }

  lemma StatFitsIn16(ws: seq<Words>, cfg: seq<Spec>, i: nat)
    requires |ws| == |cfg| && BodyFits(ws, cfg) && i < |ws|
    ensures ws[i].stat < 65536
  {
    RangesOfSizes();
    assert StreamFits(ws[i], cfg[i].format);
  }

  lemma PrefixStands(data: seq<Byte>, ws: seq<Words>, cfg: seq<Spec>, n: nat)
    requires |ws| == |cfg| && n <= |cfg| && At(data, 14, Body(ws, cfg))
    ensures At(data, 14, Body(ws[..n], cfg[..n]))
  {
    hide *;
    assert ws == ws[..n] + ws[n..] && cfg == cfg[..n] + cfg[n..];
    BodyAppend(ws[..n], ws[n..], cfg[..n], cfg[n..]);
    AtSplits(data, 14, Body(ws[..n], cfg[..n]), Body(ws[n..], cfg[n..]));
  }

  lemma {:induction false} OffsetIs(vs: seq<Values>, ws: seq<Words>, cfg: seq<Spec>, n: nat)
    requires SetStreams(vs, cfg) == Some(ws) && n <= |cfg|
    ensures Offset(cfg, n) == 14 + |Body(ws[..n], cfg[..n])|
    decreases n
  {
    hide SetStreams, SetStream, StreamBytes, StreamSpan;
    if n > 0 {
      hide *;
      OffsetIs(vs, ws, cfg, n - 1);
      OneStream(ws, cfg, n - 1);
      StreamOfBody(vs, ws, cfg, n - 1);
    }
  }

  lemma StreamStands(data: seq<Byte>, vs: seq<Values>, ws: seq<Words>, cfg: seq<Spec>, i: nat)
    requires SetStreams(vs, cfg) == Some(ws) && i < |cfg| && BodyFits(ws, cfg) && At(data, 14, Body(ws, cfg))
    ensures ValuesStand(data, Offset(cfg, i), vs[i], cfg[i])
  {
    hide *;
    PrefixStands(data, ws, cfg, i + 1);
    OneStream(ws, cfg, i);
    AtSplits(data, 14, Body(ws[..i], cfg[..i]), StreamBytes(ws[i], cfg[i].format));
    OffsetIs(vs, ws, cfg, i);
    StreamOfBody(vs, ws, cfg, i);
    StatFitsIn16(ws, cfg, i);
    StreamLayout(data, Offset(cfg, i), vs[i], ws[i], cfg[i]);
  }

  /** The bytes behind the header: all streams, up to the check word. */
  lemma BodyLayout(data: seq<Byte>, vs: seq<Values>, cfg: seq<Spec>, ws: seq<Words>)
    requires SetStreams(vs, cfg) == Some(ws) && BodyFits(ws, cfg) && At(data, 14, Body(ws, cfg))
    ensures Offset(cfg, |cfg|) == 14 + |Body(ws, cfg)|
    ensures forall i | 0 <= i < |cfg| :: ValuesStand(data, Offset(cfg, i), vs[i], cfg[i])
  {
    hide *;
    assert ws[..|cfg|] == ws && cfg[..|cfg|] == cfg;
    OffsetIs(vs, ws, cfg, |cfg|);
    forall i | 0 <= i < |cfg|
      ensures ValuesStand(data, Offset(cfg, i), vs[i], cfg[i])
    {
      StreamStands(data, vs, ws, cfg, i);
    }
  }

  /** What the constructor leaves in the frame. */
  lemma BuildParts(id: int, soc: int, frasec: Frasec, vs: seq<Values>, cfg: seq<Spec>, f: Frame)
    requires Build(id, soc, frasec, vs, cfg) == Some(f)
    ensures 1 <= id <= 65534 && f.id == id && 0 <= soc < TWO_TO_32 && f.time.soc == soc
    ensures SetFrasec(frasec) == Some(f.time.frasec) && SetStreams(vs, cfg) == Some(f.streams)
    ensures HeaderOk(Header(0, 1, f.id, f.time))
  {
    hide SetStreams;
    FrasecRoundTrip(frasec);
  }

  /**
   What stands in the bytes of a frame that is sent: the sync word of a data frame, size, id, the time unless
   it is all zero and the current time is sent instead, and every value of every stream.
   */
  lemma SentLayout(id: int, soc: int, frasec: Frasec, vs: seq<Values>, cfg: seq<Spec>, f: Frame, now: Time,
                   data: seq<Byte>)
    requires Build(id, soc, frasec, vs, cfg) == Some(f) && TimeOk(now) && Encode(f, cfg, now) == Some(data)
    ensures |data| >= 16 && data[0] == 0xaa && data[1] == 0x01 && Two(data, 2) == |data| && Two(data, 4) == id
    ensures TimeStands(data, soc, frasec, now)
    ensures |vs| == |cfg| && |data| == Offset(cfg, |cfg|) + 2
    ensures forall i | 0 <= i < |cfg| :: ValuesStand(data, Offset(cfg, i), vs[i], cfg[i])
  {
    hide At, Body, BodyFits, SetStreams, SetFrasec, Framed, Four, Two, ValuesStand, TimeOk, HeaderOk, Offset, Build,
      TimeStands;
    BuildParts(id, soc, frasec, vs, cfg, f);
    HeaderLayout(Header(0, 1, f.id, f.time), Body(f.streams, cfg), now, data);
    TimeLayout(data, soc, frasec, f.time.frasec, now);
    BodyLayout(data, vs, cfg, f.streams);
  }

  // What the constructor accepts, value by value.

  predicate PhasorAccepted(p: Phasor, f: Format) {
    if f.phasorFloat then 0 <= p.first < 0x1_0000_0000 && 0 <= p.second < 0x1_0000_0000
    else if f.polar then 0 <= p.first <= 65535 && -31416 <= p.second <= 31416
    else
      && -32768 <= p.first <= 32767 && -32768 <= p.second <= 32767
      && !(p.first == -32768 && p.second == -32768)
  }

  predicate NumberAccepted(x: int, float: bool) {
    if float then 0 <= x < 0x1_0000_0000 else -32767 <= x <= 32767
  }

  predicate ValuesAccepted(v: Values, spec: Spec) {
    && |v.phasors| == spec.phasors && |v.analogs| == spec.analogs && |v.digitals| == spec.digitals
    && (v.stat.Raw? ==> 0 <= v.stat.word <= 65536)
    && (forall p | p in v.phasors :: PhasorAccepted(p, spec.format))
    && NumberAccepted(v.freq, spec.format.freqFloat) && NumberAccepted(v.dfreq, spec.format.freqFloat)
    && (forall x | x in v.analogs :: NumberAccepted(x, spec.format.analogFloat))
    && (forall x | x in v.digitals :: 0 <= x <= 65535)
  }

  lemma {:induction false} PhasorsAccepted(ps: seq<Phasor>, f: Format)
    ensures SetPhasors(ps, f).Some? <==> forall p | p in ps :: PhasorAccepted(p, f)
    decreases |ps|
  {
    if ps != [] {
      PhasorsAccepted(ps[1..], f);
      assert ps[0] in ps && forall p | p in ps[1..] :: p in ps;
      assert ps == [ps[0]] + ps[1..];
    }
  }

  lemma {:induction false} NumbersAccepted(xs: seq<int>, float: bool)
    ensures SetNumbers(xs, float).Some? <==> forall x | x in xs :: NumberAccepted(x, float)
    decreases |xs|
  {
    if xs != [] {
      NumbersAccepted(xs[1..], float);
      assert xs[0] in xs && forall x | x in xs[1..] :: x in xs;
      assert xs == [xs[0]] + xs[1..];
    }
  }

  lemma {:induction false} DigitalsAccepted(xs: seq<int>)
    ensures SetDigitals(xs).Some? <==> forall x | x in xs :: 0 <= x <= 65535
    decreases |xs|
  {
    if xs != [] {
      DigitalsAccepted(xs[1..]);
      assert xs[0] in xs && forall x | x in xs[1..] :: x in xs;
      assert xs == [xs[0]] + xs[1..];
    }
  }

  lemma StreamAccepted(v: Values, spec: Spec)
    ensures SetStream(v, spec).Some? <==> ValuesAccepted(v, spec)
  {
    hide SetPhasors, SetNumbers, SetDigitals, StatWord, PhasorAccepted;
    PhasorsAccepted(v.phasors, spec.format);
    NumbersAccepted(v.analogs, spec.format.analogFloat);
    DigitalsAccepted(v.digitals);
  }

  lemma {:induction false} StreamsAccepted(vs: seq<Values>, cfg: seq<Spec>)
    ensures SetStreams(vs, cfg).Some? <==>
      |vs| == |cfg| && forall i | 0 <= i < |cfg| :: ValuesAccepted(vs[i], cfg[i])
    decreases |vs|
  {
    hide SetStream, ValuesAccepted;
    if |vs| == |cfg| && vs != [] {
      StreamAccepted(vs[0], cfg[0]);
      StreamsAccepted(vs[1..], cfg[1..]);
      assert vs == [vs[0]] + vs[1..] && cfg == [cfg[0]] + cfg[1..];
    }
  }

  /** A frame is built exactly when there is one entry for each stream and every single value is in its range. */
  lemma BuildSucceeds(id: int, soc: int, frasec: Frasec, vs: seq<Values>, cfg: seq<Spec>)
    ensures Build(id, soc, frasec, vs, cfg).Some? <==>
      && 1 <= id <= 65534 && 0 <= soc < 0x1_0000_0000
      && 0 <= frasec.seconds < 0x100_0000 && 0 <= frasec.quality <= 15 && frasec.quality !in {12, 13, 14}
      && |vs| == |cfg| && forall i | 0 <= i < |cfg| :: ValuesAccepted(vs[i], cfg[i])
  {
    hide SetStreams, ValuesAccepted;
    StreamsAccepted(vs, cfg);
  }
}
