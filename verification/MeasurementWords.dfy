/** Phasors, frequencies, analog and digital values as the words a data frame holds. Floats are opaque 32-bit words. */
module MeasurementWords {
  import opened Bytes
  import opened FrameHeader
  import opened FrameWords
  import opened Wrappers

  datatype Phasor = Phasor(first: int, second: int)

  predicate IsWord32(x: int) {
    0 <= x < TWO_TO_32
  }

  predicate Small(x: int) {
    -32767 <= x <= 32767
  }

  predicate FitsSigned16(x: int) {
    -32768 <= x <= 32767
  }

  /**
   _phasor2int. The rectangular range check refuses only when both parts are out of range; packing
   refuses the rest.
   */
  function SetPhasor(p: Phasor, f: Format): Option<nat> {
    if f.phasorFloat then
      if IsWord32(p.first) && IsWord32(p.second) then Some(Push(p.first, TWO_TO_32, p.second)) else None
    else if f.polar then
      if 0 <= p.first <= 65535 && -31416 <= p.second <= 31416
        then Some(Push(p.first, 65536, Unsigned16(p.second))) else None
    else
      if (Small(p.first) || Small(p.second)) && FitsSigned16(p.first) && FitsSigned16(p.second)
      then Some(Push(Unsigned16(p.first), 65536, Unsigned16(p.second))) else None
  }

  /** _int2phasor */
  function GetPhasor(w: nat, f: Format): Phasor {
    if f.phasorFloat then Phasor(Rest(w, TWO_TO_32), Digit(w, TWO_TO_32))
    else if f.polar then Phasor(Rest(w, 65536), Signed16(Digit(w, 65536)))
    else Phasor(Signed16(Rest(w, 65536)), Signed16(Digit(w, 65536)))
  }

  /** _freq2int, _dfreq2int and _analog2int. */
  function SetNumber(x: int, float: bool): Option<nat> {
    if float then if IsWord32(x) then Some(x) else None
    else if Small(x) then Some(Unsigned16(x)) else None
  }

  /** _int2freq, _int2dfreq and _int2analog. */
  function GetNumber(w: nat, float: bool): int {
    if float then w else Signed16(w)
  }

  /** _digital2int: negative values pass the range check but cannot be packed. */
  function SetDigital(x: int): Option<nat> {
    if 0 <= x <= 65535 then Some(x) else None
  }

  lemma WidePushed(a: nat, radix: nat, d: nat)
    requires radix in {65536, TWO_TO_32} && a < radix && d < radix
    ensures Rest(Push(a, radix, d), radix) == a && Digit(Push(a, radix, d), radix) == d
      && Push(a, radix, d) < radix * radix
  {
    if radix == 65536 {
    }
  }

  /** What was set is what is read back, and it fits its place in the frame. */
  lemma PhasorRoundTrip(p: Phasor, f: Format)
    requires SetPhasor(p, f).Some?
    ensures var w := SetPhasor(p, f).value; GetPhasor(w, f) == p && w < Range(PhasorSize(f))
  {
    RangesOfSizes();
    hide Push, Rest, Digit, Range;
    if f.phasorFloat {
      WidePushed(p.first, TWO_TO_32, p.second);
    } else if f.polar {
      WidePushed(p.first, 65536, Unsigned16(p.second));
    } else {
      WidePushed(Unsigned16(p.first), 65536, Unsigned16(p.second));
    }
  }

  lemma NumberRoundTrip(x: int, float: bool)
    requires SetNumber(x, float).Some?
    ensures var w := SetNumber(x, float).value; GetNumber(w, float) == x && w < Range(NumberSize(float))
  {
    RangesOfSizes();
  }

  // Lists of them: the setters convert one after the other and refuse the whole list with its first bad element.

  function SetPhasors(ps: seq<Phasor>, f: Format): (r: Option<seq<nat>>)
    ensures r.Some? ==> |r.value| == |ps|
    decreases |ps|
  {
    if ps == [] then Some([])
    else match (SetPhasor(ps[0], f), SetPhasors(ps[1..], f)) {
      case (Some(w), Some(ws)) => Some([w] + ws)
      case _ => None
    }
  }

  function GetPhasors(ws: seq<nat>, f: Format): (ps: seq<Phasor>)
    ensures |ps| == |ws|
    decreases |ws|
  {
    if ws == [] then [] else [GetPhasor(ws[0], f)] + GetPhasors(ws[1..], f)
  }

  function SetNumbers(xs: seq<int>, float: bool): (r: Option<seq<nat>>)
    ensures r.Some? ==> |r.value| == |xs|
    decreases |xs|
  {
    if xs == [] then Some([])
    else match (SetNumber(xs[0], float), SetNumbers(xs[1..], float)) {
      case (Some(w), Some(ws)) => Some([w] + ws)
      case _ => None
    }
  }

  function GetNumbers(ws: seq<nat>, float: bool): (xs: seq<int>)
    ensures |xs| == |ws|
    decreases |ws|
  {
    if ws == [] then [] else [GetNumber(ws[0], float)] + GetNumbers(ws[1..], float)
  }

  function SetDigitals(xs: seq<int>): (r: Option<seq<nat>>)
    ensures r.Some? ==> |r.value| == |xs|
    decreases |xs|
  {
    if xs == [] then Some([])
    else match (SetDigital(xs[0]), SetDigitals(xs[1..])) {
      case (Some(w), Some(ws)) => Some([w] + ws)
      case _ => None
    }
  }

  lemma {:induction false} PhasorsRoundTrip(ps: seq<Phasor>, f: Format)
    requires SetPhasors(ps, f).Some?
    ensures var ws := SetPhasors(ps, f).value; GetPhasors(ws, f) == ps && Fit(ws, PhasorSize(f))
    decreases |ps|
  {
    hide SetPhasor, GetPhasor, Range, PhasorSize;
    if ps != [] {
      PhasorRoundTrip(ps[0], f);
      PhasorsRoundTrip(ps[1..], f);
      assert ps == [ps[0]] + ps[1..];
      assert SetPhasors(ps, f).value[1..] == SetPhasors(ps[1..], f).value;
    }
  }

  lemma {:induction false} NumbersRoundTrip(xs: seq<int>, float: bool)
    requires SetNumbers(xs, float).Some?
    ensures var ws := SetNumbers(xs, float).value; GetNumbers(ws, float) == xs && Fit(ws, NumberSize(float))
    decreases |xs|
  {
    hide SetNumber, GetNumber, Range, NumberSize;
    if xs != [] {
      NumberRoundTrip(xs[0], float);
      NumbersRoundTrip(xs[1..], float);
      assert xs == [xs[0]] + xs[1..];
      assert SetNumbers(xs, float).value[1..] == SetNumbers(xs[1..], float).value;
    }
  }

  lemma {:induction false} DigitalsRoundTrip(xs: seq<int>)
    requires SetDigitals(xs).Some?
    ensures SetDigitals(xs).value == xs && Fit(SetDigitals(xs).value, 2)
    decreases |xs|
  {
    RangesOfSizes();
    hide Range;
    if xs != [] {
      DigitalsRoundTrip(xs[1..]);
      assert xs == [xs[0]] + xs[1..];
    }
  }
}
