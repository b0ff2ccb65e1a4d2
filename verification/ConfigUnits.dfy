/** The conversion factors, masks and names of a configuration, as the words a configuration frame holds. */
module ConfigUnits {
  import opened BitOps
  import opened Bytes
  import opened FrameHeader
  import opened FrameWords
  import opened Wrappers

  datatype PhasorUnit = PhasorUnit(scale: int, current: bool)

  /** _phunit2int */
  function SetPhasorUnit(u: PhasorUnit): Option<nat> {
    if 0 <= u.scale < TWO_TO_24 then Some(Push(Low(u.current), TWO_TO_24, u.scale)) else None
  }

  /** _int2phunit */
  function GetPhasorUnit(w: nat): Option<PhasorUnit> {
    Some(PhasorUnit(Digit(w, TWO_TO_24), Rest(w, TWO_TO_24) > 0))
  }

  /** SinglePoint is the name the sender may give; it is sent like Pow. Any other name is Other. */
  datatype AnalogKind = Pow | Rms | Peak | SinglePoint | Other(name: string)

  datatype AnalogUnit = AnalogUnit(scale: int, kind: AnalogKind)

  function KindCode(k: AnalogKind): nat {
    match k
    case Rms => 1
    case Peak => 2
    case _ => 0
  }

  /** The scale in 24-bit two's complement; the largest one accepted does not fit it. */
  function ScaleBits(scale: int): (r: nat)
    requires -8388608 <= scale <= 8388608
    ensures r < TWO_TO_24
  {
    if scale < 0 then scale + TWO_TO_24 else scale
  }

  /** _anunit2int: the word, or nothing for a type of another name, which is accepted and stored nevertheless. */
  function SetAnalogUnit(u: AnalogUnit): Option<Option<nat>> {
    if !(-8388608 <= u.scale <= 8388608) then None
    else if u.kind.Other? then Some(None)
    else Some(Some(Push(KindCode(u.kind), TWO_TO_24, ScaleBits(u.scale))))
  }

  function ScaleOf(bits: nat): int {
    if bits < 8388608 then bits else bits - TWO_TO_24
  }

  /** Unknown type codes are refused; code 65 is read as a name that the setter does not know. */
  function KindOf(code: nat): Option<AnalogKind> {
    if code == 0 then Some(Pow)
    else if code == 1 then Some(Rms)
    else if code == 2 then Some(Peak)
    else if code == 65 then Some(Other("single-point"))
    else None
  }

  /** _int2anunit */
  function GetAnalogUnit(w: nat): Option<AnalogUnit> {
    match KindOf(Rest(w, TWO_TO_24))
    case Some(kind) => Some(AnalogUnit(ScaleOf(Digit(w, TWO_TO_24)), kind))
    case None => None
  }

  datatype DigitalUnit = DigitalUnit(first: int, second: nat)

  /** _digunit2int: only the first mask is checked. */
  function SetDigitalUnit(u: DigitalUnit): Option<nat> {
    if 0 <= u.first <= 65535 then Some(Or(Shl(u.first, 16), u.second)) else None
  }

  /** _int2digunit: the first mask is not shifted back. */
  function GetDigitalUnit(w: nat): Option<DigitalUnit> {
    Some(DigitalUnit(Push(Digit(Rest(w, 65536), 65536), 65536, 0), Digit(w, 65536)))
  }

  /** Reading a word and setting what was read gives the word again. */
  ghost predicate Stable<A>(set_: A -> Option<nat>, get: nat -> Option<A>, w: nat) {
    get(w).Some? && set_(get(w).value) == Some(w)
  }

  lemma Popped24(a: nat, d: nat)
    requires d < TWO_TO_24
    ensures Rest(Push(a, TWO_TO_24, d), TWO_TO_24) == a && Digit(Push(a, TWO_TO_24, d), TWO_TO_24) == d
  {
  }

  lemma PhasorUnitRoundTrip(u: PhasorUnit)
    requires SetPhasorUnit(u).Some?
    ensures var w := SetPhasorUnit(u).value;
      w < TWO_TO_32 && GetPhasorUnit(w) == Some(u) && Stable(SetPhasorUnit, GetPhasorUnit, w)
  {
    Popped24(Low(u.current), u.scale);
  }

  /** The same for analog units, whose stored word may be missing. */
  ghost predicate AnalogStable(stored: Option<nat>) {
    stored.Some? ==>
      stored.value < TWO_TO_32 && GetAnalogUnit(stored.value).Some?
        && SetAnalogUnit(GetAnalogUnit(stored.value).value) == Some(stored)
  }

  /**
   A word is stored exactly for the named types, and it is stable; the values given are reported unless
   the scale or the type is one that cannot be told apart.
   */
  lemma AnalogUnitRoundTrip(u: AnalogUnit)
    requires SetAnalogUnit(u).Some?
    ensures var stored := SetAnalogUnit(u).value;
      && (stored.Some? <==> !u.kind.Other?) && AnalogStable(stored)
      && (stored.Some? ==> (GetAnalogUnit(stored.value) == Some(u) <==> u.scale != 8388608 && u.kind != SinglePoint))
  {
    if !u.kind.Other? {
      AnalogWordStable(KindCode(u.kind), ScaleBits(u.scale));
    }
  }

  lemma AnalogWordStable(code: nat, bits: nat)
    requires code <= 2 && bits < TWO_TO_24
    ensures var w := Push(code, TWO_TO_24, bits);
      AnalogStable(Some(w)) && GetAnalogUnit(w) == Some(AnalogUnit(ScaleOf(bits), KindOf(code).value))
  {
    Popped24(code, bits);
    assert Push(code, TWO_TO_24, bits) < TWO_TO_32;
    hide Push, Rest, Digit;
  }

  /**
   The size of the word, and what is read back: the unit itself, exactly when the first mask is zero
   and the second fits 16 bits.
   */
  lemma DigitalUnitRoundTrip(u: DigitalUnit)
    requires SetDigitalUnit(u).Some?
    ensures var w := SetDigitalUnit(u).value;
      && (w < TWO_TO_32 <==> u.second < TWO_TO_32)
      && (w < 65536 <==> u.first == 0 && u.second < 65536)
      && (GetDigitalUnit(w) == Some(u) <==> u.first == 0 && u.second < 65536)
  {
    Powers();
    ShlZero(16);
    OrFits(Shl(u.first, 16), u.second, 16);
    OrFits(Shl(u.first, 16), u.second, 32);
    ShlFits(u.first, 16, 0);
    ShlFits(u.first, 16, 16);
    assert u.first == 0 ==> Or(Shl(u.first, 16), u.second) == u.second;
    hide Or, Shl, Pow2;
  }

  // Lists of units: the first bad element refuses the whole list.

  function SetAll<A, W>(set_: A -> Option<W>, xs: seq<A>): (r: Option<seq<W>>)
    ensures r.Some? ==> |r.value| == |xs|
    decreases |xs|
  {
    if xs == [] then Some([])
    else match (set_(xs[0]), SetAll(set_, xs[1..])) {
      case (Some(w), Some(ws)) => Some([w] + ws)
      case _ => None
    }
  }

  function GetAll<A>(get: nat -> Option<A>, ws: seq<nat>): (r: Option<seq<A>>)
    ensures r.Some? ==> |r.value| == |ws|
    decreases |ws|
  {
    if ws == [] then Some([])
    else match (get(ws[0]), GetAll(get, ws[1..])) {
      case (Some(x), Some(xs)) => Some([x] + xs)
      case _ => None
    }
  }

  lemma {:induction false} SetAllElements<A, W>(set_: A -> Option<W>, xs: seq<A>)
    requires SetAll(set_, xs).Some?
    ensures forall i | 0 <= i < |xs| :: set_(xs[i]) == Some(SetAll(set_, xs).value[i])
    decreases |xs|
  {
    if xs != [] {
      SetAllElements(set_, xs[1..]);
    }
  }

  lemma {:induction false} GetAllElements<A>(get: nat -> Option<A>, ws: seq<nat>)
    requires forall w | w in ws :: get(w).Some?
    ensures GetAll(get, ws).Some? && forall i | 0 <= i < |ws| :: GetAll(get, ws).value[i] == get(ws[i]).value
    decreases |ws|
  {
    if ws != [] {
      assert ws[0] in ws;
      GetAllElements(get, ws[1..]);
    }
  }

  /** If each word, read and set, gives its element of xs, the whole list does. */
  lemma {:induction false} RereadAll<A, W>(set_: A -> Option<W>, get: nat -> Option<A>, ws: seq<nat>, xs: seq<W>)
    requires |xs| == |ws| && forall i | 0 <= i < |ws| :: get(ws[i]).Some? && set_(get(ws[i]).value) == Some(xs[i])
    ensures GetAll(get, ws).Some? && SetAll(set_, GetAll(get, ws).value) == Some(xs)
    decreases |ws|
  {
    if ws != [] {
      RereadAll(set_, get, ws[1..], xs[1..]);
      assert GetAll(get, ws).value[1..] == GetAll(get, ws[1..]).value;
      assert xs == [xs[0]] + xs[1..];
    }
  }

  lemma {:induction false} RefusedAll<A, W>(set_: A -> Option<W>, xs: seq<A>, i: nat)
    requires i < |xs| && set_(xs[i]) == None
    ensures SetAll(set_, xs) == None
    decreases |xs|
  {
    if i > 0 {
      RefusedAll(set_, xs[1..], i - 1);
    }
  }

  lemma DigitalWordStable(w: nat)
    requires w < TWO_TO_32
    ensures GetDigitalUnit(w).Some? && SetDigitalUnit(GetDigitalUnit(w).value) == if w < 65536 then Some(w) else None
  {
    ShlZero(16);
    assert Or(0, w) == w;
    hide Or, Shl;
  }

  /** A list of digital words is read back exactly when every first mask is zero. */
  lemma DigitalUnitsReread(ws: seq<nat>)
    requires forall w | w in ws :: w < TWO_TO_32
    ensures GetAll(GetDigitalUnit, ws).Some?
    ensures SetAll(SetDigitalUnit, GetAll(GetDigitalUnit, ws).value)
      == if forall w | w in ws :: w < 65536 then Some(ws) else None
  {
    forall i | 0 <= i < |ws|
      ensures GetDigitalUnit(ws[i]).Some? && SetDigitalUnit(GetDigitalUnit(ws[i]).value)
        == if ws[i] < 65536 then Some(ws[i]) else None
    {
      assert ws[i] in ws;
      DigitalWordStable(ws[i]);
    }
    hide SetDigitalUnit, GetDigitalUnit, SetAll, GetAll;
    GetAllElements(GetDigitalUnit, ws);
    if forall w | w in ws :: w < 65536 {
      assert forall i | 0 <= i < |ws| :: ws[i] in ws;
      RereadAll(SetDigitalUnit, GetDigitalUnit, ws, ws);
    } else {
      var i :| 0 <= i < |ws| && ws[i] >= 65536;
      RefusedAll(SetDigitalUnit, GetAll(GetDigitalUnit, ws).value, i);
    }
  }

  // Names: 16 characters each, written in UTF-8 and read as ASCII.

  type Name = string

  predicate IsAscii(name: Name) {
    forall c | c in name :: c as int < 128
  }

  predicate AsciiBytes(s: seq<Byte>) {
    forall b | b in s :: b < 128
  }

  /** RFC 3629. */
  function Utf8(c: char): (s: seq<Byte>)
    ensures s != [] && (c as int < 128 ==> s == [c as int]) && (c as int >= 128 ==> s[0] >= 128)
  {
    var n := c as int;
    if n < 0x80 then [n]
    else if n < 0x800 then [0xC0 + n / 64, 0x80 + n % 64]
    else if n < 0x1_0000 then [0xE0 + n / 4096, 0x80 + n / 64 % 64, 0x80 + n % 64]
    else [0xF0 + n / 0x4_0000, 0x80 + n / 4096 % 64, 0x80 + n / 64 % 64, 0x80 + n % 64]
  }

  /** str.encode */
  function Encoded(name: Name): seq<Byte> {
    if name == "" then [] else Utf8(name[0]) + Encoded(name[1..])
  }

  /** decode("ascii") */
  function Decoded(s: seq<Byte>): (r: Option<Name>)
    ensures r.Some? <==> AsciiBytes(s)
    decreases |s|
  {
    if s == [] then Some("")
    else
      assert s[0] in s && forall b | b in s[1..] :: b in s;
      assert s == [s[0]] + s[1..];
      match Decoded(s[1..])
      case Some(more) => if s[0] < 128 then Some([s[0] as char] + more) else None
      case None => None
  }

  /** ASCII names survive, byte by character. */
  lemma {:induction false} AsciiSurvives(name: Name)
    requires IsAscii(name)
    ensures |Encoded(name)| == |name| && Decoded(Encoded(name)) == Some(name)
    decreases |name|
  {
    if name != "" {
      assert name[0] in name && forall c | c in name[1..] :: c in name;
      AsciiSurvives(name[1..]);
      assert Encoded(name)[1..] == Encoded(name[1..]);
      assert name == [name[0]] + name[1..];
    }
  }

  /** Any other name has a byte that is not ASCII at the place of its first character that is not. */
  lemma {:induction false} OthersStandOut(name: Name) returns (j: nat)
    requires !IsAscii(name)
    ensures j < |name| && j < |Encoded(name)| && Encoded(name)[j] >= 128
    decreases |name|
  {
    if name[0] as int >= 128 {
      j := 0;
    } else {
      assert name == [name[0]] + name[1..];
      j := OthersStandOut(name[1..]);
      assert Encoded(name)[j + 1] == Encoded(name[1..])[j];
      j := j + 1;
    }
  }

  /** name[:16].ljust(16) */
  function Pad(name: Name): (r: Name)
    ensures |r| == 16 && (|name| == 16 ==> r == name)
  {
    if |name| >= 16 then name[..16] else name + Spaces(16 - |name|)
  }

  function Spaces(n: nat): (r: Name)
    ensures |r| == n
  {
    if n == 0 then "" else " " + Spaces(n - 1)
  }

  function NameAt(data: seq<Byte>, start: nat): Option<Name> {
    Decoded(Slice(data, start, start + 16))
  }

  function PadAll(names: seq<Name>): (r: seq<Name>)
    ensures |r| == |names| && Padded(r) && (Padded(names) ==> r == names)
    decreases |names|
  {
    if names == [] then [] else [Pad(names[0])] + PadAll(names[1..])
  }

  /** name[:16], what is kept of a name. */
  function Kept(name: Name): Name {
    if |name| > 16 then name[..16] else name
  }

  lemma {:induction false} SpacesAreAscii(n: nat)
    ensures IsAscii(Spaces(n))
  {
    if n > 0 {
      SpacesAreAscii(n - 1);
    }
  }

  lemma PadIsAscii(name: Name)
    ensures IsAscii(Pad(name)) <==> IsAscii(Kept(name))
  {
    if |name| < 16 {
      SpacesAreAscii(16 - |name|);
      assert forall c | c in name :: c in Pad(name);
    }
  }

  lemma {:induction false} PadAllIsAscii(names: seq<Name>)
    ensures AllAscii(PadAll(names)) <==> forall n | n in names :: IsAscii(Kept(n))
    decreases |names|
  {
    hide Pad, Kept, IsAscii;
    if names != [] {
      PadIsAscii(names[0]);
      PadAllIsAscii(names[1..]);
      assert names == [names[0]] + names[1..];
      assert PadAll(names) == [Pad(names[0])] + PadAll(names[1..]);
    }
  }

  predicate Padded(names: seq<Name>) {
    forall n | n in names :: |n| == 16
  }

  predicate AllAscii(names: seq<Name>) {
    forall n | n in names :: IsAscii(n)
  }

  /** str.encode of the joined names. */
  function NamesBytes(names: seq<Name>): seq<Byte>
    decreases |names|
  {
    if names == [] then [] else Encoded(names[0]) + NamesBytes(names[1..])
  }

  lemma AllOfList(names: seq<Name>)
    requires names != []
    ensures AllAscii(names) <==> IsAscii(names[0]) && AllAscii(names[1..])
    ensures Padded(names) <==> |names[0]| == 16 && Padded(names[1..])
  {
    hide IsAscii;
    assert names == [names[0]] + names[1..];
  }

  lemma {:induction false} NamesSpan(names: seq<Name>)
    requires Padded(names) && AllAscii(names)
    ensures |NamesBytes(names)| == Span(|names|, 16)
    decreases |names|
  {
    hide Encoded, IsAscii;
    if names != [] {
      AllOfList(names);
      hide Padded, AllAscii;
      AsciiSurvives(names[0]);
      NamesSpan(names[1..]);
    }
  }

  function NamesAt(data: seq<Byte>, start: nat, n: nat): Option<seq<Name>>
    decreases n
  {
    if n == 0 then Some([])
    else match (NameAt(data, start), NamesAt(data, start + 16, n - 1)) {
      case (Some(x), Some(xs)) => Some([x] + xs)
      case _ => None
    }
  }

  /** A name of 16 characters is read back if it is ASCII and refused otherwise, whatever stands after it. */
  lemma NameAtReads(data: seq<Byte>, start: nat, name: Name)
    requires |name| == 16 && At(data, start, Encoded(name))
    ensures NameAt(data, start) == if IsAscii(name) then Some(name) else None
  {
    var s := Slice(data, start, start + 16);
    if IsAscii(name) {
      AsciiSurvives(name);
      assert s == Encoded(name);
    } else {
      var j := OthersStandOut(name);
      assert s[j] == data[start + j] == data[start..start + |Encoded(name)|][j];
      assert s[j] in s;
    }
  }

  /** So are lists of names: the first one that is not ASCII refuses them all. */
  lemma {:induction false} NamesAtReads(data: seq<Byte>, start: nat, names: seq<Name>)
    requires Padded(names) && At(data, start, NamesBytes(names))
    ensures NamesAt(data, start, |names|) == if AllAscii(names) then Some(names) else None
    decreases |names|
  {
    hide At, NameAt, IsAscii, Encoded;
    if names != [] {
      AllOfList(names);
      hide AllAscii, Padded;
      AtSplits(data, start, Encoded(names[0]), NamesBytes(names[1..]));
      NameAtReads(data, start, names[0]);
      if IsAscii(names[0]) {
        AsciiSurvives(names[0]);
        NamesAtReads(data, start + 16, names[1..]);
        assert names == [names[0]] + names[1..];
      }
    }
  }
}
