/** Integers in and out of the bytes of a frame, with the slicing rules of the decoder's language. */
module FrameWords {
  import opened Bytes
  import opened Wrappers

  /** data[from:to]: positions beyond the end are left out rather than refused. */
  function Slice(data: seq<Byte>, from: nat, to: nat): seq<Byte>
    requires from <= to
  {
    if from >= |data| then [] else if to >= |data| then data[from..] else data[from..to]
  }

  function WordAt(data: seq<Byte>, start: nat, size: nat): nat {
    FromBigEndian(Slice(data, start, start + size))
  }

  /** n words of the given size, one after the other. */
  function WordsAt(data: seq<Byte>, start: nat, n: nat, size: nat): (ws: seq<nat>)
    ensures |ws| == n
    decreases n
  {
    if n == 0 then [] else [WordAt(data, start, size)] + WordsAt(data, start + size, n - 1, size)
  }

  /** The bytes of n words. */
  function Span(n: nat, size: nat): nat {
    if n == 0 then 0 else size + Span(n - 1, size)
  }

  function WordsBytes(ws: seq<nat>, size: nat): (bytes: seq<Byte>)
    ensures |bytes| == Span(|ws|, size)
    decreases |ws|
  {
    if ws == [] then [] else BigEndian(ws[0], size) + WordsBytes(ws[1..], size)
  }

  predicate Fit(ws: seq<nat>, size: nat) {
    forall w | w in ws :: w < Range(size)
  }

  /** to_bytes: refuses what does not fit. */
  function ToBytes(v: nat, size: nat): Option<seq<Byte>> {
    if v < Range(size) then Some(BigEndian(v, size)) else None
  }

  /** bytes stand in data from start on. */
  predicate At(data: seq<Byte>, start: nat, bytes: seq<Byte>) {
    start + |bytes| <= |data| && data[start..start + |bytes|] == bytes
  }

  lemma AtSplits(data: seq<Byte>, start: nat, a: seq<Byte>, b: seq<Byte>)
    requires At(data, start, a + b)
    ensures At(data, start, a) && At(data, start + |a|, b)
  {
    var whole := data[start..start + |a| + |b|];
    assert whole[..|a|] == a && whole[|a|..] == b;
  }

  lemma AtFive(data: seq<Byte>, start: nat, a: seq<Byte>, b: seq<Byte>, c: seq<Byte>, d: seq<Byte>, e: seq<Byte>)
    requires At(data, start, a + b + c + d + e)
    ensures At(data, start, a) && At(data, start + |a|, b) && At(data, start + |a| + |b|, c)
    ensures At(data, start + |a| + |b| + |c|, d) && At(data, start + |a| + |b| + |c| + |d|, e)
  {
    hide At;
    AtSplits(data, start, a + b + c + d, e);
    AtSplits(data, start, a + b + c, d);
    AtSplits(data, start, a + b, c);
    AtSplits(data, start, a, b);
  }

  lemma AtSix(data: seq<Byte>, start: nat, a: seq<Byte>, b: seq<Byte>, c: seq<Byte>, d: seq<Byte>, e: seq<Byte>,
              f: seq<Byte>)
    requires At(data, start, a + b + c + d + e + f)
    ensures At(data, start, a) && At(data, start + |a|, b) && At(data, start + |a| + |b|, c)
    ensures At(data, start + |a| + |b| + |c|, d) && At(data, start + |a| + |b| + |c| + |d|, e)
    ensures At(data, start + |a| + |b| + |c| + |d| + |e|, f)
  {
    hide At;
    AtSplits(data, start, a + b + c + d + e, f);
    AtFive(data, start, a, b, c, d, e);
  }

  lemma AtParts(a: seq<Byte>, b: seq<Byte>, c: seq<Byte>)
    ensures At(a + b + c, 0, a) && At(a + b + c, |a|, b)
  {
    var whole := a + b + c;
    assert whole[0..|a|] == a && whole[|a|..|a| + |b|] == b;
  }

  lemma WordAtReads(data: seq<Byte>, start: nat, w: nat, size: nat)
    requires w < Range(size) && At(data, start, BigEndian(w, size))
    ensures WordAt(data, start, size) == w
  {
    FromOfBigEndian(w, size);
    assert Slice(data, start, start + size) == BigEndian(w, size);
  }

  /** Reading undoes writing, wherever the words stand. */
  lemma {:induction false} WordsAtReads(data: seq<Byte>, start: nat, ws: seq<nat>, size: nat)
    requires Fit(ws, size) && At(data, start, WordsBytes(ws, size))
    ensures WordsAt(data, start, |ws|, size) == ws
    decreases |ws|
  {
    hide At, WordAt, BigEndian;
    if ws != [] {
      assert ws[0] in ws && forall w | w in ws[1..] :: w in ws;
      AtSplits(data, start, BigEndian(ws[0], size), WordsBytes(ws[1..], size));
      WordAtReads(data, start, ws[0], size);
      WordsAtReads(data, start + size, ws[1..], size);
    }
  }

  lemma {:induction false} WordsBytesAppend(a: seq<nat>, b: seq<nat>, size: nat)
    ensures WordsBytes(a + b, size) == WordsBytes(a, size) + WordsBytes(b, size)
    decreases |a|
  {
    if a == [] {
      assert a + b == b;
    } else {
      assert (a + b)[1..] == a[1..] + b;
      WordsBytesAppend(a[1..], b, size);
    }
  }

  lemma {:induction false} WordsAtAppend(data: seq<Byte>, start: nat, n: nat, size: nat)
    ensures WordsAt(data, start, n + 1, size)
      == WordsAt(data, start, n, size) + [WordAt(data, start + Span(n, size), size)]
    decreases n
  {
    hide WordAt;
    if n > 0 {
      WordsAtAppend(data, start + size, n - 1, size);
    }
  }

  /** list2bytes: the words one after the other, or an overflow. */
  method List2Bytes(ws: seq<nat>, size: nat) returns (r: Option<seq<Byte>>)
    ensures r == if Fit(ws, size) then Some(WordsBytes(ws, size)) else None
  {
    var bytes: seq<Byte> := [];
    var i := 0;
    while i < |ws|
      invariant i <= |ws| && Fit(ws[..i], size) && bytes == WordsBytes(ws[..i], size)
    {
      var b := ToBytes(ws[i], size);
      if b == None {
        assert ws[i] in ws;
        return None;
      }
      assert ws[..i + 1] == ws[..i] + [ws[i]] && [ws[i]][1..] == [];
      WordsBytesAppend(ws[..i], [ws[i]], size);
      bytes := bytes + b.value;
      i := i + 1;
    }
    assert ws[..i] == ws;
    return Some(bytes);
  }

  /** A decoding loop: n words from startByte on, and where it then stands. */
  method ReadWords(data: seq<Byte>, startByte: nat, n: nat, size: nat) returns (ws: seq<nat>, next: nat)
    ensures ws == WordsAt(data, startByte, n, size) && next == startByte + Span(n, size)
  {
    hide WordAt;
    ws, next := [], startByte;
    for i := 0 to n
      invariant ws == WordsAt(data, startByte, i, size) && next == startByte + Span(i, size)
    {
      WordsAtAppend(data, startByte, i, size);
      ws := ws + [WordAt(data, next, size)];
      next := next + size;
    }
  }

  // Decoding loops that may fail: what was read so far, and what the rest will give.

  function Prepend<T>(xs: seq<T>, rest: Option<seq<T>>): Option<seq<T>> {
    match rest
    case None => None
    case Some(more) => Some(xs + more)
  }

  lemma PrependNothing<T>(rest: Option<seq<T>>)
    ensures Prepend([], rest) == rest
  {
    if rest.Some? {
      assert [] + rest.value == rest.value;
    }
  }

  lemma MovePrepended<T>(xs: seq<T>, x: T, rest: Option<seq<T>>)
    ensures Prepend(xs, Prepend([x], rest)) == Prepend(xs + [x], rest)
  {
    if rest.Some? {
      assert xs + ([x] + rest.value) == xs + [x] + rest.value;
    }
  }

  // Bit fields: (w << k) | d, w >> k and w & mask, with radix 2^k.

  function Push(w: nat, radix: nat, d: nat): nat {
    w * radix + d
  }

  function Rest(w: nat, radix: nat): nat
    requires radix > 0
  {
    w / radix
  }

  function Digit(w: nat, radix: nat): (d: nat)
    requires radix > 0
    ensures d < radix
  {
    w % radix
  }

  function Low(b: bool): nat {
    if b then 1 else 0
  }

  lemma Popped(w: nat, radix: nat, d: nat)
    requires radix in {2, 4, 8, 16} && d < radix
    ensures Rest(Push(w, radix, d), radix) == w && Digit(Push(w, radix, d), radix) == d
  {
    if radix == 2 {
    } else if radix == 4 {
    } else if radix == 8 {
    }
  }

  // 16-bit two's complement.

  function Signed16(w: nat): int {
    if w < 32768 then w else w - 65536
  }

  function Unsigned16(v: int): (w: nat)
    requires -32768 <= v < 65536
    ensures w < 65536
  {
    if v < 0 then v + 65536 else v
  }
}
