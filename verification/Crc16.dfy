/**
 The CRC-CCITT check word of C37.118 frames (polynomial 0x1021, initial value 0xffff), as division of
 bit sequences. Registers, bytes and messages are written as bits, the most significant one first.
 */
module Crc16 {
  import opened Bytes

  type Register = c: seq<bool> | |c| == 16 witness seq(16, _ => false)

  function Fill(n: nat, bit: bool): (bits: seq<bool>)
    ensures |bits| == n && forall i | 0 <= i < n :: bits[i] == bit
  {
    if n == 0 then [] else [bit] + Fill(n - 1, bit)
  }

  const ZERO: Register := Fill(16, false)

  /** The initial value. */
  const ONES: Register := Bits(0xffff, 16)

  /** x^12 + x^5 + 1; the leading x^16 is the bit that falls out. */
  const POLYNOMIAL: Register := Bits(0x1021, 16)

  function XorBits(a: seq<bool>, b: seq<bool>): (x: seq<bool>)
    requires |a| == |b|
    ensures |x| == |a| && forall i | 0 <= i < |a| :: x[i] == (a[i] != b[i])
    decreases |a|
  {
    if a == [] then [] else [a[0] != b[0]] + XorBits(a[1..], b[1..])
  }

  function Xor(c: Register, d: Register): Register {
    XorBits(c, d)
  }

  /** One bit of the division: shift, and subtract the polynomial when a bit falls out. */
  function BitStep(c: Register): Register {
    Xor(c[1..] + [false], if c[0] then POLYNOMIAL else ZERO)
  }

  /** The low bit tells whether the polynomial was subtracted. */
  function BitBack(c: Register): Register {
    [c[15]] + Xor(c, if c[15] then POLYNOMIAL else ZERO)[..15]
  }

  /** The bitwise step is a bijection of the register: BitBack undoes it, on both sides. */
  lemma BitStepIsInjective(c: Register)
    ensures BitBack(BitStep(c)) == c
  {
  }

  lemma BitStepIsSurjective(c: Register)
    ensures BitStep(BitBack(c)) == c
  {
  }

  lemma BitStepAt(c: Register, i: nat)
    requires i < 16
    ensures BitStep(c)[i] == ((i < 15 && c[i + 1]) != (c[0] && POLYNOMIAL[i]))
  {
  }

  lemma BitStepIsLinear(c: Register, d: Register)
    ensures BitStep(Xor(c, d)) == Xor(BitStep(c), BitStep(d))
  {
    hide BitStep, POLYNOMIAL;
    forall i | 0 <= i < 16 ensures BitStep(Xor(c, d))[i] == Xor(BitStep(c), BitStep(d))[i] {
      BitStepAt(c, i);
      BitStepAt(d, i);
      BitStepAt(Xor(c, d), i);
    }
  }

  function Steps(n: nat, c: Register): Register {
    if n == 0 then c else BitStep(Steps(n - 1, c))
  }

  lemma {:induction false} StepsAreLinear(n: nat, c: Register, d: Register)
    ensures Steps(n, Xor(c, d)) == Xor(Steps(n, c), Steps(n, d))
  {
    hide BitStep, Xor;
    if n > 0 {
      StepsAreLinear(n - 1, c, d);
      BitStepIsLinear(Steps(n - 1, c), Steps(n - 1, d));
    }
  }

  lemma {:induction false} StepsAreInjective(n: nat, c: Register, d: Register)
    requires Steps(n, c) == Steps(n, d)
    ensures c == d
  {
    hide BitStep, BitBack;
    if n > 0 {
      BitStepIsInjective(Steps(n - 1, c));
      BitStepIsInjective(Steps(n - 1, d));
      StepsAreInjective(n - 1, c, d);
    }
  }

  lemma {:induction false} FirstStep(n: nat, c: Register)
    requires n > 0
    ensures Steps(n, c) == Steps(n - 1, BitStep(c))
  {
    hide BitStep;
    if n > 1 {
      FirstStep(n - 1, c);
    }
  }

  lemma {:induction false} StepsOfZero(n: nat)
    ensures Steps(n, ZERO) == ZERO
  {
    BitStepOfZero();
    hide BitStep, ZERO;
    if n > 0 {
      StepsOfZero(n - 1);
    }
  }

  lemma BitStepOfZero()
    ensures BitStep(ZERO) == ZERO
  {
  }

  // Feeding message bits, the most significant one first.

  /** One bit at place n of the register. */
  function BitAt(n: nat, bit: bool): Register
    requires n < 16
  {
    Fill(n, false) + [bit] + Fill(15 - n, false)
  }

  function Feed(c: Register, bits: seq<bool>): Register
    decreases |bits|
  {
    if bits == [] then c else Feed(BitStep(Xor(c, BitAt(0, bits[0]))), bits[1..])
  }

  lemma {:induction false} FeedAppend(c: Register, a: seq<bool>, b: seq<bool>)
    ensures Feed(c, a + b) == Feed(Feed(c, a), b)
    decreases |a|
  {
    hide BitStep, Xor, BitAt;
    if a == [] {
      assert a + b == b;
    } else {
      assert (a + b)[1..] == a[1..] + b;
      FeedAppend(BitStep(Xor(c, BitAt(0, a[0]))), a[1..], b);
    }
  }

  /** Two different registers stay different, whatever they are fed. */
  lemma {:induction false} FeedIsInjective(c: Register, d: Register, bits: seq<bool>)
    requires Feed(c, bits) == Feed(d, bits)
    ensures c == d
    decreases |bits|
  {
    if bits != [] {
      var x, y := Xor(c, BitAt(0, bits[0])), Xor(d, BitAt(0, bits[0]));
      assert x == y by {
        hide BitStep, BitBack;
        FeedIsInjective(BitStep(x), BitStep(y), bits[1..]);
        BitStepIsInjective(x);
        BitStepIsInjective(y);
      }
      XorCancels(c, d, BitAt(0, bits[0]));
    }
  }

  lemma XorCommutes(c: Register, d: Register)
    ensures Xor(c, d) == Xor(d, c)
  {
    forall i | 0 <= i < 16 ensures Xor(c, d)[i] == Xor(d, c)[i] {
    }
  }

  lemma XorCancels(c: Register, d: Register, x: Register)
    requires Xor(c, x) == Xor(d, x)
    ensures c == d
  {
    forall i | 0 <= i < 16 ensures c[i] == d[i] {
      assert Xor(c, x)[i] == Xor(d, x)[i];
    }
  }

  lemma BitMoves(n: nat, bit: bool)
    requires 0 < n < 16
    ensures BitStep(BitAt(n, bit)) == BitAt(n - 1, bit)
  {
    var r, next := BitAt(n, bit), BitAt(n - 1, bit);
    assert !r[0] && r[1..] + [false] == next;
    hide BitAt;
    assert Xor(next, ZERO) == next;
  }

  /** A bit at place n reaches the top after n steps. */
  lemma {:induction false} BitRises(n: nat, bit: bool)
    requires n < 16
    ensures Steps(n, BitAt(n, bit)) == BitAt(0, bit)
  {
    hide BitStep, BitAt;
    if n > 0 {
      FirstStep(n, BitAt(n, bit));
      BitMoves(n, bit);
      BitRises(n - 1, bit);
    }
  }

  /** Up to 16 bits, filled up with zeros. */
  function Window(bits: seq<bool>): Register
    requires |bits| <= 16
  {
    bits + Fill(16 - |bits|, false)
  }

  lemma WindowGrows(c: Register, bits: seq<bool>, bit: bool)
    requires |bits| < 16
    ensures Xor(Xor(c, Window(bits)), BitAt(|bits|, bit)) == Xor(c, Window(bits + [bit]))
  {
    forall i | 0 <= i < 16
      ensures Xor(Xor(c, Window(bits)), BitAt(|bits|, bit))[i] == Xor(c, Window(bits + [bit]))[i]
    {
    }
  }

  /** Up to 16 bits fed one by one act like all of them put into the register at once. */
  lemma {:induction false} FeedWindow(c: Register, bits: seq<bool>)
    requires |bits| <= 16
    ensures Feed(c, bits) == Steps(|bits|, Xor(c, Window(bits)))
    decreases |bits|
  {
    EmptyWindow(c);
    hide BitStep, Xor, Window, BitAt;
    if bits != [] {
      var n := |bits| - 1;
      var front, bit := bits[..n], bits[n];
      var before := Xor(c, Window(front));
      FeedWindow(c, front);
      WindowGrows(c, front, bit);
      BitRises(n, bit);
      StepsAreLinear(n, before, BitAt(n, bit));
      assert bits == front + [bit];
      FeedAppend(c, front, [bit]);
      FeedOne(Feed(c, front), bit);
    }
  }

  lemma EmptyWindow(c: Register)
    ensures Xor(c, Window([])) == c
  {
  }

  lemma FeedOne(c: Register, bit: bool)
    ensures Feed(c, [bit]) == BitStep(Xor(c, BitAt(0, bit)))
  {
    assert [bit][1..] == [];
    hide BitStep, Xor, BitAt;
  }

  lemma WindowsDiffer(c: Register, x: seq<bool>, y: seq<bool>)
    requires |x| == |y| <= 16 && Feed(c, x) == Feed(c, y)
    ensures x == y
  {
    FeedWindow(c, x);
    FeedWindow(c, y);
    StepsAreInjective(|x|, Xor(c, Window(x)), Xor(c, Window(y)));
    XorCommutes(c, Window(x));
    XorCommutes(c, Window(y));
    XorCancels(Window(x), Window(y), c);
    assert x == Window(x)[..|x|] == Window(y)[..|x|] == y;
  }

  /** Two messages that differ, but only within 16 consecutive bits, leave different registers. */
  lemma BurstShows(c: Register, p: seq<bool>, x: seq<bool>, y: seq<bool>, q: seq<bool>)
    requires |x| == |y| <= 16 && x != y
    ensures Feed(c, p + x + q) != Feed(c, p + y + q)
  {
    FeedAppend(c, p + x, q);
    FeedAppend(c, p, x);
    FeedAppend(c, p + y, q);
    FeedAppend(c, p, y);
    if Feed(c, p + x + q) == Feed(c, p + y + q) {
      FeedIsInjective(Feed(c, p + x), Feed(c, p + y), q);
      WindowsDiffer(Feed(c, p), x, y);
    }
  }

  // Numbers and bytes as bits.

  function Bits(v: nat, n: nat): (bits: seq<bool>)
    ensures |bits| == n
  {
    if n == 0 then [] else Bits(v / 2, n - 1) + [v % 2 == 1]
  }

  function Power(n: nat): nat {
    if n == 0 then 1 else 2 * Power(n - 1)
  }

  function Value(bits: seq<bool>): (v: nat)
    ensures v < Power(|bits|)
    decreases |bits|
  {
    if bits == [] then 0 else 2 * Value(bits[..|bits| - 1]) + (if bits[|bits| - 1] then 1 else 0)
  }

  lemma {:induction false} BitsOfValue(bits: seq<bool>)
    ensures Bits(Value(bits), |bits|) == bits
    decreases |bits|
  {
    if bits != [] {
      var front := bits[..|bits| - 1];
      BitsOfValue(front);
      assert Value(bits) / 2 == Value(front);
      assert bits == front + [bits[|bits| - 1]];
    }
  }

  lemma {:induction false} ValueOfBits(v: nat, n: nat)
    requires v < Power(n)
    ensures Value(Bits(v, n)) == v
  {
    if n > 0 {
      ValueOfBits(v / 2, n - 1);
      assert Bits(v, n)[..n - 1] == Bits(v / 2, n - 1);
    }
  }

  function MessageBits(message: seq<Byte>): (bits: seq<bool>)
    ensures |bits| == 8 * |message|
    decreases |message|
  {
    if message == [] then [] else Bits(message[0], 8) + MessageBits(message[1..])
  }

  lemma {:induction false} MessageBitsAppend(a: seq<Byte>, b: seq<Byte>)
    ensures MessageBits(a + b) == MessageBits(a) + MessageBits(b)
    decreases |a|
  {
    if a == [] {
      assert a + b == b;
    } else {
      assert (a + b)[1..] == a[1..] + b;
      MessageBitsAppend(a[1..], b);
    }
  }

  lemma {:induction false} MessageBitsAreInjective(a: seq<Byte>, b: seq<Byte>)
    requires MessageBits(a) == MessageBits(b)
    ensures a == b
    decreases |a|
  {
    assert |a| == |b|;
    if a != [] {
      assert Power(8) == 256;
      ValueOfBits(a[0], 8);
      ValueOfBits(b[0], 8);
      assert MessageBits(a)[..8] == Bits(a[0], 8) && MessageBits(b)[..8] == Bits(b[0], 8);
      assert MessageBits(a)[8..] == MessageBits(a[1..]) && MessageBits(b)[8..] == MessageBits(b[1..]);
      MessageBitsAreInjective(a[1..], b[1..]);
      assert a == [a[0]] + a[1..] && b == [b[0]] + b[1..];
    }
  }

  // Check words.

  function Crc(message: seq<Byte>): Register {
    Feed(ONES, MessageBits(message))
  }

  /** The register as two big-endian bytes. */
  function CheckWord(c: Register): (w: seq<Byte>)
    ensures |w| == 2
  {
    assert Power(8) == 256;
    [Value(c[..8]), Value(c[8..])]
  }

  /** Whether a frame ends with the check word of what precedes it; never so for less than two bytes. */
  predicate CheckCrc(frame: seq<Byte>) {
    |frame| >= 2 && frame[|frame| - 2..] == CheckWord(Crc(frame[..|frame| - 2]))
  }

  lemma CheckWordBits(c: Register)
    ensures MessageBits(CheckWord(c)) == c
  {
    var w := CheckWord(c);
    BitsOfValue(c[..8]);
    BitsOfValue(c[8..]);
    assert w[1..][1..] == [] && MessageBits([]) == [];
    assert c == c[..8] + c[8..];
  }

  /** Feeding a register its own bits clears it. */
  lemma SelfClears(c: Register)
    ensures Feed(c, c) == ZERO
  {
    FeedWindow(c, c);
    assert Window(c) == c && Xor(c, c) == ZERO;
    StepsOfZero(16);
  }

  lemma CheckWordIsUnique(c: Register, word: seq<Byte>)
    requires |word| == 2
    ensures Feed(c, MessageBits(word)) == ZERO <==> word == CheckWord(c)
  {
    SelfClears(c);
    CheckWordBits(c);
    hide Feed, CheckWord, MessageBits;
    if Feed(c, MessageBits(word)) == ZERO {
      WindowsDiffer(c, MessageBits(word), c);
      MessageBitsAreInjective(word, CheckWord(c));
    }
  }

  lemma CrcAppend(a: seq<Byte>, b: seq<Byte>)
    ensures Crc(a + b) == Feed(Crc(a), MessageBits(b))
  {
    MessageBitsAppend(a, b);
    FeedAppend(ONES, MessageBits(a), MessageBits(b));
    hide Feed, MessageBits;
  }

  /** A frame is valid exactly when division leaves no remainder over the whole of it. */
  lemma CheckIsZeroRemainder(frame: seq<Byte>)
    ensures CheckCrc(frame) <==> |frame| >= 2 && Crc(frame) == ZERO
  {
    hide Feed, Crc, CheckWord;
    if |frame| >= 2 {
      var front, word := frame[..|frame| - 2], frame[|frame| - 2..];
      assert frame == front + word;
      CrcAppend(front, word);
      CheckWordIsUnique(Crc(front), word);
    }
  }

  /** What encoding appends is accepted. */
  lemma AppendedCheckIsValid(message: seq<Byte>)
    ensures CheckCrc(message + CheckWord(Crc(message)))
  {
    hide Crc, CheckWord;
    var frame := message + CheckWord(Crc(message));
    assert frame[..|frame| - 2] == message && frame[|frame| - 2..] == CheckWord(Crc(message));
  }

  /**
   Error detection: a valid frame of any length with an error confined to 16 consecutive bits,
   anywhere in it and not necessarily at byte boundaries, is rejected.
   */
  lemma BurstDetected(a: seq<Byte>, b: seq<Byte>, from: nat, to: nat)
    requires CheckCrc(a) && |a| == |b| && a != b
    requires from <= to <= 8 * |a| && to - from <= 16
    requires MessageBits(a)[..from] == MessageBits(b)[..from] && MessageBits(a)[to..] == MessageBits(b)[to..]
    ensures !CheckCrc(b)
  {
    hide Feed, MessageBits, CheckCrc, ONES;
    CheckIsZeroRemainder(a);
    CheckIsZeroRemainder(b);
    if MessageBits(a) == MessageBits(b) {
      MessageBitsAreInjective(a, b);
    }
    BitsBurst(ONES, MessageBits(a), MessageBits(b), from, to);
  }

  lemma BitsBurst(c: Register, x: seq<bool>, y: seq<bool>, from: nat, to: nat)
    requires |x| == |y| && from <= to <= |x| && to - from <= 16 && x != y
    requires x[..from] == y[..from] && x[to..] == y[to..]
    ensures Feed(c, x) != Feed(c, y)
  {
    assert x == x[..from] + x[from..to] + x[to..];
    assert y == x[..from] + y[from..to] + x[to..];
    BurstShows(c, x[..from], x[from..to], y[from..to], x[to..]);
    hide Feed;
  }

  /** In particular any change confined to two neighbouring bytes, hence to one byte. */
  lemma NeighbouringBytesDetected(a: seq<Byte>, b: seq<Byte>, i: nat, n: nat)
    requires CheckCrc(a) && |a| == |b| && a != b
    requires n <= 2 && i + n <= |a| && a[..i] == b[..i] && a[i + n..] == b[i + n..]
    ensures !CheckCrc(b)
  {
    hide CheckCrc, MessageBits;
    SplitBits(a, i);
    SplitBits(a, i + n);
    SplitBits(b, i);
    SplitBits(b, i + n);
    BurstDetected(a, b, 8 * i, 8 * (i + n));
  }

  lemma SplitBits(a: seq<Byte>, i: nat)
    requires i <= |a|
    ensures MessageBits(a)[..8 * i] == MessageBits(a[..i]) && MessageBits(a)[8 * i..] == MessageBits(a[i..])
  {
    hide MessageBits;
    MessageBitsAppend(a[..i], a[i..]);
    assert a == a[..i] + a[i..];
  }

  // The polynomial is divisible by x + 1, so the parity of what is fed stays visible.

  /** Whether an odd number of bits is set. */
  predicate Odd(bits: seq<bool>) {
    bits != [] && (bits[0] != Odd(bits[1..]))
  }

  lemma {:induction false} OddAppend(a: seq<bool>, b: seq<bool>)
    ensures Odd(a + b) <==> Odd(a) != Odd(b)
    decreases |a|
  {
    if a == [] {
      assert a + b == b;
    } else {
      assert (a + b)[1..] == a[1..] + b;
      OddAppend(a[1..], b);
    }
  }

  lemma {:induction false} OddXor(a: seq<bool>, b: seq<bool>)
    requires |a| == |b|
    ensures Odd(XorBits(a, b)) <==> Odd(a) != Odd(b)
    decreases |a|
  {
    if a != [] {
      OddXor(a[1..], b[1..]);
    }
  }

  predicate OddNumber(v: nat) {
    v != 0 && ((v % 2 == 1) != OddNumber(v / 2))
  }

  lemma {:induction false} OddBits(v: nat, n: nat)
    requires v < Power(n)
    ensures Odd(Bits(v, n)) <==> OddNumber(v)
    decreases n
  {
    if n > 0 {
      OddBits(v / 2, n - 1);
      OddAppend(Bits(v / 2, n - 1), [v % 2 == 1]);
    }
  }

  lemma {:induction false} NoneIsEven(n: nat)
    ensures !Odd(Fill(n, false))
  {
    if n > 0 {
      NoneIsEven(n - 1);
      assert Fill(n, false)[1..] == Fill(n - 1, false);
    }
  }

  /** The polynomial without its leading term has an odd number of terms. */
  lemma PolynomialIsOdd()
    ensures Odd(POLYNOMIAL) && !Odd(ZERO)
  {
    assert Power(8) == 256 && Power(16) == 0x1_0000;
    hide Odd, Bits;
    OddBits(0x1021, 16);
    NoneIsEven(16);
  }

  /** Shifting, the bit that falls out is made up for by the three bits subtracted. */
  lemma BitStepKeepsParity(c: Register)
    ensures Odd(BitStep(c)) <==> Odd(c)
  {
    PolynomialIsOdd();
    OddXor(c[1..] + [false], if c[0] then POLYNOMIAL else ZERO);
    OddAppend(c[1..], [false]);
  }

  lemma {:induction false} FeedParity(c: Register, bits: seq<bool>)
    ensures Odd(Feed(c, bits)) <==> Odd(c) != Odd(bits)
    decreases |bits|
  {
    hide BitStep, Xor, BitAt;
    if bits != [] {
      FirstBitParity(c, bits[0]);
      BitStepKeepsParity(Xor(c, BitAt(0, bits[0])));
      FeedParity(BitStep(Xor(c, BitAt(0, bits[0]))), bits[1..]);
    }
  }

  lemma FirstBitParity(c: Register, bit: bool)
    ensures Odd(Xor(c, BitAt(0, bit))) <==> Odd(c) != bit
  {
    OddXor(c, BitAt(0, bit));
    NoneIsEven(15);
    assert BitAt(0, bit)[1..] == Fill(15, false);
  }

  /** Every error in an odd number of bits, anywhere in a frame of any length, is detected. */
  lemma OddErrorDetected(a: seq<Byte>, b: seq<Byte>)
    requires CheckCrc(a) && |a| == |b| && Odd(XorBits(MessageBits(a), MessageBits(b)))
    ensures !CheckCrc(b)
  {
    hide Feed, MessageBits, CheckCrc, ONES, Odd, ZERO;
    CheckIsZeroRemainder(a);
    CheckIsZeroRemainder(b);
    OddXor(MessageBits(a), MessageBits(b));
    FeedParity(ONES, MessageBits(a));
    FeedParity(ONES, MessageBits(b));
  }
}
