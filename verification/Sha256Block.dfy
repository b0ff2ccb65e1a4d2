/**
 The block function as implemented: 64-bit words (word_t is unsigned long), with masking to 32 bits
 only where the source masks. It refines the 32-bit modular one of the specification.
 */
module Sha256Block {
  import opened BlockChaining
  import opened Bytes
  import opened Sha256Spec

  function Wide(x: bv32): bv64 {
    x as bv64
  }

  function Low(x: bv64): bv32 {
    (x & 0xffffffff) as bv32
  }

  function Mask32(x: bv64): bv64 {
    x & 0xffffffff
  }

  /** The 64-bit "+" of word_t. */
  function Plus(x: bv64, y: bv64): bv64 {
    x + y
  }

  function WideCh(x: bv64, y: bv64, z: bv64): bv64 {
    (x & y) ^ (!x & z)
  }

  function WideMaj(x: bv64, y: bv64, z: bv64): bv64 {
    (x & y) ^ (x & z) ^ (y & z)
  }

  function WideRotr(x: bv64, n: nat): bv64
    requires 0 < n < 32
  {
    Mask32((x >> n) | (x << (32 - n)))
  }

  function WideXor3(x: bv64, y: bv64, z: bv64): bv64 {
    x ^ y ^ z
  }

  function Bsig0(x: bv64): bv64 {
    WideXor3(WideRotr(x, 2), WideRotr(x, 13), WideRotr(x, 22))
  }

  function Bsig1(x: bv64): bv64 {
    WideXor3(WideRotr(x, 6), WideRotr(x, 11), WideRotr(x, 25))
  }

  function Ssig0(x: bv64): bv64 {
    WideXor3(WideRotr(x, 7), WideRotr(x, 18), x >> 3)
  }

  function Ssig1(x: bv64): bv64 {
    WideXor3(WideRotr(x, 17), WideRotr(x, 19), x >> 10)
  }

  function WideWord(b0: bv8, b1: bv8, b2: bv8, b3: bv8): bv64 {
    (((b0 & 0xff) as bv64) << 24) | (((b1 & 0xff) as bv64) << 16) | (((b2 & 0xff) as bv64) << 8) | ((b3 & 0xff) as bv64)
  }

  lemma Xor3Refines(x: bv32, y: bv32, z: bv32)
    ensures WideXor3(Wide(x), Wide(y), Wide(z)) == Wide(Xor3(x, y, z))
  {
  }

  lemma RotrRefines(x: bv32)
    ensures WideRotr(Wide(x), 2) == Wide(x.RotateRight(2))
    ensures WideRotr(Wide(x), 13) == Wide(x.RotateRight(13))
    ensures WideRotr(Wide(x), 22) == Wide(x.RotateRight(22))
    ensures WideRotr(Wide(x), 6) == Wide(x.RotateRight(6))
    ensures WideRotr(Wide(x), 11) == Wide(x.RotateRight(11))
    ensures WideRotr(Wide(x), 25) == Wide(x.RotateRight(25))
    ensures WideRotr(Wide(x), 7) == Wide(x.RotateRight(7))
    ensures WideRotr(Wide(x), 18) == Wide(x.RotateRight(18))
    ensures WideRotr(Wide(x), 17) == Wide(x.RotateRight(17))
    ensures WideRotr(Wide(x), 19) == Wide(x.RotateRight(19))
  {
  }

  lemma Bsig0Refines(x: bv32)
    ensures Bsig0(Wide(x)) == Wide(BigSigma0(x))
  {
    RotrRefines(x);
    Xor3Refines(x.RotateRight(2), x.RotateRight(13), x.RotateRight(22));
  }

  lemma Bsig1Refines(x: bv32)
    ensures Bsig1(Wide(x)) == Wide(BigSigma1(x))
  {
    RotrRefines(x);
    Xor3Refines(x.RotateRight(6), x.RotateRight(11), x.RotateRight(25));
  }

  lemma Ssig0Refines(x: bv32)
    ensures Ssig0(Wide(x)) == Wide(SmallSigma0(x))
  {
    RotrRefines(x);
    assert Wide(x) >> 3 == Wide(x >> 3);
    Xor3Refines(x.RotateRight(7), x.RotateRight(18), x >> 3);
  }

  lemma Ssig1Refines(x: bv32)
    ensures Ssig1(Wide(x)) == Wide(SmallSigma1(x))
  {
    RotrRefines(x);
    assert Wide(x) >> 10 == Wide(x >> 10);
    Xor3Refines(x.RotateRight(17), x.RotateRight(19), x >> 10);
  }

  lemma ChRefines(x: bv32, y: bv32, z: bv32)
    ensures WideCh(Wide(x), Wide(y), Wide(z)) == Wide(Ch(x, y, z))
  {
  }

  lemma MajRefines(x: bv32, y: bv32, z: bv32)
    ensures WideMaj(Wide(x), Wide(y), Wide(z)) == Wide(Maj(x, y, z))
  {
  }

  lemma WordRefines(b0: bv8, b1: bv8, b2: bv8, b3: bv8)
    ensures WideWord(b0, b1, b2, b3) == Wide(BigEndianWord(b0, b1, b2, b3))
  {
  }

  // The sums are compared under Low and Add only: each step is an instance of one definition or of congruence.

  lemma LowIsMasked(x: bv64)
    ensures Low(x) == (x & 0xffffffff) as bv32
  {
  }

  lemma LowOfSum(x: bv64, y: bv64)
    ensures Low(x + y) == Add((x & 0xffffffff) as bv32, (y & 0xffffffff) as bv32)
  {
  }

  lemma LowSum(x: bv64, y: bv64)
    ensures Low(x + y) == Add(Low(x), Low(y))
  {
    hide *;
    LowIsMasked(x);
    LowIsMasked(y);
    LowOfSum(x, y);
  }

  /** The low half of a 64-bit sum is the 32-bit sum of the low halves. */
  lemma LowPlus(x: bv64, y: bv64)
    ensures Low(Plus(x, y)) == Add(Low(x), Low(y))
  {
    hide Low, Add;
    LowSum(x, y);
  }

  lemma MaskIsLow(x: bv64)
    ensures Mask32(x) == Wide(Low(x))
  {
  }

  lemma LowWide(x: bv32)
    ensures Low(Wide(x)) == x
  {
  }

  lemma MaskPlus(x: bv64, y: bv64, x': bv32, y': bv32)
    requires Low(x) == x' && Low(y) == y'
    ensures Mask32(Plus(x, y)) == Wide(Add(x', y'))
  {
    LowPlus(x, y);
    MaskIsLow(Plus(x, y));
  }

  function WideT1(h: bv64, e: bv64, f: bv64, g: bv64, k: bv64, w: bv64): bv64 {
    Plus(Plus(Plus(Plus(h, Bsig1(e)), WideCh(e, f, g)), k), w)
  }

  function WideT2(a: bv64, b: bv64, c: bv64): bv64 {
    Plus(Bsig0(a), WideMaj(a, b, c))
  }

  /** temp1 is not masked, but its low half is the standard's. */
  lemma T1Refines(v: Chain, k: bv32, w: bv32)
    ensures Low(WideT1(Wide(v.h), Wide(v.e), Wide(v.f), Wide(v.g), Wide(k), Wide(w))) == T1(v, k, w)
  {
    Bsig1Refines(v.e);
    ChRefines(v.e, v.f, v.g);
    var s1 := Plus(Wide(v.h), Wide(BigSigma1(v.e)));
    var s2 := Plus(s1, Wide(Ch(v.e, v.f, v.g)));
    var s3 := Plus(s2, Wide(k));
    LowPlus(Wide(v.h), Wide(BigSigma1(v.e)));
    LowPlus(s1, Wide(Ch(v.e, v.f, v.g)));
    LowPlus(s2, Wide(k));
    LowPlus(s3, Wide(w));
    LowWide(v.h);
    LowWide(BigSigma1(v.e));
    LowWide(Ch(v.e, v.f, v.g));
    LowWide(k);
    LowWide(w);
  }

  lemma T2Refines(v: Chain)
    ensures Low(WideT2(Wide(v.a), Wide(v.b), Wide(v.c))) == T2(v)
  {
    Bsig0Refines(v.a);
    MajRefines(v.a, v.b, v.c);
    LowPlus(Wide(BigSigma0(v.a)), Wide(Maj(v.a, v.b, v.c)));
    LowWide(BigSigma0(v.a));
    LowWide(Maj(v.a, v.b, v.c));
  }

  // No sum overflows 64 bits, so it makes no difference that most of them are not masked.

  /** x is below n times 2^32. */
  predicate Below(x: bv64, n: bv64) {
    x < (n << 32)
  }

  /** A 64-bit addition without carry out of the top bit. */
  predicate Exact(x: bv64, y: bv64) {
    Plus(x, y) >= x
  }

  lemma SmallSumIsExact(x: bv64, y: bv64, n: bv64, k: bv64)
    requires n < 16 && k < 16 && Below(x, n) && Below(y, k)
    ensures Exact(x, y) && Below(Plus(x, y), n + k)
  {
  }

  lemma WideIsBelow(x: bv32)
    ensures Below(Wide(x), 1)
  {
  }

  /** The sums of one round, as the source forms them: temp1, temp2 and the new e and a. */
  predicate RoundIsExact(a: bv64, b: bv64, c: bv64, d: bv64, e: bv64, f: bv64, g: bv64, h: bv64, k: bv64, w: bv64) {
    && Exact(h, Bsig1(e))
    && Exact(Plus(h, Bsig1(e)), WideCh(e, f, g))
    && Exact(Plus(Plus(h, Bsig1(e)), WideCh(e, f, g)), k)
    && Exact(Plus(Plus(Plus(h, Bsig1(e)), WideCh(e, f, g)), k), w)
    && Exact(Bsig0(a), WideMaj(a, b, c))
    && Exact(d, WideT1(h, e, f, g, k, w))
    && Exact(WideT1(h, e, f, g, k, w), WideT2(a, b, c))
  }

  /** No sum of a round overflows 64 bits, although only e and a are masked. */
  lemma RoundSumsAreExact(v: Chain, k: bv32, w: bv32)
    ensures RoundIsExact(Wide(v.a), Wide(v.b), Wide(v.c), Wide(v.d), Wide(v.e), Wide(v.f), Wide(v.g), Wide(v.h),
                         Wide(k), Wide(w))
  {
    hide Wide, Plus, Below, Exact, Bsig0, Bsig1, WideCh, WideMaj, BigSigma0, BigSigma1, Ch, Maj;
    Bsig1Refines(v.e);
    ChRefines(v.e, v.f, v.g);
    Bsig0Refines(v.a);
    MajRefines(v.a, v.b, v.c);
    var h, s1, c, d := Wide(v.h), Wide(BigSigma1(v.e)), Wide(Ch(v.e, v.f, v.g)), Wide(v.d);
    var s0, m := Wide(BigSigma0(v.a)), Wide(Maj(v.a, v.b, v.c));
    WideIsBelow(v.h);
    WideIsBelow(BigSigma1(v.e));
    WideIsBelow(Ch(v.e, v.f, v.g));
    WideIsBelow(k);
    WideIsBelow(w);
    WideIsBelow(v.d);
    WideIsBelow(BigSigma0(v.a));
    WideIsBelow(Maj(v.a, v.b, v.c));
    SmallSumIsExact(h, s1, 1, 1);
    SmallSumIsExact(Plus(h, s1), c, 2, 1);
    SmallSumIsExact(Plus(Plus(h, s1), c), Wide(k), 3, 1);
    SmallSumIsExact(Plus(Plus(Plus(h, s1), c), Wide(k)), Wide(w), 4, 1);
    var t1 := Plus(Plus(Plus(Plus(h, s1), c), Wide(k)), Wide(w));
    SmallSumIsExact(d, t1, 1, 5);
    SmallSumIsExact(s0, m, 1, 1);
    SmallSumIsExact(t1, Plus(s0, m), 5, 2);
  }

  /** The sums of one schedule word. */
  predicate NextWordIsExact(w2: bv64, w7: bv64, w15: bv64, w16: bv64) {
    && Exact(Ssig1(w2), w7)
    && Exact(Plus(Ssig1(w2), w7), Ssig0(w15))
    && Exact(Plus(Plus(Ssig1(w2), w7), Ssig0(w15)), w16)
  }

  lemma ScheduleSumsAreExact(w2: bv32, w7: bv32, w15: bv32, w16: bv32)
    ensures NextWordIsExact(Wide(w2), Wide(w7), Wide(w15), Wide(w16))
  {
    hide Wide, Plus, Below, Exact, Ssig0, Ssig1, SmallSigma0, SmallSigma1;
    Ssig1Refines(w2);
    Ssig0Refines(w15);
    WideIsBelow(SmallSigma1(w2));
    WideIsBelow(w7);
    WideIsBelow(SmallSigma0(w15));
    WideIsBelow(w16);
    SmallSumIsExact(Wide(SmallSigma1(w2)), Wide(w7), 1, 1);
    SmallSumIsExact(Plus(Wide(SmallSigma1(w2)), Wide(w7)), Wide(SmallSigma0(w15)), 2, 1);
    SmallSumIsExact(Plus(Plus(Wide(SmallSigma1(w2)), Wide(w7)), Wide(SmallSigma0(w15))), Wide(w16), 3, 1);
  }

  function NextWord(w2: bv64, w7: bv64, w15: bv64, w16: bv64): bv64 {
    Mask32(Plus(Plus(Plus(Ssig1(w2), w7), Ssig0(w15)), w16))
  }

  lemma NextWordRefines(w2: bv32, w7: bv32, w15: bv32, w16: bv32)
    ensures NextWord(Wide(w2), Wide(w7), Wide(w15), Wide(w16))
         == Wide(Add(Add(Add(SmallSigma1(w2), w7), SmallSigma0(w15)), w16))
  {
    Ssig1Refines(w2);
    Ssig0Refines(w15);
    var s1 := Plus(Wide(SmallSigma1(w2)), Wide(w7));
    var s2 := Plus(s1, Wide(SmallSigma0(w15)));
    LowPlus(Wide(SmallSigma1(w2)), Wide(w7));
    LowPlus(s1, Wide(SmallSigma0(w15)));
    LowWide(SmallSigma1(w2));
    LowWide(w7);
    LowWide(SmallSigma0(w15));
    LowWide(w16);
    MaskPlus(s2, Wide(w16), Low(s2), w16);
  }

  /** The eight 64-bit words hold the eight 32-bit words of a hash value. */
  ghost predicate Holds(s: seq<bv64>, v: Hash) {
    |s| == 8 && forall j | 0 <= j < 8 :: s[j] == Wide(v[j])
  }

  lemma RoundRefines(v: Chain, k: bv32, w: bv32)
    ensures var t1, t2 := WideT1(Wide(v.h), Wide(v.e), Wide(v.f), Wide(v.g), Wide(k), Wide(w)),
                          WideT2(Wide(v.a), Wide(v.b), Wide(v.c));
      var r := Round(v, k, w);
      Mask32(Plus(Wide(v.d), t1)) == Wide(r.e) && Mask32(Plus(t1, t2)) == Wide(r.a)
  {
    T1Refines(v, k, w);
    T2Refines(v);
    LowWide(v.d);
    var t1, t2 := WideT1(Wide(v.h), Wide(v.e), Wide(v.f), Wide(v.g), Wide(k), Wide(w)),
      WideT2(Wide(v.a), Wide(v.b), Wide(v.c));
    MaskPlus(Wide(v.d), t1, v.d, T1(v, k, w));
    MaskPlus(t1, t2, T1(v, k, w), T2(v));
  }

  lemma RoundShifts(v: Chain, k: bv32, w: bv32)
    ensures var r := Round(v, k, w); r.b == v.a && r.c == v.b && r.d == v.c && r.f == v.e && r.g == v.f && r.h == v.g
  {
  }

  const ADD_CONSTANT: seq<bv64> := seq(64, i requires 0 <= i < 64 => Wide(K[i]))

  lemma InitialWord(block: Block, i: nat)
    requires i < 16
    ensures WideWord(block[4 * i] as bv8, block[4 * i + 1] as bv8, block[4 * i + 2] as bv8, block[4 * i + 3] as bv8)
         == Wide(Schedule(block, i))
  {
    WordRefines(block[4 * i] as bv8, block[4 * i + 1] as bv8, block[4 * i + 2] as bv8, block[4 * i + 3] as bv8);
  }

  /** The sums of schedule word i, formed from the words before it. */
  predicate ScheduleIsExact(block: Block, i: nat)
    requires 16 <= i < 64
  {
    NextWordIsExact(Wide(Schedule(block, i - 2)), Wide(Schedule(block, i - 7)),
                    Wide(Schedule(block, i - 15)), Wide(Schedule(block, i - 16)))
  }

  lemma ExtendedWord(block: Block, i: nat)
    requires 16 <= i < 64
    ensures ScheduleIsExact(block, i)
    ensures NextWord(Wide(Schedule(block, i - 2)), Wide(Schedule(block, i - 7)),
                     Wide(Schedule(block, i - 15)), Wide(Schedule(block, i - 16))) == Wide(Schedule(block, i))
  {
    hide Wide, NextWord, NextWordIsExact;
    NextWordRefines(Schedule(block, i - 2), Schedule(block, i - 7), Schedule(block, i - 15), Schedule(block, i - 16));
    ScheduleSumsAreExact(Schedule(block, i - 2), Schedule(block, i - 7), Schedule(block, i - 15),
                         Schedule(block, i - 16));
  }

  /** The message schedule, first half of hash256_block; no sum in it overflows. */
  method Expand(block: Block, w: array<bv64>)
    requires w.Length == 64
    modifies w
    ensures forall j | 0 <= j < 64 :: w[j] == Wide(Schedule(block, j))
    ensures forall j | 16 <= j < 64 :: ScheduleIsExact(block, j)
  {
    hide Schedule, Wide, WideWord, NextWord, ScheduleIsExact;
    for i := 0 to 16
      invariant forall j | 0 <= j < i :: w[j] == Wide(Schedule(block, j))
    {
      InitialWord(block, i);
      w[i] := WideWord(block[4 * i] as bv8, block[4 * i + 1] as bv8, block[4 * i + 2] as bv8, block[4 * i + 3] as bv8);
    }
    for i := 16 to 64
      invariant forall j | 0 <= j < i :: w[j] == Wide(Schedule(block, j))
      invariant forall j | 16 <= j < i :: ScheduleIsExact(block, j)
    {
      ExtendedWord(block, i);
      w[i] := NextWord(w[i - 2], w[i - 7], w[i - 15], w[i - 16]);
    }
  }

  ghost predicate HoldsVariables(a: bv64, b: bv64, c: bv64, d: bv64, e: bv64, f: bv64, g: bv64, h: bv64, x: Chain) {
    && a == Wide(x.a) && b == Wide(x.b) && c == Wide(x.c) && d == Wide(x.d)
    && e == Wide(x.e) && f == Wide(x.f) && g == Wide(x.g) && h == Wide(x.h)
  }

  lemma ListHolds(a: bv64, b: bv64, c: bv64, d: bv64, e: bv64, f: bv64, g: bv64, h: bv64, x: Chain)
    requires HoldsVariables(a, b, c, d, e, f, g, h, x)
    ensures Holds([a, b, c, d, e, f, g, h], [x.a, x.b, x.c, x.d, x.e, x.f, x.g, x.h])
  {
  }

  /** The sums of round i, formed from the working variables before it. */
  predicate SumsAreExact(v: Hash, block: Block, i: nat)
    requires i < 64
  {
    var x := Rounds(Start(v), block, i);
    RoundIsExact(Wide(x.a), Wide(x.b), Wide(x.c), Wide(x.d), Wide(x.e), Wide(x.f), Wide(x.g), Wide(x.h),
                 Wide(K[i]), Wide(Schedule(block, i)))
  }

  lemma AllSumsAreExact(v: Hash, block: Block)
    ensures forall i | 0 <= i < 64 :: SumsAreExact(v, block, i)
  {
    forall i | 0 <= i < 64
      ensures SumsAreExact(v, block, i)
    {
      hide RoundIsExact, Rounds, Schedule;
      RoundSumsAreExact(Rounds(Start(v), block, i), K[i], Schedule(block, i));
    }
  }

  /** The 64 rounds, on eight local variables; no sum in them overflows. */
  method Mix(block: Block, w: array<bv64>, md: seq<bv64>, ghost v: Hash) returns (r: seq<bv64>)
    requires w.Length == 64 && forall j | 0 <= j < 64 :: w[j] == Wide(Schedule(block, j))
    requires Holds(md, v)
    ensures Holds(r, Mixed(v, block)) && forall j | 0 <= j < 64 :: SumsAreExact(v, block, j)
  {
    hide Wide, WideT1, WideT2, Mask32, Plus, Round, Schedule, SumsAreExact;
    var a, b, c, d, e, f, g, h := md[0], md[1], md[2], md[3], md[4], md[5], md[6], md[7];
    ghost var x := Start(v);
    AllSumsAreExact(v, block);
    for i := 0 to 64
      invariant x == Rounds(Start(v), block, i)
      invariant HoldsVariables(a, b, c, d, e, f, g, h, x)
    {
      RoundRefines(x, K[i], Schedule(block, i));
      RoundShifts(x, K[i], Schedule(block, i));
      var temp1 := WideT1(h, e, f, g, ADD_CONSTANT[i], w[i]);
      var temp2 := WideT2(a, b, c);
      h, g, f := g, f, e;
      e := Mask32(Plus(d, temp1));
      d, c, b := c, b, a;
      a := Mask32(Plus(temp1, temp2));
      x := Round(x, K[i], Schedule(block, i));
    }
    ListHolds(a, b, c, d, e, f, g, h, x);
    r := [a, b, c, d, e, f, g, h];
  }

  /** One word of the final addition. */
  lemma AddMaskRefines(x: bv32, y: bv32)
    ensures Mask32(Plus(Wide(x), Wide(y))) == Wide(Add(x, y))
  {
    LowWide(x);
    LowWide(y);
    MaskPlus(Wide(x), Wide(y), x, y);
  }

  lemma SumHolds(before: seq<bv64>, r: seq<bv64>, after: seq<bv64>, v: Hash, block: Block)
    requires Holds(before, v) && Holds(r, Mixed(v, block)) && |after| == 8
    requires forall j | 0 <= j < 8 :: after[j] == Mask32(Plus(before[j], r[j]))
    ensures Holds(after, Compress(v, block))
    ensures forall j | 0 <= j < 8 :: Below(before[j], 1) && Below(r[j], 1)
  {
    hide Mixed, Plus, Mask32, Wide, Below;
    forall j | 0 <= j < 8
      ensures Below(before[j], 1) && Below(r[j], 1)
    {
      WideIsBelow(v[j]);
      WideIsBelow(Mixed(v, block)[j]);
    }
    forall j | 0 <= j < 8
      ensures after[j] == Wide(Compress(v, block)[j])
    {
      AddMaskRefines(v[j], Mixed(v, block)[j]);
    }
  }

  method AddInto(md: array<bv64>, r: seq<bv64>)
    requires md.Length == 8 && |r| == 8
    modifies md
    ensures forall j | 0 <= j < 8 :: md[j] == Mask32(Plus(old(md[j]), r[j]))
    ensures forall j | 0 <= j < 8 :: Below(old(md[j]), 1) && Below(r[j], 1) ==> Exact(old(md[j]), r[j])
  {
    hide Below, Exact, Plus, Mask32;
    for i := 0 to 8
      invariant forall j | 0 <= j < 8 :: md[j] == if j < i then Plus(old(md[j]), r[j]) else old(md[j])
      invariant forall j | 0 <= j < i :: Below(old(md[j]), 1) && Below(r[j], 1) ==> Exact(old(md[j]), r[j])
    {
      if Below(md[i], 1) && Below(r[i], 1) {
        SmallSumIsExact(md[i], r[i], 1, 1);
      }
      md[i] := Plus(md[i], r[i]);
    }
    for i := 0 to 8
      invariant forall j | 0 <= j < 8 ::
                  md[j] == if j < i then Mask32(Plus(old(md[j]), r[j])) else Plus(old(md[j]), r[j])
    {
      md[i] := Mask32(md[i]);
    }
  }

  /** hash256_block: replaces the hash value by its compression with one block. */
  method HashBlock(md: array<bv64>, block: Block, ghost v: Hash)
    requires md.Length == 8 && Holds(md[..], v)
    modifies md
    ensures Holds(md[..], Compress(v, block))
  {
    hide Compress, Mixed, Wide, Mask32, Plus, Below, Exact, Schedule, SumsAreExact, ScheduleIsExact;
    var w := new bv64[64];
    Expand(block, w);
    var before := md[..];
    var r := Mix(block, w, before, v);
    AddInto(md, r);
    SumHolds(before, r, md[..], v, block);
    // The final addition did not overflow either.
    assert forall j | 0 <= j < 8 :: Exact(before[j], r[j]);
  }
}
