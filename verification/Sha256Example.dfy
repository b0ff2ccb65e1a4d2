/**
 A known answer: the hash of "abc" as the standard gives it, with the schedule and the working
 variables on the way. It fixes byte order, rotations, constants and padding all at once.
 */
module Sha256Example {
  import opened BlockChaining
  import opened Bytes
  import opened Sha256Spec

  const ABC: seq<Byte> := [0x61, 0x62, 0x63]

  /** The one block of the padded message. */
  function AbcBlock(): Block {
    PaddedLength(3);
    ABC + Padding(3)
  }

  lemma {:induction false} Zeros(n: nat)
    ensures forall k | 0 <= k < n :: BigEndian(0, n)[k] == 0
  {
    if n > 0 {
      Zeros(n - 1);
    }
  }

  lemma BlockBytes()
    ensures AbcBlock()[..4] == [0x61, 0x62, 0x63, 0x80] && AbcBlock()[60..] == [0, 0, 0, 24]
    ensures forall k | 4 <= k < 60 :: AbcBlock()[k] == 0
  {
    PaddedLength(3);
    assert ZeroCount(3) == 52;
    assert BigEndian(24, 8) == BigEndian(0, 7) + [24];
    Zeros(7);
  }

  function Word(t: nat): bv32
    requires t < 64
  {
    Schedule(AbcBlock(), t)
  }

  /** Eight words of the schedule. */
  predicate Row(r: nat, w0: bv32, w1: bv32, w2: bv32, w3: bv32, w4: bv32, w5: bv32, w6: bv32, w7: bv32)
    requires r < 8
  {
    && Word(8 * r) == w0 && Word(8 * r + 1) == w1 && Word(8 * r + 2) == w2 && Word(8 * r + 3) == w3
    && Word(8 * r + 4) == w4 && Word(8 * r + 5) == w5 && Word(8 * r + 6) == w6 && Word(8 * r + 7) == w7
  }

  lemma FirstWords()
    ensures Word(0) == 0x61626380 && Word(15) == 24
    ensures forall t | 1 <= t < 15 :: Word(t) == 0
  {
    BlockBytes();
    var b := AbcBlock();
    assert b[0] == b[..4][0] && b[1] == b[..4][1] && b[2] == b[..4][2] && b[3] == b[..4][3];
    assert b[60] == b[60..][0] && b[61] == b[60..][1] && b[62] == b[60..][2] && b[63] == b[60..][3];
    hide AbcBlock;
  }

  function NextWord(w2: bv32, w7: bv32, w15: bv32, w16: bv32): bv32 {
    Add(Add(Add(SmallSigma1(w2), w7), SmallSigma0(w15)), w16)
  }

  lemma WordAfter(t: nat)
    requires 16 <= t < 64
    ensures Word(t) == NextWord(Word(t - 2), Word(t - 7), Word(t - 15), Word(t - 16))
  {
  }

  lemma NextRow(t: nat)
    requires 16 <= t <= 56
    ensures Word(t) == NextWord(Word(t - 2), Word(t - 7), Word(t - 15), Word(t - 16))
    ensures Word(t + 1) == NextWord(Word(t - 1), Word(t - 6), Word(t - 14), Word(t - 15))
    ensures Word(t + 2) == NextWord(Word(t), Word(t - 5), Word(t - 13), Word(t - 14))
    ensures Word(t + 3) == NextWord(Word(t + 1), Word(t - 4), Word(t - 12), Word(t - 13))
    ensures Word(t + 4) == NextWord(Word(t + 2), Word(t - 3), Word(t - 11), Word(t - 12))
    ensures Word(t + 5) == NextWord(Word(t + 3), Word(t - 2), Word(t - 10), Word(t - 11))
    ensures Word(t + 6) == NextWord(Word(t + 4), Word(t - 1), Word(t - 9), Word(t - 10))
    ensures Word(t + 7) == NextWord(Word(t + 5), Word(t), Word(t - 8), Word(t - 9))
  {
    hide Word;
    WordAfter(t);
    WordAfter(t + 1);
    WordAfter(t + 2);
    WordAfter(t + 3);
    WordAfter(t + 4);
    WordAfter(t + 5);
    WordAfter(t + 6);
    WordAfter(t + 7);
  }

  lemma Words2()
    ensures Row(2, 0x61626380, 0x000f0000, 0x7da86405, 0x600003c6, 0x3e9d7b78, 0x0183fc00, 0x12dcbfdb, 0xe2e2c38e)
  {
    hide Word;
    FirstWords();
    NextRow(16);
  }

  lemma Words3()
    ensures Row(3, 0xc8215c1a, 0xb73679a2, 0xe5bc3909, 0x32663c5b, 0x9d209d67, 0xec8726cb, 0x702138a4, 0xd3b7973b)
  {
    hide Word;
    FirstWords();
    Words2();
    NextRow(24);
  }

  lemma Words4()
    ensures Row(4, 0x93f5997f, 0x3b68ba73, 0xaff4ffc1, 0xf10a5c62, 0x0a8b3996, 0x72af830a, 0x9409e33e, 0x24641522)
  {
    hide Word;
    Words2();
    Words3();
    NextRow(32);
  }

  lemma Words5()
    ensures Row(5, 0x9f47bf94, 0xf0a64f5a, 0x3e246a79, 0x27333ba3, 0x0c4763f2, 0x840abf27, 0x7a290d5d, 0x065c43da)
  {
    hide Word;
    Words3();
    Words4();
    NextRow(40);
  }

  lemma Words6()
    ensures Row(6, 0xfb3e89cb, 0xcc7617db, 0xb9e66c34, 0xa9993667, 0x84badedd, 0xc21462bc, 0x1487472c, 0xb20f7a99)
  {
    hide Word;
    Words4();
    Words5();
    NextRow(48);
  }

  lemma Words7()
    ensures Row(7, 0xef57b9cd, 0xebe6b238, 0x9fe3095e, 0x78bc8d4b, 0xa43fcf15, 0x668b2ff8, 0xeeaba2cc, 0x12b1edeb)
  {
    hide Word;
    Words5();
    Words6();
    NextRow(56);
  }

  /** The working variables after t rounds. */
  function After(t: nat): Chain
    requires t <= 64
  {
    Rounds(Start(H0), AbcBlock(), t)
  }

  function Constant(t: nat): bv32
    requires t < 64
  {
    K[t]
  }

  function RowConstant(t: nat): bv32
    requires t < 64
  {
    match t / 8
    case 0 => K0[t]
    case 1 => K1[t - 8]
    case 2 => K2[t - 16]
    case 3 => K3[t - 24]
    case 4 => K4[t - 32]
    case 5 => K5[t - 40]
    case 6 => K6[t - 48]
    case _ => K7[t - 56]
  }

  lemma ConstantIs(t: nat)
    requires t < 64
    ensures Constant(t) == RowConstant(t)
  {
    match t / 8 case 0 => case 1 => case 2 => case 3 => case 4 => case 5 => case 6 => case _ =>
  }

  lemma RoundAfter(t: nat)
    requires t < 64
    ensures After(t + 1) == Round(After(t), Constant(t), Word(t))
  {
  }

  lemma FourRounds(t: nat)
    requires t <= 60
    ensures forall j | t <= j < t + 4 :: Constant(j) == RowConstant(j)
    ensures After(t + 1) == Round(After(t), Constant(t), Word(t))
    ensures After(t + 2) == Round(After(t + 1), Constant(t + 1), Word(t + 1))
    ensures After(t + 3) == Round(After(t + 2), Constant(t + 2), Word(t + 2))
    ensures After(t + 4) == Round(After(t + 3), Constant(t + 3), Word(t + 3))
  {
    RoundAfter(t);
    RoundAfter(t + 1);
    RoundAfter(t + 2);
    RoundAfter(t + 3);
    hide Word, After, Constant, RowConstant;
    forall j | t <= j < t + 4
      ensures Constant(j) == RowConstant(j)
    {
      ConstantIs(j);
    }
  }

  lemma FirstWords0()
    ensures Word(0) == 0x61626380 && Word(1) == 0 && Word(2) == 0 && Word(3) == 0
  {
    hide Word;
    FirstWords();
  }

  lemma FirstWords1()
    ensures Word(4) == 0 && Word(5) == 0 && Word(6) == 0 && Word(7) == 0
  {
    hide Word;
    FirstWords();
  }

  lemma FirstWords2()
    ensures Word(8) == 0 && Word(9) == 0 && Word(10) == 0 && Word(11) == 0
  {
    hide Word;
    FirstWords();
  }

  lemma FirstWords3()
    ensures Word(12) == 0 && Word(13) == 0 && Word(14) == 0 && Word(15) == 0x00000018
  {
    hide Word;
    FirstWords();
  }

  lemma Initially()
    ensures After(0)
      == Chain(0x6a09e667, 0xbb67ae85, 0x3c6ef372, 0xa54ff53a, 0x510e527f, 0x9b05688c, 0x1f83d9ab, 0x5be0cd19)
  {
  }

  lemma Rounds0()
    ensures After(4)
      == Chain(0xd550f666, 0xc8c347a7, 0x5a6ad9ad, 0x5d6aebcd, 0x24e00850, 0xf92939eb, 0x78ce7989, 0xfa2a4622)
  {
    hide Word, Constant, After;
    Initially();
    FirstWords0();
    FourRounds(0);
  }

  lemma Rounds1()
    ensures After(8)
      == Chain(0x85a07b5f, 0xe5030380, 0x2b4209f5, 0x04409a6a, 0x0c657a79, 0x9b27a401, 0x714260ad, 0x43ada245)
  {
    hide Word, Constant, After;
    Rounds0();
    FirstWords1();
    FourRounds(4);
    assert Round(Chain(0xd550f666, 0xc8c347a7, 0x5a6ad9ad, 0x5d6aebcd, 0x24e00850, 0xf92939eb, 0x78ce7989, 0xfa2a4622),
                 0x3956c25b, 0)
      == Chain(0x04409a6a, 0xd550f666, 0xc8c347a7, 0x5a6ad9ad, 0x43ada245, 0x24e00850, 0xf92939eb, 0x78ce7989);
    assert Round(Chain(0x04409a6a, 0xd550f666, 0xc8c347a7, 0x5a6ad9ad, 0x43ada245, 0x24e00850, 0xf92939eb, 0x78ce7989),
                 0x59f111f1, 0)
      == Chain(0x2b4209f5, 0x04409a6a, 0xd550f666, 0xc8c347a7, 0x714260ad, 0x43ada245, 0x24e00850, 0xf92939eb);
    assert Round(Chain(0x2b4209f5, 0x04409a6a, 0xd550f666, 0xc8c347a7, 0x714260ad, 0x43ada245, 0x24e00850, 0xf92939eb),
                 0x923f82a4, 0)
      == Chain(0xe5030380, 0x2b4209f5, 0x04409a6a, 0xd550f666, 0x9b27a401, 0x714260ad, 0x43ada245, 0x24e00850);
    assert Round(Chain(0xe5030380, 0x2b4209f5, 0x04409a6a, 0xd550f666, 0x9b27a401, 0x714260ad, 0x43ada245, 0x24e00850),
                 0xab1c5ed5, 0)
      == Chain(0x85a07b5f, 0xe5030380, 0x2b4209f5, 0x04409a6a, 0x0c657a79, 0x9b27a401, 0x714260ad, 0x43ada245);
  }

  lemma Rounds2()
    ensures After(12)
      == Chain(0xf71fc5a9, 0x4798a3f4, 0x8c87346b, 0x8e04ecb9, 0x816fd6e9, 0x436b23e8, 0x1cc92596, 0x32ca2d8c)
  {
    hide Word, Constant, After;
    Rounds1();
    FirstWords2();
    FourRounds(8);
  }

  lemma Rounds3()
    ensures After(16)
      == Chain(0xb0fa238e, 0xc0645fde, 0xd932eb16, 0x87912990, 0x07590dcd, 0x0b92f20c, 0x745a48de, 0x1e578218)
  {
    hide Word, Constant, After;
    Rounds2();
    FirstWords3();
    FourRounds(12);
  }

  lemma Rounds4()
    ensures After(20)
      == Chain(0xe1f20c33, 0xfe777bbf, 0xc2fbd9d1, 0x21da9a9b, 0xb0638179, 0xcc899961, 0x846ee454, 0x8034229c)
  {
    hide Word, Constant, After;
    Rounds3();
    Words2();
    FourRounds(16);
  }

  lemma Rounds5()
    ensures After(24)
      == Chain(0xc5d53d8d, 0xa7a3623f, 0xc2606d6d, 0x9dc68b63, 0xaa47c347, 0x49f5114a, 0xe1257970, 0x8ada8930)
  {
    hide Word, Constant, After;
    Rounds4();
    Words2();
    FourRounds(20);
  }

  lemma Rounds6()
    ensures After(28)
      == Chain(0x77d37528, 0xb62ec4bc, 0xcde8037d, 0x1c2c2838, 0xedffbff8, 0xc74c6516, 0x14383d8e, 0x2823ef91)
  {
    hide Word, Constant, After;
    Rounds5();
    Words3();
    FourRounds(24);
  }

  lemma Rounds7()
    ensures After(32)
      == Chain(0x73b33bf5, 0xea992a22, 0xa0060b30, 0x363482c9, 0xba591112, 0x0109ab3a, 0xade79437, 0x6112a3b7)
  {
    hide Word, Constant, After;
    Rounds6();
    Words3();
    FourRounds(28);
  }

  lemma Rounds8()
    ensures After(36)
      == Chain(0x65a0cfe4, 0xa9a7738c, 0xfe604df5, 0x98e12507, 0xf4b002d6, 0x085f3833, 0x59249dd3, 0x9cd9f5f6)
  {
    hide Word, Constant, After;
    Rounds7();
    Words4();
    FourRounds(32);
  }

  lemma Rounds9()
    ensures After(40)
      == Chain(0x79ea687a, 0x6dc57a8a, 0x34df1604, 0x41a65cb1, 0x1efbc0a0, 0xf0781bc8, 0xa507a53d, 0x0772a26b)
  {
    hide Word, Constant, After;
    Rounds8();
    Words4();
    FourRounds(36);
  }

  lemma Rounds10()
    ensures After(44)
      == Chain(0x9d4baf93, 0x17aa0dfe, 0xdf46652f, 0xd6670766, 0xfda24c2e, 0xdecd4715, 0x838b2711, 0x26352d63)
  {
    hide Word, Constant, After;
    Rounds9();
    Words5();
    FourRounds(40);
  }

  lemma Rounds11()
    ensures After(48)
      == Chain(0x4172328d, 0xa14c14b0, 0x72ab4b91, 0x26628815, 0xfecf0bc6, 0xd57b94a9, 0xb7755da1, 0xa80f11f0)
  {
    hide Word, Constant, After;
    Rounds10();
    Words5();
    FourRounds(44);
  }

  lemma Rounds12()
    ensures After(52)
      == Chain(0x886e7a22, 0x7a0508a1, 0xf11bfaa8, 0x05757ceb, 0x49231c1e, 0x52f1ccf7, 0x6e5c390c, 0xbd714038)
  {
    hide Word, Constant, After;
    Rounds11();
    Words6();
    FourRounds(48);
  }

  lemma Rounds13()
    ensures After(56)
      == Chain(0x38cc9913, 0x3ec45cdb, 0xf5702fdb, 0x101fd28f, 0x54cb266b, 0xe50e1b4f, 0x9f4787c3, 0x529e7d00)
  {
    hide Word, Constant, After;
    Rounds12();
    Words6();
    FourRounds(52);
  }

  lemma Rounds14()
    ensures After(60)
      == Chain(0xb6ae8fff, 0xffb70472, 0xc062d46f, 0xfcd1887b, 0xb21bad3d, 0x6d83bfc6, 0x7e44008e, 0x9b5e906c)
  {
    hide Word, Constant, After;
    Rounds13();
    Words7();
    FourRounds(56);
  }

  lemma Rounds15()
    ensures After(64)
      == Chain(0x506e3058, 0xd39a2165, 0x04d24d6c, 0xb85e2ce9, 0x5ef50f24, 0xfb121210, 0x948d25b6, 0x961f4894)
  {
    hide Word, Constant, After;
    Rounds14();
    Words7();
    FourRounds(60);
  }

  /** Adding the working variables to the initial hash value. */
  function Sum(r: Chain): Hash {
    [Add(H0[0], r.a), Add(H0[1], r.b), Add(H0[2], r.c), Add(H0[3], r.d),
     Add(H0[4], r.e), Add(H0[5], r.f), Add(H0[6], r.g), Add(H0[7], r.h)]
  }

  lemma OneBlock()
    ensures Sha256(ABC) == Sum(After(64))
  {
    hide Rounds, Add, Padding;
    PaddedLength(3);
    var b := AbcBlock();
    assert b[..64] == b && b[64..] == [];
    assert Compress(H0, b) == Sum(After(64));
  }

  /** The hash of "abc", the one-block example of the standard. */
  lemma HashOfAbc()
    ensures Sha256(ABC)
      == [0xba7816bf, 0x8f01cfea, 0x414140de, 0x5dae2223, 0xb00361a3, 0x96177a9c, 0xb410ff61, 0xf20015ad]
  {
    Rounds15();
    hide After;
    OneBlock();
  }
}
