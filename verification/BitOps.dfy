/** Shifts and "|" of natural numbers: what a shift, an or and a mask do to the bits of a word. */
module BitOps {

  function Pow2(k: nat): nat {
    if k == 0 then 1 else 2 * Pow2(k - 1)
  }

  /** a << k */
  function Shl(a: nat, k: nat): nat {
    if k == 0 then a else 2 * Shl(a, k - 1)
  }

  /** a >> k */
  function Shr(a: nat, k: nat): nat {
    if k == 0 then a else Shr(a / 2, k - 1)
  }

  /** The k lowest bits of a. */
  function Lowest(a: nat, k: nat): nat {
    if k == 0 then 0 else 2 * Lowest(a / 2, k - 1) + a % 2
  }

  /** a | b, bit by bit from the lowest. */
  function Or(a: nat, b: nat): nat
    decreases a
  {
    if a == 0 then b else 2 * Or(a / 2, b / 2) + if a % 2 == 1 || b % 2 == 1 then 1 else 0
  }

  lemma OrHalves(a: nat, b: nat)
    ensures Or(a, b) / 2 == Or(a / 2, b / 2)
    ensures Or(a, b) % 2 == 1 <==> a % 2 == 1 || b % 2 == 1
  {
  }

  lemma {:induction false} OrZero(a: nat)
    ensures Or(a, 0) == a
    decreases a
  {
    if a > 0 {
      OrZero(a / 2);
    }
  }

  lemma {:induction false} OrIsZero(a: nat, b: nat)
    ensures Or(a, b) == 0 <==> a == 0 && b == 0
    decreases a
  {
    if a > 0 {
      OrIsZero(a / 2, b / 2);
    }
  }

  lemma {:induction false} OrAssociates(a: nat, b: nat, c: nat)
    ensures Or(Or(a, b), c) == Or(a, Or(b, c))
    decreases a
  {
    if a > 0 {
      OrAssociates(a / 2, b / 2, c / 2);
      OrHalves(a, b);
      OrHalves(b, c);
    }
  }

  /** Or-ing b into a << k: the k lowest bits are those of b, the rest of b goes into a. */
  lemma {:induction false} OrShifted(a: nat, k: nat, b: nat)
    ensures Or(Shl(a, k), b) == Shl(Or(a, Shr(b, k)), k) + Lowest(b, k)
    decreases k
  {
    if k > 0 {
      OrShifted(a, k - 1, b / 2);
      OrHalves(Shl(a, k), b);
    }
  }

  lemma {:induction false} NothingAbove(b: nat, k: nat)
    requires b < Pow2(k)
    ensures Shr(b, k) == 0 && Lowest(b, k) == b
    decreases k
  {
    if k > 0 {
      NothingAbove(b / 2, k - 1);
    }
  }

  /** Bits that do not meet are added. */
  lemma OrIsSum(a: nat, k: nat, b: nat)
    requires b < Pow2(k)
    ensures Or(Shl(a, k), b) == Shl(a, k) + b
  {
    OrShifted(a, k, b);
    NothingAbove(b, k);
    OrZero(a);
  }

  lemma {:induction false} OrFits(a: nat, b: nat, k: nat)
    ensures Or(a, b) < Pow2(k) <==> a < Pow2(k) && b < Pow2(k)
    decreases k
  {
    if k == 0 {
      OrIsZero(a, b);
    } else {
      OrFits(a / 2, b / 2, k - 1);
      OrHalves(a, b);
    }
  }

  lemma {:induction false} ShlFits(a: nat, k: nat, m: nat)
    ensures Shl(a, k) < Pow2(k + m) <==> a < Pow2(m)
    decreases k
  {
    if k > 0 {
      ShlFits(a, k - 1, m);
    }
  }

  lemma ShlZero(k: nat)
    ensures Shl(0, k) == 0
  {
  }

  lemma Powers()
    ensures Pow2(7) == 128 && Pow2(10) == 1024 && Pow2(12) == 4096 && Pow2(16) == 65536 && Pow2(32) == 0x1_0000_0000
  {
    assert Pow2(3) == 8;
    assert Pow2(6) == 64;
    assert Pow2(9) == 512;
    assert Pow2(14) == 16384;
    assert Pow2(18) == 0x4_0000;
    assert Pow2(20) == 0x10_0000;
    assert Pow2(22) == 0x40_0000;
    assert Pow2(24) == 0x100_0000;
    assert Pow2(26) == 0x400_0000;
    assert Pow2(28) == 0x1000_0000;
    assert Pow2(30) == 0x4000_0000;
  }
}
