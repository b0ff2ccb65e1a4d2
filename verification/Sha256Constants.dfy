/**
 Where the constants of SHA-256 come from: the first 32 bits of the fractional parts of the cube
 roots of the first 64 primes, and of the square roots of the first 8 (sections 4.2.2 and 5.3.3 of
 FIPS 180-4).
 */
module Sha256Constants {
  import opened Sha256Spec

  // The first 64 primes, each with the whole part of its cube root.

  const ROOTS0: seq<(nat, nat)> := [(2, 1), (3, 1), (5, 1), (7, 1), (11, 2), (13, 2), (17, 2), (19, 2)]
  const ROOTS1: seq<(nat, nat)> := [(23, 2), (29, 3), (31, 3), (37, 3), (41, 3), (43, 3), (47, 3), (53, 3)]
  const ROOTS2: seq<(nat, nat)> := [(59, 3), (61, 3), (67, 4), (71, 4), (73, 4), (79, 4), (83, 4), (89, 4)]
  const ROOTS3: seq<(nat, nat)> := [(97, 4), (101, 4), (103, 4), (107, 4), (109, 4), (113, 4), (127, 5), (131, 5)]
  const ROOTS4: seq<(nat, nat)> := [(137, 5), (139, 5), (149, 5), (151, 5), (157, 5), (163, 5), (167, 5), (173, 5)]
  const ROOTS5: seq<(nat, nat)> := [(179, 5), (181, 5), (191, 5), (193, 5), (197, 5), (199, 5), (211, 5), (223, 6)]
  const ROOTS6: seq<(nat, nat)> := [(227, 6), (229, 6), (233, 6), (239, 6), (241, 6), (251, 6), (257, 6), (263, 6)]
  const ROOTS7: seq<(nat, nat)> := [(269, 6), (271, 6), (277, 6), (281, 6), (283, 6), (293, 6), (307, 6), (311, 6)]

  const ROOTS: seq<(nat, nat)> := ROOTS0 + ROOTS1 + ROOTS2 + ROOTS3 + ROOTS4 + ROOTS5 + ROOTS6 + ROOTS7

  /** The first 8 primes, each with the whole part of its square root. */
  const SQUARE_ROOTS: seq<(nat, nat)> := [(2, 1), (3, 1), (5, 2), (7, 2), (11, 3), (13, 3), (17, 4), (19, 4)]

  /** whole + k / 2^32 is the cube root of p, cut off after 32 binary places. */
  predicate CubeRoot(p: nat, whole: nat, k: bv32) {
    var n := whole * 0x1_0000_0000 + k as nat;
    n * n * n <= p * 0x1_0000_0000_0000_0000_0000_0000 < (n + 1) * (n + 1) * (n + 1)
  }

  predicate SquareRoot(p: nat, whole: nat, k: bv32) {
    var n := whole * 0x1_0000_0000 + k as nat;
    n * n <= p * 0x1_0000_0000_0000_0000 < (n + 1) * (n + 1)
  }

  lemma CubeRoots0(i: nat)
    requires i < 8
    ensures CubeRoot(ROOTS0[i].0, ROOTS0[i].1, K0[i])
  {
  }

  lemma CubeRoots1(i: nat)
    requires i < 8
    ensures CubeRoot(ROOTS1[i].0, ROOTS1[i].1, K1[i])
  {
  }

  lemma CubeRoots2(i: nat)
    requires i < 8
    ensures CubeRoot(ROOTS2[i].0, ROOTS2[i].1, K2[i])
  {
  }

  lemma CubeRoots3(i: nat)
    requires i < 8
    ensures CubeRoot(ROOTS3[i].0, ROOTS3[i].1, K3[i])
  {
  }

  lemma CubeRoots4(i: nat)
    requires i < 8
    ensures CubeRoot(ROOTS4[i].0, ROOTS4[i].1, K4[i])
  {
  }

  lemma CubeRoots5(i: nat)
    requires i < 8
    ensures CubeRoot(ROOTS5[i].0, ROOTS5[i].1, K5[i])
  {
  }

  lemma CubeRoots6(i: nat)
    requires i < 8
    ensures CubeRoot(ROOTS6[i].0, ROOTS6[i].1, K6[i])
  {
  }

  lemma CubeRoots7(i: nat)
    requires i < 8
    ensures CubeRoot(ROOTS7[i].0, ROOTS7[i].1, K7[i])
  {
  }

  /** The round constants. */
  lemma RoundConstantsAreCubeRoots()
    ensures |K| == |ROOTS| == 64 && forall i | 0 <= i < 64 :: CubeRoot(ROOTS[i].0, ROOTS[i].1, K[i])
  {
    hide CubeRoot;
    forall i | 0 <= i < 64
      ensures CubeRoot(ROOTS[i].0, ROOTS[i].1, K[i])
    {
      match i / 8
      case 0 => CubeRoots0(i);
      case 1 => CubeRoots1(i - 8);
      case 2 => CubeRoots2(i - 16);
      case 3 => CubeRoots3(i - 24);
      case 4 => CubeRoots4(i - 32);
      case 5 => CubeRoots5(i - 40);
      case 6 => CubeRoots6(i - 48);
      case 7 => CubeRoots7(i - 56);
    }
  }

  /** The initial hash value. */
  lemma InitialHashIsSquareRoots()
    ensures forall i | 0 <= i < 8 :: SquareRoot(SQUARE_ROOTS[i].0, SQUARE_ROOTS[i].1, H0[i])
    ensures forall i | 0 <= i < 8 :: SQUARE_ROOTS[i].0 == ROOTS[i].0
  {
  }

  // The listed numbers are the first 64 primes, in order.

  predicate Prime(n: nat) {
    n >= 2 && forall d | 2 <= d < n :: n % d != 0
  }

  /** The smallest divisor of n among the primes below 18, or n itself. */
  function Divisor(n: nat): nat {
    if n % 2 == 0 then 2 else if n % 3 == 0 then 3 else if n % 5 == 0 then 5 else if n % 7 == 0 then 7
    else if n % 11 == 0 then 11 else if n % 13 == 0 then 13 else if n % 17 == 0 then 17 else n
  }

  predicate Sieved(n: nat) {
    n >= 2 && Divisor(n) == n
  }

  lemma Quotient(n: nat, d: nat)
    requires 2 <= d < n && n % d == 0
    ensures n == n / d * d && 2 <= n / d < n
  {
    assert n / d * d >= n / d * 2;
  }

  lemma Monotone(a: nat, b: nat, p: nat)
    ensures a <= b ==> a * p <= b * p
  {
  }

  lemma Divides(n: nat, x: nat, p: nat)
    requires p > 0 && n == x * p
    ensures n % p == 0
  {
    var q := n / p;
    assert n == q * p + n % p;
    Monotone(q + 1, x, p);
    Monotone(x + 1, q, p);
  }

  lemma Multiple(n: nat, x: nat, p: nat)
    requires p in {2, 3, 5, 7, 11, 13, 17} && n == x * p && p < n
    ensures !Sieved(n)
  {
    Divides(n, x, p);
  }

  lemma Regroup(q: nat, m: nat, p: nat)
    ensures q * (m * p) == q * m * p
  {
  }

  /** A proper divisor below 18 is found by the sieve: one of its prime factors divides n as well. */
  lemma FactorIsSieved(n: nat, q: nat, d: nat)
    requires n == q * d && 2 <= d < 18 && d < n
    ensures !Sieved(n)
  {
    hide Sieved;
    var p := if d % 2 == 0 then 2 else if d % 3 == 0 then 3 else if d % 5 == 0 then 5 else d;
    var m := if d % 2 == 0 then d / 2 else if d % 3 == 0 then d / 3 else if d % 5 == 0 then d / 5 else 1;
    assert d == m * p;
    Regroup(q, m, p);
    Multiple(n, q * m, p);
  }

  /** The smaller of two factors of a number below 18 * 18 is below 18. */
  lemma SmallFactor(n: nat, q: nat, d: nat)
    requires n == q * d && n < 324
    ensures q < 18 || d < 18
  {
  }

  lemma CompositeIsSieved(n: nat, d: nat)
    requires 2 <= d < n < 324 && n % d == 0
    ensures !Sieved(n)
  {
    hide Sieved;
    var q := n / d;
    Quotient(n, d);
    SmallFactor(n, q, d);
    if d < 18 {
      FactorIsSieved(n, q, d);
    } else {
      FactorIsSieved(n, d, q);
    }
  }

  lemma PrimeIsSieved(n: nat)
    requires Prime(n)
    ensures Sieved(n)
  {
  }

  lemma SievedIsPrime(n: nat)
    requires n < 324
    ensures Sieved(n) <==> Prime(n)
  {
    hide Sieved;
    if Prime(n) {
      PrimeIsSieved(n);
    } else if n >= 2 {
      var d :| 2 <= d < n && n % d == 0;
      CompositeIsSieved(n, d);
    } else {
      NotSieved(n);
    }
  }

  lemma NotSieved(n: nat)
    requires n < 2
    ensures !Sieved(n)
  {
  }

  /** No number from p on up to q passes the sieve, but q does. */
  predicate Gap(p: nat, q: nat)
    requires p <= q
    decreases q - p
  {
    if p == q then Sieved(q) else !Sieved(p) && Gap(p + 1, q)
  }

  /** q is the next prime after p. */
  predicate NextPrime(p: nat, q: nat) {
    p < q && Prime(q) && forall n | p < n < q :: !Prime(n)
  }

  lemma {:induction false} GapIsPrime(p: nat, q: nat)
    requires p <= q < 324 && Gap(p, q)
    ensures Prime(q) && forall n | p <= n < q :: !Prime(n)
    decreases q - p
  {
    hide Sieved, Prime;
    SievedIsPrime(p);
    if p < q {
      GapIsPrime(p + 1, q);
    }
  }

  /** The number before entry i. */
  function Before(first: nat, roots: seq<(nat, nat)>, i: nat): nat
    requires i <= |roots|
  {
    if i == 0 then first else roots[i - 1].0
  }

  predicate Gaps(first: nat, roots: seq<(nat, nat)>) {
    forall i | 0 <= i < |roots| ::
      Before(first, roots, i) < roots[i].0 < 324 && Gap(Before(first, roots, i) + 1, roots[i].0)
  }

  lemma BeforeAppend(first: nat, a: seq<(nat, nat)>, b: seq<(nat, nat)>, i: nat)
    requires a != [] && i < |a + b|
    ensures Before(first, a + b, i) == if i < |a| then Before(first, a, i) else Before(a[|a| - 1].0, b, i - |a|)
  {
  }

  lemma GapsAppend(first: nat, a: seq<(nat, nat)>, b: seq<(nat, nat)>)
    requires a != [] && Gaps(first, a) && Gaps(a[|a| - 1].0, b)
    ensures Gaps(first, a + b)
  {
    hide Gap, Before;
    forall i | 0 <= i < |a + b|
      ensures Before(first, a + b, i) < (a + b)[i].0 < 324 && Gap(Before(first, a + b, i) + 1, (a + b)[i].0)
    {
      BeforeAppend(first, a, b, i);
    }
  }

  lemma Sieve0()
    ensures Gap(1, 2) && Gap(3, 3) && Gap(4, 5) && Gap(6, 7)
    ensures Gap(8, 11) && Gap(12, 13) && Gap(14, 17) && Gap(18, 19)
    ensures Gap(20, 23) && Gap(24, 29) && Gap(30, 31) && Gap(32, 37)
    ensures Gap(38, 41) && Gap(42, 43) && Gap(44, 47) && Gap(48, 53)
  {
  }

  lemma Gaps0()
    ensures Gaps(0, ROOTS0) && Gaps(19, ROOTS1)
  {
    hide Gap;
    Sieve0();
  }

  lemma Sieve1()
    ensures Gap(54, 59) && Gap(60, 61) && Gap(62, 67) && Gap(68, 71)
    ensures Gap(72, 73) && Gap(74, 79) && Gap(80, 83) && Gap(84, 89)
    ensures Gap(90, 97) && Gap(98, 101) && Gap(102, 103) && Gap(104, 107)
    ensures Gap(108, 109) && Gap(110, 113) && Gap(114, 127) && Gap(128, 131)
  {
  }

  lemma Gaps1()
    ensures Gaps(53, ROOTS2) && Gaps(89, ROOTS3)
  {
    hide Gap;
    Sieve1();
  }

  lemma Sieve2()
    ensures Gap(132, 137) && Gap(138, 139) && Gap(140, 149) && Gap(150, 151)
    ensures Gap(152, 157) && Gap(158, 163) && Gap(164, 167) && Gap(168, 173)
    ensures Gap(174, 179) && Gap(180, 181) && Gap(182, 191) && Gap(192, 193)
    ensures Gap(194, 197) && Gap(198, 199) && Gap(200, 211) && Gap(212, 223)
  {
  }

  lemma Gaps2()
    ensures Gaps(131, ROOTS4) && Gaps(173, ROOTS5)
  {
    hide Gap;
    Sieve2();
  }

  lemma Sieve3()
    ensures Gap(224, 227) && Gap(228, 229) && Gap(230, 233) && Gap(234, 239)
    ensures Gap(240, 241) && Gap(242, 251) && Gap(252, 257) && Gap(258, 263)
    ensures Gap(264, 269) && Gap(270, 271) && Gap(272, 277) && Gap(278, 281)
    ensures Gap(282, 283) && Gap(284, 293) && Gap(294, 307) && Gap(308, 311)
  {
  }

  lemma Gaps3()
    ensures Gaps(223, ROOTS6) && Gaps(263, ROOTS7)
  {
    hide Gap;
    Sieve3();
  }

  lemma AllGaps()
    ensures |ROOTS| == 64 && Gaps(0, ROOTS)
  {
    hide Gaps;
    Gaps0();
    Gaps1();
    Gaps2();
    Gaps3();
    GapsAppend(0, ROOTS0, ROOTS1);
    GapsAppend(0, ROOTS0 + ROOTS1, ROOTS2);
    GapsAppend(0, ROOTS0 + ROOTS1 + ROOTS2, ROOTS3);
    GapsAppend(0, ROOTS0 + ROOTS1 + ROOTS2 + ROOTS3, ROOTS4);
    GapsAppend(0, ROOTS0 + ROOTS1 + ROOTS2 + ROOTS3 + ROOTS4, ROOTS5);
    GapsAppend(0, ROOTS0 + ROOTS1 + ROOTS2 + ROOTS3 + ROOTS4 + ROOTS5, ROOTS6);
    GapsAppend(0, ROOTS0 + ROOTS1 + ROOTS2 + ROOTS3 + ROOTS4 + ROOTS5 + ROOTS6, ROOTS7);
  }

  /** Each listed number is the next prime after the one before it, from the first prime on. */
  lemma RootsAreOfTheFirstPrimes()
    ensures |ROOTS| == 64 && forall i | 0 <= i < 64 :: NextPrime(Before(0, ROOTS, i), ROOTS[i].0)
  {
    AllGaps();
    hide Gap, Prime, Sieved, Before;
    forall i | 0 <= i < 64
      ensures NextPrime(Before(0, ROOTS, i), ROOTS[i].0)
    {
      GapIsPrime(Before(0, ROOTS, i) + 1, ROOTS[i].0);
    }
  }
}
