/** Facts about sequences that the solver is slow to find inside larger proofs. */
module Sequences {

  lemma Assoc<T>(a: seq<T>, b: seq<T>, c: seq<T>)
    ensures a + b + c == a + (b + c)
  {
  }

  /** Cutting b anywhere does not change what follows a. */
  lemma CutAnywhere<T>(a: seq<T>, b: seq<T>, i: nat)
    requires i <= |b|
    ensures a + b[..i] + b[i..] == a + b
  {
  }

  lemma ExtendPrefix<T>(a: seq<T>, b: seq<T>, i: nat, j: nat)
    requires i <= j <= |b|
    ensures a + b[..i] + b[i..j] == a + b[..j]
  {
  }
}
