/** Chaining a step function over 64-byte blocks, whatever the step computes. */
module BlockChaining {
  import opened Bytes

  type Block = b: seq<Byte> | |b| == 64 witness seq(64, _ => 0)

  /** The chaining value after a whole number of blocks. */
  function Absorb<C>(step: (C, Block) -> C, v: C, bytes: seq<Byte>): C
    requires |bytes| % 64 == 0
    decreases |bytes|
  {
    if bytes == [] then v else Absorb(step, step(v, bytes[..64]), bytes[64..])
  }

  lemma {:induction false} AbsorbAppend<C>(step: (C, Block) -> C, v: C, a: seq<Byte>, b: seq<Byte>)
    requires |a| % 64 == 0 && |b| % 64 == 0
    ensures Absorb(step, v, a + b) == Absorb(step, Absorb(step, v, a), b)
    decreases |a|
  {
    if a == [] {
      assert a + b == b;
    } else {
      assert (a + b)[..64] == a[..64] && (a + b)[64..] == a[64..] + b;
      AbsorbAppend(step, step(v, a[..64]), a[64..], b);
    }
  }

  lemma AbsorbBlock<C>(step: (C, Block) -> C, v: C, done: seq<Byte>, block: Block)
    requires |done| % 64 == 0
    ensures Absorb(step, v, done + block) == step(Absorb(step, v, done), block)
  {
    AbsorbAppend(step, v, done, block);
    assert block[..64] == block && block[64..] == [];
  }
}
