/** Machine words: the low 32 bits of a true count and what lies above them. */
module Words {

  const U32 := 0x1_0000_0000
  const U64 := 0x1_0000_0000_0000_0000

  type Word = n: nat | n < U32

  function Low(t: nat): Word {
    t % U32
  }

  function High(t: nat): nat {
    t / U32
  }

  lemma Halves(t: nat)
    ensures t == U32 * High(t) + Low(t)
  {
  }
}
