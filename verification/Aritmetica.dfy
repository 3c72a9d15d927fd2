/** Positive integers, the second, and the two facts about products the proofs need. */
module Aritmetica {

  type Positivo = x: int | 1 <= x witness 1

  /** A second, in nanoseconds. */
  const SEGUNDO: Positivo := 1_000_000_000

  /** Multiplying by a non-negative number keeps the order. */
  lemma Crece(x: int, y: int, d: nat)
    requires x <= y
    ensures x * d <= y * d
  {
    assert (y - x) * d >= 0;
    assert (y - x) * d == y * d - x * d;
  }

  lemma Opuesto(x: int, y: int)
    ensures x * (-y) == -(x * y)
  {
  }
}
