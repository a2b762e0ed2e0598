/** Real products as atoms: the few facts about multiplication the proofs rest on. */
module Reals {

  /** Multiplication by name, so that proofs about sums can treat products as atoms. */
  function Mul(a: real, b: real): real {
    a * b
  }

  lemma MulAdd(a: real, x: real, y: real)
    ensures Mul(a, x + y) == Mul(a, x) + Mul(a, y)
    ensures Mul(x + y, a) == Mul(x, a) + Mul(y, a)
  {
  }

  lemma MulComm(a: real, b: real)
    ensures Mul(a, b) == Mul(b, a)
  {
  }

  lemma MulZero(a: real)
    ensures Mul(0.0, a) == 0.0 == Mul(a, 0.0)
  {
  }

  lemma MulOne(a: real)
    ensures Mul(1.0, a) == a
  {
  }

  lemma MulMove(a: real, b: real, x: real)
    ensures Mul(a, Mul(b, x)) == Mul(b, Mul(a, x)) == Mul(Mul(a, b), x)
  {
  }

  lemma MulMono(a: real, x: real, y: real)
    requires 0.0 <= a && x <= y
    ensures Mul(a, x) <= Mul(a, y) && Mul(x, a) <= Mul(y, a)
  {
  }

  lemma MulPositive(a: real, b: real)
    requires 0.0 <= a && 0.0 <= b
    ensures 0.0 <= Mul(a, b) && (0.0 < a && 0.0 < b ==> 0.0 < Mul(a, b))
  {
  }
}
