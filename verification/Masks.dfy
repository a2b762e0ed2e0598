/** Bit masks as the enumeration loops use them, and sums over all masks of k bits. */
module Masks {

  function Pow2(k: nat): (n: nat)
    ensures n >= 1
  {
    if k == 0 then 1 else 2 * Pow2(k - 1)
  }

  /** Bit i of mask s. */
  predicate Bit(s: nat, i: nat) {
    if i == 0 then s % 2 == 1 else Bit(s / 2, i - 1)
  }

  lemma {:induction false} HighBitSplit(s: nat, k: nat, i: nat)
    requires s < Pow2(k) && i <= k
    ensures Bit(s + Pow2(k), i) == (i == k || Bit(s, i))
    ensures i == k ==> !Bit(s, i)
  {
    if i > 0 {
      assert Pow2(k) == 2 * Pow2(k - 1);
      assert (s + Pow2(k)) / 2 == s / 2 + Pow2(k - 1);
      HighBitSplit(s / 2, k - 1, i - 1);
    } else if k > 0 {
      assert Pow2(k) == 2 * Pow2(k - 1);
    }
  }

  /** The sum of f over the masks lo, lo + 1, ..., hi - 1. */
  ghost function MaskSum(f: nat -> real, lo: nat, hi: nat): real
    decreases hi - lo
  {
    if hi <= lo then 0.0 else MaskSum(f, lo, hi - 1) + f(hi - 1)
  }

  function Shifted(f: nat -> real, n: nat): nat -> real {
    (t: nat) => f(t + n)
  }

  lemma {:induction false} SumSame(f: nat -> real, g: nat -> real, lo: nat, hi: nat)
    requires forall t: nat :: lo <= t < hi ==> f(t) == g(t)
    ensures MaskSum(f, lo, hi) == MaskSum(g, lo, hi)
    decreases hi - lo
  {
    if lo < hi { SumSame(f, g, lo, hi - 1); }
  }

  lemma {:induction false} SumShift(f: nat -> real, n: nat, m: nat)
    ensures MaskSum(f, 0, n + m) == MaskSum(f, 0, n) + MaskSum(Shifted(f, n), 0, m)
  {
    if m > 0 { SumShift(f, n, m - 1); }
  }

  lemma {:induction false} SumFirst(f: nat -> real, hi: nat)
    requires hi > 0
    ensures MaskSum(f, 0, hi) == f(0) + MaskSum(f, 1, hi)
  {
    if hi > 1 { SumFirst(f, hi - 1); }
  }

  lemma {:induction false} SumNegated(f: nat -> real, g: nat -> real, lo: nat, hi: nat)
    requires forall t: nat :: lo <= t < hi ==> g(t) == -f(t)
    ensures MaskSum(g, lo, hi) == -MaskSum(f, lo, hi)
    decreases hi - lo
  {
    if lo < hi { SumNegated(f, g, lo, hi - 1); }
  }

  /** The masks of k + 1 bits are those without and those with bit k. */
  lemma SumTopBit(f: nat -> real, k: nat)
    ensures MaskSum(f, 0, Pow2(k + 1)) == MaskSum(f, 0, Pow2(k)) + MaskSum(Shifted(f, Pow2(k)), 0, Pow2(k))
  {
    SumShift(f, Pow2(k), Pow2(k));
  }
}
