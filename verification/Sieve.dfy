/** Inclusion-exclusion over the clauses of a monotone DNF with overlapping supports. */
module Sieve {
  import opened Worlds
  import opened Probability
  import opened Masks
  import opened MonotoneDnf
  import opened Outcomes

  const MAX_CLAUSES := 24

  /** The union of the supports that mask s selects among the first k. */
  ghost function Chosen(supports: Clauses, s: nat, k: nat): set<nat>
    requires k <= |supports|
  {
    if k == 0 then {} else Chosen(supports, s, k - 1) + (if Bit(s, k - 1) then supports[k - 1] else {})
  }

  ghost function Bits(s: nat, k: nat): nat {
    if k == 0 then 0 else Bits(s, k - 1) + (if Bit(s, k - 1) then 1 else 0)
  }

  /** The signed probability that everything in base and in the selected supports is true. */
  ghost function Term(p: seq<real>, supports: Clauses, base: set<nat>, k: nat): nat -> real
    requires k <= |supports|
  {
    (s: nat) => Signed(Bits(s, k), P(p, Present(base + Chosen(supports, s, k))))
  }

  function Signed(bits: nat, x: real): real {
    if bits % 2 == 1 then -x else x
  }

  /** Everything in base is true, and no clause among the first k is. */
  ghost function Spared(supports: Clauses, base: set<nat>, k: nat): Event
    requires k <= |supports|
  {
    And(Present(base), Not(Satisfied(supports[..k])))
  }

  lemma {:induction false} HighMask(supports: Clauses, s: nat, k: nat, i: nat)
    requires s < Pow2(k) && i <= k < |supports|
    ensures Chosen(supports, s + Pow2(k), i) == Chosen(supports, s, i)
    ensures Bits(s + Pow2(k), i) == Bits(s, i)
  {
    if i > 0 {
      HighMask(supports, s, k, i - 1);
      HighBitSplit(s, k, i - 1);
    }
  }

  lemma TermLow(p: seq<real>, supports: Clauses, base: set<nat>, k: nat, s: nat)
    requires k < |supports| && s < Pow2(k)
    ensures Term(p, supports, base, k + 1)(s) == Term(p, supports, base, k)(s)
  {
    hide P;
    HighBitSplit(s, k, k);
    assert Chosen(supports, s, k + 1) == Chosen(supports, s, k);
  }

  lemma TermHigh(p: seq<real>, supports: Clauses, base: set<nat>, k: nat, s: nat)
    requires k < |supports| && s < Pow2(k)
    ensures Shifted(Term(p, supports, base, k + 1), Pow2(k))(s) == -Term(p, supports, base + supports[k], k)(s)
  {
    hide P;
    hide Present;
    hide Bit;
    hide Pow2;
    HighBitSplit(s, k, k);
    HighMask(supports, s, k, k);
    var t := s + Pow2(k);
    var vs := base + supports[k] + Chosen(supports, s, k);
    assert Chosen(supports, t, k + 1) == Chosen(supports, s, k) + supports[k];
    assert base + Chosen(supports, t, k + 1) == vs;
    assert Bits(t, k + 1) == Bits(s, k) + 1;
    assert Term(p, supports, base, k + 1)(t) == Signed(Bits(s, k) + 1, P(p, Present(vs)));
  }

  /** One more clause: its worlds are those spared before, less those where it holds too. */
  lemma SparedStep(p: seq<real>, supports: Clauses, base: set<nat>, k: nat)
    requires Unit(p) && k < |supports|
    ensures P(p, Spared(supports, base, k + 1)) == P(p, Spared(supports, base, k)) - P(p, Spared(supports, base + supports[k], k))
  {
    var d, c := Bern(p), supports[k];
    BernProb(p);
    var a, b := Spared(supports, base, k), Present(c);
    assert supports[..k + 1] == supports[..k] + [c];
    forall w ensures Spared(supports, base, k + 1)(w) == And(a, Not(b))(w) {
      DnfAppend(supports[..k], [c], w);
      assert [c][0] == c;
    }
    assert forall w :: AllTrue(w, base + c) == (AllTrue(w, base) && AllTrue(w, c));
    hide Pr;
    hide DnfTrue;
    PrAndNot(d, a, b);
    PrSame(d, Spared(supports, base + c, k), And(a, b));
    PrSame(d, Spared(supports, base, k + 1), And(a, Not(b)));
  }

  /** The signed sum over all masks of k bits is the probability that no clause holds. */
  lemma {:induction false} SignedSum(p: seq<real>, supports: Clauses, base: set<nat>, k: nat)
    requires Unit(p) && k <= |supports|
    ensures MaskSum(Term(p, supports, base, k), 0, Pow2(k)) == P(p, Spared(supports, base, k))
    decreases k
  {
    if k == 0 {
      SignedSumEmpty(p, supports, base);
    } else {
      hide P;
      hide MaskSum;
      SignedHalves(p, supports, base, k - 1);
      SignedSum(p, supports, base, k - 1);
      SignedSum(p, supports, base + supports[k - 1], k - 1);
      SparedStep(p, supports, base, k - 1);
    }
  }

  lemma SignedHalves(p: seq<real>, supports: Clauses, base: set<nat>, k: nat)
    requires Unit(p) && k < |supports|
    ensures MaskSum(Term(p, supports, base, k + 1), 0, Pow2(k + 1))
         == MaskSum(Term(p, supports, base, k), 0, Pow2(k)) - MaskSum(Term(p, supports, base + supports[k], k), 0, Pow2(k))
  {
    var f, n := Term(p, supports, base, k + 1), Pow2(k);
    var low, high := Term(p, supports, base, k), Term(p, supports, base + supports[k], k);
    SumTopBit(f, k);
    forall s: nat | s < n ensures f(s) == low(s) && Shifted(f, n)(s) == -high(s) {
      TermLow(p, supports, base, k, s);
      TermHigh(p, supports, base, k, s);
    }
    hide Term;
    hide Shifted;
    hide MaskSum;
    SumSame(f, low, 0, n);
    SumNegated(high, Shifted(f, n), 0, n);
  }

  lemma SignedSumEmpty(p: seq<real>, supports: Clauses, base: set<nat>)
    requires Unit(p)
    ensures MaskSum(Term(p, supports, base, 0), 0, Pow2(0)) == P(p, Spared(supports, base, 0))
  {
    BernProb(p);
    var f := Term(p, supports, base, 0);
    assert MaskSum(f, 0, 1) == MaskSum(f, 0, 0) + f(0);
    assert base + Chosen(supports, 0, 0) == base;
    hide Pr;
    PrSame(Bern(p), Present(base), Spared(supports, base, 0));
  }

  /** Inclusion-exclusion: the disjunction, as the signed sum over the non-empty clause sets. */
  lemma InclusionExclusion(p: seq<real>, supports: Clauses)
    requires Unit(p)
    ensures DnfPr(p, supports) == -MaskSum(Term(p, supports, {}, |supports|), 1, Pow2(|supports|))
  {
    var m := |supports|;
    var f := Term(p, supports, {}, m);
    SignedSum(p, supports, {}, m);
    SumFirst(f, Pow2(m));
    ZeroMask(supports, m);
    assert {} + Chosen(supports, 0, m) == {};
    assert f(0) == P(p, Present({}));
    NoConjunct(p);
    BernProb(p);
    assert supports[..m] == supports;
    hide Pr;
    PrNot(Bern(p), Satisfied(supports), Spared(supports, {}, m));
  }

  lemma {:induction false} ZeroMask(supports: Clauses, k: nat)
    requires k <= |supports|
    ensures Chosen(supports, 0, k) == {} && Bits(0, k) == 0
  {
    if k > 0 {
      ZeroMask(supports, k - 1);
      ZeroBit(k - 1);
    }
  }

  lemma {:induction false} ZeroBit(i: nat)
    ensures !Bit(0, i)
  {
    if i > 0 { ZeroBit(i - 1); }
  }

  /** The union of the supports in a mask, and how many there are. */
  method Gather(supports: Clauses, s: nat) returns (u: set<nat>, bits: nat)
    ensures u == Chosen(supports, s, |supports|) && bits == Bits(s, |supports|)
  {
    u, bits := {}, 0;
    for i := 0 to |supports|
      invariant u == Chosen(supports, s, i) && bits == Bits(s, i)
    {
      if Bit(s, i) {
        bits := bits + 1;
        u := u + supports[i];
      }
    }
  }

  lemma {:induction false} ChosenLeaves(p: seq<real>, supports: Clauses, s: nat, k: nat)
    requires LeavesOk(p, supports) && k <= |supports|
    ensures forall v :: v in Chosen(supports, s, k) ==> v < |p|
  {
    if k > 0 { ChosenLeaves(p, supports, s, k - 1); }
  }

  /** The exact probability of a disjunction of at most 24 conjunctions. */
  method SieveProbability(p: seq<real>, supports: Clauses) returns (res: Result<real>)
    requires LeavesOk(p, supports)
    ensures res.Success? <==> |supports| <= MAX_CLAUSES
    ensures res.Success? ==> res.value == DnfPr(p, supports)
  {
    var m := |supports|;
    if m == 0 {
      DnfEmpty(p);
      return Success(0.0);
    }
    if m > MAX_CLAUSES {
      return Failure("sieve: too many clauses");
    }
    var total := 0.0;
    var n := Pow2(m);
    ghost var f := Term(p, supports, {}, m);
    hide P;
    for s := 1 to n
      invariant total == -MaskSum(f, 1, s)
    {
      var u, bits := Gather(supports, s);
      ChosenLeaves(p, supports, s, m);
      var q := LeafProduct(p, u);
      assert {} + u == u;
      total := if bits % 2 == 1 then total + q else total - q;
    }
    InclusionExclusion(p, supports);
    return Success(total);
  }
}
