/** Independence bookkeeping for read-once evaluation: the space of a circuit with
    multivalued inputs, what the determinism and decomposability marks promise, and the
    algebra of independent events.  */
module ReadOnce {
  import opened Reals
  import opened Worlds
  import opened Probability
  import opened Categorical
  import opened BooleanCircuit

  // ----- The space and the marks -----

  /** Inputs are Boolean variables; a key variable has one outcome per alternative info. */
  ghost predicate IsSpaceOf(c: Circuit, d: Space) {
    && WellFormed(c) && Sized(c) && Prob(d) && |d| == |c.kind|
    && (forall g :: 0 <= g < |c.kind| && c.kind[g].InGate? ==> d[g] == [1.0 - c.prob[g], c.prob[g]])
    && (forall g :: 0 <= g < |c.kind| && c.kind[g].MulInGate? ==> IsAlternative(c, d, g))
  }

  ghost predicate IsAlternative(c: Circuit, d: Space, g: nat)
    requires WellFormed(c) && Sized(c) && |d| == |c.kind| && g < |c.kind| && c.kind[g].MulInGate?
  {
    var k := c.wires[g][0];
    && k < |c.kind| && c.kind[k].MulVarGate?
    && c.info[g] + 1 < |d[k]| && d[k][c.info[g] + 1] == c.prob[g]
  }

  const DNNF_CERT_INFO := 1

  predicate Certified(c: Circuit, g: nat)
    requires Sized(c) && g < |c.kind|
  {
    (c.kind[g] == AndGate || c.kind[g] == OrGate) && c.info[g] == DNNF_CERT_INFO
  }

  /** The children of g depend on pairwise disjoint variables. */
  ghost predicate Decomposable(c: Circuit, d: Space, g: nat)
    requires IsGate(c, g)
  {
    exists vs: seq<set<nat>> :: Splitting(c, d, g, vs)
  }

  ghost predicate Splitting(c: Circuit, d: Space, g: nat, vs: seq<set<nat>>)
    requires IsGate(c, g)
  {
    && |vs| == |c.wires[g]|
    && (forall i, j :: 0 <= i < j < |vs| ==> vs[i] !! vs[j])
    && (forall i :: 0 <= i < |vs| ==> DecidedBy(d, Holds(c, c.wires[g][i]), vs[i]))
  }

  /** In every possible world at most one child of g is true. */
  ghost predicate Deterministic(c: Circuit, d: Space, g: nat)
    requires IsGate(c, g)
  {
    forall w, i, j :: Possible(d, w) && 0 <= i < j < |c.wires[g]| ==> !(Eval(c, c.wires[g][i], w) && Eval(c, c.wires[g][j], w))
  }

  /** Every mark is true of its gate. */
  ghost predicate Truthful(c: Circuit, d: Space) {
    IsSpaceOf(c, d) && forall g: nat :: g < |c.kind| && Certified(c, g) ==> MarkHolds(c, d, g)
  }

  ghost predicate MarkHolds(c: Circuit, d: Space, g: nat)
    requires IsGate(c, g)
  {
    (c.kind[g] == AndGate ==> Decomposable(c, d, g)) && (c.kind[g] == OrGate ==> Deterministic(c, d, g))
  }

  /** x is the probability of e, and e is decided by the variables vs. */
  ghost predicate Known(d: Space, e: Event, x: real, vs: set<nat>) {
    x == Pr(d, e) && DecidedBy(d, e, vs)
  }

  lemma KnownMore(d: Space, e: Event, x: real, vs: set<nat>, us: set<nat>)
    requires Known(d, e, x, vs) && vs <= us
    ensures Known(d, e, x, us)
  {
    hide Pr;
    DecidedMore(d, e, vs, us);
  }

  lemma KnownSame(d: Space, a: Event, b: Event, x: real, vs: set<nat>)
    requires Weights(d) && Known(d, a, x, vs) && forall w :: a(w) == b(w)
    ensures Known(d, b, x, vs)
  {
    hide Pr;
    DecidedSame(d, a, b, vs);
    PrSame(d, a, b);
  }

  lemma KnownNot(d: Space, a: Event, b: Event, x: real, vs: set<nat>)
    requires Prob(d) && Known(d, a, x, vs) && forall w :: b(w) == !a(w)
    ensures Known(d, b, 1.0 - x, vs)
  {
    hide Pr;
    DecidedAnd(d, a, a, vs);
    DecidedSame(d, Not(a), b, vs);
    PrNot(d, a, b);
  }

  lemma KnownAnd(d: Space, a: Event, x: real, vs: set<nat>, b: Event, y: real, us: set<nat>, e: Event)
    requires Prob(d) && Known(d, a, x, vs) && Known(d, b, y, us) && vs !! us && forall w :: e(w) == (a(w) && b(w))
    ensures Known(d, e, Mul(x, y), vs + us)
  {
    hide Pr;
    hide Mul;
    PrIndepMul(d, a, vs, b, us, e);
    DecidedMore(d, a, vs, vs + us);
    DecidedMore(d, b, us, vs + us);
    DecidedAnd(d, a, b, vs + us);
    DecidedSame(d, And(a, b), e, vs + us);
  }

  /** A disjunction of events over the same variables, exclusive or redundant. */
  lemma KnownOr(d: Space, a: Event, x: real, b: Event, y: real, vs: set<nat>, e: Event)
    requires Weights(d) && Known(d, a, x, vs) && Known(d, b, y, vs) && forall w :: e(w) == (a(w) || b(w))
    ensures (forall w :: !(a(w) && b(w))) ==> Known(d, e, x + y, vs)
    ensures (forall w :: b(w) ==> a(w)) ==> Known(d, e, x, vs)
  {
    hide Pr;
    DecidedAnd(d, a, b, vs);
    DecidedSame(d, Or(a, b), e, vs);
    if forall w :: !(a(w) && b(w)) { PrSplit(d, a, b, e); }
    if forall w :: b(w) ==> a(w) { PrSame(d, a, e); }
  }

  lemma KnownSure(d: Space, e: Event, b: bool)
    requires Prob(d) && forall w :: Possible(d, w) ==> e(w) == b
    ensures Known(d, e, if b then 1.0 else 0.0, {})
  {
    hide Pr;
    PrSure(d, e);
  }

  /** An event decided by no variable is certain or impossible. */
  lemma ConstantKnown(d: Space, e: Event, x: real)
    requires Prob(d) && Known(d, e, x, {})
    ensures x == 0.0 || x == 1.0
  {
    var u := Complete(d, 0, Base(d));
    hide Pr;
    forall w | Possible(d, w) ensures e(w) == e(u) {
      assert Agree(w, u, {});
    }
    PrSure(d, e);
  }

  // ----- Leaves -----

  lemma InputKnown(c: Circuit, d: Space, g: nat)
    requires IsSpaceOf(c, d) && IsGate(c, g) && c.kind[g] == InGate
    ensures Known(d, Holds(c, g), c.prob[g], {g})
    ensures c.prob[g] == 0.0 || c.prob[g] == 1.0 ==> Known(d, Holds(c, g), c.prob[g], {})
  {
    var e := Holds(c, g);
    OutcomeDecided(d, g, 1);
    OutcomePr(d, g, 1);
    assert d[g] == [1.0 - c.prob[g], c.prob[g]];
    hide Pr;
    forall w ensures Categorical.Outcome(g, 1)(w) == e(w) {
      assert e(w) == Eval(c, g, w);
    }
    KnownSame(d, Categorical.Outcome(g, 1), e, c.prob[g], {g});
    if c.prob[g] == 0.0 || c.prob[g] == 1.0 {
      forall w | Possible(d, w) ensures e(w) == (c.prob[g] == 1.0) {
        assert e(w) == Eval(c, g, w);
        assert w[g] < |d[g]| && d[g][w[g]] > 0.0;
      }
      KnownSure(d, e, c.prob[g] == 1.0);
    }
  }

  lemma AlternativeKnown(c: Circuit, d: Space, g: nat)
    requires IsSpaceOf(c, d) && IsGate(c, g) && c.kind[g] == MulInGate
    ensures c.wires[g][0] < |c.kind| && c.kind[c.wires[g][0]] == MulVarGate
    ensures Known(d, Holds(c, g), c.prob[g], {c.wires[g][0]})
  {
    assert IsAlternative(c, d, g);
    var e, k, o := Holds(c, g), c.wires[g][0], c.info[g] + 1;
    OutcomeDecided(d, k, o);
    OutcomePr(d, k, o);
    hide Pr;
    forall w ensures Categorical.Outcome(k, o)(w) == e(w) {
      assert e(w) == Eval(c, g, w);
    }
    KnownSame(d, Categorical.Outcome(k, o), e, c.prob[g], {k});
  }

  lemma NegationKnown(c: Circuit, d: Space, g: nat, x: real, vs: set<nat>)
    requires IsSpaceOf(c, d) && IsGate(c, g) && c.kind[g] == NotGate && IsGate(c, c.wires[g][0])
    requires Known(d, Holds(c, c.wires[g][0]), x, vs)
    ensures Known(d, Holds(c, g), 1.0 - x, vs)
  {
    hide Pr;
    forall w ensures Holds(c, g)(w) == !Holds(c, c.wires[g][0])(w) {
      assert Holds(c, g)(w) == Eval(c, g, w);
    }
    KnownNot(d, Holds(c, c.wires[g][0]), Holds(c, g), x, vs);
  }
}
