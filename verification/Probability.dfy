/** Events over a product space: the laws of probability used by every engine. */
module Probability {
  import opened Reals
  import opened Worlds

  // ----- Combinations of events -----

  function And(a: Event, b: Event): Event { w => a(w) && b(w) }
  function Or(a: Event, b: Event): Event { w => a(w) || b(w) }
  function Not(a: Event): Event { w => !a(w) }

  /** On possible worlds, e is decided by the variables vs alone. */
  ghost predicate DecidedBy(d: Space, e: Event, vs: set<nat>) {
    forall u, w {:trigger e(u), e(w)} ::
      Possible(d, u) && Possible(d, w) && Agree(u, w, vs) ==> e(u) == e(w)
  }

  lemma PrSame(d: Space, a: Event, b: Event)
    requires Weights(d)
    requires forall w :: Possible(d, w) ==> a(w) == b(w)
    ensures Pr(d, a) == Pr(d, b)
  {
    hide Ex;
    Same(d, Ind(a), Ind(b));
  }

  lemma PrMono(d: Space, a: Event, b: Event)
    requires Weights(d)
    requires forall w :: Possible(d, w) && a(w) ==> b(w)
    ensures Pr(d, a) <= Pr(d, b)
  {
    hide E;
    Mono(d, 0, 0, Ind(a), Ind(b), Base(d));
  }

  lemma PrSure(d: Space, a: Event)
    requires Prob(d)
    ensures (forall w :: Possible(d, w) ==> a(w)) ==> Pr(d, a) == 1.0
    ensures (forall w :: Possible(d, w) ==> !a(w)) ==> Pr(d, a) == 0.0
  {
    hide Ex;
    if forall w :: Possible(d, w) ==> a(w) { Const(d, 1.0, Ind(a)); }
    if forall w :: Possible(d, w) ==> !a(w) { Const(d, 0.0, Ind(a)); }
  }

  lemma PrBounds(d: Space, a: Event)
    requires Prob(d)
    ensures 0.0 <= Pr(d, a) <= 1.0
  {
    hide Pr;
    var never: Event, always: Event := _ => false, _ => true;
    PrSure(d, never);
    PrSure(d, always);
    PrMono(d, never, a);
    PrMono(d, a, always);
  }

  /** c is the disjoint union of a and b. */
  lemma PrSplit(d: Space, a: Event, b: Event, c: Event)
    requires Weights(d)
    requires forall w :: Possible(d, w) ==> c(w) == (a(w) || b(w)) && !(a(w) && b(w))
    ensures Pr(d, c) == Pr(d, a) + Pr(d, b)
  {
    hide Ex;
    Add(d, Ind(a), Ind(b), Ind(c));
  }

  lemma PrNot(d: Space, a: Event, b: Event)
    requires Prob(d)
    requires forall w :: Possible(d, w) ==> b(w) == !a(w)
    ensures Pr(d, b) == 1.0 - Pr(d, a)
  {
    hide Pr;
    var always: Event := _ => true;
    PrSure(d, always);
    PrSplit(d, a, b, always);
  }

  lemma PrAndNot(d: Space, a: Event, b: Event)
    requires Weights(d)
    ensures Pr(d, a) == Pr(d, And(a, b)) + Pr(d, And(a, Not(b)))
  {
    hide Pr;
    PrSplit(d, And(a, b), And(a, Not(b)), a);
  }

  /** Inclusion-exclusion for two events. */
  lemma PrOr(d: Space, a: Event, b: Event)
    requires Weights(d)
    ensures Pr(d, Or(a, b)) == Pr(d, a) + Pr(d, b) - Pr(d, And(a, b))
  {
    hide Pr;
    PrAndNot(d, b, a);
    PrSplit(d, a, And(b, Not(a)), Or(a, b));
    PrSame(d, And(b, a), And(a, b));
  }

  lemma PrIndep(d: Space, a: Event, vs: set<nat>, b: Event, us: set<nat>, c: Event)
    requires Prob(d)
    requires DecidedBy(d, a, vs) && DecidedBy(d, b, us) && vs !! us
    requires forall w :: Possible(d, w) ==> c(w) == (a(w) && b(w))
    ensures Pr(d, c) == Pr(d, a) * Pr(d, b)
  {
    hide Ex;
    DecidedDepends(d, a, vs);
    DecidedDepends(d, b, us);
    hide Depends;
    hide DecidedBy;
    Indep(d, Ind(a), vs, Ind(b), us, Ind(c));
  }

  lemma PrIndepMul(d: Space, a: Event, vs: set<nat>, b: Event, us: set<nat>, c: Event)
    requires Prob(d)
    requires DecidedBy(d, a, vs) && DecidedBy(d, b, us) && vs !! us
    requires forall w :: Possible(d, w) ==> c(w) == (a(w) && b(w))
    ensures Pr(d, c) == Mul(Pr(d, a), Pr(d, b))
  {
    hide Pr;
    hide DecidedBy;
    PrIndep(d, a, vs, b, us, c);
  }

  lemma DecidedDepends(d: Space, a: Event, vs: set<nat>)
    requires DecidedBy(d, a, vs)
    ensures Depends(d, Ind(a), vs)
  {
    forall u, w | Possible(d, u) && Possible(d, w) && Agree(u, w, vs)
      ensures Ind(a)(u) == Ind(a)(w)
    {
      assert a(u) == a(w);
    }
  }

  lemma DecidedMore(d: Space, e: Event, vs: set<nat>, us: set<nat>)
    requires DecidedBy(d, e, vs) && vs <= us
    ensures DecidedBy(d, e, us)
  {
  }

  lemma DecidedSame(d: Space, a: Event, b: Event, vs: set<nat>)
    requires DecidedBy(d, a, vs) && forall w :: a(w) == b(w)
    ensures DecidedBy(d, b, vs)
  {
  }

  lemma DecidedAnd(d: Space, a: Event, b: Event, vs: set<nat>)
    requires DecidedBy(d, a, vs) && DecidedBy(d, b, vs)
    ensures DecidedBy(d, And(a, b), vs) && DecidedBy(d, Or(a, b), vs) && DecidedBy(d, Not(a), vs)
  {
    forall u, w | Possible(d, u) && Possible(d, w) && Agree(u, w, vs)
      ensures And(a, b)(u) == And(a, b)(w) && Or(a, b)(u) == Or(a, b)(w) && Not(a)(u) == Not(a)(w)
    {
      assert a(u) == a(w) && b(u) == b(w);
    }
  }

  /** An event that holds in some possible world has positive probability. */
  lemma PositivePr(d: Space, e: Event, u: World)
    requires Weights(d) && Possible(d, u) && e(u)
    ensures Pr(d, e) > 0.0
  {
    assert Base(d)[..0] == u[..0];
    PositiveFrom(d, 0, 0, e, Base(d), u);
  }

  lemma {:induction false} PositiveFrom(d: Space, i: nat, j: nat, e: Event, w: World, u: World)
    requires Weights(d) && Possible(d, u) && e(u) && i <= |d| == |w| && w[..i] == u[..i]
    requires i < |d| ==> j <= u[i]
    ensures E(d, i, j, Ind(e), w) > 0.0
    decreases |d| - i, if i < |d| then |d[i]| - j else 0
  {
    if i == |d| {
      assert w == w[..i] && u == u[..i];
    } else {
      hide Mul;
      if j < u[i] {
        PositiveFrom(d, i, j + 1, e, w, u);
        NonNegative(d, i + 1, 0, e, w[i := j]);
        MulPositive(d[i][j], E(d, i + 1, 0, Ind(e), w[i := j]));
      } else {
        PositiveFrom(d, i + 1, 0, e, w[i := j], u);
        NonNegative(d, i, j + 1, e, w);
        MulPositive(d[i][j], E(d, i + 1, 0, Ind(e), w[i := j]));
      }
    }
  }

  lemma {:induction false} NonNegative(d: Space, i: nat, j: nat, e: Event, w: World)
    requires Weights(d) && i <= |d| == |w|
    ensures E(d, i, j, Ind(e), w) >= 0.0
    decreases |d| - i, if i < |d| then |d[i]| - j else 0
  {
    if i < |d| && j < |d[i]| {
      hide Mul;
      NonNegative(d, i, j + 1, e, w);
      NonNegative(d, i + 1, 0, e, w[i := j]);
      MulPositive(d[i][j], E(d, i + 1, 0, Ind(e), w[i := j]));
    }
  }

  // ----- Independent Boolean variables -----

  /** Marginals of independent Boolean variables; outcome 1 is true. */
  ghost predicate Unit(p: seq<real>) {
    forall v :: 0 <= v < |p| ==> 0.0 <= p[v] <= 1.0
  }

  function Bern(p: seq<real>): (d: Space)
    ensures |d| == |p| && forall v :: 0 <= v < |p| ==> d[v] == [1.0 - p[v], p[v]]
  {
    seq(|p|, v requires 0 <= v < |p| => [1.0 - p[v], p[v]])
  }

  predicate True(w: World, v: nat) {
    v < |w| && w[v] == 1
  }

  predicate AllTrue(w: World, vs: set<nat>) {
    forall v :: v in vs ==> True(w, v)
  }

  lemma BernProb(p: seq<real>)
    requires Unit(p)
    ensures Prob(Bern(p))
  {
    var d := Bern(p);
    forall v | 0 <= v < |d| ensures Total(d[v], 0) == 1.0 {
      assert Total(d[v], 2) == 0.0;
      assert Total(d[v], 1) == p[v];
    }
  }

  /** The probability of an event over independent Boolean variables. */
  ghost function P(p: seq<real>, e: Event): real {
    Pr(Bern(p), e)
  }

  lemma BernMix(p: seq<real>, x: nat)
    requires x < |p|
    ensures MixAt(Bern(p), x, p[x], Bern(p[x := 1.0]), 1.0 - p[x], Bern(p[x := 0.0]))
  {
    assert Bern(p[x := 1.0])[x] == [0.0, 1.0] && Bern(p[x := 0.0])[x] == [1.0, 0.0];
  }

  lemma MixBern(p: seq<real>, x: nat, e: Event)
    requires x < |p|
    ensures P(p, e) == Mul(p[x], P(p[x := 1.0], e)) + Mul(1.0 - p[x], P(p[x := 0.0], e))
  {
    BernMix(p, x);
    hide E;
    hide Mul;
    hide MixAt;
    Mix(Bern(p), 0, 0, x, p[x], Bern(p[x := 1.0]), 1.0 - p[x], Bern(p[x := 0.0]), Ind(e), Base(Bern(p)));
    assert Base(Bern(p)) == Base(Bern(p[x := 1.0])) == Base(Bern(p[x := 0.0]));
  }

  /** Shannon expansion on variable x. */
  lemma Shannon(p: seq<real>, x: nat, e: Event)
    requires x < |p|
    ensures P(p, e) == p[x] * P(p[x := 1.0], e) + (1.0 - p[x]) * P(p[x := 0.0], e)
  {
    hide P;
    MixBern(p, x, e);
  }

  /** A single variable is true with its own marginal. */
  lemma Marginal(p: seq<real>, x: nat)
    requires Unit(p) && x < |p|
    ensures P(p, w => True(w, x)) == p[x]
  {
    var e: Event := w => True(w, x);
    Shannon(p, x, e);
    BernProb(p[x := 1.0]);
    BernProb(p[x := 0.0]);
    forall w | Possible(Bern(p[x := 1.0]), w) ensures e(w) {
      assert Bern(p[x := 1.0])[x] == [0.0, 1.0];
    }
    forall w | Possible(Bern(p[x := 0.0]), w) ensures !e(w) {
      assert Bern(p[x := 0.0])[x] == [1.0, 0.0];
    }
    hide Pr;
    PrSure(Bern(p[x := 1.0]), e);
    PrSure(Bern(p[x := 0.0]), e);
  }

  /** The event that all the variables vs are true. */
  function Present(vs: set<nat>): Event {
    w => AllTrue(w, vs)
  }

  lemma DecidedTrue(d: Space, vs: set<nat>)
    ensures DecidedBy(d, Present(vs), vs)
  {
  }

  /** One more variable in a conjunction multiplies in its marginal. */
  lemma Conjunct(p: seq<real>, vs: set<nat>, x: nat)
    requires Unit(p) && x < |p| && x !in vs
    ensures P(p, Present(vs + {x})) == P(p, Present(vs)) * p[x]
  {
    BernProb(p);
    Marginal(p, x);
    DecidedTrue(Bern(p), vs);
    var e: Event := w => True(w, x);
    assert DecidedBy(Bern(p), e, {x});
    hide Pr;
    PrIndep(Bern(p), Present(vs), vs, e, {x}, Present(vs + {x}));
  }

  lemma NoConjunct(p: seq<real>)
    requires Unit(p)
    ensures P(p, Present({})) == 1.0
  {
    BernProb(p);
    hide Pr;
    PrSure(Bern(p), Present({}));
  }

  /** The running product over the leaves of a set. */
  method LeafProduct(p: seq<real>, vs: set<nat>) returns (q: real)
    requires Unit(p) && forall v :: v in vs ==> v < |p|
    ensures q == P(p, Present(vs))
  {
    q := 1.0;
    var rest := vs;
    NoConjunct(p);
    hide P;
    assert vs - rest == {};
    while rest != {}
      invariant rest <= vs && q == P(p, Present(vs - rest))
      decreases rest
    {
      var v :| v in rest;
      Conjunct(p, vs - rest, v);
      assert vs - (rest - {v}) == (vs - rest) + {v};
      q := q * p[v];
      rest := rest - {v};
    }
    assert vs - rest == vs;
  }

  /** e looks only at the truth of the variables vs. */
  ghost predicate ReadsOnly(e: Event, vs: set<nat>) {
    forall u, w {:trigger e(u), e(w)} :: (forall v :: v in vs ==> True(u, v) == True(w, v)) ==> e(u) == e(w)
  }

  lemma ReadsDepends(d: Space, d': Space, e: Event, vs: set<nat>)
    requires ReadsOnly(e, vs) && |d| == |d'|
    ensures DecidedBy(d, e, vs) && DependsAcross(d, d', Ind(e), vs)
  {
    forall u, w | |u| == |w| == |d| && Agree(u, w, vs) ensures e(u) == e(w) {
      forall v | v in vs ensures True(u, v) == True(w, v) {
      }
    }
  }

  /** The marginals of variables that e does not look at may change freely. */
  lemma PrTransfer(p: seq<real>, q: seq<real>, e: Event, vs: set<nat>)
    requires Unit(p) && Unit(q) && |p| == |q| && ReadsOnly(e, vs)
    requires forall v :: v in vs && v < |p| ==> p[v] == q[v]
    ensures P(p, e) == P(q, e)
  {
    var d, d' := Bern(p), Bern(q);
    BernProb(p);
    BernProb(q);
    ReadsDepends(d, d', e, vs);
    ReadsDepends(d', d, e, vs);
    DecidedDepends(d, e, vs);
    DecidedDepends(d', e, vs);
    hide Ex;
    hide ReadsOnly;
    hide DecidedBy;
    hide DependsAcross;
    hide Depends;
    Transfer(d, d', Ind(e), vs);
  }

  /** The event that the variable g is true, or that it is false. */
  function Flip(g: nat, b: bool): Event {
    w => True(w, g) == b
  }

  lemma FlipPr(p: seq<real>, g: nat, b: bool)
    requires Unit(p) && g < |p|
    ensures P(p, Flip(g, b)) == if b then p[g] else 1.0 - p[g]
    ensures DecidedBy(Bern(p), Flip(g, b), {g})
  {
    BernProb(p);
    Marginal(p, g);
    var e: Event := w => True(w, g);
    hide Pr;
    PrSame(Bern(p), e, Flip(g, true));
    PrNot(Bern(p), Flip(g, true), Flip(g, false));
  }
}
