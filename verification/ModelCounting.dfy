/** The weighted model count of a circuit's clauses is the circuit's probability. */
module ModelCounting {
  import opened Outcomes
  import opened Reals
  import opened Worlds
  import opened Probability
  import opened BooleanCircuit
  import opened Tseytin

  // ----- The runs of a circuit -----

  /** The value the leaves force on gate g: a leaf is any gate without clauses of its own. */
  ghost function Forced(c: Circuit, g: nat, w: World): bool
    requires IsGate(c, g)
    decreases c.rank[g]
  {
    match c.kind[g]
    case NotGate => !Forced(c, c.wires[g][0], w)
    case AndGate => forall k :: 0 <= k < |c.wires[g]| ==> Forced(c, c.wires[g][k], w)
    case OrGate => exists k :: 0 <= k < |c.wires[g]| && Forced(c, c.wires[g][k], w)
    case _ => True(w, g)
  }

  ghost predicate IsLeaf(c: Circuit, g: nat)
    requires IsGate(c, g)
  {
    !IsInner(c.kind[g])
  }

  /** The leaves of the circuit. */
  ghost function Leaves(c: Circuit): set<nat>
    requires WellFormed(c) && Sized(c)
  {
    set g: nat | g < |c.kind| && IsLeaf(c, g)
  }

  ghost function Inner(c: Circuit): set<nat>
    requires WellFormed(c) && Sized(c)
  {
    set g: nat | g < |c.kind| && IsInner(c.kind[g])
  }

  ghost predicate SameOn(u: World, w: World, vs: set<nat>) {
    forall v :: v in vs ==> True(u, v) == True(w, v)
  }

  lemma {:induction false} ForcedByLeaves(c: Circuit, g: nat, u: World, w: World)
    requires IsGate(c, g) && SameOn(u, w, Leaves(c))
    ensures Forced(c, g, u) == Forced(c, g, w)
    decreases c.rank[g]
  {
    forall k | 0 <= k < |c.wires[g]| ensures Forced(c, c.wires[g][k], u) == Forced(c, c.wires[g][k], w) {
      ForcedByLeaves(c, c.wires[g][k], u, w);
    }
    if !IsInner(c.kind[g]) { assert g in Leaves(c); }
  }

  /** A supported gate is forced to the value the circuit gives it. */
  lemma {:induction false} ForcedIsEval(c: Circuit, g: nat, w: World)
    requires IsGate(c, g) && Supported(c, g)
    ensures Forced(c, g, w) == Eval(c, g, w)
    decreases c.rank[g]
  {
    if IsInner(c.kind[g]) {
      forall k | 0 <= k < |c.wires[g]| ensures Forced(c, c.wires[g][k], w) == Eval(c, c.wires[g][k], w) {
        ForcedIsEval(c, c.wires[g][k], w);
      }
    }
  }

  /** Every inner gate in gs has the value its leaves force. */
  ghost predicate RunOn(c: Circuit, gs: set<nat>, w: World)
    requires WellFormed(c) && Sized(c)
  {
    forall g :: g in gs && g < |c.kind| ==> True(w, g) == Forced(c, g, w)
  }

  lemma {:induction false} LocalForces(c: Circuit, g: nat, w: World)
    requires IsGate(c, g) && LocalUpTo(c, |c.kind|, w)
    ensures True(w, g) == Forced(c, g, w)
    decreases c.rank[g]
  {
    forall k | 0 <= k < |c.wires[g]| ensures True(w, c.wires[g][k]) == Forced(c, c.wires[g][k], w) {
      LocalForces(c, c.wires[g][k], w);
    }
    assert LocalOk(c, g, w);
  }

  /** The gate clauses say that every inner gate has its forced value. */
  lemma LocalIsRun(c: Circuit, w: World)
    requires WellFormed(c) && Sized(c)
    ensures LocalUpTo(c, |c.kind|, w) <==> RunOn(c, Inner(c), w)
  {
    if LocalUpTo(c, |c.kind|, w) {
      forall g | g in Inner(c) ensures True(w, g) == Forced(c, g, w) {
        LocalForces(c, g, w);
      }
    }
    if RunOn(c, Inner(c), w) {
      forall g: nat | g < |c.kind| ensures LocalOk(c, g, w) {
        RunIsLocal(c, g, w);
      }
    }
  }

  lemma RunIsLocal(c: Circuit, g: nat, w: World)
    requires IsGate(c, g) && RunOn(c, Inner(c), w)
    ensures LocalOk(c, g, w)
  {
    if IsInner(c.kind[g]) {
      assert g in Inner(c);
      forall k | 0 <= k < |c.wires[g]| ensures True(w, c.wires[g][k]) == Forced(c, c.wires[g][k], w) {
        var h := c.wires[g][k];
        if IsInner(c.kind[h]) { assert h in Inner(c); }
      }
    }
  }

  /** A truth assignment to all gates. */
  ghost predicate IsAssignment(c: Circuit, w: World) {
    |w| == |c.kind| && forall v :: 0 <= v < |w| ==> w[v] < 2
  }

  /** The leaves of u with every inner gate at its forced value. */
  ghost function Extend(c: Circuit, u: World): (w: World)
    requires WellFormed(c) && Sized(c) && IsAssignment(c, u)
    ensures IsAssignment(c, w)
  {
    seq(|u|, (v: nat) requires v < |u| => if !IsInner(c.kind[v]) then u[v] else if Forced(c, v, u) then 1 else 0)
  }

  /** Each assignment to the leaves extends to exactly one assignment that satisfies the
      gate clauses, in which a supported gate has the value the circuit gives it. */
  lemma UniqueExtension(c: Circuit, u: World)
    requires WellFormed(c) && Sized(c) && IsAssignment(c, u)
    ensures LocalUpTo(c, |c.kind|, Extend(c, u)) && SameOn(u, Extend(c, u), Leaves(c))
    ensures forall w :: IsAssignment(c, w) && SameOn(u, w, Leaves(c)) && LocalUpTo(c, |c.kind|, w) ==> w == Extend(c, u)
    ensures forall g: nat :: g < |c.kind| && Supported(c, g) ==> True(Extend(c, u), g) == Eval(c, g, u)
  {
    var e := Extend(c, u);
    forall g: nat | g < |c.kind| ensures Forced(c, g, e) == Forced(c, g, u) == True(e, g) {
      ForcedByLeaves(c, g, u, e);
    }
    LocalIsRun(c, e);
    forall w | IsAssignment(c, w) && SameOn(u, w, Leaves(c)) && LocalUpTo(c, |c.kind|, w) ensures w == e {
      forall g: nat | g < |w| ensures w[g] == e[g] {
        LocalForces(c, g, w);
        ForcedByLeaves(c, g, u, w);
        assert True(w, g) == True(e, g);
      }
    }
    forall g: nat | g < |c.kind| && Supported(c, g) ensures True(e, g) == Eval(c, g, u) {
      ForcedIsEval(c, g, u);
    }
  }

  // ----- Counting the runs -----

  /** Weights of a model counter: an input's literals weigh its marginal, others one. */
  function LiteralWeights(c: Circuit): Space
    requires |c.prob| == |c.kind|
  {
    seq(|c.kind|, (v: nat) requires v < |c.kind| => if c.kind[v] == InGate then [1.0 - c.prob[v], c.prob[v]] else [1.0, 1.0])
  }

  /** The weighted model count of the clauses. */
  ghost function WeightedCount(c: Circuit, cls: seq<Clause>): real
    requires |c.prob| == |c.kind|
  {
    Ex(LiteralWeights(c), Ind((w: World) => AllClausesTrue(w, cls)))
  }

  /** The marginals under which gates other than inputs are fair coins. */
  function Coins(c: Circuit): (q: seq<real>)
    requires |c.prob| == |c.kind|
    ensures |q| == |c.kind|
  {
    seq(|c.kind|, (v: nat) requires v < |c.kind| => if c.kind[v] == InGate then c.prob[v] else 0.5)
  }

  function Pow2(n: nat): real {
    if n == 0 then 1.0 else 2.0 * Pow2(n - 1)
  }

  /** The number of gates from i on that are not inputs. */
  function Unweighted(c: Circuit, i: nat): nat
    requires i <= |c.kind|
    decreases |c.kind| - i
  {
    if i == |c.kind| then 0 else (if c.kind[i] == InGate then 0 else 1) + Unweighted(c, i + 1)
  }

  lemma {:induction false} CoinsScale(c: Circuit, i: nat, j: nat, X: World -> real, w: World)
    requires |c.prob| == |c.kind| && i <= |c.kind| == |w|
    ensures E(LiteralWeights(c), i, j, X, w) == Mul(Pow2(Unweighted(c, i)), E(Bern(Coins(c)), i, j, X, w))
    decreases |c.kind| - i, 2 - j
  {
    var d, b := LiteralWeights(c), Bern(Coins(c));
    hide Mul;
    if i == |c.kind| {
      MulOne(X(w));
    } else if j >= 2 {
      MulZero(Pow2(Unweighted(c, i)));
    } else {
      CoinsScale(c, i, j + 1, X, w);
      CoinsScale(c, i + 1, 0, X, w[i := j]);
      var e := E(b, i + 1, 0, X, w[i := j]);
      ScaleOutcome(c.kind[i] == InGate, d[i][j], b[i][j], Pow2(Unweighted(c, i + 1)), Pow2(Unweighted(c, i)), e);
      MulAdd(Pow2(Unweighted(c, i)), Mul(b[i][j], e), E(b, i, j + 1, X, w));
    }
  }

  lemma ScaleOutcome(input: bool, x: real, y: real, a: real, b: real, e: real)
    requires if input then x == y && b == a else x == 1.0 && y == 0.5 && b == 2.0 * a
    ensures Mul(x, Mul(a, e)) == Mul(b, Mul(y, e))
  {
    if input {
      MulMove(x, a, e);
    } else {
      assert b * (y * e) == (b * y) * e;
      assert b * y == a;
    }
  }

  /** A run on gs in which root is forced true. */
  ghost function Runs(c: Circuit, gs: set<nat>, root: nat): Event
    requires IsGate(c, root)
  {
    w => RunOn(c, gs, w) && Forced(c, root, w)
  }

  lemma RunsReads(c: Circuit, gs: set<nat>, root: nat)
    requires IsGate(c, root)
    ensures ReadsOnly(Runs(c, gs, root), Leaves(c) + gs)
  {
    var e, vs := Runs(c, gs, root), Leaves(c) + gs;
    forall u, w {:trigger e(u), e(w)} | (forall v :: v in vs ==> True(u, v) == True(w, v)) ensures e(u) == e(w) {
      forall g: nat | g < |c.kind| ensures Forced(c, g, u) == Forced(c, g, w) {
        ForcedByLeaves(c, g, u, w);
      }
    }
  }

  ghost function ForcedTo(c: Circuit, g: nat, b: bool): Event
    requires IsGate(c, g)
  {
    w => Forced(c, g, w) == b
  }

  lemma HalfReads(c: Circuit, gs: set<nat>, root: nat, g: nat, b: bool)
    requires IsGate(c, root) && IsGate(c, g)
    ensures ReadsOnly(And(Runs(c, gs, root), ForcedTo(c, g, b)), Leaves(c) + gs)
  {
    RunsReads(c, gs, root);
    var a, e, vs := Runs(c, gs, root), And(Runs(c, gs, root), ForcedTo(c, g, b)), Leaves(c) + gs;
    forall u, w {:trigger e(u), e(w)} | (forall v :: v in vs ==> True(u, v) == True(w, v)) ensures e(u) == e(w) {
      assert a(u) == a(w);
      ForcedByLeaves(c, g, u, w);
    }
  }

  /** A gate that is settled in the marginals takes the settled value in the run. */
  lemma SettledRun(c: Circuit, gs: set<nat>, g: nat, root: nat, b: bool)
    requires IsGate(c, root) && g in Inner(c) && g !in gs && gs <= Inner(c) && Unit(Coins(c))
    ensures var x := if b then 1.0 else 0.0;
            P(Coins(c)[g := x], Runs(c, gs + {g}, root)) == P(Coins(c), And(Runs(c, gs, root), ForcedTo(c, g, b)))
  {
    var x := if b then 1.0 else 0.0;
    var q := Coins(c)[g := x];
    var half := And(Runs(c, gs, root), ForcedTo(c, g, b));
    BernProb(q);
    forall w | Possible(Bern(q), w) ensures Runs(c, gs + {g}, root)(w) == half(w) {
      assert True(w, g) == b by {
        assert Bern(q)[g] == [1.0 - x, x];
      }
      hide Possible;
      RunOnMore(c, gs, g, w);
    }
    hide Pr;
    hide Runs;
    hide ForcedTo;
    PrSame(Bern(q), Runs(c, gs + {g}, root), half);
    HalfReads(c, gs, root, g, b);
    PrTransfer(q, Coins(c), half, Leaves(c) + gs);
  }

  lemma RunOnMore(c: Circuit, gs: set<nat>, g: nat, w: World)
    requires IsGate(c, g)
    ensures RunOn(c, gs + {g}, w) <==> RunOn(c, gs, w) && True(w, g) == Forced(c, g, w)
  {
  }

  /** Each inner gate halves the probability that fair coins make a run. */
  lemma HalfRun(c: Circuit, gs: set<nat>, g: nat, root: nat)
    requires IsGate(c, root) && g in Inner(c) && g !in gs && gs <= Inner(c) && Unit(Coins(c))
    ensures P(Coins(c), Runs(c, gs, root)) == 2.0 * P(Coins(c), Runs(c, gs + {g}, root))
  {
    var q := Coins(c);
    var e := Runs(c, gs + {g}, root);
    Shannon(q, g, e);
    SettledRun(c, gs, g, root, true);
    SettledRun(c, gs, g, root, false);
    BernProb(q);
    var a, yes, no := Runs(c, gs, root), ForcedTo(c, g, true), ForcedTo(c, g, false);
    hide Pr;
    PrSplit(Bern(q), And(a, yes), And(a, no), a);
  }

  lemma {:induction false} AllHalves(c: Circuit, gs: set<nat>, root: nat)
    requires IsGate(c, root) && gs <= Inner(c) && Unit(Coins(c))
    ensures P(Coins(c), Runs(c, {}, root)) == Pow2(|gs|) * P(Coins(c), Runs(c, gs, root))
  {
    hide P;
    hide Runs;
    hide Unit;
    hide WellFormed;
    hide Inner;
    if gs != {} {
      var g :| g in gs;
      AllHalves(c, gs - {g}, root);
      HalfRun(c, gs - {g}, g, root);
      assert gs - {g} + {g} == gs;
      var n, p := |gs - {g}|, P(Coins(c), Runs(c, gs, root));
      assert |gs| == n + 1;
      assert Pow2(n) * (2.0 * p) == (2.0 * Pow2(n)) * p;
    }
  }

  /** Without the clauses only the inputs matter. */
  lemma RootOnly(c: Circuit, root: nat)
    requires IsGate(c, root) && Supported(c, root) && Unit(Coins(c))
    ensures P(Coins(c), Runs(c, {}, root)) == P(c.prob, Holds(c, root))
  {
    BernProb(Coins(c));
    forall w ensures Runs(c, {}, root)(w) == Holds(c, root)(w) {
      ForcedIsEval(c, root, w);
    }
    var ins := set g: nat | g < |c.kind| && c.kind[g] == InGate;
    var e := Holds(c, root);
    forall u, w {:trigger e(u), e(w)} | (forall v :: v in ins ==> True(u, v) == True(w, v)) ensures e(u) == e(w) {
      EvalByInputs(c, root, ins, u, w);
    }
    hide Pr;
    hide Eval;
    PrSame(Bern(Coins(c)), Runs(c, {}, root), e);
    PrTransfer(Coins(c), c.prob, e, ins);
  }

  lemma {:induction false} EvalByInputs(c: Circuit, g: nat, ins: set<nat>, u: World, w: World)
    requires IsGate(c, g) && Supported(c, g) && SameOn(u, w, ins)
    requires forall h: nat :: h < |c.kind| && c.kind[h] == InGate ==> h in ins
    ensures Eval(c, g, u) == Eval(c, g, w)
    decreases c.rank[g]
  {
    if IsInner(c.kind[g]) {
      forall k | 0 <= k < |c.wires[g]| ensures Eval(c, c.wires[g][k], u) == Eval(c, c.wires[g][k], w) {
        EvalByInputs(c, c.wires[g][k], ins, u, w);
      }
    }
  }

  /** The number of gates that are neither inputs nor constrained by clauses. */
  ghost function Free(c: Circuit): set<nat>
    requires WellFormed(c) && Sized(c)
  {
    set g: nat | g < |c.kind| && !IsInner(c.kind[g]) && c.kind[g] != InGate
  }

  lemma Pow2Add(m: nat, n: nat)
    ensures Pow2(m + n) == Pow2(m) * Pow2(n)
  {
    if m > 0 { Pow2Add(m - 1, n); }
  }

  lemma {:induction false} UnweightedCount(c: Circuit, i: nat)
    requires WellFormed(c) && Sized(c) && i <= |c.kind|
    ensures Unweighted(c, i) == |set g: nat | i <= g < |c.kind| && c.kind[g] != InGate|
    decreases |c.kind| - i
  {
    var s := set g: nat | i <= g < |c.kind| && c.kind[g] != InGate;
    if i == |c.kind| {
      assert s == {};
    } else {
      UnweightedCount(c, i + 1);
      var t := set g: nat | i + 1 <= g < |c.kind| && c.kind[g] != InGate;
      if c.kind[i] == InGate { assert s == t; } else { assert s == t + {i}; }
    }
  }

  lemma CountScaled(c: Circuit, cls: seq<Clause>, root: nat)
    requires IsGate(c, root) && Unit(Coins(c))
    requires forall w :: AllClausesTrue(w, cls) <==> LocalUpTo(c, |c.kind|, w) && True(w, root)
    ensures WeightedCount(c, cls) == Mul(Pow2(Unweighted(c, 0)), P(Coins(c), Runs(c, Inner(c), root)))
  {
    var sat: Event := (w: World) => AllClausesTrue(w, cls);
    forall w: World ensures sat(w) == Runs(c, Inner(c), root)(w) {
      LocalIsRun(c, w);
      if LocalUpTo(c, |c.kind|, w) { LocalForces(c, root, w); }
    }
    hide E;
    hide Mul;
    hide Runs;
    hide Pow2;
    BernProb(Coins(c));
    CoinsScale(c, 0, 0, Ind(sat), Base(Bern(Coins(c))));
    assert Base(LiteralWeights(c)) == Base(Bern(Coins(c)));
    PrSame(Bern(Coins(c)), sat, Runs(c, Inner(c), root));
  }

  lemma UnweightedIsInnerAndFree(c: Circuit)
    requires WellFormed(c) && Sized(c)
    ensures Unweighted(c, 0) == |Free(c)| + |Inner(c)|
  {
    UnweightedCount(c, 0);
    var rest := set g: nat | 0 <= g < |c.kind| && c.kind[g] != InGate;
    assert rest == Inner(c) + Free(c) && Inner(c) !! Free(c);
  }

  /** The weighted model count of the encoding is the probability of the root, doubled for
      each gate that is neither an input nor constrained: with no such gate it is exactly
      the probability. */
  lemma CountIsProbability(c: Circuit, root: nat, cls: seq<Clause>)
    requires IsGate(c, root) && Supported(c, root)
    requires forall w :: AllClausesTrue(w, cls) <==> LocalUpTo(c, |c.kind|, w) && True(w, root)
    ensures WeightedCount(c, cls) == Pow2(|Free(c)|) * P(c.prob, Holds(c, root))
  {
    hide AllClausesTrue;
    hide LocalUpTo;
    hide WeightedCount;
    hide P;
    hide Runs;
    hide Holds;
    var r, e := P(Coins(c), Runs(c, Inner(c), root)), P(Coins(c), Runs(c, {}, root));
    var f, k := |Free(c)|, |Inner(c)|;
    assert Unit(Coins(c)) && Inner(c) <= Inner(c);
    hide *;
    CountScaled(c, cls, root);
    AllHalves(c, Inner(c), root);
    RootOnly(c, root);
    UnweightedIsInnerAndFree(c);
    Doubled(f, k, r, e);
  }

  /** Each clause-bound gate halves, each gate without weight doubles. */
  lemma Doubled(f: nat, k: nat, r: real, e: real)
    requires e == Pow2(k) * r
    ensures Mul(Pow2(f + k), r) == Pow2(f) * e
  {
    Pow2Add(f, k);
    assert (Pow2(f) * Pow2(k)) * r == Pow2(f) * (Pow2(k) * r);
  }

  lemma {:induction false} Pow2Grows(n: nat)
    ensures n > 0 ==> Pow2(n) >= 2.0
  {
    if n > 1 { Pow2Grows(n - 1); }
  }

  /** What a weighted model counter answers on the clauses: the probability, exactly when
      every gate is an input or constrained by clauses, or the probability is zero. */
  method CompiledProbability(c: Circuit, root: nat) returns (r: Result<seq<Clause>>)
    requires IsGate(c, root) && Supported(c, root)
    ensures r.Failure? <==> exists g :: 0 <= g < |c.kind| && c.kind[g] == MulInGate
    ensures r.Success? ==> WeightedCount(c, r.value) == Pow2(|Free(c)|) * P(c.prob, Holds(c, root))
    ensures r.Success? ==>
      (WeightedCount(c, r.value) == P(c.prob, Holds(c, root)) <==> Free(c) == {} || P(c.prob, Holds(c, root)) == 0.0)
  {
    hide WeightedCount;
    hide P;
    hide Holds;
    r := TseytinCNF(c, root);
    if r.Success? {
      CountIsProbability(c, root, r.value);
      Pow2Grows(|Free(c)|);
      var p, f := P(c.prob, Holds(c, root)), Pow2(|Free(c)|);
      assert f * p == p <==> (f - 1.0) * p == 0.0;
    }
  }

  // ----- A count that is not the probability -----

  /** A coin beside a gate with neither clauses nor weights. */
  function CoinAndLoose(): Circuit {
    Circuit([InGate, UndeterminedGate], [[], []], [0.5, 0.5], [0, 0], [0, 0])
  }

  lemma CoinClauses(w: World)
    ensures Sized(CoinAndLoose()) && WellFormed(CoinAndLoose())
    ensures AllClausesTrue(w, [[1]]) <==> LocalUpTo(CoinAndLoose(), 2, w) && True(w, 0)
  {
    var cls: seq<Clause> := [[1]];
    assert ClauseTrue(w, cls[0]) <==> LiteralTrue(w, cls[0][0]);
  }

  lemma CoinPr()
    ensures IsGate(CoinAndLoose(), 0) && P(CoinAndLoose().prob, Holds(CoinAndLoose(), 0)) == 0.5
  {
    var c := CoinAndLoose();
    var e: Event := w => True(w, 0);
    Marginal(c.prob, 0);
    BernProb(c.prob);
    forall w ensures Holds(c, 0)(w) == e(w) {}
    hide Pr;
    PrSame(Bern(c.prob), Holds(c, 0), e);
  }

  /** With the coin as root the count is twice the probability. */
  lemma LooseGateDoubles()
    ensures var c := CoinAndLoose();
            && IsGate(c, 0) && Supported(c, 0)
            && (forall w :: AllClausesTrue(w, [[1]]) <==> LocalUpTo(c, 2, w) && True(w, 0))
            && WeightedCount(c, [[1]]) == 1.0 && P(c.prob, Holds(c, 0)) == 0.5
  {
    hide WeightedCount;
    hide P;
    hide AllClausesTrue;
    hide LocalUpTo;
    CoinPr();
    forall w ensures AllClausesTrue(w, [[1]]) <==> LocalUpTo(CoinAndLoose(), 2, w) && True(w, 0) { CoinClauses(w); }
    CountIsProbability(CoinAndLoose(), 0, [[1]]);
    assert Free(CoinAndLoose()) == {1};
    assert Pow2(1) == 2.0 * Pow2(0);
  }
}
