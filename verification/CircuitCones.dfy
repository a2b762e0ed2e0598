/** The static side of the circuit d-tree: footprints, determined gates, group events,
    and what a partial assignment leaves to chance.  */
module CircuitCones {
  import opened Worlds
  import opened Probability
  import opened BooleanCircuit

  // ----- Footprints -----

  /** The genuine variables below g: its inputs of probability strictly between 0 and 1. */
  ghost function Footprint(c: Circuit, g: nat): set<nat>
    requires IsGate(c, g)
    decreases c.rank[g]
  {
    match c.kind[g]
    case InGate => if 0.0 < c.prob[g] < 1.0 then {g} else {}
    case AndGate | OrGate | NotGate =>
      set k, v | 0 <= k < |c.wires[g]| && v in Footprint(c, c.wires[g][k]) :: v
    case _ => {}
  }

  /** The variables below any of the gates gs. */
  ghost function FootprintOf(c: Circuit, gs: seq<nat>): set<nat>
    requires AreGates(c, gs)
  {
    set g, v | g in gs && v in Footprint(c, g) :: v
  }

  /** A assigns genuine variables only. */
  ghost predicate Assigns(c: Circuit, A: map<nat, bool>) {
    WellFormed(c) && forall v :: v in A ==> v < |c.kind| && c.kind[v].InGate? && 0.0 < c.prob[v] < 1.0
  }

  /** The measure once A is known. */
  ghost function Left(c: Circuit, A: map<nat, bool>): Space {
    Bern(Given(c.prob, A))
  }

  lemma LeftProb(c: Circuit, A: map<nat, bool>)
    requires WellFormed(c)
    ensures Prob(Left(c, A))
  {
    BernProb(Given(c.prob, A));
  }

  /** In a possible world, assigned variables have their value and constants theirs. */
  lemma Forced(c: Circuit, A: map<nat, bool>, w: World, v: nat)
    requires WellFormed(c) && Possible(Left(c, A), w) && v < |c.kind|
    ensures v in A ==> True(w, v) == A[v]
    ensures v !in A && c.prob[v] >= 1.0 ==> True(w, v)
    ensures v !in A && c.prob[v] <= 0.0 ==> !True(w, v)
  {
    var p := Given(c.prob, A);
    assert Bern(p)[v] == [1.0 - p[v], p[v]];
  }

  /** Constant inputs have their value in w. */
  ghost predicate Lawful(c: Circuit, w: World)
    requires WellFormed(c)
  {
    forall v :: 0 <= v < |c.kind| && c.kind[v].InGate? ==>
      (c.prob[v] >= 1.0 ==> True(w, v)) && (c.prob[v] <= 0.0 ==> !True(w, v))
  }

  lemma PossibleLawful(c: Circuit, A: map<nat, bool>, w: World)
    requires Assigns(c, A) && Possible(Left(c, A), w)
    ensures Lawful(c, w) && forall v :: v in A ==> True(w, v) == A[v]
  {
    forall v | 0 <= v < |c.kind|
      ensures v in A ==> True(w, v) == A[v]
      ensures c.kind[v].InGate? && c.prob[v] >= 1.0 ==> True(w, v)
      ensures c.kind[v].InGate? && c.prob[v] <= 0.0 ==> !True(w, v)
    {
      Forced(c, A, w, v);
    }
  }

  /** A gate is a function of the genuine variables below it. */
  lemma {:induction false} EvalLocal(c: Circuit, g: nat, u: World, w: World)
    requires IsGate(c, g) && Supported(c, g) && Lawful(c, u) && Lawful(c, w)
    requires forall v :: v in Footprint(c, g) ==> True(u, v) == True(w, v)
    ensures Eval(c, g, u) == Eval(c, g, w)
    decreases c.rank[g]
  {
    if !c.kind[g].InGate? {
      forall k | 0 <= k < |c.wires[g]|
        ensures Eval(c, c.wires[g][k], u) == Eval(c, c.wires[g][k], w)
      {
        EvalLocal(c, c.wires[g][k], u, w);
      }
    }
  }

  // ----- Determined gates -----

  /** The truth value of a gate whose variables are all assigned. */
  function EvalDet(c: Circuit, g: nat, A: map<nat, bool>): bool
    requires IsGate(c, g)
    decreases c.rank[g]
  {
    match c.kind[g]
    case InGate => if g in A then A[g] else c.prob[g] >= 1.0
    case NotGate => !EvalDet(c, c.wires[g][0], A)
    case AndGate => forall k :: 0 <= k < |c.wires[g]| ==> EvalDet(c, c.wires[g][k], A)
    case OrGate => exists k :: 0 <= k < |c.wires[g]| && EvalDet(c, c.wires[g][k], A)
    case _ => false
  }

  /** A determined gate has the value EvalDet gives it in every world that A leaves possible. */
  lemma {:induction false} EvalDetCorrect(c: Circuit, g: nat, A: map<nat, bool>, w: World)
    requires IsGate(c, g) && Supported(c, g) && Footprint(c, g) <= A.Keys
    requires Possible(Left(c, A), w)
    ensures Eval(c, g, w) == EvalDet(c, g, A)
    decreases c.rank[g]
  {
    if c.kind[g].InGate? {
      Forced(c, A, w, g);
    } else {
      forall k | 0 <= k < |c.wires[g]|
        ensures Eval(c, c.wires[g][k], w) == EvalDet(c, c.wires[g][k], A)
      {
        assert Footprint(c, c.wires[g][k]) <= Footprint(c, g);
        EvalDetCorrect(c, c.wires[g][k], A, w);
      }
    }
  }

  // ----- Groups of gates under AND or OR -----

  datatype Op = Conj | Disj

  ghost predicate GroupEval(c: Circuit, op: Op, gs: seq<nat>, w: World)
    requires AreGates(c, gs)
  {
    match op
    case Conj => forall g :: g in gs ==> Eval(c, g, w)
    case Disj => exists g :: g in gs && Eval(c, g, w)
  }

  ghost function GroupHolds(c: Circuit, op: Op, gs: seq<nat>): Event
    requires AreGates(c, gs)
  {
    w => GroupEval(c, op, gs, w)
  }

  /** The probability of gate g given A. */
  ghost function GatePr(c: Circuit, A: map<nat, bool>, g: nat): real
    requires IsGate(c, g)
  {
    Pr(Left(c, A), Holds(c, g))
  }

  /** The probability, given A, of the conjunction or disjunction of the gates gs. */
  ghost function GroupPr(c: Circuit, A: map<nat, bool>, op: Op, gs: seq<nat>): real
    requires AreGates(c, gs)
  {
    Pr(Left(c, A), GroupHolds(c, op, gs))
  }

  ghost predicate AllSupported(c: Circuit, gs: seq<nat>) {
    AreGates(c, gs) && forall g :: g in gs ==> Supported(c, g)
  }

  lemma GroupLocal(c: Circuit, op: Op, gs: seq<nat>, u: World, w: World)
    requires AllSupported(c, gs) && Lawful(c, u) && Lawful(c, w)
    requires forall v :: v in FootprintOf(c, gs) ==> True(u, v) == True(w, v)
    ensures GroupEval(c, op, gs, u) == GroupEval(c, op, gs, w)
  {
    forall g | g in gs ensures Eval(c, g, u) == Eval(c, g, w) {
      assert Footprint(c, g) <= FootprintOf(c, gs);
      EvalLocal(c, g, u, w);
    }
  }

  /** Given A, a group is decided by its unassigned variables. */
  lemma GroupDecided(c: Circuit, op: Op, gs: seq<nat>, A: map<nat, bool>)
    requires AllSupported(c, gs) && Assigns(c, A)
    ensures DecidedBy(Left(c, A), GroupHolds(c, op, gs), FootprintOf(c, gs) - A.Keys)
  {
    var e := GroupHolds(c, op, gs);
    forall u, w | Possible(Left(c, A), u) && Possible(Left(c, A), w) && Agree(u, w, FootprintOf(c, gs) - A.Keys)
      ensures e(u) == e(w)
    {
      PossibleLawful(c, A, u);
      PossibleLawful(c, A, w);
      GroupLocal(c, op, gs, u, w);
    }
  }

  /** A gate and the group of its wires are the same event. */
  lemma GateIsGroup(c: Circuit, g: nat, A: map<nat, bool>)
    requires IsGate(c, g) && (c.kind[g].AndGate? || c.kind[g].OrGate?)
    ensures AreGates(c, c.wires[g])
    ensures GatePr(c, A, g) == GroupPr(c, A, if c.kind[g].AndGate? then Conj else Disj, c.wires[g])
    ensures FootprintOf(c, c.wires[g]) == Footprint(c, g)
  {
    WiresAreGates(c, g);
    var op := if c.kind[g].AndGate? then Conj else Disj;
    forall w ensures Holds(c, g)(w) == GroupHolds(c, op, c.wires[g])(w) {
      assert forall k :: 0 <= k < |c.wires[g]| ==> c.wires[g][k] in c.wires[g];
      if op.Conj? && Eval(c, g, w) {
        forall h | h in c.wires[g] ensures Eval(c, h, w) {
          var k :| 0 <= k < |c.wires[g]| && c.wires[g][k] == h;
        }
      }
    }
    LeftProb(c, A);
    hide Pr;
    PrSame(Left(c, A), Holds(c, g), GroupHolds(c, op, c.wires[g]));
  }

  /** Shannon expansion of a group on an unassigned variable. */
  lemma GroupShannon(c: Circuit, A: map<nat, bool>, op: Op, gs: seq<nat>, x: nat)
    requires AreGates(c, gs) && x < |c.kind| && x !in A
    ensures GroupPr(c, A, op, gs) ==
            c.prob[x] * GroupPr(c, A[x := true], op, gs) + (1.0 - c.prob[x]) * GroupPr(c, A[x := false], op, gs)
  {
    var p := Given(c.prob, A);
    hide Pr;
    Shannon(p, x, GroupHolds(c, op, gs));
    assert p[x := 1.0] == Given(c.prob, A[x := true]);
    assert p[x := 0.0] == Given(c.prob, A[x := false]);
  }

  /** Only the part of A on the group's own variables matters. */
  lemma GroupRestrict(c: Circuit, A: map<nat, bool>, A': map<nat, bool>, op: Op, gs: seq<nat>)
    requires AllSupported(c, gs) && Assigns(c, A) && Assigns(c, A')
    requires forall v :: v in FootprintOf(c, gs) ==> (v in A <==> v in A') && (v in A ==> A[v] == A'[v])
    ensures GroupPr(c, A, op, gs) == GroupPr(c, A', op, gs)
  {
    var d, d', e, f := Left(c, A), Left(c, A'), GroupHolds(c, op, gs), FootprintOf(c, gs);
    GroupAcross(c, A, A, op, gs);
    GroupAcross(c, A', A', op, gs);
    GroupAcross(c, A, A', op, gs);
    assert Depends(d, Ind(e), f) && Depends(d', Ind(e), f);
    LeftProb(c, A);
    LeftProb(c, A');
    forall v | v in f && v < |d| ensures d[v] == d'[v] {
    }
    hide Ex;
    hide DependsAcross;
    hide Depends;
    Transfer(d, d', Ind(e), f);
  }

  lemma GroupAcross(c: Circuit, A: map<nat, bool>, A': map<nat, bool>, op: Op, gs: seq<nat>)
    requires AllSupported(c, gs) && Assigns(c, A) && Assigns(c, A')
    ensures DependsAcross(Left(c, A), Left(c, A'), Ind(GroupHolds(c, op, gs)), FootprintOf(c, gs))
  {
    var e := GroupHolds(c, op, gs);
    forall u, w | Possible(Left(c, A), u) && Possible(Left(c, A'), w) && Agree(u, w, FootprintOf(c, gs))
      ensures Ind(e)(u) == Ind(e)(w)
    {
      PossibleLawful(c, A, u);
      PossibleLawful(c, A', w);
      GroupLocal(c, op, gs, u, w);
    }
  }
}
