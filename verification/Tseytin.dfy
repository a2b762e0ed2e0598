/** The clausal encoding of a circuit: its models are the runs of the circuit, so its
    weighted model count is the circuit's probability.  */
module Tseytin {
  import opened Outcomes
  import opened Reals
  import opened Worlds
  import opened Probability
  import opened BooleanCircuit

  type Clause = seq<int>

  /** Literal l > 0 asks that gate l - 1 is true, l < 0 that gate -l - 1 is false. */
  predicate LiteralTrue(w: World, l: int) {
    if l > 0 then True(w, l - 1) else if l < 0 then !True(w, -l - 1) else false
  }

  predicate ClauseTrue(w: World, c: Clause) {
    exists i :: 0 <= i < |c| && LiteralTrue(w, c[i])
  }

  predicate AllClausesTrue(w: World, cls: seq<Clause>) {
    forall i :: 0 <= i < |cls| ==> ClauseTrue(w, cls[i])
  }

  function Literal(g: nat): int {
    g + 1
  }

  lemma AppendLiteral(w: World, c: Clause, l: int)
    ensures ClauseTrue(w, c + [l]) == (ClauseTrue(w, c) || LiteralTrue(w, l))
  {
    if ClauseTrue(w, c) {
      var i :| 0 <= i < |c| && LiteralTrue(w, c[i]);
      assert (c + [l])[i] == c[i];
    }
    if LiteralTrue(w, l) { assert (c + [l])[|c|] == l; }
  }

  lemma AppendClause(w: World, cls: seq<Clause>, c: Clause)
    ensures AllClausesTrue(w, cls + [c]) == (AllClausesTrue(w, cls) && ClauseTrue(w, c))
  {
    if AllClausesTrue(w, cls + [c]) {
      assert forall i :: 0 <= i < |cls| ==> (cls + [c])[i] == cls[i];
      assert (cls + [c])[|cls|] == c;
    }
  }

  // ----- What the clauses of a gate say -----

  predicate IsInner(k: Kind) {
    k == AndGate || k == OrGate || k == NotGate
  }

  /** Gate g's truth value follows from those of its children. */
  ghost predicate LocalOk(c: Circuit, g: nat, w: World)
    requires IsGate(c, g)
  {
    match c.kind[g]
    case AndGate => True(w, g) <==> forall k :: 0 <= k < |c.wires[g]| ==> True(w, c.wires[g][k])
    case OrGate => True(w, g) <==> exists k :: 0 <= k < |c.wires[g]| && True(w, c.wires[g][k])
    case NotGate => True(w, g) <==> !True(w, c.wires[g][0])
    case _ => true
  }

  ghost predicate LocalUpTo(c: Circuit, n: nat, w: World)
    requires WellFormed(c) && Sized(c) && n <= |c.kind|
  {
    forall g: nat :: g < n ==> LocalOk(c, g, w)
  }

  /** The sign of a gate's binary clauses and the long clause: conjunctions imply their
      children, disjunctions follow from theirs. */
  method JunctionClauses(c: Circuit, g: nat, cls0: seq<Clause>) returns (cls: seq<Clause>)
    requires IsGate(c, g) && (c.kind[g] == AndGate || c.kind[g] == OrGate)
    ensures forall w :: AllClausesTrue(w, cls) <==> AllClausesTrue(w, cls0) && LocalOk(c, g, w)
  {
    var id := Literal(g);
    var sign := if c.kind[g] == AndGate then 1 else -1;
    cls := cls0;
    var long := [sign * id];
    forall w ensures ClauseTrue(w, long) == (True(w, g) == (sign == 1)) {
      AppendLiteral(w, [], sign * id);
      assert [] + long == long;
    }
    for k := 0 to |c.wires[g]|
      invariant forall w :: AllClausesTrue(w, cls) <==> AllClausesTrue(w, cls0) && Pairs(c, g, k, w)
      invariant forall w :: ClauseTrue(w, long) <==> True(w, g) == (sign == 1) || Breaks(c, g, k, w)
    {
      var s := Literal(c.wires[g][k]);
      var pair := [-sign * id, sign * s];
      forall w
        ensures AllClausesTrue(w, cls + [pair]) <==> AllClausesTrue(w, cls0) && Pairs(c, g, k + 1, w)
        ensures ClauseTrue(w, long + [-sign * s]) <==> True(w, g) == (sign == 1) || Breaks(c, g, k + 1, w)
      {
        AppendClause(w, cls, pair);
        PairTrue(w, -sign * id, sign * s);
        AppendLiteral(w, long, -sign * s);
      }
      hide AllClausesTrue;
      hide ClauseTrue;
      cls := cls + [pair];
      long := long + [-sign * s];
    }
    forall w ensures AllClausesTrue(w, cls + [long]) <==> AllClausesTrue(w, cls0) && LocalOk(c, g, w) {
      AppendClause(w, cls, long);
      JunctionMeans(c, g, w);
    }
    hide *;
    cls := cls + [long];
  }

  lemma PairTrue(w: World, a: int, b: int)
    ensures ClauseTrue(w, [a, b]) == (LiteralTrue(w, a) || LiteralTrue(w, b))
  {
    assert [a, b][0] == a && [a, b][1] == b;
  }

  /** The first k children are at least as true as a conjunction, and at most as a disjunction. */
  ghost predicate Pairs(c: Circuit, g: nat, k: nat, w: World)
    requires IsGate(c, g) && k <= |c.wires[g]|
  {
    forall i :: 0 <= i < k ==>
      if c.kind[g] == AndGate then True(w, g) ==> True(w, c.wires[g][i]) else True(w, c.wires[g][i]) ==> True(w, g)
  }

  /** Some child among the first k settles the gate: a false conjunct, or a true disjunct. */
  ghost predicate Breaks(c: Circuit, g: nat, k: nat, w: World)
    requires IsGate(c, g) && k <= |c.wires[g]|
  {
    exists i :: 0 <= i < k && True(w, c.wires[g][i]) == (c.kind[g] != AndGate)
  }

  lemma JunctionMeans(c: Circuit, g: nat, w: World)
    requires IsGate(c, g) && (c.kind[g] == AndGate || c.kind[g] == OrGate)
    ensures var n := |c.wires[g]|;
            Pairs(c, g, n, w) && (True(w, g) == (c.kind[g] == AndGate) || Breaks(c, g, n, w)) <==> LocalOk(c, g, w)
  {
  }

  /** The two clauses of a negation. */
  lemma NegationClauses(c: Circuit, g: nat, w: World)
    requires IsGate(c, g) && c.kind[g] == NotGate
    ensures var id, s := Literal(g), Literal(c.wires[g][0]);
            ClauseTrue(w, [-id, -s]) && ClauseTrue(w, [id, s]) <==> LocalOk(c, g, w)
  {
    var id, s := Literal(g), Literal(c.wires[g][0]);
    PairTrue(w, -id, -s);
    PairTrue(w, id, s);
  }

  /** The clauses of gate g, after those of the gates before it; a multivalued input is
      an error. */
  method GateClauses(c: Circuit, g: nat, cls0: seq<Clause>) returns (r: Result<seq<Clause>>)
    requires IsGate(c, g)
    ensures r.Failure? <==> c.kind[g] == MulInGate
    ensures r.Success? ==> forall w :: AllClausesTrue(w, r.value) <==> AllClausesTrue(w, cls0) && LocalOk(c, g, w)
  {
    hide AllClausesTrue;
    hide ClauseTrue;
    match c.kind[g] {
      case AndGate | OrGate =>
        var cls := JunctionClauses(c, g, cls0);
        r := Success(cls);
      case NotGate =>
        var id, s := Literal(g), Literal(c.wires[g][0]);
        var cls := cls0 + [[-id, -s]];
        forall w ensures AllClausesTrue(w, cls + [[id, s]]) <==> AllClausesTrue(w, cls0) && LocalOk(c, g, w) {
          AppendClause(w, cls0, [-id, -s]);
          AppendClause(w, cls, [id, s]);
          NegationClauses(c, g, w);
        }
        r := Success(cls + [[id, s]]);
      case MulInGate =>
        r := Failure("Multivalued inputs should have been removed by then.");
      case _ =>
        r := Success(cls0);
    }
  }

  /** The clauses of the circuit with the demand that root is true: exactly the truth
      assignments in which every gate follows from its children and root is true. */
  method TseytinCNF(c: Circuit, root: nat) returns (r: Result<seq<Clause>>)
    requires IsGate(c, root)
    ensures r.Failure? <==> exists g :: 0 <= g < |c.kind| && c.kind[g] == MulInGate
    ensures r.Success? ==> forall w ::
      AllClausesTrue(w, r.value) <==> LocalUpTo(c, |c.kind|, w) && True(w, root)
  {
    var cls: seq<Clause> := [];
    for g := 0 to |c.kind|
      invariant forall h :: 0 <= h < g ==> c.kind[h] != MulInGate
      invariant forall w :: AllClausesTrue(w, cls) <==> LocalUpTo(c, g, w)
    {
      var step := GateClauses(c, g, cls);
      if step.Failure? { return step; }
      hide AllClausesTrue;
      hide LocalOk;
      cls := step.value;
    }
    forall w ensures AllClausesTrue(w, cls + [[Literal(root)]]) <==> LocalUpTo(c, |c.kind|, w) && True(w, root) {
      hide LocalUpTo;
      AppendClause(w, cls, [Literal(root)]);
      assert [Literal(root)][0] == Literal(root);
    }
    return Success(cls + [[Literal(root)]]);
  }
}
