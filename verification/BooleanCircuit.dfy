/** Boolean provenance circuits: gates, wires, input marginals, and evaluation in a world. */
module BooleanCircuit {
  import opened Worlds
  import opened Probability

  datatype Kind = UndeterminedGate | AndGate | OrGate | NotGate | InGate | MulInGate | MulVarGate

  /** rank witnesses that the wires are acyclic. */
  datatype Circuit = Circuit(kind: seq<Kind>, wires: seq<seq<nat>>, prob: seq<real>, info: seq<nat>, rank: seq<nat>)

  ghost predicate Sized(c: Circuit) {
    |c.wires| == |c.prob| == |c.info| == |c.rank| == |c.kind|
  }

  ghost predicate WellFormed(c: Circuit) {
    && Sized(c) && Unit(c.prob)
    && (forall g, k {:trigger c.wires[g][k]} :: 0 <= g < |c.kind| && 0 <= k < |c.wires[g]| ==>
          c.wires[g][k] < |c.kind| && c.rank[c.wires[g][k]] < c.rank[g])
    && (forall g :: 0 <= g < |c.kind| && (c.kind[g].NotGate? || c.kind[g].MulInGate?) ==> |c.wires[g]| > 0)
  }

  ghost predicate IsGate(c: Circuit, g: nat) {
    WellFormed(c) && Sized(c) && g < |c.kind|
  }

  ghost predicate AreGates(c: Circuit, gs: seq<nat>) {
    WellFormed(c) && Sized(c) && forall g :: g in gs ==> g < |c.kind|
  }

  lemma WiresAreGates(c: Circuit, g: nat)
    requires IsGate(c, g)
    ensures AreGates(c, c.wires[g]) && forall h :: h in c.wires[g] ==> c.rank[h] < c.rank[g]
  {
    forall h | h in c.wires[g] ensures h < |c.kind| && c.rank[h] < c.rank[g] {
      var k :| 0 <= k < |c.wires[g]| && c.wires[g][k] == h;
    }
  }

  /** The cone of g holds only AND, OR, NOT and IN gates. */
  ghost predicate Supported(c: Circuit, g: nat)
    requires IsGate(c, g)
    decreases c.rank[g]
  {
    match c.kind[g]
    case InGate => true
    case AndGate | OrGate | NotGate => forall k :: 0 <= k < |c.wires[g]| ==> Supported(c, c.wires[g][k])
    case _ => false
  }

  /** The truth value of gate g in a world that says which inputs are true, and which
      alternative each multivalued variable takes: a multivalued input is one alternative
      of its key variable. */
  ghost function Eval(c: Circuit, g: nat, w: World): bool
    requires IsGate(c, g)
    decreases c.rank[g]
  {
    match c.kind[g]
    case InGate => True(w, g)
    case NotGate => !Eval(c, c.wires[g][0], w)
    case AndGate => forall k :: 0 <= k < |c.wires[g]| ==> Eval(c, c.wires[g][k], w)
    case OrGate => exists k :: 0 <= k < |c.wires[g]| && Eval(c, c.wires[g][k], w)
    case MulInGate => Takes(w, c.wires[g][0], c.info[g] + 1)
    case _ => false
  }

  predicate Takes(w: World, v: nat, k: nat) {
    v < |w| && w[v] == k
  }

  /** The event that gate g is true. */
  ghost function Holds(c: Circuit, g: nat): Event
    requires IsGate(c, g)
  {
    w => Eval(c, g, w)
  }

  /** A partial assignment of variables turns their marginals into certainties. */
  function Given(p: seq<real>, A: map<nat, bool>): (q: seq<real>)
    ensures |q| == |p|
    ensures forall v :: 0 <= v < |p| ==> q[v] == if v in A then (if A[v] then 1.0 else 0.0) else p[v]
  {
    seq(|p|, v requires 0 <= v < |p| => if v in A then (if A[v] then 1.0 else 0.0) else p[v])
  }
}
