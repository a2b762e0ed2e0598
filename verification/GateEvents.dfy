/** The events of conjunctions and disjunctions, child by child. */
module GateEvents {
  import opened Reals
  import opened Worlds
  import opened Probability
  import opened Categorical
  import opened BooleanCircuit
  import opened ReadOnce

  // ----- Conjunctions and exclusive disjunctions, child by child -----

  ghost function Child(c: Circuit, g: nat, i: nat): nat
    requires IsGate(c, g) && i < |c.wires[g]|
    ensures IsGate(c, Child(c, g, i)) && c.rank[Child(c, g, i)] < c.rank[g]
  {
    c.wires[g][i]
  }

  ghost function AllTo(c: Circuit, g: nat, k: nat): Event
    requires IsGate(c, g) && k <= |c.wires[g]|
  {
    w => forall i :: 0 <= i < k ==> Eval(c, Child(c, g, i), w)
  }

  ghost function SomeTo(c: Circuit, g: nat, k: nat): Event
    requires IsGate(c, g) && k <= |c.wires[g]|
  {
    w => exists i :: 0 <= i < k && Eval(c, Child(c, g, i), w)
  }

  lemma AllStart(c: Circuit, d: Space, g: nat)
    requires IsGate(c, g) && Prob(d)
    ensures Known(d, AllTo(c, g, 0), 1.0, {}) && Known(d, SomeTo(c, g, 0), 0.0, {})
  {
    KnownSure(d, AllTo(c, g, 0), true);
    KnownSure(d, SomeTo(c, g, 0), false);
  }

  lemma AllStep(c: Circuit, d: Space, g: nat, k: nat, x: real, vs: set<nat>, y: real, us: set<nat>)
    requires IsGate(c, g) && Prob(d) && k < |c.wires[g]| && vs !! us
    requires Known(d, AllTo(c, g, k), x, vs) && Known(d, Holds(c, c.wires[g][k]), y, us)
    ensures Known(d, AllTo(c, g, k + 1), Mul(x, y), vs + us)
  {
    var a, b, e := AllTo(c, g, k), Holds(c, c.wires[g][k]), AllTo(c, g, k + 1);
    forall w ensures e(w) == (a(w) && b(w)) {
      assert b(w) == Eval(c, Child(c, g, k), w);
    }
    hide Known;
    KnownAnd(d, a, x, vs, b, y, us, e);
  }

  lemma AllEnd(c: Circuit, d: Space, g: nat, x: real, vs: set<nat>)
    requires IsGate(c, g) && Prob(d) && c.kind[g] == AndGate && Known(d, AllTo(c, g, |c.wires[g]|), x, vs)
    ensures Known(d, Holds(c, g), x, vs)
  {
    var a, e := AllTo(c, g, |c.wires[g]|), Holds(c, g);
    forall w ensures a(w) == e(w) {
      assert e(w) == Eval(c, g, w);
      assert forall i :: 0 <= i < |c.wires[g]| ==> Eval(c, Child(c, g, i), w) == Eval(c, c.wires[g][i], w);
    }
    hide Known;
    KnownSame(d, a, e, x, vs);
  }

  /** Values known for all the children of a marked conjunction multiply. */
  lemma CertifiedAndStep(c: Circuit, d: Space, g: nat, us: seq<set<nat>>, k: nat, x: real, y: real)
    requires IsGate(c, g) && Prob(d) && Splitting(c, d, g, us) && k < |c.wires[g]|
    requires x == Pr(d, AllTo(c, g, k)) && y == Pr(d, Holds(c, c.wires[g][k]))
    requires DecidedBy(d, AllTo(c, g, k), Union(us, k))
    ensures Mul(x, y) == Pr(d, AllTo(c, g, k + 1)) && DecidedBy(d, AllTo(c, g, k + 1), Union(us, k + 1))
  {
    UnionApart(us, k);
    hide Pr;
    hide DecidedBy;
    AllStep(c, d, g, k, x, Union(us, k), y, us[k]);
  }

  ghost function Union(us: seq<set<nat>>, k: nat): set<nat>
    requires k <= |us|
  {
    if k == 0 then {} else Union(us, k - 1) + us[k - 1]
  }

  lemma {:induction false} InUnion(us: seq<set<nat>>, k: nat, v: nat)
    requires k <= |us|
    ensures v in Union(us, k) <==> exists i :: 0 <= i < k && v in us[i]
  {
    if k > 0 { InUnion(us, k - 1, v); }
  }

  lemma UnionApart(us: seq<set<nat>>, k: nat)
    requires k < |us| && forall i, j :: 0 <= i < j < |us| ==> us[i] !! us[j]
    ensures Union(us, k) !! us[k]
  {
    forall v | v in Union(us, k) ensures v !in us[k] {
      InUnion(us, k, v);
      var i :| 0 <= i < k && v in us[i];
      assert us[i] !! us[k];
    }
  }

  /** Mutually exclusive children: probabilities add. */
  lemma CertifiedOrStep(c: Circuit, d: Space, g: nat, k: nat, x: real, y: real)
    requires IsGate(c, g) && Prob(d) && Deterministic(c, d, g) && k < |c.wires[g]|
    requires x == Pr(d, SomeTo(c, g, k)) && y == Pr(d, Holds(c, c.wires[g][k]))
    ensures x + y == Pr(d, SomeTo(c, g, k + 1))
  {
    var a, b, e := SomeTo(c, g, k), Holds(c, c.wires[g][k]), SomeTo(c, g, k + 1);
    forall w | Possible(d, w) ensures e(w) == (a(w) || b(w)) && !(a(w) && b(w)) {
      assert b(w) == Eval(c, Child(c, g, k), w);
    }
    hide Pr;
    PrSplit(d, a, b, e);
  }

  lemma SomeEnd(c: Circuit, d: Space, g: nat, x: real)
    requires IsGate(c, g) && Prob(d) && c.kind[g] == OrGate && x == Pr(d, SomeTo(c, g, |c.wires[g]|))
    ensures x == Pr(d, Holds(c, g))
  {
    var a, e := SomeTo(c, g, |c.wires[g]|), Holds(c, g);
    forall w ensures a(w) == e(w) {
      assert e(w) == Eval(c, g, w);
      assert forall i :: 0 <= i < |c.wires[g]| ==> Eval(c, Child(c, g, i), w) == Eval(c, c.wires[g][i], w);
    }
    hide Pr;
    PrSame(d, a, e);
  }

  /** A gate is decided by whatever decides all of its children. */
  lemma DecidedFromChildren(c: Circuit, d: Space, g: nat, vs: set<nat>)
    requires IsGate(c, g) && c.kind[g] in {AndGate, OrGate, NotGate}
    requires forall h :: h in c.wires[g] ==> IsGate(c, h) && DecidedBy(d, Holds(c, h), vs)
    ensures DecidedBy(d, Holds(c, g), vs)
  {
    forall u, w | Possible(d, u) && Possible(d, w) && Agree(u, w, vs) ensures Holds(c, g)(u) == Holds(c, g)(w) {
      forall i | 0 <= i < |c.wires[g]| ensures Eval(c, c.wires[g][i], u) == Eval(c, c.wires[g][i], w) {
        assert c.wires[g][i] in c.wires[g];
        assert Holds(c, c.wires[g][i])(u) == Holds(c, c.wires[g][i])(w);
      }
      assert Holds(c, g)(u) == Eval(c, g, u) && Holds(c, g)(w) == Eval(c, g, w);
    }
  }
}
