/** Sums of linear terms, collected by their random variables. */
module CoefficientSums {
  import opened Outcomes
  import opened Reals
  import opened ScalarNet
  import opened LinearTerms

  type Coefficients = seq<(nat, real)>

  /** The sum of the coefficients times the values of their variables. */
  ghost function Linear(cs: Coefficients, v: seq<real>): real {
    if cs == [] then 0.0 else Linear(cs[..|cs| - 1], v) + Mul(cs[|cs| - 1].1, At(v, cs[|cs| - 1].0))
  }

  ghost function TermTotal(ts: seq<Term>, v: seq<real>): real {
    if ts == [] then 0.0 else TermTotal(ts[..|ts| - 1], v) + TermValue(ts[|ts| - 1], v)
  }

  function LoadAt(d: seq<nat>, z: nat): nat {
    if z < |d| then d[z] else 0
  }

  /** A sum over the variables of the coefficients, and over those of terms. */
  ghost function Load(cs: Coefficients, d: seq<nat>): nat {
    if cs == [] then 0 else Load(cs[..|cs| - 1], d) + LoadAt(d, cs[|cs| - 1].0)
  }

  ghost function TermLoad(ts: seq<Term>, d: seq<nat>): nat {
    if ts == [] then 0 else TermLoad(ts[..|ts| - 1], d) + (if ts[|ts| - 1].base.Some? then LoadAt(d, ts[|ts| - 1].base.value) else 0)
  }

  lemma LinearOne(cs: Coefficients, z: nat, a: real, v: seq<real>)
    ensures Linear(cs + [(z, a)], v) == Linear(cs, v) + Mul(a, At(v, z))
  {
    assert (cs + [(z, a)])[..|cs|] == cs;
  }

  lemma LoadOne(cs: Coefficients, z: nat, a: real, d: seq<nat>)
    ensures Load(cs + [(z, a)], d) == Load(cs, d) + LoadAt(d, z)
  {
    assert (cs + [(z, a)])[..|cs|] == cs;
  }

  lemma TermTotalOne(ts: seq<Term>, t: Term, v: seq<real>)
    ensures TermTotal(ts + [t], v) == TermTotal(ts, v) + TermValue(t, v)
  {
    assert (ts + [t])[..|ts|] == ts;
  }

  lemma TermLoadOne(ts: seq<Term>, t: Term, d: seq<nat>)
    ensures TermLoad(ts + [t], d) == TermLoad(ts, d) + (if t.base.Some? then LoadAt(d, t.base.value) else 0)
  {
    assert (ts + [t])[..|ts|] == ts;
  }

  /** More of one variable. */
  lemma {:induction false} LinearMore(cs: Coefficients, k: nat, a: real, v: seq<real>)
    requires k < |cs|
    ensures Linear(cs[k := (cs[k].0, cs[k].1 + a)], v) == Linear(cs, v) + Mul(a, At(v, cs[k].0))
    decreases |cs|
  {
    var n := |cs| - 1;
    var ds := cs[k := (cs[k].0, cs[k].1 + a)];
    if k < n {
      LinearMore(cs[..n], k, a, v);
      assert ds[..n] == cs[..n][k := (cs[k].0, cs[k].1 + a)];
    } else {
      assert ds[..n] == cs[..n];
      MulAdd(At(v, cs[n].0), cs[n].1, a);
    }
    hide Mul;
  }

  lemma {:induction false} LoadMore(cs: Coefficients, k: nat, a: real, d: seq<nat>)
    requires k < |cs|
    ensures Load(cs[k := (cs[k].0, cs[k].1 + a)], d) == Load(cs, d)
    decreases |cs|
  {
    var n := |cs| - 1;
    var ds := cs[k := (cs[k].0, cs[k].1 + a)];
    if k < n {
      LoadMore(cs[..n], k, a, d);
      assert ds[..n] == cs[..n][k := (cs[k].0, cs[k].1 + a)];
    } else {
      assert ds[..n] == cs[..n];
    }
  }

  ghost predicate HasTerm(ts: seq<Term>, z: nat) {
    exists i :: 0 <= i < |ts| && ts[i].base == Some(z)
  }

  lemma HasTermOne(ts: seq<Term>, t: Term, z: nat)
    ensures HasTerm(ts + [t], z) <==> HasTerm(ts, z) || t.base == Some(z)
  {
    if HasTerm(ts, z) {
      var i :| 0 <= i < |ts| && ts[i].base == Some(z);
      assert (ts + [t])[i] == ts[i];
    }
    if t.base == Some(z) { assert (ts + [t])[|ts|] == t; }
  }

  /** The coefficients after ts, with the constants apart. */
  ghost predicate Collects(ts: seq<Term>, cs: Coefficients, b: real) {
    && (forall v: seq<real> :: TermTotal(ts, v) == Linear(cs, v) + b)
    && (forall d: seq<nat> :: Load(cs, d) <= TermLoad(ts, d))
    && (forall k :: 0 <= k < |cs| ==> HasTerm(ts, cs[k].0))
  }

  /** Adds a times z to the coefficients. */
  method AddTerm(cs: Coefficients, z: nat, a: real) returns (r: Coefficients)
    ensures forall v: seq<real> :: Linear(r, v) == Linear(cs, v) + Mul(a, At(v, z))
    ensures forall d: seq<nat> :: Load(r, d) <= Load(cs, d) + LoadAt(d, z)
    ensures forall k :: 0 <= k < |r| ==> r[k].0 == z || exists l :: 0 <= l < |cs| && cs[l].0 == r[k].0
  {
    for k := 0 to |cs|
      invariant forall l :: 0 <= l < k ==> cs[l].0 != z
    {
      if cs[k].0 == z {
        r := cs[k := (z, cs[k].1 + a)];
        forall v: seq<real> ensures Linear(r, v) == Linear(cs, v) + Mul(a, At(v, z)) { LinearMore(cs, k, a, v); }
        forall d: seq<nat> ensures Load(r, d) <= Load(cs, d) + LoadAt(d, z) { LoadMore(cs, k, a, d); }
        return;
      }
    }
    r := cs + [(z, a)];
    forall v: seq<real> ensures Linear(r, v) == Linear(cs, v) + Mul(a, At(v, z)) { LinearOne(cs, z, a, v); }
    forall d: seq<nat> ensures Load(r, d) <= Load(cs, d) + LoadAt(d, z) { LoadOne(cs, z, a, d); }
  }

  lemma CollectsConstant(ts: seq<Term>, cs: Coefficients, b: real, t: Term)
    requires Collects(ts, cs, b) && t.base.None?
    ensures Collects(ts + [t], cs, b + t.b)
  {
    forall v: seq<real> ensures TermTotal(ts + [t], v) == Linear(cs, v) + (b + t.b) { TermTotalOne(ts, t, v); }
    forall d: seq<nat> ensures Load(cs, d) <= TermLoad(ts + [t], d) { TermLoadOne(ts, t, d); }
    forall k | 0 <= k < |cs| ensures HasTerm(ts + [t], cs[k].0) { HasTermOne(ts, t, cs[k].0); }
  }

  lemma CollectsTerm(ts: seq<Term>, cs: Coefficients, b: real, t: Term, r: Coefficients)
    requires Collects(ts, cs, b) && t.base.Some?
    requires forall v: seq<real> :: Linear(r, v) == Linear(cs, v) + Mul(t.a, At(v, t.base.value))
    requires forall d: seq<nat> :: Load(r, d) <= Load(cs, d) + LoadAt(d, t.base.value)
    requires forall k :: 0 <= k < |r| ==> r[k].0 == t.base.value || exists l :: 0 <= l < |cs| && cs[l].0 == r[k].0
    ensures Collects(ts + [t], r, b + t.b)
  {
    hide Mul;
    hide Linear;
    hide Load;
    hide HasTerm;
    forall v: seq<real> ensures TermTotal(ts + [t], v) == Linear(r, v) + (b + t.b) { TermTotalOne(ts, t, v); }
    hide TermTotal;
    forall d: seq<nat> ensures Load(r, d) <= TermLoad(ts + [t], d) { TermLoadOne(ts, t, d); }
    hide TermLoad;
    forall k | 0 <= k < |r| ensures HasTerm(ts + [t], r[k].0) { HasTermOne(ts, t, r[k].0); }
  }

  /** Collects the terms by their variables, in the order in which these appear. */
  method Collect(ts: seq<Term>) returns (cs: Coefficients, b: real, constants: nat)
    ensures Collects(ts, cs, b)
  {
    cs, b, constants := [], 0.0, 0;
    assert ts[..0] == [];
    assert Collects(ts[..0], cs, b);
    hide Collects;
    hide Linear;
    hide Load;
    for i := 0 to |ts|
      invariant Collects(ts[..i], cs, b)
    {
      var t := ts[i];
      assert ts[..i + 1] == ts[..i] + [t];
      if t.base.None? {
        CollectsConstant(ts[..i], cs, b, t);
        constants := constants + 1;
      } else {
        var r := AddTerm(cs, t.base.value, t.a);
        CollectsTerm(ts[..i], cs, b, t, r);
        cs := r;
      }
      b := b + t.b;
    }
    assert ts[..|ts|] == ts;
  }

  /** Without the variables that cancel. */
  function NonZero(cs: Coefficients): Coefficients {
    if cs == [] then []
    else NonZero(cs[..|cs| - 1]) + if cs[|cs| - 1].1 != 0.0 then [cs[|cs| - 1]] else []
  }

  lemma {:induction false} NonZeroLinear(cs: Coefficients, v: seq<real>, d: seq<nat>)
    ensures Linear(NonZero(cs), v) == Linear(cs, v) && Load(NonZero(cs), d) <= Load(cs, d)
    ensures forall k :: 0 <= k < |NonZero(cs)| ==> exists l :: 0 <= l < |cs| && cs[l] == NonZero(cs)[k]
  {
    if cs != [] {
      var init, last := cs[..|cs| - 1], cs[|cs| - 1];
      NonZeroLinear(init, v, d);
      LinearOne(NonZero(init), last.0, last.1, v);
      LoadOne(NonZero(init), last.0, last.1, d);
      MulZero(At(v, last.0));
      assert NonZero(init) + [] == NonZero(init);
      forall k | 0 <= k < |NonZero(cs)| ensures exists l :: 0 <= l < |cs| && cs[l] == NonZero(cs)[k] {
        if k < |NonZero(init)| {
          var l :| 0 <= l < |init| && init[l] == NonZero(init)[k];
          assert cs[l] == init[l];
        }
      }
    }
  }
}
