/** Collecting the terms of a sum: the rebuilt sum has one term for each random variable. */
module AggregationRule {
  import opened Outcomes
  import opened Reals
  import opened PostOrder
  import opened ScalarNet
  import opened LinearTerms
  import opened PeepholeRules
  import opened CoefficientSums

  // ----- The terms of a sum -----

  ghost function DepthsOf(net: Net, rank: seq<nat>): seq<nat>
    requires Ranked(net, rank)
  {
    seq(|net.kind|, (g: nat) requires g < |net.kind| => Depth(net, rank, g))
  }

  ghost predicate AreTerms(net: Net, rank: seq<nat>, ws: seq<nat>, ts: seq<Term>)
    requires Ranked(net, rank) && forall i :: 0 <= i < |ws| ==> ws[i] < |net.kind|
  {
    |ts| == |ws| && forall i :: 0 <= i < |ws| ==> DecomposeLinearTerm(net, rank, ws[i]) == Some(ts[i])
  }

  lemma {:induction false} TermsAreValues(net: Net, rank: seq<nat>, w: Draw, ws: seq<nat>, top: nat, ts: seq<Term>)
    requires Ranked(net, rank) && Below(rank, ws, top) && AreTerms(net, rank, ws, ts)
    ensures Sum(Values(net, rank, w, ws, top)) == TermTotal(ts, ValueAt(net, rank, w))
    decreases |ws|
  {
    hide Value;
    hide DecomposeLinearTerm;
    hide TermValue;
    if ws != [] {
      var n := |ws| - 1;
      TermsAreValues(net, rank, w, ws[..n], top, ts[..n]);
      assert ws == ws[..n] + [ws[n]];
      ValuesAppend(net, rank, w, ws[..n], ws[n], top);
      hide Values;
      SumOne(Values(net, rank, w, ws[..n], top), Value(net, rank, w, ws[n]));
      TermIsValue(net, rank, w, ws[n]);
    }
  }

  lemma {:induction false} TermsLoad(net: Net, rank: seq<nat>, ws: seq<nat>, top: nat, ts: seq<Term>)
    requires Ranked(net, rank) && Below(rank, ws, top) && AreTerms(net, rank, ws, ts)
    ensures TermLoad(ts, DepthsOf(net, rank)) <= DepthSum(net, rank, ws, top)
    decreases |ws|
  {
    hide Depth;
    hide DecomposeLinearTerm;
    if ws != [] {
      var n := |ws| - 1;
      TermsLoad(net, rank, ws[..n], top, ts[..n]);
      TermHasBase(net, rank, ws[n]);
    }
  }

  lemma TermBase(net: Net, rank: seq<nat>, ws: seq<nat>, top: nat, ts: seq<Term>, z: nat)
    requires Ranked(net, rank) && Below(rank, ws, top) && AreTerms(net, rank, ws, ts) && HasTerm(ts, z)
    ensures z < |net.kind| && net.kind[z] in {RvGate, MixtureGate} && rank[z] < top
  {
    var i :| 0 <= i < |ts| && ts[i].base == Some(z);
    TermHasBase(net, rank, ws[i]);
  }

  // ----- New gates beside old ones -----

  /** b has more gates than a; those of a are as they were. */
  ghost predicate Grew(lib: Library, a: Net, ra: seq<nat>, b: Net, rb: seq<nat>) {
    && Keeps(lib, a, ra, b, rb) && Extends(a, b)
    && (forall h: nat :: h < |a.kind| ==> Depth(b, rb, h) == Depth(a, ra, h))
    && (forall h: nat, g: nat :: h < |a.kind| && g < |a.kind| && ra[h] < ra[g] ==> rb[h] < rb[g])
  }

  lemma GrewSame(lib: Library, a: Net, ra: seq<nat>)
    requires Ranked(a, ra)
    ensures Grew(lib, a, ra, a, ra)
  {
  }

  lemma GrewTrans(lib: Library, a: Net, ra: seq<nat>, b: Net, rb: seq<nat>, c: Net, rc: seq<nat>)
    requires Grew(lib, a, ra, b, rb) && Grew(lib, b, rb, c, rc)
    ensures Grew(lib, a, ra, c, rc)
  {
    KeepsTrans(lib, a, ra, b, rb, c, rc);
    hide Keeps;
    hide Depth;
    assert forall h: nat :: h < |a.kind| ==> Depth(b, rb, h) == Depth(a, ra, h);
  }

  lemma AppendGrows(lib: Library, net: Net, rank: seq<nat>, k: Kind, ws: seq<nat>, top: nat)
    requires Ranked(net, rank) && top < |net.kind| && rank[top] > 0 && Below(rank, ws, rank[top])
    ensures Grew(lib, net, rank, Appended(net, k, ws), Room(rank, top))
    ensures Room(rank, top)[|net.kind|] < Room(rank, top)[top] && Room(rank, top)[top] > 0
  {
    AppendKeeps(lib, net, rank, k, ws, top);
  }

  lemma GrewValue(lib: Library, a: Net, ra: seq<nat>, b: Net, rb: seq<nat>, w: Draw, h: nat)
    requires Grew(lib, a, ra, b, rb) && w.lib == lib && h < |a.kind|
    ensures Value(b, rb, w, h) == Value(a, ra, w, h) && Depth(b, rb, h) == Depth(a, ra, h)
  {
  }

  lemma GrewWires(lib: Library, a: Net, ra: seq<nat>, b: Net, rb: seq<nat>, w: Draw, ws: seq<nat>, g: nat)
    requires Grew(lib, a, ra, b, rb) && w.lib == lib && g < |a.kind| && Below(ra, ws, ra[g])
    ensures Below(rb, ws, rb[g])
    ensures Values(b, rb, w, ws, rb[g]) == Values(a, ra, w, ws, ra[g]) && DepthSum(b, rb, ws, rb[g]) == DepthSum(a, ra, ws, ra[g])
  {
    forall i | 0 <= i < |ws| ensures Value(b, rb, w, ws[i]) == Value(a, ra, w, ws[i]) && Depth(b, rb, ws[i]) == Depth(a, ra, ws[i]) {
      GrewValue(lib, a, ra, b, rb, w, ws[i]);
    }
    assert Below(rb, ws, rb[g]);
    hide Value;
    hide Depth;
    hide Keeps;
    ValuesSame(a, ra, b, rb, w, ws, ra[g], rb[g]);
    DepthSumAtMost(a, ra, b, rb, ws, ra[g], rb[g]);
    DepthSumAtMost(b, rb, a, ra, ws, rb[g], ra[g]);
  }

  /** The net with a constant, and the product of it and z, below top. */
  function WithScaled(net: Net, a: real, z: nat): Net {
    Appended(Appended(net, ValueGate(Some(a)), []), ArithGate(TIMES), [|net.kind|, z])
  }

  lemma ScaledGrows(lib: Library, net: Net, rank: seq<nat>, a: real, z: nat, top: nat)
    requires Ranked(net, rank) && top < |net.kind| && z < |net.kind| && rank[z] < rank[top]
    ensures |Room(rank, top)| > |rank| && Room(rank, top)[top] > 0
    ensures var net', rank', n := WithScaled(net, a, z), Room(Room(rank, top), top), |net.kind|;
            && Grew(lib, net, rank, net', rank') && rank'[n + 1] < rank'[top] && Depth(net', rank', n + 1) == Depth(net, rank, z)
            && forall w: Draw :: w.lib == lib ==> Value(net', rank', w, n + 1) == Mul(a, Value(net, rank, w, z))
  {
    hide Value;
    hide Depth;
    var n := |net.kind|;
    var net1, rank1 := Appended(net, ValueGate(Some(a)), []), Room(rank, top);
    AppendGrows(lib, net, rank, ValueGate(Some(a)), [], top);
    assert Below(rank1, [n, z], rank1[top]);
    var net2, rank2 := WithScaled(net, a, z), Room(rank1, top);
    AppendGrows(lib, net1, rank1, ArithGate(TIMES), [n, z], top);
    GrewTrans(lib, net, rank, net1, rank1, net2, rank2);
    hide Grew;
    forall w: Draw | w.lib == lib
      ensures Value(net2, rank2, w, n + 1) == Mul(a, Value(net, rank, w, z)) && Depth(net2, rank2, n + 1) == Depth(net, rank, z)
    {
      ScaledAt(lib, net, rank, w, a, z, top);
    }
    var w := Draw(lib, g => 0, (g, xs) => 0.0);
    assert Depth(net2, rank2, n + 1) == Depth(net, rank, z);
  }

  lemma ScaledAt(lib: Library, net: Net, rank: seq<nat>, w: Draw, a: real, z: nat, top: nat)
    requires Ranked(net, rank) && top < |net.kind| && z < |net.kind| && rank[z] < rank[top] && w.lib == lib
    requires var net1, rank1 := Appended(net, ValueGate(Some(a)), []), Room(rank, top);
             Grew(lib, net, rank, net1, rank1) && Below(rank1, [|net.kind|, z], rank1[top]) && rank1[top] > 0
    ensures var net2, rank2, n := WithScaled(net, a, z), Room(Room(rank, top), top), |net.kind|;
            Ranked(net2, rank2) && Value(net2, rank2, w, n + 1) == Mul(a, Value(net, rank, w, z)) && Depth(net2, rank2, n + 1) == Depth(net, rank, z)
  {
    var n := |net.kind|;
    var net1, rank1 := Appended(net, ValueGate(Some(a)), []), Room(rank, top);
    ConstantAdded(lib, net, rank, a, top, w);
    GrewValue(lib, net, rank, net1, rank1, w, z);
    NewGate(net1, rank1, ArithGate(TIMES), [n, z], top, w);
    NewDepth(lib, net1, rank1, ArithGate(TIMES), [n, z], top);
    TwoValues(net1, rank1, w, n, z, rank1[top]);
    FewTerms(lib, a, Value(net, rank, w, z));
    hide Value;
    hide Depth;
    hide Apply;
    hide Mul;
    hide Grew;
  }

  // ----- The rebuilt sum -----

  /** A wire of the rebuilt sum that is arithmetic is a new product. */
  ghost predicate IsNewTerm(n: nat, k: Kind, u: nat) {
    k.ArithGate? ==> k.op == TIMES && n <= u
  }

  ghost predicate NewTerms(n: nat, kinds: seq<Kind>, us: seq<nat>) {
    forall i :: 0 <= i < |us| ==> us[i] < |kinds| && IsNewTerm(n, kinds[us[i]], us[i])
  }

  ghost predicate SumsTo(lib: Library, net0: Net, rank0: seq<nat>, net: Net, rank: seq<nat>, top: nat, us: seq<nat>, cs: Coefficients, b: real)
    requires Ranked(net0, rank0) && Ranked(net, rank) && Below(rank, us, top)
  {
    forall w: Draw :: w.lib == lib ==> Sum(Values(net, rank, w, us, top)) == Linear(cs, ValueAt(net0, rank0, w)) + b
  }

  /** The wires us stand for the coefficients cs and the constant b, over the values in net0. */
  ghost predicate Rebuilt(lib: Library, net0: Net, rank0: seq<nat>, net: Net, rank: seq<nat>, g: nat, us: seq<nat>,
                          cs: Coefficients, b: real) {
    && Grew(lib, net0, rank0, net, rank) && g < |net0.kind| && Below(rank, us, rank[g])
    && SumsTo(lib, net0, rank0, net, rank, rank[g], us, cs, b)
    && DepthSum(net, rank, us, rank[g]) <= Load(cs, DepthsOf(net0, rank0))
    && NewTerms(|net0.kind|, net.kind, us)
  }

  lemma NewTermsMore(n: nat, a: seq<Kind>, b: seq<Kind>, us: seq<nat>, u: nat)
    requires NewTerms(n, a, us) && a <= b && u < |b| && IsNewTerm(n, b[u], u)
    ensures NewTerms(n, b, us + [u])
  {
  }

  lemma NothingRebuilt(lib: Library, net: Net, rank: seq<nat>, g: nat)
    requires Ranked(net, rank) && g < |net.kind|
    ensures Rebuilt(lib, net, rank, net, rank, g, [], [], 0.0)
  {
    GrewSame(lib, net, rank);
  }

  /** One more wire for the next coefficient. */
  lemma RebuildStep(lib: Library, net0: Net, rank0: seq<nat>, net: Net, rank: seq<nat>, net': Net, rank': seq<nat>, g: nat, us: seq<nat>,
                    cs: Coefficients, z: nat, a: real, u: nat)
    requires Rebuilt(lib, net0, rank0, net, rank, g, us, cs, 0.0) && Grew(lib, net, rank, net', rank')
    requires z < |net0.kind| && u < |net'.kind| && rank'[u] < rank'[g] && IsNewTerm(|net0.kind|, net'.kind[u], u)
    requires forall w: Draw :: w.lib == lib ==> Value(net', rank', w, u) == Mul(a, Value(net, rank, w, z))
    requires Depth(net', rank', u) == Depth(net, rank, z)
    ensures Rebuilt(lib, net0, rank0, net', rank', g, us + [u], cs + [(z, a)], 0.0)
  {
    hide Value;
    hide Depth;
    hide Linear;
    hide Load;
    GrewTrans(lib, net0, rank0, net, rank, net', rank');
    NewTermsMore(|net0.kind|, net.kind, net'.kind, us, u);
    forall w: Draw | w.lib == lib
      ensures Below(rank', us + [u], rank'[g])
      ensures Sum(Values(net', rank', w, us + [u], rank'[g])) == Linear(cs + [(z, a)], ValueAt(net0, rank0, w))
      ensures DepthSum(net', rank', us + [u], rank'[g]) <= Load(cs + [(z, a)], DepthsOf(net0, rank0))
    {
      RebuildAt(lib, net0, rank0, net, rank, net', rank', g, us, cs, z, a, u, w);
    }
    var w := Draw(lib, g => 0, (g, xs) => 0.0);
    assert DepthSum(net', rank', us + [u], rank'[g]) <= Load(cs + [(z, a)], DepthsOf(net0, rank0));
  }

  lemma RebuildAt(lib: Library, net0: Net, rank0: seq<nat>, net: Net, rank: seq<nat>, net': Net, rank': seq<nat>, g: nat, us: seq<nat>,
                  cs: Coefficients, z: nat, a: real, u: nat, w: Draw)
    requires Rebuilt(lib, net0, rank0, net, rank, g, us, cs, 0.0) && Grew(lib, net, rank, net', rank') && w.lib == lib
    requires z < |net0.kind| && u < |net'.kind| && rank'[u] < rank'[g]
    requires Value(net', rank', w, u) == Mul(a, Value(net, rank, w, z)) && Depth(net', rank', u) == Depth(net, rank, z)
    ensures Below(rank', us + [u], rank'[g])
    ensures Sum(Values(net', rank', w, us + [u], rank'[g])) == Linear(cs + [(z, a)], ValueAt(net0, rank0, w))
    ensures DepthSum(net', rank', us + [u], rank'[g]) <= Load(cs + [(z, a)], DepthsOf(net0, rank0))
  {
    GrewWires(lib, net, rank, net', rank', w, us, g);
    GrewValue(lib, net0, rank0, net, rank, w, z);
    hide Value;
    hide Depth;
    hide Grew;
    ValuesAppend(net', rank', w, us, u, rank'[g]);
    DepthAppend(net', rank', us, u, rank'[g]);
    hide Values;
    SumOne(Values(net', rank', w, us, rank'[g]), Value(net', rank', w, u));
    LinearOne(cs, z, a, ValueAt(net0, rank0, w));
    LoadOne(cs, z, a, DepthsOf(net0, rank0));
    hide Linear;
    hide Load;
    hide Sum;
    hide DepthSum;
    hide Mul;
  }

  /** A last wire for the constant. */
  lemma RebuildConstant(lib: Library, net0: Net, rank0: seq<nat>, net: Net, rank: seq<nat>, g: nat, us: seq<nat>, cs: Coefficients, b: real)
    requires Rebuilt(lib, net0, rank0, net, rank, g, us, cs, 0.0) && rank[g] > 0
    ensures var net', rank' := Appended(net, ValueGate(Some(b)), []), Room(rank, g);
            Rebuilt(lib, net0, rank0, net', rank', g, us + [|net.kind|], cs, b)
  {
    hide Value;
    hide Depth;
    hide Linear;
    hide Load;
    var net', rank', n := Appended(net, ValueGate(Some(b)), []), Room(rank, g), |net.kind|;
    AppendGrows(lib, net, rank, ValueGate(Some(b)), [], g);
    GrewTrans(lib, net0, rank0, net, rank, net', rank');
    NewTermsMore(|net0.kind|, net.kind, net'.kind, us, n);
    forall w: Draw | w.lib == lib
      ensures Below(rank', us + [n], rank'[g])
      ensures Sum(Values(net', rank', w, us + [n], rank'[g])) == Linear(cs, ValueAt(net0, rank0, w)) + b
      ensures DepthSum(net', rank', us + [n], rank'[g]) <= Load(cs, DepthsOf(net0, rank0))
    {
      ConstantAt(lib, net0, rank0, net, rank, g, us, cs, b, w);
    }
    hide Grew;
    hide NewTerms;
    var w := Draw(lib, g => 0, (g, xs) => 0.0);
    assert DepthSum(net', rank', us + [n], rank'[g]) <= Load(cs, DepthsOf(net0, rank0));
  }

  lemma ConstantAt(lib: Library, net0: Net, rank0: seq<nat>, net: Net, rank: seq<nat>, g: nat, us: seq<nat>, cs: Coefficients, b: real, w: Draw)
    requires Rebuilt(lib, net0, rank0, net, rank, g, us, cs, 0.0) && rank[g] > 0 && w.lib == lib
    requires Grew(lib, net, rank, Appended(net, ValueGate(Some(b)), []), Room(rank, g))
    ensures var net', rank', n := Appended(net, ValueGate(Some(b)), []), Room(rank, g), |net.kind|;
            && Below(rank', us + [n], rank'[g])
            && Sum(Values(net', rank', w, us + [n], rank'[g])) == Linear(cs, ValueAt(net0, rank0, w)) + b
            && DepthSum(net', rank', us + [n], rank'[g]) <= Load(cs, DepthsOf(net0, rank0))
  {
    hide Value;
    hide Depth;
    hide Linear;
    hide Load;
    var net', rank', n := Appended(net, ValueGate(Some(b)), []), Room(rank, g), |net.kind|;
    GrewWires(lib, net, rank, net', rank', w, us, g);
    ConstantAdded(lib, net, rank, b, g, w);
    ValuesAppend(net', rank', w, us, n, rank'[g]);
    DepthAppend(net', rank', us, n, rank'[g]);
    hide Values;
    SumOne(Values(net', rank', w, us, rank'[g]), b);
  }
}
