/** Each step of folding keeps what the marks promise, and so does every run. */
module FoldProtection {
  import opened SemiringAlgebra
  import opened PostOrder
  import opened ProvenanceNet
  import opened FoldMeasure
  import opened FoldRules
  import opened FoldSteps
  import opened FoldMarks

  // ----- Constants -----

  /** A constant gate was always that constant. */
  lemma WasConstant<V(!new)>(v: View<V>, net: Net, g: nat)
    requires ViewOk(v) && Constants(v, net) && g < |net.kind|
    ensures net.kind[g] == OneGate ==> AlwaysOne(v.before, v.rank, g) && Was(v, g) == v.r.semiring.one
    ensures net.kind[g] == ZeroGate ==> AlwaysZero(v.before, v.rank, g) && Was(v, g) == v.r.semiring.zero
  {
    hide IsSemiring;
    hide IsAbsorptive;
    if net.kind[g] == ZeroGate {
      assert !Value(net, v.rank, Truth(true), g);
      ZeroInAny(v.before, v.rank, v.r, g);
    }
    if net.kind[g] == OneGate {
      assert Value(net, v.rank, Truth(false), g);
    }
  }

  lemma DropsKeep<V(!new)>(a: Net, b: Net, rank: seq<nat>, r: Reading<V>, g: nat, marks: seq<bool>)
    requires Ranked(a, rank) && IsLattice(r.semiring) && DropsAt(a, b, g, marks)
    ensures SameMeaning(a, b, rank, r)
  {
    assert Admits(BooleanLevel, r.semiring);
    if OnlyRepeats(a.wires[g], marks) {
      DropRepeats(a, rank, r, BooleanLevel, g, marks);
    } else {
      DropDominated(a, rank, r, BooleanLevel, g, marks);
    }
  }

  lemma UnitsKeep<V(!new)>(a: Net, b: Net, rank: seq<nat>, r: Reading<V>, g: nat, marks: seq<bool>)
    requires Ranked(a, rank) && IsSemiring(r.semiring) && UnitsAt(a, b, g, marks)
    ensures SameMeaning(a, b, rank, r)
  {
    DropIdentities(a, rank, r, g, marks);
  }

  lemma OneKeeps<V(!new)>(a: Net, b: Net, rank: seq<nat>, r: Reading<V>, g: nat)
    requires Ranked(a, rank) && IsAbsorptive(r.semiring) && OneAt(a, b, g)
    ensures SameMeaning(a, b, rank, r)
  {
    var k :| 0 <= k < |a.wires[g]| && a.wires[g][k] < |a.kind| && a.kind[a.wires[g][k]] == OneGate;
    OneInSum(a, rank, r, g, k);
  }

  /** Where a chain of collapses leads. */
  lemma {:induction false} ChainKeeps<V(!new)>(a: Net, rank: seq<nat>, r: Reading<V>, m: map<nat, nat>, found: map<nat, nat>, x: nat)
    requires Ranked(a, rank) && IsSemiring(r.semiring) && Avoids(a, m) && (x !in m) && x < |a.kind|
    requires forall g :: g in found ==> CollapsesTo(a, g, found[g])
    ensures End(rank, m + found, x) < |a.kind| && Value(a, rank, r, End(rank, m + found, x)) == Value(a, rank, r, x)
    ensures x in found ==> rank[End(rank, m + found, x)] < rank[x]
    ensures rank[End(rank, m + found, x)] <= rank[x]
    decreases rank[x]
  {
    hide Value;
    if x in found {
      CollapseValue(a, rank, r, x, found[x]);
      assert found[x] in a.wires[x];
      ChainKeeps(a, rank, r, m, found, found[x]);
    }
  }

  lemma CollapsesKeep<V(!new)>(a: FoldState, b: FoldState, rank: seq<nat>, r: Reading<V>, found: map<nat, nat>, subst: map<nat, nat>)
    requires Good(rank, a) && IsSemiring(r.semiring) && CollapsesBy(rank, a, b, found, subst)
    ensures SameMeaning(a.net, b.net, rank, r)
  {
    hide IsSemiring;
    forall g | g in subst
      ensures g < |a.net.kind| && subst[g] < |a.net.kind| && rank[subst[g]] < rank[g] && Value(a.net, rank, r, subst[g]) == Value(a.net, rank, r, g)
    {
      assert CollapsesTo(a.net, g, found[g]);
      ChainKeeps(a.net, rank, r, a.redirect, found, g);
    }
    assert SubstOk(a.net, rank, r, subst);
    RewireKeeps(a.net, rank, r, subst);
  }

  lemma LatticeParts<V(!new)>(s: Semiring<V>)
    requires IsLattice(s)
    ensures IsSemiring(s) && IsAbsorptive(s)
  {
  }

  /** Every step keeps all values in a lattice. */
  lemma StepKeeps<V(!new)>(rank: seq<nat>, id2uuid: map<nat, Uuid>, a: FoldState, b: FoldState, r: Reading<V>)
    requires Step(rank, id2uuid, a, b) && IsLattice(r.semiring)
    ensures SameMeaning(a.net, b.net, rank, r)
  {
    hide IsSemiring;
    hide IsLattice;
    hide IsAbsorptive;
    hide Value;
    LatticeParts(r.semiring);
    if Tidies(a, b) {
      if g, marks :| UnitsAt(a.net, b.net, g, marks) {
        UnitsKeep(a.net, b.net, rank, r, g, marks);
      } else {
        var g :| EmptyAt(a.net, b.net, g);
        CollapseEmpty(a.net, rank, r, g);
      }
    } else if Fires(a, b) {
      var g :| RuleAt(a.net, b.net, g) && b == Marked(a, g).(net := b.net);
      if marks :| DropsAt(a.net, b.net, g, marks) {
        DropsKeep(a.net, b.net, rank, r, g, marks);
      } else {
        OneKeeps(a.net, b.net, rank, r, g);
      }
    } else if found, subst :| CollapsesBy(rank, a, b, found, subst) {
      CollapsesKeep(a, b, rank, r, found, subst);
    }
  }

  lemma ConstantsStep<V(!new)>(v: View<V>, id2uuid: map<nat, Uuid>, a: FoldState, b: FoldState)
    requires Step(v.rank, id2uuid, a, b) && Constants(v, a.net)
    ensures Constants(v, b.net)
  {
    hide IsLattice;
    hide Step;
    hide SameMeaning;
    TruthIsLattice(false);
    TruthIsLattice(true);
    StepKeeps(v.rank, id2uuid, a, b, Truth(false));
    StepKeeps(v.rank, id2uuid, a, b, Truth(true));
    SameTrans(v.before, a.net, b.net, v.rank, Truth(false));
    SameTrans(v.before, a.net, b.net, v.rank, Truth(true));
  }

  // ----- One gate changes -----

  lemma DoubtGrows<V(!new)>(v: View<V>, a: FoldState, b: FoldState, k: nat)
    requires Ranked(v.before, v.rank) && k < |v.before.kind| && a.redirect == b.redirect && Minded(v, a) <= Minded(v, b)
    ensures Doubtful(v, a, k) ==> Doubtful(v, b, k)
  {
    hide AlwaysOne;
    hide AlwaysZero;
    if Doubtful(v, a, k) {
      var g :| g in Minded(v, a) && End(v.rank, a.redirect, g) == k;
      assert g in Minded(v, b);
    }
  }

  /** An unchanged gate keeps what it has, since marks only grow. */
  lemma OtherGate<V(!new)>(v: View<V>, a: FoldState, b: FoldState, h: nat)
    requires Fits(v, a.net) && Fits(v, b.net) && a.redirect == b.redirect && Minded(v, a) <= Minded(v, b)
    requires h < |a.net.kind| && b.net.kind[h] == a.net.kind[h] && b.net.wires[h] == a.net.wires[h]
    ensures Exact(v, a, h) ==> Exact(v, b, h)
    ensures Ordered(v, a, h) ==> Ordered(v, b, h)
  {
    hide Was;
    hide WireWas;
    hide Doubtful;
    hide Local;
    hide Minded;
    assert WireWas(v, a.net, h) == WireWas(v, b.net, h);
    assert Below(v.rank, a.net.wires[h], v.rank[h]);
    forall w | w in a.net.wires[h] ensures w < |a.net.kind| && (Doubtful(v, a, w) ==> Doubtful(v, b, w)) {
      DoubtGrows(v, a, b, w);
    }
  }

  /** One gate changed, with all that it needs. */
  lemma GateStep<V(!new)>(v: View<V>, names: map<Uuid, nat>, a: FoldState, b: FoldState, g: nat)
    requires Inv(v, names, a) && Good(v.rank, b) && Constants(v, b.net)
    requires a.redirect == b.redirect && a.names == b.names && Minded(v, a) <= Minded(v, b)
    requires forall h: nat :: h < |a.net.kind| && h != g ==> b.net.kind[h] == a.net.kind[h] && b.net.wires[h] == a.net.wires[h]
    requires g < |b.net.kind| && Exact(v, b, g) && (!v.both ==> Ordered(v, b, g))
    ensures Inv(v, names, b)
  {
    hide ViewOk;
    hide Constants;
    hide Exact;
    hide Ordered;
    hide Minded;
    assert AllExact(v, a) && (!v.both ==> AllOrdered(v, a));
    forall h: nat | h < |b.net.kind| ensures Exact(v, b, h) && (!v.both ==> Ordered(v, b, h)) {
      if h != g {
        assert Exact(v, a, h) && (!v.both ==> Ordered(v, a, h));
        OtherGate(v, a, b, h);
      }
    }
    assert AllExact(v, b) && (!v.both ==> AllOrdered(v, b));
    LedStays(v, a, b);
    NamedStays(v, names, a, b);
  }

  lemma LedStays<V(!new)>(v: View<V>, a: FoldState, b: FoldState)
    requires Fits(v, a.net) && Fits(v, b.net) && AllLed(v, a) && a.redirect == b.redirect && Minded(v, a) <= Minded(v, b)
    ensures AllLed(v, b)
  {
    hide Minded;
    hide Was;
    hide Doubtful;
    forall g | g in b.redirect ensures Led(v, b, g) {
      assert Led(v, a, g);
      DoubtGrows(v, a, b, End(v.rank, a.redirect, g));
    }
  }

  lemma NamedStays<V(!new)>(v: View<V>, names: map<Uuid, nat>, a: FoldState, b: FoldState)
    requires Fits(v, a.net) && Fits(v, b.net) && AllNamed(v, names, a) && a.names == b.names && Minded(v, a) <= Minded(v, b)
    ensures AllNamed(v, names, b)
  {
    hide Minded;
    hide Was;
    forall u | u in names ensures NameKept(v, b, names, u) {
      assert NameKept(v, a, names, u);
    }
  }

  /** A gate that is constant now has its value. */
  lemma ConstantGate<V(!new)>(v: View<V>, b: FoldState, g: nat)
    requires ViewOk(v) && Fits(v, b.net) && Constants(v, b.net) && g < |b.net.kind| && (b.net.kind[g] == OneGate || b.net.kind[g] == ZeroGate)
    ensures Exact(v, b, g) && Ordered(v, b, g)
  {
    WasConstant(v, b.net, g);
  }

  /** The old values of chosen wires. */
  lemma ChosenWas<V(!new)>(v: View<V>, a: Net, b: Net, g: nat, marks: seq<bool>)
    requires Fits(v, a) && Fits(v, b) && g < |a.kind| && |marks| == |a.wires[g]| && b.wires[g] == Chosen(a.wires[g], marks, true)
    ensures WireWas(v, b, g) == Chosen(WireWas(v, a, g), marks, true)
  {
    hide Value;
    assert Below(v.rank, a.wires[g], v.rank[g]);
    ChosenValues(v.before, v.rank, v.r, a.wires[g], v.rank[g], marks);
  }

  lemma UnitWas<V(!new)>(v: View<V>, net: Net, kind: Kind, w: nat)
    requires ViewOk(v) && Constants(v, net) && w < |net.kind| && net.kind[w] == IdentityOf(kind) && Combines(kind)
    ensures Was(v, w) == MonoidOf(v.r.semiring, kind).unit && Constant(v, w)
  {
    WasConstant(v, net, w);
  }

  lemma ViewMonoid<V(!new)>(v: View<V>, kind: Kind)
    requires ViewOk(v)
    ensures IsMonoid(MonoidOf(v.r.semiring, kind))
  {
  }

  lemma UnitsWires(a: Net, b: Net, g: nat, marks: seq<bool>)
    requires UnitsAt(a, b, g, marks)
    ensures g < |b.kind| == |a.kind| && |b.wires| == |a.wires| && b.wires[g] == Chosen(a.wires[g], marks, true)
  {
  }

  /** Wires go, and with them nothing but units. */
  lemma UnitsFold<V(!new)>(v: View<V>, a: Net, b: Net, g: nat, marks: seq<bool>)
    requires ViewOk(v) && Constants(v, a) && Fits(v, a) && Fits(v, b) && UnitsAt(a, b, g, marks)
    ensures var m := MonoidOf(v.r.semiring, a.kind[g]); Fold(m, WireWas(v, b, g)) == Fold(m, WireWas(v, a, g))
  {
    var m, vals := MonoidOf(v.r.semiring, a.kind[g]), WireWas(v, a, g);
    UnitsWires(a, b, g, marks);
    ViewMonoid(v, a.kind[g]);
    ChosenWas(v, a, b, g, marks);
    DroppedUnits(v, a, b, g, marks, Fold(m, Chosen(vals, marks, true)));
    hide *;
    DropAbsorbed(m, vals, marks);
  }

  lemma DroppedUnits<V(!new)>(v: View<V>, a: Net, b: Net, g: nat, marks: seq<bool>, x: V)
    requires ViewOk(v) && Constants(v, a) && Fits(v, a) && Fits(v, b) && UnitsAt(a, b, g, marks)
    ensures forall i :: 0 <= i < |marks| && !marks[i] ==> Absorbs(MonoidOf(v.r.semiring, a.kind[g]), x, WireWas(v, a, g)[i])
  {
    hide ViewOk;
    hide IsMonoid;
    hide Constants;
    hide WireWas;
    hide Ranked;
    hide Was;
    var m := MonoidOf(v.r.semiring, a.kind[g]);
    ViewMonoid(v, a.kind[g]);
    Unit(m, x);
    forall i | 0 <= i < |marks| && !marks[i] ensures Absorbs(m, x, WireWas(v, a, g)[i]) {
      UnitWas(v, a, a.kind[g], a.wires[g][i]);
    }
  }

  lemma UnitsConstant<V(!new)>(v: View<V>, a: Net, b: Net, g: nat, marks: seq<bool>)
    requires ViewOk(v) && Constants(v, a) && Fits(v, a) && Fits(v, b) && UnitsAt(a, b, g, marks)
    ensures forall w :: w in a.wires[g] ==> w in b.wires[g] || (w < |a.kind| && Constant(v, w))
    ensures forall w :: w in b.wires[g] ==> w in a.wires[g]
  {
    hide ViewOk;
    hide Constants;
    hide Constant;
    hide Was;
    UnitsWires(a, b, g, marks);
    forall w | w in a.wires[g] ensures w in b.wires[g] || (w < |a.kind| && Constant(v, w)) {
      var i :| 0 <= i < |marks| && a.wires[g][i] == w;
      if marks[i] {
        ChosenIn(a.wires[g], marks, i);
      } else {
        UnitWas(v, a, a.kind[g], w);
      }
    }
    forall w | w in b.wires[g] ensures w in a.wires[g] {
      InChosen(a.wires[g], marks, true, w);
    }
  }

  /** What gate g needs in b follows from what it had in a, if its operation over the old
      values of its wires is the same, and wires that went were constant. */
  lemma SameFold<V(!new)>(v: View<V>, a: FoldState, b: FoldState, g: nat)
    requires Fits(v, a.net) && Fits(v, b.net) && g < |a.net.kind| && a.net.kind[g] == b.net.kind[g] && Combines(a.net.kind[g])
    requires a.redirect == b.redirect && Minded(v, a) == Minded(v, b) && Exact(v, a, g)
    requires var m := MonoidOf(v.r.semiring, a.net.kind[g]); Fold(m, WireWas(v, b.net, g)) == Fold(m, WireWas(v, a.net, g))
    requires forall w :: w in a.net.wires[g] ==> w in b.net.wires[g] || (w < |a.net.kind| && Constant(v, w))
    requires forall w :: w in b.net.wires[g] ==> w in a.net.wires[g]
    ensures Exact(v, b, g) && (Ordered(v, a, g) ==> Ordered(v, b, g))
  {
    hide Minded;
    hide Was;
    hide WireWas;
    hide Constant;
    hide Doubtful;
    SameDoubts(v, a, b);
    assert Below(v.rank, a.net.wires[g], v.rank[g]);
    assert Firm(v, b, g) ==> Firm(v, a, g);
  }

  lemma SameDoubts<V(!new)>(v: View<V>, a: FoldState, b: FoldState)
    requires Ranked(v.before, v.rank) && a.redirect == b.redirect && Minded(v, a) == Minded(v, b)
    ensures forall w: nat :: w < |v.before.kind| ==> (Doubtful(v, a, w) <==> Doubtful(v, b, w)) && (Constant(v, w) ==> !Doubtful(v, a, w))
  {
    forall w: nat | w < |v.before.kind| ensures Doubtful(v, a, w) <==> Doubtful(v, b, w) {
      DoubtGrows(v, a, b, w);
      DoubtGrows(v, b, a, w);
    }
  }

  lemma UnitsStep<V(!new)>(v: View<V>, names: map<Uuid, nat>, a: FoldState, b: FoldState, g: nat, marks: seq<bool>)
    requires Inv(v, names, a) && Good(v.rank, b) && Constants(v, b.net) && b == a.(net := b.net) && UnitsAt(a.net, b.net, g, marks)
    ensures Inv(v, names, b)
  {
    hide ViewOk;
    hide Constants;
    hide Exact;
    hide Ordered;
    hide AllLed;
    hide AllNamed;
    assert Exact(v, a, g) && (!v.both ==> Ordered(v, a, g));
    UnitsFold(v, a.net, b.net, g, marks);
    UnitsConstant(v, a.net, b.net, g, marks);
    SameFold(v, a, b, g);
    GateStep(v, names, a, b, g);
  }

  lemma EmptyStep<V(!new)>(v: View<V>, names: map<Uuid, nat>, a: FoldState, b: FoldState, g: nat)
    requires Inv(v, names, a) && Good(v.rank, b) && Constants(v, b.net) && b == a.(net := b.net) && EmptyAt(a.net, b.net, g)
    ensures Inv(v, names, b)
  {
    hide ViewOk;
    hide Constants;
    hide Exact;
    hide Ordered;
    hide AllLed;
    hide AllNamed;
    ConstantGate(v, b, g);
    GateStep(v, names, a, b, g);
  }

  // ----- A rule fires -----

  lemma OneStep<V(!new)>(v: View<V>, names: map<Uuid, nat>, a: FoldState, b: FoldState, g: nat)
    requires Inv(v, names, a) && Good(v.rank, b) && Constants(v, b.net) && OneAt(a.net, b.net, g) && b == Marked(a, g).(net := b.net)
    ensures Inv(v, names, b)
  {
    hide ViewOk;
    hide Constants;
    hide Exact;
    hide Ordered;
    hide AllLed;
    hide AllNamed;
    ConstantGate(v, b, g);
    GateStep(v, names, a, b, g);
  }

  /** The sum of the old values of its terms is a firm sum's old value. */
  lemma SumExact<V(!new)>(v: View<V>, st: FoldState, g: nat)
    requires ViewOk(v) && Fits(v, st.net) && g < |st.net.kind| && st.net.kind[g] == PlusGate && Ordered(v, st, g)
    ensures Exact(v, st, g)
  {
    hide ViewOk;
    hide IsMonoid;
    hide Was;
    hide WireWas;
    hide Doubtful;
    ViewMonoid(v, PlusGate);
    if Firm(v, st, g) {
      TermsBelow(v, st, g);
      BothWays(Add(v), Was(v, g), WireWas(v, st.net, g));
    }
  }

  lemma TermsBelow<V(!new)>(v: View<V>, st: FoldState, g: nat)
    requires Fits(v, st.net) && g < |st.net.kind| && Firm(v, st, g) && OverTerms(v, st, g)
    ensures forall y :: y in WireWas(v, st.net, g) ==> Absorbs(Add(v), Was(v, g), y)
  {
    hide Was;
    hide WireWas;
    hide Doubtful;
    hide Absorbs;
    var vals := WireWas(v, st.net, g);
    forall y | y in vals ensures Absorbs(Add(v), Was(v, g), y) {
      var i :| 0 <= i < |vals| && vals[i] == y;
      assert st.net.wires[g][i] in st.net.wires[g];
    }
  }

  lemma BothWays<V(!new)>(m: Monoid<V>, x: V, vals: seq<V>)
    requires IsMonoid(m) && Absorbs(m, Fold(m, vals), x) && forall y :: y in vals ==> Absorbs(m, x, y)
    ensures Fold(m, vals) == x
  {
    hide IsMonoid;
    FoldAbsorbsAll(m, x, vals);
    Commute(m, x, Fold(m, vals));
  }

  lemma AbsorbsSelf<V(!new)>(s: Semiring<V>, x: V)
    requires IsAbsorptive(s)
    ensures Absorbs(s.Additive(), x, x)
  {
    hide IsAbsorptive;
    AbsorptiveLaws(s, x, x);
  }

  /** Some kept wire's old value is above that of wire i. */
  ghost predicate Covered<V(!new)>(v: View<V>, net: Net, g: nat, marks: seq<bool>, i: nat)
    requires Fits(v, net) && g < |net.kind| && i < |net.wires[g]|
  {
    |marks| == |net.wires[g]| && exists k :: 0 <= k < |marks| && marks[k] && Absorbs(Add(v), WireWas(v, net, g)[k], WireWas(v, net, g)[i])
  }

  lemma RepeatCovered<V(!new)>(v: View<V>, net: Net, g: nat, marks: seq<bool>, i: nat)
    requires Fits(v, net) && g < |net.kind| && i < |net.wires[g]| && OnlyRepeats(net.wires[g], marks) && IsAbsorptive(v.r.semiring)
    ensures Covered(v, net, g, marks, i)
  {
    hide IsAbsorptive;
    hide Was;
    hide WireWas;
    hide Absorbs;
    AbsorbsSelf(v.r.semiring, WireWas(v, net, g)[i]);
    if !marks[i] {
      InChosen(net.wires[g], marks, true, net.wires[g][i]);
      var k :| 0 <= k < |marks| && marks[k] && net.wires[g][k] == net.wires[g][i];
      assert WireWas(v, net, g)[k] == WireWas(v, net, g)[i];
    }
  }

  /** A dominated wire is covered by one that is kept: domination goes down in rank. */
  lemma {:induction false} DominatedCovered<V(!new)>(v: View<V>, st: FoldState, g: nat, marks: seq<bool>, i: nat)
    requires AllOrdered(v, st) && g < |st.net.kind| && st.net.kind[g] == PlusGate && IsAbsorptive(v.r.semiring)
    requires OnlyDominated(st.net, g, marks) && i < |marks|
    ensures Covered(v, st.net, g, marks, i)
    decreases if st.net.wires[g][i] < |v.rank| then v.rank[st.net.wires[g][i]] else 0
  {
    hide IsAbsorptive;
    hide Was;
    hide WireWas;
    hide Absorbs;
    hide Doubtful;
    var net, vals := st.net, WireWas(v, st.net, g);
    if marks[i] {
      AbsorbsSelf(v.r.semiring, vals[i]);
    } else {
      var c := net.wires[g][i];
      assert Dominated(net, g, c);
      var w :| w in net.wires[c] && w in net.wires[g];
      var j :| 0 <= j < |net.wires[g]| && net.wires[g][j] == w;
      assert Below(v.rank, net.wires[c], v.rank[c]);
      assert Ordered(v, st, c) && UnderFactors(v, net, c);
      DominatedCovered(v, st, g, marks, j);
      var k :| 0 <= k < |marks| && marks[k] && Absorbs(Add(v), vals[k], vals[j]);
      AdditiveMonoid(v.r.semiring);
      AbsorbsTrans(Add(v), vals[k], vals[j], vals[i]);
    }
  }

  lemma AdditiveMonoid<V(!new)>(s: Semiring<V>)
    requires IsAbsorptive(s)
    ensures IsMonoid(s.Additive())
  {
  }

  /** A sum of covered terms is below the sum of the kept ones. */
  lemma KeptSum<V(!new)>(v: View<V>, a: Net, b: Net, g: nat, marks: seq<bool>)
    requires Fits(v, a) && Fits(v, b) && g < |a.kind| && IsAbsorptive(v.r.semiring) && |marks| == |a.wires[g]|
    requires b.wires[g] == Chosen(a.wires[g], marks, true) && forall i :: 0 <= i < |marks| ==> Covered(v, a, g, marks, i)
    requires Absorbs(Add(v), Fold(Add(v), WireWas(v, a, g)), Was(v, g))
    ensures Absorbs(Add(v), Fold(Add(v), WireWas(v, b, g)), Was(v, g))
  {
    hide IsAbsorptive;
    hide IsMonoid;
    hide Was;
    hide WireWas;
    hide Absorbs;
    var m, vals, kept := Add(v), WireWas(v, a, g), WireWas(v, b, g);
    AdditiveMonoid(v.r.semiring);
    ChosenWas(v, a, b, g, marks);
    forall y | y in vals ensures Absorbs(m, Fold(m, kept), y) {
      var i :| 0 <= i < |vals| && vals[i] == y;
      assert Covered(v, a, g, marks, i);
      var k :| 0 <= k < |marks| && marks[k] && Absorbs(m, vals[k], vals[i]);
      ChosenIn(vals, marks, k);
      FoldAbsorbs(m, kept, vals[k], y);
    }
    FoldAbsorbsAll(m, Fold(m, kept), vals);
    AbsorbsTrans(m, Fold(m, kept), Fold(m, vals), Was(v, g));
  }

  lemma DropsWires(a: Net, b: Net, g: nat, marks: seq<bool>)
    requires DropsAt(a, b, g, marks)
    ensures g < |a.wires| && |marks| == |a.wires[g]| && b.kind == a.kind && |b.wires| == |a.wires|
    ensures b.wires[g] == Chosen(a.wires[g], marks, true) && forall w :: w in b.wires[g] ==> w in a.wires[g]
    ensures forall h: nat :: h < |a.wires| && h != g ==> b.wires[h] == a.wires[h]
  {
    forall w | w in Chosen(a.wires[g], marks, true) ensures w in a.wires[g] {
      InChosen(a.wires[g], marks, true, w);
    }
    assert b.kind == a.kind;
  }

  lemma DropsOrderSum<V(!new)>(v: View<V>, a: FoldState, b: FoldState, g: nat, marks: seq<bool>)
    requires AllOrdered(v, a) && IsAbsorptive(v.r.semiring) && Fits(v, b.net) && DropsAt(a.net, b.net, g, marks)
    requires a.net.kind[g] == PlusGate && a.redirect == b.redirect && Minded(v, a) == Minded(v, b)
    ensures Ordered(v, b, g)
  {
    hide IsAbsorptive;
    hide Was;
    hide WireWas;
    hide Absorbs;
    hide Doubtful;
    hide Covered;
    hide Minded;
    DropsWires(a.net, b.net, g, marks);
    forall i | 0 <= i < |marks| ensures Covered(v, a.net, g, marks, i) {
      if OnlyRepeats(a.net.wires[g], marks) {
        RepeatCovered(v, a.net, g, marks, i);
      } else {
        DominatedCovered(v, a, g, marks, i);
      }
    }
    assert Ordered(v, a, g);
    KeptSum(v, a.net, b.net, g, marks);
    SameDoubts(v, a, b);
  }

  lemma DropsOrderProduct<V(!new)>(v: View<V>, a: FoldState, b: FoldState, g: nat, marks: seq<bool>)
    requires AllOrdered(v, a) && Fits(v, b.net) && DropsAt(a.net, b.net, g, marks) && a.net.kind[g] == TimesGate
    ensures Ordered(v, b, g)
  {
    hide Was;
    hide WireWas;
    hide Absorbs;
    DropsWires(a.net, b.net, g, marks);
    assert Ordered(v, a, g);
  }

  lemma MarkedMinded<V(!new)>(v: View<V>, a: FoldState, b: FoldState, g: nat)
    requires g < |a.net.kind| && b == Marked(a, g).(net := b.net)
    ensures b.redirect == a.redirect && b.names == a.names && Minded(v, a) <= Minded(v, b)
    ensures if v.both || a.net.kind[g] != PlusGate then g in Minded(v, b) else Minded(v, b) == Minded(v, a)
  {
  }

  lemma InvFits<V(!new)>(v: View<V>, names: map<Uuid, nat>, st: FoldState)
    requires Inv(v, names, st)
    ensures Fits(v, st.net)
  {
  }

  /** Dropped wires leave a product marked, and a sum what it was in an absorptive semiring. */
  lemma DropsStep<V(!new)>(v: View<V>, names: map<Uuid, nat>, a: FoldState, b: FoldState, g: nat, marks: seq<bool>)
    requires Inv(v, names, a) && Good(v.rank, b) && Constants(v, b.net)
    requires DropsAt(a.net, b.net, g, marks) && b == Marked(a, g).(net := b.net)
    ensures Inv(v, names, b)
  {
    hide ViewOk;
    hide Constants;
    hide Ordered;
    hide AllLed;
    hide AllNamed;
    hide AllOrdered;
    hide AllExact;
    hide Minded;
    hide Was;
    hide WireWas;
    InvFits(v, names, a);
    MarkedMinded(v, a, b, g);
    DropsWires(a.net, b.net, g, marks);
    if !v.both {
      AbsorptiveView(v);
      if a.net.kind[g] == PlusGate {
        DropsOrderSum(v, a, b, g, marks);
        SumExact(v, b, g);
      } else {
        DropsOrderProduct(v, a, b, g, marks);
      }
    }
    GateStep(v, names, a, b, g);
  }

  lemma AbsorptiveView<V(!new)>(v: View<V>)
    requires ViewOk(v) && !v.both
    ensures IsAbsorptive(v.r.semiring)
  {
  }

  // ----- Gates collapse -----

  /** A collapse, and the circuit around it. */
  ghost predicate Collapsing<V(!new)>(v: View<V>, a: FoldState, b: FoldState, found: map<nat, nat>, subst: map<nat, nat>) {
    && ViewOk(v) && Good(v.rank, a) && Good(v.rank, b) && Constants(v, a.net) && AllExact(v, a) && (!v.both ==> AllOrdered(v, a))
    && CollapsesBy(v.rank, a, b, found, subst)
  }

  /** Where a wire of a leads in b. */
  ghost function Target(x: nat, subst: map<nat, nat>): nat {
    if x in subst then subst[x] else x
  }

  lemma TargetEnd<V(!new)>(v: View<V>, a: FoldState, b: FoldState, found: map<nat, nat>, subst: map<nat, nat>, x: nat)
    requires Collapsing(v, a, b, found, subst) && x < |a.net.kind| && x !in a.redirect
    ensures Target(x, subst) == End(v.rank, a.redirect + found, x)
    ensures Target(x, subst) < |a.net.kind| && Target(x, subst) !in subst && Target(x, subst) !in a.redirect
    ensures AlwaysOne(v.before, v.rank, Target(x, subst)) == AlwaysOne(v.before, v.rank, x)
    ensures AlwaysZero(v.before, v.rank, Target(x, subst)) == AlwaysZero(v.before, v.rank, x)
  {
    hide ViewOk;
    hide Value;
    hide IsLattice;
    hide IsSemiring;
    hide AllExact;
    hide AllOrdered;
    CombinedDescends(v, a, b, found, subst);
    EndLeaves(v.rank, a.redirect + found, x);
    TruthIsLattice(false);
    TruthIsLattice(true);
    LatticeParts(Truth(false).semiring);
    LatticeParts(Truth(true).semiring);
    ChainKeeps(a.net, v.rank, Truth(false), a.redirect, found, x);
    ChainKeeps(a.net, v.rank, Truth(true), a.redirect, found, x);
  }

  lemma FoundDescends(rank: seq<nat>, net: Net, redirect: map<nat, nat>, found: map<nat, nat>)
    requires Ranked(net, rank) && Descends(rank, redirect) && forall g :: g in found ==> CollapsesTo(net, g, found[g])
    ensures Descends(rank, redirect + found)
  {
    forall g | g in found ensures g < |rank| && found[g] < |rank| && rank[found[g]] < rank[g] {
      assert CollapsesTo(net, g, found[g]);
      assert found[g] in net.wires[g];
      var i :| 0 <= i < |net.wires[g]| && net.wires[g][i] == found[g];
      assert Below(rank, net.wires[g], rank[g]);
    }
  }

  lemma EndsDescend(rank: seq<nat>, redirect: map<nat, nat>, found: map<nat, nat>, subst: map<nat, nat>)
    requires Descends(rank, redirect + found) && found.Keys == subst.Keys
    requires forall g :: g in subst ==> subst[g] == End(rank, redirect + found, g)
    ensures Descends(rank, subst) && forall g :: g in subst ==> subst[g] !in subst && subst[g] !in redirect
  {
    var m := redirect + found;
    forall g | g in subst ensures subst[g] !in subst && subst[g] !in redirect && g < |rank| && subst[g] < |rank| && rank[subst[g]] < rank[g] {
      assert g in m;
      EndLeaves(rank, m, m[g]);
    }
  }

  lemma CombinedDescends<V(!new)>(v: View<V>, a: FoldState, b: FoldState, found: map<nat, nat>, subst: map<nat, nat>)
    requires Collapsing(v, a, b, found, subst)
    ensures Descends(v.rank, a.redirect + found) && Descends(v.rank, subst)
    ensures forall g :: g in subst ==> subst[g] !in subst && subst[g] !in a.redirect
  {
    hide ViewOk;
    hide AllExact;
    hide AllOrdered;
    hide Constants;
    FoundDescends(v.rank, a.net, a.redirect, found);
    EndsDescend(v.rank, a.redirect, found, subst);
  }

  /** A marked gate taints where its chain ends, now and later. */
  lemma TaintMoves<V(!new)>(v: View<V>, a: FoldState, b: FoldState, found: map<nat, nat>, subst: map<nat, nat>, x: nat)
    requires Collapsing(v, a, b, found, subst) && x < |a.net.kind| && x !in a.redirect
    ensures Tainted(v, a, x) || x in Minded(v, a) ==> Tainted(v, b, Target(x, subst))
    ensures Doubtful(v, a, x) ==> Target(x, subst) < |a.net.kind| && Doubtful(v, b, Target(x, subst))
  {
    hide AllExact;
    hide AllOrdered;
    hide Constants;
    TargetEnd(v, a, b, found, subst, x);
    CombinedDescends(v, a, b, found, subst);
    hide AlwaysOne;
    hide AlwaysZero;
    assert End(v.rank, a.redirect, x) == x;
    if Tainted(v, a, x) || x in Minded(v, a) {
      var g :| g in Minded(v, a) && End(v.rank, a.redirect, g) == x;
      EndThen(v.rank, a.redirect, subst, g);
      assert g in Minded(v, b);
    }
  }

  /** A collapsed gate has a single wire, or is always zero. */
  lemma LinkKinds<V(!new)>(v: View<V>, net: Net, x: nat, y: nat)
    requires ViewOk(v) && Constants(v, net) && CollapsesTo(net, x, y)
    ensures (net.wires[x] == [y] && Combines(net.kind[x])) || (net.kind[x] == TimesGate && AlwaysZero(v.before, v.rank, x))
    ensures AlwaysOne(v.before, v.rank, x) == AlwaysOne(v.before, v.rank, y)
    ensures AlwaysZero(v.before, v.rank, x) == AlwaysZero(v.before, v.rank, y)
    ensures v.rank[y] < v.rank[x]
  {
    hide ViewOk;
    hide Value;
    hide IsLattice;
    hide IsSemiring;
    TruthIsLattice(false);
    TruthIsLattice(true);
    LatticeParts(Truth(false).semiring);
    LatticeParts(Truth(true).semiring);
    CollapseValue(net, v.rank, Truth(false), x, y);
    CollapseValue(net, v.rank, Truth(true), x, y);
    if net.wires[x] != [y] {
      ViewRanked(v);
      WasZeroGate(v, net, y);
    }
  }

  lemma ViewRanked<V(!new)>(v: View<V>)
    requires ViewOk(v)
    ensures Ranked(v.before, v.rank)
  {
  }

  lemma WasZeroGate<V(!new)>(v: View<V>, net: Net, y: nat)
    requires Constants(v, net) && y < |net.kind| && net.kind[y] == ZeroGate
    ensures AlwaysZero(v.before, v.rank, y)
  {
    assert !Value(net, v.rank, Truth(true), y);
  }

  /** Gates that are always constant have equal values when they are so together. */
  lemma SameConstant<V(!new)>(v: View<V>, x: nat, y: nat)
    requires ViewOk(v) && x < |v.before.kind| && y < |v.before.kind|
    requires AlwaysOne(v.before, v.rank, x) == AlwaysOne(v.before, v.rank, y)
    requires AlwaysZero(v.before, v.rank, x) == AlwaysZero(v.before, v.rank, y)
    ensures Constant(v, x) ==> Was(v, x) == Was(v, y)
  {
    hide AlwaysOne;
    hide AlwaysZero;
    hide IsSemiring;
    hide IsAbsorptive;
    if AlwaysZero(v.before, v.rank, x) {
      ZeroInAny(v.before, v.rank, v.r, x);
      ZeroInAny(v.before, v.rank, v.r, y);
    }
  }

  lemma SingleWas<V(!new)>(v: View<V>, net: Net, x: nat, y: nat)
    requires ViewOk(v) && Fits(v, net) && x < |net.kind| && net.wires[x] == [y] && Combines(net.kind[x])
    ensures y < |net.kind| && Fold(MonoidOf(v.r.semiring, net.kind[x]), WireWas(v, net, x)) == Was(v, y)
  {
    hide ViewOk;
    hide IsMonoid;
    hide Was;
    hide WireWas;
    ViewMonoid(v, net.kind[x]);
    assert net.wires[x][0] == y && WireWas(v, net, x)[0] == Was(v, net.wires[x][0]);
    assert WireWas(v, net, x) == [Was(v, y)];
    SingleFold(MonoidOf(v.r.semiring, net.kind[x]), Was(v, y));
  }

  /** An unmarked gate has the value of the gate it collapses to, unless that is doubtful. */
  lemma LinkExact<V(!new)>(v: View<V>, a: FoldState, x: nat, y: nat)
    requires ViewOk(v) && Constants(v, a.net) && AllExact(v, a) && CollapsesTo(a.net, x, y)
    requires x !in Minded(v, a) && !Doubtful(v, a, y)
    ensures Was(v, x) == Was(v, y)
  {
    hide ViewOk;
    hide Constants;
    hide Was;
    hide WireWas;
    hide Minded;
    hide Doubtful;
    hide AlwaysOne;
    hide AlwaysZero;
    LinkKinds(v, a.net, x, y);
    if a.net.wires[x] == [y] {
      assert Exact(v, a, x) && Firm(v, a, x);
      SingleWas(v, a.net, x, y);
    } else {
      SameConstant(v, x, y);
    }
  }

  /** Collapsing raises the old value, in an absorptive semiring. */
  lemma LinkOrder<V(!new)>(v: View<V>, a: FoldState, x: nat, y: nat)
    requires ViewOk(v) && Constants(v, a.net) && AllOrdered(v, a) && CollapsesTo(a.net, x, y) && IsAbsorptive(v.r.semiring)
    ensures Absorbs(Add(v), Was(v, y), Was(v, x))
  {
    hide ViewOk;
    hide Constants;
    hide IsAbsorptive;
    hide Was;
    hide WireWas;
    hide Absorbs;
    hide AlwaysOne;
    hide AlwaysZero;
    LinkKinds(v, a.net, x, y);
    if a.net.wires[x] == [y] {
      assert Ordered(v, a, x);
      assert y in a.net.wires[x];
      SingleWas(v, a.net, x, y);
    } else {
      SameConstant(v, x, y);
      AbsorbsSelf(v.r.semiring, Was(v, x));
    }
  }

  lemma CollapsingParts<V(!new)>(v: View<V>, a: FoldState, b: FoldState, found: map<nat, nat>, subst: map<nat, nat>)
    requires Collapsing(v, a, b, found, subst)
    ensures ViewOk(v) && Constants(v, a.net) && AllExact(v, a) && (!v.both ==> AllOrdered(v, a)) && found.Keys == subst.Keys && found.Keys !! a.redirect.Keys
    ensures Fits(v, a.net) && Fits(v, b.net) && |v.before.kind| == |a.net.kind| == |b.net.kind| == |v.rank|
  {
    hide ViewOk;
    hide Constants;
    hide AllOrdered;
  }

  /** Where a wire leads, old values are equal unless doubtful, and in an absorptive
      semiring no lower. */
  lemma {:induction false} ChainWas<V(!new)>(v: View<V>, a: FoldState, b: FoldState, found: map<nat, nat>, subst: map<nat, nat>, x: nat)
    requires Collapsing(v, a, b, found, subst) && x < |a.net.kind| && x !in a.redirect
    ensures Target(x, subst) < |a.net.kind|
    ensures !Doubtful(v, b, Target(x, subst)) ==> Was(v, Target(x, subst)) == Was(v, x)
    ensures !v.both ==> Absorbs(Add(v), Was(v, Target(x, subst)), Was(v, x))
    decreases v.rank[x]
  {
    hide ViewOk;
    hide Constants;
    hide AllExact;
    hide AllOrdered;
    hide Was;
    hide Absorbs;
    hide AlwaysOne;
    hide AlwaysZero;
    hide Tainted;
    hide IsAbsorptive;
    hide IsMonoid;
    hide Collapsing;
    hide Doubtful;
    hide Fits;
    CollapsingParts(v, a, b, found, subst);
    ViewRanked(v);
    if !v.both { AbsorptiveView(v); }
    if x in found {
      var y := found[x];
      NextLink(v, a, b, found, subst, x);
      LinkKinds(v, a.net, x, y);
      ChainWas(v, a, b, found, subst, y);
      if !Doubtful(v, b, Target(x, subst)) { LinkStep(v, a, b, found, subst, x); }
      if !v.both {
        LinkOrder(v, a, x, y);
        AdditiveMonoid(v.r.semiring);
        AbsorbsTrans(Add(v), Was(v, Target(x, subst)), Was(v, y), Was(v, x));
      }
    } else if !v.both {
      AbsorbsSelf(v.r.semiring, Was(v, x));
    }
  }

  lemma NextLink<V(!new)>(v: View<V>, a: FoldState, b: FoldState, found: map<nat, nat>, subst: map<nat, nat>, x: nat)
    requires Collapsing(v, a, b, found, subst) && x in found && x < |a.net.kind|
    ensures var y := found[x];
            CollapsesTo(a.net, x, y) && y < |a.net.kind| && y !in a.redirect && Target(y, subst) == Target(x, subst) && v.rank[y] < v.rank[x]
  {
    hide ViewOk;
    hide AllExact;
    hide AllOrdered;
    var y := found[x];
    assert CollapsesTo(a.net, x, y);
    assert y in a.net.wires[x];
    FoundDescends(v.rank, a.net, a.redirect, found);
    TargetEnd(v, a, b, found, subst, x);
    TargetEnd(v, a, b, found, subst, y);
  }

  lemma LinkStep<V(!new)>(v: View<V>, a: FoldState, b: FoldState, found: map<nat, nat>, subst: map<nat, nat>, x: nat)
    requires Collapsing(v, a, b, found, subst) && x in found && x < |a.net.kind| && found[x] < |a.net.kind|
    requires Target(x, subst) < |a.net.kind| && !Doubtful(v, b, Target(x, subst))
    ensures Was(v, found[x]) == Was(v, x)
  {
    hide ViewOk;
    hide Constants;
    hide AllExact;
    hide AllOrdered;
    hide Was;
    hide AlwaysOne;
    hide AlwaysZero;
    hide Tainted;
    hide Collapsing;
    hide Ranked;
    hide CollapsesTo;
    CollapsingParts(v, a, b, found, subst);
    var y, t := found[x], Target(x, subst);
    NextLink(v, a, b, found, subst, x);
    LinkKinds(v, a.net, x, y);
    TargetEnd(v, a, b, found, subst, x);
    TaintMoves(v, a, b, found, subst, x);
    TaintMoves(v, a, b, found, subst, y);
    if Constant(v, t) {
      SameConstant(v, x, y);
    } else {
      LinkExact(v, a, x, y);
    }
  }

  lemma RewiredWire<V(!new)>(v: View<V>, a: FoldState, b: FoldState, found: map<nat, nat>, subst: map<nat, nat>, h: nat, i: nat)
    requires Collapsing(v, a, b, found, subst) && h < |a.net.kind| && i < |a.net.wires[h]|
    ensures b.net.kind == a.net.kind && |b.net.wires[h]| == |a.net.wires[h]|
    ensures a.net.wires[h][i] < |a.net.kind| && a.net.wires[h][i] !in a.redirect && b.net.wires[h][i] == Target(a.net.wires[h][i], subst)
  {
    hide ViewOk;
    hide AllExact;
    hide AllOrdered;
    hide Constants;
    assert a.net.wires[h][i] in a.net.wires[h];
    assert Below(v.rank, a.net.wires[h], v.rank[h]);
  }

  lemma FirmRewired<V(!new)>(v: View<V>, a: FoldState, b: FoldState, found: map<nat, nat>, subst: map<nat, nat>, h: nat)
    requires Collapsing(v, a, b, found, subst) && h < |a.net.kind| && Fits(v, a.net) && Fits(v, b.net) && Firm(v, b, h)
    ensures Firm(v, a, h) && WireWas(v, b.net, h) == WireWas(v, a.net, h)
  {
    hide Collapsing;
    hide Fits;
    hide Doubtful;
    hide Was;
    hide WireWas;
    CollapsingParts(v, a, b, found, subst);
    ViewRanked(v);
    RewiredLength(v, a, b, found, subst, h);
    var ws := a.net.wires[h];
    forall i | 0 <= i < |ws| ensures ws[i] < |a.net.kind| && !Doubtful(v, a, ws[i]) && WireWas(v, b.net, h)[i] == WireWas(v, a.net, h)[i] {
      RewiredWire(v, a, b, found, subst, h, i);
      assert b.net.wires[h][i] in b.net.wires[h];
      TaintMoves(v, a, b, found, subst, ws[i]);
      ChainWas(v, a, b, found, subst, ws[i]);
    }
  }

  lemma CollapseFields<V(!new)>(v: View<V>, a: FoldState, b: FoldState, found: map<nat, nat>, subst: map<nat, nat>)
    requires Collapsing(v, a, b, found, subst)
    ensures b.net.kind == a.net.kind && Minded(v, b) == Minded(v, a) && b.names == a.names
  {
    hide ViewOk;
    hide AllExact;
    hide AllOrdered;
    hide Constants;
  }

  lemma RewiredLength<V(!new)>(v: View<V>, a: FoldState, b: FoldState, found: map<nat, nat>, subst: map<nat, nat>, h: nat)
    requires Collapsing(v, a, b, found, subst) && h < |a.net.kind|
    ensures h < |a.net.wires| == |b.net.wires| && |b.net.wires[h]| == |a.net.wires[h]|
    ensures b.net.kind == a.net.kind && Minded(v, b) == Minded(v, a) && b.names == a.names
  {
    hide ViewOk;
    hide AllExact;
    hide AllOrdered;
    hide Constants;
  }

  lemma ExactRewired<V(!new)>(v: View<V>, a: FoldState, b: FoldState, found: map<nat, nat>, subst: map<nat, nat>, h: nat)
    requires Collapsing(v, a, b, found, subst) && h < |a.net.kind| && Fits(v, b.net)
    ensures h < |b.net.kind| && Exact(v, b, h)
  {
    hide Collapsing;
    hide Firm;
    hide Fits;
    hide Was;
    hide WireWas;
    hide Minded;
    CollapsingParts(v, a, b, found, subst);
    RewiredLength(v, a, b, found, subst, h);
    assert Exact(v, a, h);
    if Firm(v, b, h) { FirmRewired(v, a, b, found, subst, h); }
  }

  /** A sum of values is below the sum of values above them. */
  lemma SumRises<V(!new)>(m: Monoid<V>, low: seq<V>, high: seq<V>, x: V)
    requires IsMonoid(m) && |low| == |high| && (forall i :: 0 <= i < |low| ==> Absorbs(m, high[i], low[i])) && Absorbs(m, Fold(m, low), x)
    ensures Absorbs(m, Fold(m, high), x)
  {
    hide IsMonoid;
    hide Absorbs;
    forall y | y in low ensures Absorbs(m, Fold(m, high), y) {
      var i :| 0 <= i < |low| && low[i] == y;
      assert high[i] in high;
      FoldAbsorbs(m, high, high[i], y);
    }
    FoldAbsorbsAll(m, Fold(m, high), low);
    AbsorbsTrans(m, Fold(m, high), Fold(m, low), x);
  }

  lemma OrderedRewired<V(!new)>(v: View<V>, a: FoldState, b: FoldState, found: map<nat, nat>, subst: map<nat, nat>, h: nat)
    requires Collapsing(v, a, b, found, subst) && h < |a.net.kind| && Fits(v, b.net) && !v.both
    ensures h < |b.net.kind| && Ordered(v, b, h)
  {
    hide Collapsing;
    hide Fits;
    hide Doubtful;
    hide Was;
    hide WireWas;
    hide Absorbs;
    hide ViewOk;
    hide IsAbsorptive;
    hide IsMonoid;
    CollapsingParts(v, a, b, found, subst);
    RewiredLength(v, a, b, found, subst, h);
    var ws, m := a.net.wires[h], Add(v);
    AbsorptiveView(v);
    AdditiveMonoid(v.r.semiring);
    assert Ordered(v, a, h);
    var vals, more := WireWas(v, a.net, h), WireWas(v, b.net, h);
    forall i | 0 <= i < |ws| ensures b.net.wires[h][i] < |b.net.kind| && Absorbs(m, more[i], vals[i]) {
      RewiredWire(v, a, b, found, subst, h, i);
      ChainWas(v, a, b, found, subst, ws[i]);
    }
    if a.net.kind[h] == PlusGate {
      SumRises(m, vals, more, Was(v, h));
      OverRewired(v, a, b, found, subst, h);
    } else if a.net.kind[h] == TimesGate {
      UnderRewired(v, a, b, found, subst, h);
    }
  }

  lemma OverRewired<V(!new)>(v: View<V>, a: FoldState, b: FoldState, found: map<nat, nat>, subst: map<nat, nat>, h: nat)
    requires Collapsing(v, a, b, found, subst) && h < |a.net.kind| && Fits(v, a.net) && Fits(v, b.net) && OverTerms(v, a, h)
    ensures OverTerms(v, b, h)
  {
    hide Collapsing;
    hide Doubtful;
    hide Was;
    hide Absorbs;
    RewiredLength(v, a, b, found, subst, h);
    forall t | t in b.net.wires[h] ensures t < |b.net.kind| && (Doubtful(v, b, t) || Absorbs(Add(v), Was(v, h), Was(v, t))) {
      var i :| 0 <= i < |b.net.wires[h]| && b.net.wires[h][i] == t;
      RewiredWire(v, a, b, found, subst, h, i);
      assert a.net.wires[h][i] in a.net.wires[h];
      TaintMoves(v, a, b, found, subst, a.net.wires[h][i]);
      ChainWas(v, a, b, found, subst, a.net.wires[h][i]);
    }
  }

  lemma UnderRewired<V(!new)>(v: View<V>, a: FoldState, b: FoldState, found: map<nat, nat>, subst: map<nat, nat>, h: nat)
    requires Collapsing(v, a, b, found, subst) && h < |a.net.kind| && Fits(v, a.net) && Fits(v, b.net) && UnderFactors(v, a.net, h) && !v.both
    ensures UnderFactors(v, b.net, h)
  {
    hide Collapsing;
    hide Was;
    hide Absorbs;
    hide ViewOk;
    hide IsAbsorptive;
    hide IsMonoid;
    CollapsingParts(v, a, b, found, subst);
    RewiredLength(v, a, b, found, subst, h);
    AbsorptiveView(v);
    AdditiveMonoid(v.r.semiring);
    forall t | t in b.net.wires[h] ensures t < |b.net.kind| && Absorbs(Add(v), Was(v, t), Was(v, h)) {
      var i :| 0 <= i < |b.net.wires[h]| && b.net.wires[h][i] == t;
      RewiredWire(v, a, b, found, subst, h, i);
      var w := a.net.wires[h][i];
      assert w in a.net.wires[h];
      ChainWas(v, a, b, found, subst, w);
      AbsorbsTrans(Add(v), Was(v, t), Was(v, w), Was(v, h));
    }
  }

  /** Redirected gates are led on. */
  lemma LedOn<V(!new)>(v: View<V>, a: FoldState, b: FoldState, found: map<nat, nat>, subst: map<nat, nat>, g: nat)
    requires Collapsing(v, a, b, found, subst) && Fits(v, b.net) && AllLed(v, a) && g in b.redirect
    ensures Led(v, b, g)
  {
    hide Collapsing;
    hide Doubtful;
    hide Was;
    CollapsingParts(v, a, b, found, subst);
    LedWhere(v, a, b, found, subst, g);
    var x := if g in a.redirect then End(v.rank, a.redirect, g) else g;
    assert g in a.redirect ==> Led(v, a, g);
    TaintMoves(v, a, b, found, subst, x);
    ChainWas(v, a, b, found, subst, x);
  }

  lemma LedWhere<V(!new)>(v: View<V>, a: FoldState, b: FoldState, found: map<nat, nat>, subst: map<nat, nat>, g: nat)
    requires Collapsing(v, a, b, found, subst) && g in b.redirect
    ensures var x := if g in a.redirect then End(v.rank, a.redirect, g) else g;
            g < |v.rank| && x < |v.rank| && x !in a.redirect && End(v.rank, b.redirect, g) == Target(x, subst)
  {
    hide ViewOk;
    hide AllExact;
    hide AllOrdered;
    hide Constants;
    CombinedDescends(v, a, b, found, subst);
    EndLeaves(v.rank, a.redirect, g);
    EndThen(v.rank, a.redirect, subst, g);
  }

  lemma CollapseStep<V(!new)>(v: View<V>, names: map<Uuid, nat>, a: FoldState, b: FoldState, found: map<nat, nat>, subst: map<nat, nat>)
    requires Inv(v, names, a) && Good(v.rank, b) && Constants(v, b.net) && CollapsesBy(v.rank, a, b, found, subst)
    ensures Inv(v, names, b)
  {
    hide ViewOk;
    hide Constants;
    hide Exact;
    hide Ordered;
    hide Led;
    hide NameKept;
    hide CollapsesBy;
    assert Collapsing(v, a, b, found, subst);
    CollapsingParts(v, a, b, found, subst);
    forall h: nat | h < |b.net.kind| ensures Exact(v, b, h) && (!v.both ==> Ordered(v, b, h)) {
      ExactRewired(v, a, b, found, subst, h);
      if !v.both { OrderedRewired(v, a, b, found, subst, h); }
    }
    forall g | g in b.redirect ensures Led(v, b, g) {
      LedOn(v, a, b, found, subst, g);
    }
    NamedOn(v, names, a, b, found, subst);
  }

  lemma NamedOn<V(!new)>(v: View<V>, names: map<Uuid, nat>, a: FoldState, b: FoldState, found: map<nat, nat>, subst: map<nat, nat>)
    requires Collapsing(v, a, b, found, subst) && AllNamed(v, names, a)
    ensures AllNamed(v, names, b)
  {
    hide Collapsing;
    hide Was;
    hide Minded;
    CollapsingParts(v, a, b, found, subst);
    CollapseFields(v, a, b, found, subst);
    forall u | u in names ensures u in b.names && NameKept(v, b, names, u) {
      assert NameKept(v, a, names, u);
    }
  }

  // ----- Names and marks follow -----

  lemma PatchTaint<V(!new)>(v: View<V>, id2uuid: map<nat, Uuid>, a: FoldState, b: FoldState, k: nat)
    requires Patches(v.rank, id2uuid, a, b) && Good(v.rank, a) && k !in a.redirect
    ensures Tainted(v, a, k) ==> k in Minded(v, b)
    ensures Tainted(v, b, k) <==> k in Minded(v, b)
    ensures Minded(v, a) <= Minded(v, b)
  {
    if Tainted(v, a, k) {
      var g :| g in Minded(v, a) && End(v.rank, a.redirect, g) == k;
      if g in a.redirect {
        assert g in a.boolean ==> k in Ends(v.rank, a.redirect, a.boolean);
        assert g in a.absorptive ==> k in Ends(v.rank, a.redirect, a.absorptive);
      }
    }
    forall g ensures End(v.rank, b.redirect, g) == g {
    }
    if k in Minded(v, b) { assert End(v.rank, b.redirect, k) == k; }
  }

  lemma PatchGate<V(!new)>(v: View<V>, id2uuid: map<nat, Uuid>, a: FoldState, b: FoldState, h: nat)
    requires Patches(v.rank, id2uuid, a, b) && Good(v.rank, a) && Fits(v, a.net) && Fits(v, b.net) && h < |a.net.kind|
    ensures Exact(v, a, h) ==> Exact(v, b, h)
    ensures Ordered(v, a, h) ==> Ordered(v, b, h)
  {
    hide Was;
    hide WireWas;
    hide Minded;
    hide Constant;
    hide Tainted;
    hide Local;
    hide Ends;
    hide NamesFollow;
    assert Below(v.rank, a.net.wires[h], v.rank[h]);
    PatchMinded(v, id2uuid, a, b);
    forall w | w in a.net.wires[h] ensures w < |a.net.kind| && (Doubtful(v, a, w) ==> Doubtful(v, b, w)) {
      PatchTaint(v, id2uuid, a, b, w);
    }
    hide Doubtful;
  }

  lemma PatchMinded<V(!new)>(v: View<V>, id2uuid: map<nat, Uuid>, a: FoldState, b: FoldState)
    requires Patches(v.rank, id2uuid, a, b)
    ensures Minded(v, a) <= Minded(v, b)
  {
  }

  /** The gates of these names have their names' values. */
  ghost predicate NamesOver<V(!new)>(v: View<V>, names: map<Uuid, nat>, id2uuid: map<nat, Uuid>) {
    Ranked(v.before, v.rank) && forall g :: g in id2uuid && id2uuid[g] in names ==> NameOk(v.before, v.rank, v.r, names, id2uuid, g)
  }

  lemma PatchName<V(!new)>(v: View<V>, id2uuid: map<nat, Uuid>, names: map<Uuid, nat>, a: FoldState, b: FoldState, u: Uuid)
    requires Fits(v, a.net) && AllLed(v, a) && AllNamed(v, names, a) && Good(v.rank, a) && Patches(v.rank, id2uuid, a, b)
    requires NamesOver(v, names, id2uuid) && u in names
    ensures u in b.names && NameKept(v, b, names, u)
  {
    hide Minded;
    hide Was;
    hide Constant;
    hide Tainted;
    hide Ends;
    PatchMinded(v, id2uuid, a, b);
    assert NameKept(v, a, names, u);
    if b.names[u] != a.names[u] {
      assert Follows(v.rank, id2uuid, a.redirect, a.redirect.Keys, u, b.names[u]);
      var g :| g in a.redirect && g in id2uuid && id2uuid[g] == u && b.names[u] == End(v.rank, a.redirect, g);
      assert Led(v, a, g) && NameOk(v.before, v.rank, v.r, names, id2uuid, g);
      EndLeaves(v.rank, a.redirect, g);
      PatchTaint(v, id2uuid, a, b, b.names[u]);
      NameWas(v, names, id2uuid, g);
    }
  }

  lemma NameWas<V(!new)>(v: View<V>, names: map<Uuid, nat>, id2uuid: map<nat, Uuid>, g: nat)
    requires Ranked(v.before, v.rank) && g in id2uuid && NameOk(v.before, v.rank, v.r, names, id2uuid, g)
    ensures Was(v, names[id2uuid[g]]) == Was(v, g)
  {
  }

  lemma PatchStep<V(!new)>(v: View<V>, id2uuid: map<nat, Uuid>, names: map<Uuid, nat>, a: FoldState, b: FoldState)
    requires Inv(v, names, a) && Good(v.rank, b) && Constants(v, b.net) && Patches(v.rank, id2uuid, a, b)
    requires NamesOver(v, names, id2uuid)
    ensures Inv(v, names, b)
  {
    hide ViewOk;
    hide Constants;
    hide Exact;
    hide Ordered;
    hide Led;
    hide NameKept;
    hide NamesOver;
    hide Ends;
    forall h: nat | h < |b.net.kind| ensures Exact(v, b, h) && (!v.both ==> Ordered(v, b, h)) {
      PatchGate(v, id2uuid, a, b, h);
    }
    forall u | u in names ensures u in b.names && NameKept(v, b, names, u) {
      PatchName(v, id2uuid, names, a, b, u);
    }
  }

  // ----- Whole runs -----

  lemma StepInv<V(!new)>(v: View<V>, id2uuid: map<nat, Uuid>, names: map<Uuid, nat>, a: FoldState, b: FoldState)
    requires Inv(v, names, a) && Step(v.rank, id2uuid, a, b) && NamesOver(v, names, id2uuid)
    ensures Inv(v, names, b)
  {
    hide Inv;
    hide NamesOver;
    hide Constants;
    hide Good;
    InvConstants(v, names, a);
    ConstantsStep(v, id2uuid, a, b);
    if Tidies(a, b) {
      if g, marks :| UnitsAt(a.net, b.net, g, marks) {
        UnitsStep(v, names, a, b, g, marks);
      } else {
        var g :| EmptyAt(a.net, b.net, g);
        EmptyStep(v, names, a, b, g);
      }
    } else if Fires(a, b) {
      var g :| RuleAt(a.net, b.net, g) && b == Marked(a, g).(net := b.net);
      if marks :| DropsAt(a.net, b.net, g, marks) {
        DropsStep(v, names, a, b, g, marks);
      } else {
        OneStep(v, names, a, b, g);
      }
    } else if found, subst :| CollapsesBy(v.rank, a, b, found, subst) {
      CollapseStep(v, names, a, b, found, subst);
    } else {
      PatchStep(v, id2uuid, names, a, b);
    }
  }

  lemma InvConstants<V(!new)>(v: View<V>, names: map<Uuid, nat>, a: FoldState)
    requires Inv(v, names, a)
    ensures Constants(v, a.net)
  {
  }
}
