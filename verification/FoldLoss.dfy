/** Where the marks do not reach: a sum with a one in it becomes one, and as a factor it is
    dropped with its mark, so that semirings in which it was more than one are not refused. */
module FoldLoss {
  import opened SemiringAlgebra
  import opened PostOrder
  import opened ProvenanceNet
  import opened FoldMeasure
  import opened FoldRules
  import opened FoldSteps
  import opened FoldMarks
  import opened FoldProtection
  import opened FoldGuarantee
  import opened SemiringFold

  // ----- One product gate more -----

  /** The circuit with a product over gate w alone. */
  function Reused(net: Net, w: nat): Net {
    Net(net.kind + [TimesGate], net.wires + [[w]])
  }

  function ReusedRank(rank: seq<nat>, w: nat): seq<nat>
    requires w < |rank|
  {
    rank + [rank[w] + 1]
  }

  lemma ReusedRanked(net: Net, rank: seq<nat>, w: nat)
    requires Ranked(net, rank) && w < |net.kind|
    ensures Ranked(Reused(net, w), ReusedRank(rank, w))
  {
    var more, ranks := Reused(net, w), ReusedRank(rank, w);
    forall g | 0 <= g < |more.kind| ensures Below(ranks, more.wires[g], ranks[g]) {
      if g < |net.kind| { assert Below(rank, net.wires[g], rank[g]); }
    }
  }

  /** The old gates keep their values, and the new one has that of w. */
  lemma {:induction false} ReusedValue<V(!new)>(net: Net, rank: seq<nat>, r: Reading<V>, w: nat, g: nat)
    requires Ranked(net, rank) && w < |net.kind| && g < |net.kind| && Ranked(Reused(net, w), ReusedRank(rank, w))
    ensures Value(Reused(net, w), ReusedRank(rank, w), r, g) == Value(net, rank, r, g)
    decreases rank[g]
  {
    var more, ranks, ws := Reused(net, w), ReusedRank(rank, w), net.wires[g];
    assert Below(rank, ws, rank[g]) && more.wires[g] == ws && more.kind[g] == net.kind[g] && ranks[g] == rank[g];
    forall i | 0 <= i < |ws| ensures Value(more, ranks, r, ws[i]) == Value(net, rank, r, ws[i]) {
      ReusedValue(net, rank, r, w, ws[i]);
    }
    assert Values(more, ranks, r, ws, ranks[g]) == Values(net, rank, r, ws, rank[g]);
  }

  lemma ReusedTop<V(!new)>(net: Net, rank: seq<nat>, r: Reading<V>, w: nat)
    requires Ranked(net, rank) && w < |net.kind| && Ranked(Reused(net, w), ReusedRank(rank, w)) && IsMonoid(r.semiring.Multiplicative())
    ensures Value(Reused(net, w), ReusedRank(rank, w), r, |net.kind|) == Value(net, rank, r, w)
  {
    var more, ranks, p := Reused(net, w), ReusedRank(rank, w), |net.kind|;
    ReusedValue(net, rank, r, w, w);
    assert more.wires[p] == [w];
    assert Below(ranks, [w], ranks[p]);
    hide IsMonoid;
    assert Values(more, ranks, r, [w], ranks[p]) == [Value(net, rank, r, w)];
    SingleFold(r.semiring.Multiplicative(), Value(net, rank, r, w));
  }

  // ----- Where folding ends -----

  /** No rule and no collapse applies. */
  ghost predicate Folded(net: Net) {
    Normal(net) && |net.kind| == |net.wires| && forall g: nat :: g < |net.kind| && net.kind[g] == PlusGate ==> !HasOneWire(net, g)
  }

  /** In a folded circuit every gate that is always one has become one. */
  lemma {:induction false} OnesFolded(net: Net, rank: seq<nat>, g: nat)
    requires Ranked(net, rank) && g < |net.kind| && Folded(net) && AlwaysOne(net, rank, g)
    ensures net.kind[g] == OneGate
    decreases rank[g]
  {
    var ws := net.wires[g];
    assert Below(rank, ws, rank[g]);
    var truths := Values(net, rank, Truth(false), ws, rank[g]);
    if net.kind[g] == PlusGate {
      SomeTrue(false, truths);
      var i :| 0 <= i < |ws| && truths[i];
      OnesFolded(net, rank, ws[i]);
    } else if net.kind[g] == TimesGate {
      assert Plain(net, g);
      AllTrue(false, truths);
      assert truths[0] in truths;
      OnesFolded(net, rank, ws[0]);
    }
  }

  // ----- The new product is never marked -----

  ghost predicate Fresh(rank: seq<nat>, st: FoldState, p: nat) {
    && Ranked(st.net, rank) && p < |st.net.kind|
    && ((st.net.kind[p] == TimesGate && |st.net.wires[p]| <= 1) || (st.net.kind[p] == OneGate && st.net.wires[p] == []))
    && (forall g :: 0 <= g < |st.net.wires| ==> p !in st.net.wires[g])
    && p !in st.boolean && p !in st.absorptive && forall g :: g in st.redirect ==> st.redirect[g] != p
  }

  lemma {:induction false} EndNot(rank: seq<nat>, m: map<nat, nat>, x: nat, p: nat)
    requires forall g :: g in m ==> m[g] != p
    ensures x != p ==> End(rank, m, x) != p
    ensures x in m && Descends(rank, m) ==> End(rank, m, x) != p
    decreases if x < |rank| then rank[x] else 0
  {
    if x in m && x < |rank| && m[x] < |rank| && rank[m[x]] < rank[x] { EndNot(rank, m, m[x], p); }
  }

  lemma FewerWires(a: Net, b: Net, rank: seq<nat>, g: nat, marks: seq<bool>, p: nat)
    requires Ranked(a, rank) && g < |a.kind| && |marks| == |a.wires[g]| && b == WithGate(a, g, a.kind[g], Chosen(a.wires[g], marks, true))
    requires p < |a.kind| && forall h :: 0 <= h < |a.wires| ==> p !in a.wires[h]
    ensures b.kind == a.kind && |b.wires[p]| <= |a.wires[p]| && forall h :: 0 <= h < |b.wires| ==> p !in b.wires[h]
  {
    var kept: seq<nat> := Chosen(a.wires[g], marks, true);
    ChosenCost(rank, a.wires[g], marks);
    assert b.wires[g] == kept;
  }

  /** Nothing can be dropped of a single wire. */
  lemma NoDropsAt(a: Net, b: Net, rank: seq<nat>, g: nat, marks: seq<bool>)
    requires Ranked(a, rank) && DropsAt(a, b, g, marks) && a != b
    ensures |a.wires[g]| >= 2
  {
    var ws: seq<nat> := a.wires[g];
    assert WithGate(a, g, a.kind[g], ws) == a by { SameGate(a, g); }
    if |ws| == 1 { SingleChosen(ws, marks); }
  }

  lemma SingleChosen(ws: seq<nat>, marks: seq<bool>)
    requires |ws| == |marks| == 1
    ensures Chosen(ws, marks, true) == if marks[0] then ws else []
  {
    assert ws == [] + [ws[0]] && ws[..0] == [] && marks[..0] == [];
  }

  lemma SameGate(a: Net, g: nat)
    requires g < |a.kind| == |a.wires|
    ensures WithGate(a, g, a.kind[g], a.wires[g]) == a
  {
    assert a.kind[g := a.kind[g]] == a.kind && a.wires[g := a.wires[g]] == a.wires;
  }

  lemma FreshStep(rank: seq<nat>, id2uuid: map<nat, Uuid>, a: FoldState, b: FoldState, p: nat)
    requires Fresh(rank, a, p) && Step(rank, id2uuid, a, b)
    ensures Fresh(rank, b, p)
  {
    hide CollapsesBy;
    hide Patches;
    hide Good;
    if Tidies(a, b) {
      FreshTidied(rank, id2uuid, a, b, p);
    } else if Fires(a, b) {
      var g :| RuleAt(a.net, b.net, g) && b == Marked(a, g).(net := b.net);
      FreshRule(rank, a, b, g, p);
    } else if found, subst :| CollapsesBy(rank, a, b, found, subst) {
      FreshCollapse(rank, a, b, found, subst, p);
    } else {
      FreshPatch(rank, id2uuid, a, b, p);
    }
  }

  lemma FreshTidied(rank: seq<nat>, id2uuid: map<nat, Uuid>, a: FoldState, b: FoldState, p: nat)
    requires Fresh(rank, a, p) && Step(rank, id2uuid, a, b) && Tidies(a, b)
    ensures Fresh(rank, b, p)
  {
    if g, marks :| UnitsAt(a.net, b.net, g, marks) {
      FewerWires(a.net, b.net, rank, g, marks, p);
    }
  }

  lemma FreshRule(rank: seq<nat>, a: FoldState, b: FoldState, g: nat, p: nat)
    requires Fresh(rank, a, p) && RuleAt(a.net, b.net, g) && b == Marked(a, g).(net := b.net)
    ensures Fresh(rank, b, p)
  {
    RuleRanked(a.net, b.net, rank, g);
    if marks :| DropsAt(a.net, b.net, g, marks) {
      NoDropsAt(a.net, b.net, rank, g, marks);
      FewerWires(a.net, b.net, rank, g, marks, p);
    }
  }

  lemma FreshCollapse(rank: seq<nat>, a: FoldState, b: FoldState, found: map<nat, nat>, subst: map<nat, nat>, p: nat)
    requires Fresh(rank, a, p) && CollapsesBy(rank, a, b, found, subst) && Good(rank, a) && Good(rank, b)
    ensures Fresh(rank, b, p)
  {
    FoundDescends(rank, a.net, a.redirect, found);
    FreshTargets(rank, a, b, found, subst, p);
    FreshWires(a.net, b.net, subst, p);
    hide Descends;
    hide CollapsesTo;
    hide Avoids;
    assert b.net.wires[p] == Rewired(a.net.wires[p], subst);
  }

  lemma FreshTargets(rank: seq<nat>, a: FoldState, b: FoldState, found: map<nat, nat>, subst: map<nat, nat>, p: nat)
    requires Fresh(rank, a, p) && CollapsesBy(rank, a, b, found, subst) && Descends(rank, a.redirect + found)
    ensures forall g :: g in subst ==> subst[g] != p
  {
    var m := a.redirect + found;
    forall g | g in found ensures found[g] != p {
      assert CollapsesTo(a.net, g, found[g]);
      assert found[g] in a.net.wires[g];
    }
    forall g | g in subst ensures subst[g] != p {
      EndNot(rank, m, g, p);
    }
  }

  lemma FreshWires(a: Net, b: Net, subst: map<nat, nat>, p: nat)
    requires b == RewiredNet(a, subst) && (forall g :: 0 <= g < |a.wires| ==> p !in a.wires[g]) && forall g :: g in subst ==> subst[g] != p
    ensures forall g :: 0 <= g < |b.wires| ==> p !in b.wires[g]
  {
    forall g, i | 0 <= g < |b.wires| && 0 <= i < |b.wires[g]| ensures b.wires[g][i] != p {
      assert a.wires[g][i] in a.wires[g];
    }
  }

  lemma FreshPatch(rank: seq<nat>, id2uuid: map<nat, Uuid>, a: FoldState, b: FoldState, p: nat)
    requires Fresh(rank, a, p) && Patches(rank, id2uuid, a, b)
    ensures Fresh(rank, b, p)
  {
    hide NamesFollow;
    forall g ensures g != p ==> End(rank, a.redirect, g) != p {
      EndNot(rank, a.redirect, g, p);
    }
  }

  lemma {:induction false} FreshRun(rank: seq<nat>, id2uuid: map<nat, Uuid>, run: seq<FoldState>, i: nat, p: nat)
    requires IsRun(rank, id2uuid, run) && i < |run| && Fresh(rank, run[0], p)
    ensures Fresh(rank, run[i], p)
    ensures SameMeaning(run[0].net, run[i].net, rank, Truth(false))
  {
    hide Step;
    hide Fresh;
    hide Value;
    TruthIsLattice(false);
    hide IsLattice;
    if i > 0 {
      FreshRun(rank, id2uuid, run, i - 1, p);
      assert Step(rank, id2uuid, run[i - 1], run[i - 1 + 1]);
      FreshStep(rank, id2uuid, run[i - 1], run[i], p);
      StepKeeps(rank, id2uuid, run[i - 1], run[i], Truth(false));
      SameTrans(run[0].net, run[i - 1].net, run[i].net, rank, Truth(false));
    }
  }

  // ----- What is lost -----

  /** b is what folding makes of a product over w. */
  ghost predicate FoldedFrom(net: Net, rank: seq<nat>, id2uuid: map<nat, Uuid>, w: nat, b: FoldState) {
    && Ranked(net, rank) && w < |net.kind| && b.redirect == map[] && Folded(b.net)
    && exists names :: Reaches(ReusedRank(rank, w), id2uuid, FoldState(Reused(net, w), names, {}, {}, map[]), b)
  }

  /** A product over a gate that is always one becomes one, and is not marked. */
  lemma ProductOverOne(net: Net, rank: seq<nat>, id2uuid: map<nat, Uuid>, w: nat, b: FoldState)
    requires FoldedFrom(net, rank, id2uuid, w, b) && AlwaysOne(net, rank, w)
    ensures var ranks, p := ReusedRank(rank, w), |net.kind|;
            && Ranked(b.net, ranks) && p < |b.net.kind| && b.net.kind[p] == OneGate
            && Clear(b.net, ranks, b.boolean + b.absorptive, p)
  {
    hide Value;
    hide Folded;
    hide Step;
    hide Good;
    var more, ranks, p := Reused(net, w), ReusedRank(rank, w), |net.kind|;
    ReusedRanked(net, rank, w);
    var names :| Reaches(ranks, id2uuid, FoldState(more, names, {}, {}, map[]), b);
    var a := FoldState(more, names, {}, {}, map[]);
    var run :| IsRun(ranks, id2uuid, run) && run[0] == a && run[|run| - 1] == b;
    FreshStart(net, ranks, w, a);
    FreshRun(ranks, id2uuid, run, |run| - 1, p);
    TruthMonoids(false);
    ReusedTop(net, rank, Truth(false), w);
    OnesFolded(b.net, ranks, p);
  }

  lemma FreshStart(net: Net, ranks: seq<nat>, w: nat, a: FoldState)
    requires w < |net.kind| == |net.wires| && a.net == Reused(net, w) && Ranked(a.net, ranks) && a.boolean == a.absorptive == {} && a.redirect == map[]
    requires forall g :: 0 <= g < |net.wires| ==> |net.kind| !in net.wires[g]
    ensures Fresh(ranks, a, |net.kind|)
  {
  }

  /** The marks protect a product over a gate that is always one only if that gate is one. */
  lemma LostUnlessOne<V(!new)>(net: Net, rank: seq<nat>, id2uuid: map<nat, Uuid>, w: nat, b: FoldState, r: Reading<V>)
    requires FoldedFrom(net, rank, id2uuid, w, b) && AlwaysOne(net, rank, w) && IsSemiring(r.semiring)
    requires Protected(Reused(net, w), b.net, ReusedRank(rank, w), r, b.boolean + b.absorptive)
    ensures Value(net, rank, r, w) == r.semiring.one
  {
    hide FoldedFrom;
    hide IsMonoid;
    hide Distributes;
    hide AlwaysOne;
    hide Clear;
    FoldedRanked(net, rank, id2uuid, w, b);
    ProductOverOne(net, rank, id2uuid, w, b);
    ReusedTop(net, rank, r, w);
  }

  lemma FoldedRanked(net: Net, rank: seq<nat>, id2uuid: map<nat, Uuid>, w: nat, b: FoldState)
    requires FoldedFrom(net, rank, id2uuid, w, b)
    ensures Ranked(net, rank) && w < |net.kind| && Ranked(Reused(net, w), ReusedRank(rank, w)) && b.redirect == map[]
  {
    ReusedRanked(net, rank, w);
  }

  lemma ReusedOnes<V(!new)>(net: Net, rank: seq<nat>, w: nat, r: Reading<V>)
    requires Ranked(net, rank) && w < |net.kind| && OnesAreOne(net, rank, r) && IsSemiring(r.semiring)
    ensures Ranked(Reused(net, w), ReusedRank(rank, w)) && OnesAreOne(Reused(net, w), ReusedRank(rank, w), r)
  {
    hide Value;
    ReusedRanked(net, rank, w);
    var more, ranks := Reused(net, w), ReusedRank(rank, w);
    MultiplicativeMonoid(r.semiring);
    TruthMonoids(false);
    hide IsMonoid;
    hide IsSemiring;
    forall g: nat | g < |more.kind| && AlwaysOne(more, ranks, g) ensures Value(more, ranks, r, g) == r.semiring.one {
      if g < |net.kind| {
        ReusedValue(net, rank, r, w, g);
        ReusedValue(net, rank, Truth(false), w, g);
        assert AlwaysOne(net, rank, g);
      } else {
        ReusedTop(net, rank, r, w);
        ReusedTop(net, rank, Truth(false), w);
        assert AlwaysOne(net, rank, w);
      }
    }
  }

  lemma KeptIfOnes<V(!new)>(net: Net, rank: seq<nat>, id2uuid: map<nat, Uuid>, w: nat, b: FoldState, r: Reading<V>)
    requires FoldedFrom(net, rank, id2uuid, w, b) && OnesAreOne(net, rank, r) && IsSemiring(r.semiring)
    ensures Protected(Reused(net, w), b.net, ReusedRank(rank, w), r, b.boolean + b.absorptive)
  {
    hide IsSemiring;
    hide OnesAreOne;
    ReusedOnes(net, rank, w, r);
    var names :| Reaches(ReusedRank(rank, w), id2uuid, FoldState(Reused(net, w), names, {}, {}, map[]), b);
    MarksProtect(ReusedRank(rank, w), id2uuid, FoldState(Reused(net, w), names, {}, {}, map[]), b, r);
  }

  /** For any circuit and semiring, both kinds of marks protect a product over any one of
      the circuit's gates exactly when every gate that is always one is one: which holds of
      all circuits in an absorptive semiring, and of a circuit without ones in its sums in
      any. */
  lemma MarksSufficeExactly<V(!new)>(net: Net, rank: seq<nat>, id2uuid: map<nat, Uuid>, folded: seq<FoldState>, r: Reading<V>)
    requires Ranked(net, rank) && IsSemiring(r.semiring) && |folded| == |net.kind|
    requires forall w: nat :: w < |net.kind| ==> FoldedFrom(net, rank, id2uuid, w, folded[w])
    ensures OnesAreOne(net, rank, r) <==>
              forall w: nat :: w < |net.kind| ==>
                Protected(Reused(net, w), folded[w].net, ReusedRank(rank, w), r, folded[w].boolean + folded[w].absorptive)
  {
    hide IsSemiring;
    hide FoldedFrom;
    hide AlwaysOne;
    hide Value;
    hide Protected;
    if OnesAreOne(net, rank, r) {
      forall w: nat | w < |net.kind|
        ensures Protected(Reused(net, w), folded[w].net, ReusedRank(rank, w), r, folded[w].boolean + folded[w].absorptive)
      {
        KeptIfOnes(net, rank, id2uuid, w, folded[w], r);
      }
    }
    if forall w: nat :: w < |net.kind| ==>
         Protected(Reused(net, w), folded[w].net, ReusedRank(rank, w), r, folded[w].boolean + folded[w].absorptive)
    {
      forall g: nat | g < |net.kind| && AlwaysOne(net, rank, g) ensures Value(net, rank, r, g) == r.semiring.one {
        LostUnlessOne(net, rank, id2uuid, g, folded[g], r);
      }
    }
  }

  /** Folding does end, for every circuit and gate. */
  method FoldReused(net: Net, w: nat, level: Level, ghost rank: seq<nat>) returns (c: FoldCircuit<bool>)
    requires Ranked(net, rank) && w < |net.kind|
    ensures FoldedFrom(net, rank, map[], w, c.At(map[]))
  {
    ReusedRanked(net, rank, w);
    TruthIsLattice(false);
    LatticeParts(Truth(false).semiring);
    hide IsSemiring;
    hide IsAbsorptive;
    hide Value;
    hide Reaches;
    hide Normal;
    hide RulelessTo;
    hide Folded;
    hide Protected;
    hide NamesProtected;
    assert Admits(level, Truth(false).semiring);
    c := new FoldCircuit<bool>(Reused(net, w), map[], map[], ReusedRank(rank, w), Truth(false));
    ghost var s := c.At(map[]);
    assert s == FoldState(Reused(net, w), map[], {}, {}, map[]);
    c.FoldToFixpoint(level);
    assert Reaches(ReusedRank(rank, w), map[], s, c.At(map[]));
    FoldedAt(level, c.net, ReusedRank(rank, w));
  }

  lemma FoldedAt(level: Level, net: Net, rank: seq<nat>)
    requires Ranked(net, rank) && Normal(net) && RulelessTo(level, net, |net.kind|)
    ensures Folded(net)
  {
    hide Normal;
    forall g: nat | g < |net.kind| && net.kind[g] == PlusGate ensures !HasOneWire(net, g) {
      assert Ruleless(level, net, g);
    }
  }

  // ----- An instance -----

  /** Whole numbers, all opaque gates read as one: how often a tuple is derived. */
  ghost function Counting(): Reading<int> {
    Reading(Semiring(0, 1, (a: int, b: int) => a + b, (a: int, b: int) => a * b), (g: nat, vals: seq<int>) => 1)
  }

  lemma CountingMonoids()
    ensures IsMonoid(Counting().semiring.Additive()) && IsMonoid(Counting().semiring.Multiplicative())
  {
    var add, mul := Counting().semiring.Additive(), Counting().semiring.Multiplicative();
    assert Commutes(add) && Commutes(mul);
    hide Commutes;
    assert Associates(add) && Associates(mul);
    hide Associates;
  }

  lemma CountingIsSemiring()
    ensures IsSemiring(Counting().semiring)
  {
    CountingMonoids();
    CountingDistributes();
    hide IsMonoid;
    hide Distributes;
  }

  lemma CountingDistributes()
    ensures Distributes(Counting().semiring)
  {
  }

  /** One plus a tuple, as the only factor of a product: folding loses the tuple, and leaves
      no mark that would keep a count of two from becoming one. */
  lemma LostMark(b: FoldState)
    requires FoldedFrom(Net([OneGate, OtherGate, PlusGate], [[], [], [0, 1]]), [0, 0, 1], map[], 2, b)
    ensures IsSemiring(Counting().semiring)
    ensures var before, rank := Net([OneGate, OtherGate, PlusGate, TimesGate], [[], [], [0, 1], [2]]), [0, 0, 1, 2];
            && Ranked(before, rank) && Ranked(b.net, rank) && 3 < |b.net.kind| && Clear(b.net, rank, b.boolean + b.absorptive, 3)
            && Value(before, rank, Counting(), 3) == 2 && Value(b.net, rank, Counting(), 3) == 1
  {
    var net, rank := Net([OneGate, OtherGate, PlusGate], [[], [], [0, 1]]), [0, 0, 1];
    assert Reused(net, 2) == Net([OneGate, OtherGate, PlusGate, TimesGate], [[], [], [0, 1], [2]]) && ReusedRank(rank, 2) == [0, 0, 1, 2];
    assert Ranked(net, rank);
    OneMore();
    CountingIsSemiring();
    CountingMonoids();
    hide *;
    ReusedRanked(net, rank, 2);
    ProductOverOne(net, rank, map[], 2, b);
    ReusedTop(net, rank, Counting(), 2);
    ConstantOne(b.net, [0, 0, 1, 2], 3);
  }

  lemma ConstantOne(net: Net, rank: seq<nat>, g: nat)
    requires Ranked(net, rank) && g < |net.kind| && net.kind[g] == OneGate
    ensures Value(net, rank, Counting(), g) == 1
  {
  }

  lemma OneMore()
    ensures var net, rank := Net([OneGate, OtherGate, PlusGate], [[], [], [0, 1]]), [0, 0, 1];
            Ranked(net, rank) && AlwaysOne(net, rank, 2) && Value(net, rank, Counting(), 2) == 2
  {
    var net, rank := Net([OneGate, OtherGate, PlusGate], [[], [], [0, 1]]), [0, 0, 1];
    OneAndOther(net, rank, Counting());
    OneAndOther(net, rank, Truth(false));
    SomeTrue(false, [true, false]);
    OnePlusOne();
  }

  lemma OneAndOther<V(!new)>(net: Net, rank: seq<nat>, r: Reading<V>)
    requires net == Net([OneGate, OtherGate, PlusGate], [[], [], [0, 1]]) && rank == [0, 0, 1]
    ensures Ranked(net, rank) && Value(net, rank, r, 2) == Fold(r.semiring.Additive(), [r.semiring.one, r.other(1, [])])
  {
    assert Ranked(net, rank);
    assert Value(net, rank, r, 0) == r.semiring.one && Value(net, rank, r, 1) == r.other(1, []);
    assert Values(net, rank, r, [0, 1], 1) == [r.semiring.one, r.other(1, [])];
  }

  lemma OnePlusOne()
    ensures Fold(Counting().semiring.Additive(), [1, 1]) == 2
  {
    assert [1, 1][..1] == [1] && [1][..0] == [];
    assert Fold(Counting().semiring.Additive(), [1]) == 1;
  }
}
