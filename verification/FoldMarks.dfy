/** What the assumption marks are for: a gate that no marked gate feeds has its old value,
    also in readings in which the rules are no identities.  */
module FoldMarks {
  import opened SemiringAlgebra
  import opened PostOrder
  import opened ProvenanceNet
  import opened FoldMeasure
  import opened FoldRules
  import opened FoldSteps

  // ----- Gates that are constant whatever the opaque gates are -----

  /** Truth values, with all opaque gates read alike. */
  ghost function Truth(other: bool): Reading<bool> {
    Reading(Semiring(false, true, (a: bool, b: bool) => a || b, (a: bool, b: bool) => a && b), (g: nat, vals: seq<bool>) => other)
  }

  lemma TruthIsLattice(other: bool)
    ensures IsLattice(Truth(other).semiring)
  {
    TruthMonoids(other);
    assert Distributes(Truth(other).semiring);
    hide IsMonoid;
    hide Distributes;
  }

  lemma TruthMonoids(other: bool)
    ensures IsMonoid(Truth(other).semiring.Additive()) && IsMonoid(Truth(other).semiring.Multiplicative())
  {
    var or, and := Truth(other).semiring.Additive(), Truth(other).semiring.Multiplicative();
    assert Commutes(or) && Commutes(and);
    hide Commutes;
    assert Associates(or) && Associates(and);
    hide Associates;
  }

  /** True when all opaque gates are false. */
  ghost predicate AlwaysOne(net: Net, rank: seq<nat>, g: nat)
    requires Ranked(net, rank) && g < |net.kind|
  {
    Value(net, rank, Truth(false), g)
  }

  /** False when all opaque gates are true. */
  ghost predicate AlwaysZero(net: Net, rank: seq<nat>, g: nat)
    requires Ranked(net, rank) && g < |net.kind|
  {
    !Value(net, rank, Truth(true), g)
  }

  /** Whatever is always one is one in this reading. */
  ghost predicate OnesAreOne<V(!new)>(net: Net, rank: seq<nat>, r: Reading<V>)
    requires Ranked(net, rank)
  {
    forall g: nat :: g < |net.kind| && AlwaysOne(net, rank, g) ==> Value(net, rank, r, g) == r.semiring.one
  }

  lemma {:induction false} SomeTrue(other: bool, vals: seq<bool>)
    ensures Fold(Truth(other).semiring.Additive(), vals) <==> true in vals
  {
    if vals != [] { SomeTrue(other, vals[..|vals| - 1]); }
  }

  lemma {:induction false} AllTrue(other: bool, vals: seq<bool>)
    ensures Fold(Truth(other).semiring.Multiplicative(), vals) <==> false !in vals
  {
    if vals != [] { AllTrue(other, vals[..|vals| - 1]); }
  }

  lemma {:induction false} AllUnits<V(!new)>(m: Monoid<V>, vals: seq<V>)
    requires IsMonoid(m) && forall x :: x in vals ==> x == m.unit
    ensures Fold(m, vals) == m.unit
  {
    if vals != [] {
      Unit(m, m.unit);
      hide IsMonoid;
      var init, last := vals[..|vals| - 1], vals[|vals| - 1];
      assert last in vals && forall x :: x in init ==> x in vals;
      AllUnits(m, init);
    }
  }

  /** In an absorptive semiring whatever is always one is one. */
  lemma {:induction false} OneInAbsorptive<V(!new)>(net: Net, rank: seq<nat>, r: Reading<V>, g: nat)
    requires Ranked(net, rank) && g < |net.kind| && IsAbsorptive(r.semiring) && AlwaysOne(net, rank, g)
    ensures Value(net, rank, r, g) == r.semiring.one
    decreases rank[g]
  {
    var ws := net.wires[g];
    assert Below(rank, ws, rank[g]);
    var truths, vals := Values(net, rank, Truth(false), ws, rank[g]), Values(net, rank, r, ws, rank[g]);
    hide IsSemiring;
    if net.kind[g] == PlusGate {
      SomeTrue(false, truths);
      var i :| 0 <= i < |ws| && truths[i];
      OneInAbsorptive(net, rank, r, ws[i]);
      assert vals[i] == r.semiring.one;
      OneTerm(r.semiring, vals);
    } else if net.kind[g] == TimesGate {
      AllTrue(false, truths);
      forall i | 0 <= i < |ws| ensures vals[i] == r.semiring.one {
        assert truths[i] in truths;
        OneInAbsorptive(net, rank, r, ws[i]);
      }
      MultiplicativeMonoid(r.semiring);
      AllUnits(r.semiring.Multiplicative(), vals);
    }
  }

  lemma MultiplicativeMonoid<V(!new)>(s: Semiring<V>)
    requires IsSemiring(s)
    ensures IsMonoid(s.Multiplicative()) && IsMonoid(s.Additive())
  {
  }

  /** In any semiring whatever is always zero is zero. */
  lemma {:induction false} ZeroInAny<V(!new)>(net: Net, rank: seq<nat>, r: Reading<V>, g: nat)
    requires Ranked(net, rank) && g < |net.kind| && IsSemiring(r.semiring) && AlwaysZero(net, rank, g)
    ensures Value(net, rank, r, g) == r.semiring.zero
    decreases rank[g]
  {
    var ws := net.wires[g];
    assert Below(rank, ws, rank[g]);
    var truths, vals := Values(net, rank, Truth(true), ws, rank[g]), Values(net, rank, r, ws, rank[g]);
    MultiplicativeMonoid(r.semiring);
    hide IsSemiring;
    hide IsMonoid;
    if net.kind[g] == PlusGate {
      SomeTrue(true, truths);
      forall i | 0 <= i < |ws| ensures vals[i] == r.semiring.zero {
        assert truths[i] in truths ==> !truths[i];
        ZeroInAny(net, rank, r, ws[i]);
      }
      AllUnits(r.semiring.Additive(), vals);
    } else if net.kind[g] == TimesGate {
      AllTrue(true, truths);
      var i :| 0 <= i < |ws| && !truths[i];
      ZeroInAny(net, rank, r, ws[i]);
      assert vals[i] == r.semiring.zero;
      ZeroFactor(r.semiring, vals);
    }
  }

  // ----- The setting -----

  /** The circuit before folding, read by r; the marks that are minded: the Boolean ones, or
      both kinds. */
  datatype View<!V> = View(before: Net, rank: seq<nat>, r: Reading<V>, both: bool)

  ghost predicate ViewOk<V(!new)>(v: View<V>) {
    && Ranked(v.before, v.rank) && IsSemiring(v.r.semiring) && OnesAreOne(v.before, v.rank, v.r)
    && (v.both || IsAbsorptive(v.r.semiring))
  }

  ghost function Was<V(!new)>(v: View<V>, g: nat): V
    requires Ranked(v.before, v.rank) && g < |v.before.kind|
  {
    Value(v.before, v.rank, v.r, g)
  }

  ghost function Add<V>(v: View<V>): Monoid<V> {
    v.r.semiring.Additive()
  }

  ghost function Minded<V>(v: View<V>, st: FoldState): set<nat> {
    if v.both then st.boolean + st.absorptive else st.boolean
  }

  /** A redirection from a marked gate leads to k, or k is marked. */
  ghost predicate Tainted<V>(v: View<V>, st: FoldState, k: nat) {
    exists g :: g in Minded(v, st) && End(v.rank, st.redirect, g) == k
  }

  ghost predicate Constant<V>(v: View<V>, k: nat)
    requires Ranked(v.before, v.rank) && k < |v.before.kind|
  {
    AlwaysOne(v.before, v.rank, k) || AlwaysZero(v.before, v.rank, k)
  }

  ghost predicate Doubtful<V>(v: View<V>, st: FoldState, k: nat)
    requires Ranked(v.before, v.rank) && k < |v.before.kind|
  {
    Tainted(v, st, k) && !Constant(v, k)
  }

  // ----- What every step keeps -----

  ghost predicate Fits<V>(v: View<V>, net: Net) {
    Ranked(v.before, v.rank) && Ranked(net, v.rank)
  }

  /** The old values of the wires of g. */
  ghost function WireWas<V(!new)>(v: View<V>, net: Net, g: nat): (vals: seq<V>)
    requires Fits(v, net) && g < |net.kind|
    ensures |vals| == |net.wires[g]|
    ensures forall i :: 0 <= i < |vals| ==> net.wires[g][i] < |net.kind| && vals[i] == Was(v, net.wires[g][i])
  {
    assert Below(v.rank, net.wires[g], v.rank[g]);
    Values(v.before, v.rank, v.r, net.wires[g], v.rank[g])
  }

  ghost predicate Firm<V>(v: View<V>, st: FoldState, g: nat)
    requires Fits(v, st.net) && g < |st.net.kind|
  {
    forall w :: w in st.net.wires[g] ==> w < |st.net.kind| && !Doubtful(v, st, w)
  }

  /** An unmarked gate over firm wires has, over their old values, its own. */
  ghost predicate Exact<V(!new)>(v: View<V>, st: FoldState, g: nat)
    requires Fits(v, st.net) && g < |st.net.kind|
  {
    g !in Minded(v, st) && Firm(v, st, g) ==> Local(v.r, st.net.kind[g], g, WireWas(v, st.net, g)) == Was(v, g)
  }

  /** In an absorptive semiring, products are below their factors, sums below the sum of
      their terms, and firm terms below their sums. */
  ghost predicate Ordered<V(!new)>(v: View<V>, st: FoldState, g: nat)
    requires Fits(v, st.net) && g < |st.net.kind|
  {
    && (st.net.kind[g] == TimesGate ==> UnderFactors(v, st.net, g))
    && (st.net.kind[g] == PlusGate ==> Absorbs(Add(v), Fold(Add(v), WireWas(v, st.net, g)), Was(v, g)) && OverTerms(v, st, g))
  }

  ghost predicate UnderFactors<V(!new)>(v: View<V>, net: Net, g: nat)
    requires Fits(v, net) && g < |net.kind|
  {
    forall w :: w in net.wires[g] ==> w < |net.kind| && Absorbs(Add(v), Was(v, w), Was(v, g))
  }

  ghost predicate OverTerms<V(!new)>(v: View<V>, st: FoldState, g: nat)
    requires Fits(v, st.net) && g < |st.net.kind|
  {
    forall w :: w in st.net.wires[g] ==> w < |st.net.kind| && (Doubtful(v, st, w) || Absorbs(Add(v), Was(v, g), Was(v, w)))
  }

  ghost predicate Constants<V>(v: View<V>, net: Net) {
    SameMeaning(v.before, net, v.rank, Truth(false)) && SameMeaning(v.before, net, v.rank, Truth(true))
  }

  /** A redirected gate and its end have one value, unless the end is doubtful. */
  ghost predicate Led<V(!new)>(v: View<V>, st: FoldState, g: nat)
    requires Fits(v, st.net)
  {
    var t := End(v.rank, st.redirect, g);
    g < |st.net.kind| && t < |st.net.kind| && (Doubtful(v, st, t) || Was(v, t) == Was(v, g))
  }

  ghost predicate NameKept<V(!new)>(v: View<V>, st: FoldState, names: map<Uuid, nat>, u: Uuid)
    requires Fits(v, st.net) && u in names && u in st.names
  {
    && st.names[u] < |st.net.kind| && names[u] < |st.net.kind|
    && (st.names[u] in Minded(v, st) || Was(v, st.names[u]) == Was(v, names[u]))
  }

  ghost predicate Inv<V(!new)>(v: View<V>, names: map<Uuid, nat>, st: FoldState) {
    && ViewOk(v) && Good(v.rank, st) && Constants(v, st.net)
    && AllExact(v, st) && (!v.both ==> AllOrdered(v, st)) && AllLed(v, st) && AllNamed(v, names, st)
  }

  ghost predicate AllExact<V(!new)>(v: View<V>, st: FoldState) {
    Fits(v, st.net) && forall g: nat :: g < |st.net.kind| ==> Exact(v, st, g)
  }

  ghost predicate AllOrdered<V(!new)>(v: View<V>, st: FoldState) {
    Fits(v, st.net) && forall g: nat :: g < |st.net.kind| ==> Ordered(v, st, g)
  }

  ghost predicate AllLed<V(!new)>(v: View<V>, st: FoldState) {
    Fits(v, st.net) && forall g :: g in st.redirect ==> Led(v, st, g)
  }

  ghost predicate AllNamed<V(!new)>(v: View<V>, names: map<Uuid, nat>, st: FoldState) {
    Fits(v, st.net) && names.Keys <= st.names.Keys && forall u :: u in names ==> NameKept(v, st, names, u)
  }
}
