/** Splitting a connected block of contributors into independent Cartesian factors. */
module ProductBlocks {
  import opened Worlds
  import opened Probability
  import opened Sequences
  import opened SeqSums
  import opened MonotoneDnf
  import opened Connectivity
  import opened ClauseBlocks
  import opened Contributors
  import opened CrossProducts
  import Blocks

  // ----- What a decomposition is -----

  /** The factor of each leaf, and the distinct parts of each factor. */
  datatype Decomposition = Decomposition(factor: map<nat, nat>, parts: seq<Clauses>)

  ghost predicate Together(contribs: Clauses, a: nat, b: nat) {
    exists i :: 0 <= i < |contribs| && a in contribs[i] && b in contribs[i]
  }

  /** Different leaves that never occur in the same contributor. */
  ghost function NeverTogether(contribs: Clauses): Edges {
    (a: nat, b: nat) => a != b && a in Support(contribs) && b in Support(contribs) && !Together(contribs, a, b)
  }

  ghost predicate Used(factor: map<nat, nat>, f: nat) {
    exists l :: l in factor && factor[l] == f
  }

  /** factor numbers the components of the leaves under never occurring together. */
  ghost predicate Classes(contribs: Clauses, n: nat, factor: map<nat, nat>, nf: nat) {
    && factor.Keys == Support(contribs)
    && (forall l :: l in factor ==> l < n && factor[l] < nf)
    && (forall f: nat :: f < nf ==> Used(factor, f))
    && (forall a, b :: a in factor && b in factor ==> (factor[a] == factor[b] <==> Linked(NeverTogether(contribs), n, a, b)))
  }

  /** The leaves of c in factor f. */
  function Projection(c: set<nat>, factor: map<nat, nat>, f: nat): set<nat> {
    set l | l in c && l in factor && factor[l] == f
  }

  ghost predicate MeetsAll(contribs: Clauses, factor: map<nat, nat>, nf: nat) {
    forall c, f: nat {:trigger Projection(c, factor, f)} :: c in contribs && f < nf ==> Projection(c, factor, f) != {}
  }

  ghost predicate IsParts(contribs: Clauses, factor: map<nat, nat>, parts: seq<Clauses>) {
    forall f: nat :: f < |parts| ==> PartsOf(contribs, factor, f, parts[f])
  }

  ghost predicate PartsOf(contribs: Clauses, factor: map<nat, nat>, f: nat, qs: Clauses) {
    && Distinct(qs)
    && (forall c :: c in contribs ==> Projection(c, factor, f) in qs)
    && (forall q :: q in qs ==> exists c :: c in contribs && q == Projection(c, factor, f))
  }

  /** At least two factors, each met by every contributor, with as many combinations
      of parts as there are contributors. */
  ghost predicate IsDecomposition(contribs: Clauses, d: Decomposition) {
    && |d.parts| >= 2 && d.factor.Keys == Support(contribs)
    && (forall l :: l in d.factor ==> d.factor[l] < |d.parts|)
    && MeetsAll(contribs, d.factor, |d.parts|)
    && IsParts(contribs, d.factor, d.parts)
    && Sizes(d.parts, |d.parts|) == |contribs|
  }

  // ----- Its factors are leaf-disjoint, and its members are unions of parts -----

  lemma PartLeaves(contribs: Clauses, factor: map<nat, nat>, f: nat, qs: Clauses, v: nat)
    requires PartsOf(contribs, factor, f, qs) && v in Support(qs)
    ensures v in factor && factor[v] == f && v in Support(contribs)
  {
    var i :| 0 <= i < |qs| && v in qs[i];
    assert qs[i] in qs;
    var c :| c in contribs && qs[i] == Projection(c, factor, f);
    var k :| 0 <= k < |contribs| && contribs[k] == c;
  }

  lemma FactorsApart(contribs: Clauses, d: Decomposition)
    requires IsDecomposition(contribs, d)
    ensures PairwiseApart(d.parts)
    ensures forall f: nat :: f < |d.parts| ==> Distinct(d.parts[f]) && Support(d.parts[f]) <= Support(contribs)
  {
    hide Sizes;
    forall f: nat | f < |d.parts|
      ensures Distinct(d.parts[f]) && Support(d.parts[f]) <= Support(contribs)
      ensures forall v :: v in Support(d.parts[f]) ==> v in d.factor && d.factor[v] == f
    {
      assert PartsOf(contribs, d.factor, f, d.parts[f]);
      forall v | v in Support(d.parts[f]) ensures v in Support(contribs) && v in d.factor && d.factor[v] == f {
        PartLeaves(contribs, d.factor, f, d.parts[f], v);
      }
    }
  }

  /** Every factor misses some leaf of the block. */
  lemma FactorSmaller(contribs: Clauses, d: Decomposition, f: nat)
    requires IsDecomposition(contribs, d) && f < |d.parts| && contribs != []
    ensures Support(d.parts[f]) < Support(contribs)
  {
    FactorsApart(contribs, d);
    var g := if f == 0 then 1 else 0;
    var c := contribs[0];
    assert c in contribs && Projection(c, d.factor, g) != {};
    var v :| v in Projection(c, d.factor, g);
    assert v in Support(contribs);
    assert PartsOf(contribs, d.factor, f, d.parts[f]);
    if v in Support(d.parts[f]) { PartLeaves(contribs, d.factor, f, d.parts[f], v); }
  }

  /** The leaves of c in the first k factors. */
  ghost function Below(c: set<nat>, factor: map<nat, nat>, k: nat): set<nat> {
    set l | l in c && l in factor && factor[l] < k
  }

  /** Each projection of c is one of the parts. */
  ghost predicate Projected(c: set<nat>, factor: map<nat, nat>, parts: seq<Clauses>) {
    forall f: nat :: f < |parts| ==> Projection(c, factor, f) in parts[f]
  }

  lemma {:induction false} BelowInCross(c: set<nat>, factor: map<nat, nat>, parts: seq<Clauses>, k: nat)
    requires Projected(c, factor, parts) && k <= |parts|
    ensures Below(c, factor, k) in Cross(parts, k)
  {
    if k == 0 {
      assert Below(c, factor, 0) == {};
    } else {
      BelowInCross(c, factor, parts, k - 1);
      BelowStep(c, factor, k);
      JoinedIn(Cross(parts, k - 1), parts[k - 1], Below(c, factor, k - 1), Projection(c, factor, k - 1));
    }
  }

  lemma BelowStep(c: set<nat>, factor: map<nat, nat>, k: nat)
    requires k > 0
    ensures Below(c, factor, k) == Below(c, factor, k - 1) + Projection(c, factor, k - 1)
  {
  }

  lemma MembersInCross(contribs: Clauses, d: Decomposition)
    requires IsDecomposition(contribs, d)
    ensures forall c :: c in contribs ==> c in Cross(d.parts, |d.parts|)
  {
    forall c | c in contribs ensures c in Cross(d.parts, |d.parts|) {
      assert IsParts(contribs, d.factor, d.parts);
      BelowInCross(c, d.factor, d.parts, |d.parts|);
      var k :| 0 <= k < |contribs| && contribs[k] == c;
      assert c <= Support(contribs);
      assert Below(c, d.factor, |d.parts|) == c;
    }
  }

  // ----- When the members are exactly the combinations -----

  /** A list inside another of the same length, both without repetitions, is a permutation of it. */
  lemma Pigeonhole(a: Clauses, b: Clauses)
    requires Distinct(a) && Distinct(b) && |a| == |b| && forall c :: c in a ==> c in b
    ensures multiset(a) == multiset(b)
  {
    DistinctSize(a);
    DistinctSize(b);
    SubsetSize(Elements(a), Elements(b));
    forall c ensures c in a <==> c in b {
      assert c in Elements(a) <==> c in a;
      assert c in Elements(b) <==> c in b;
    }
    SameElements(a, b);
  }

  /** Given a decomposition, the members are in bijection with the full product of the
      parts if and only if no member is repeated. */
  lemma ProductIff(contribs: Clauses, d: Decomposition)
    requires IsDecomposition(contribs, d)
    ensures Distinct(contribs) <==> multiset(contribs) == multiset(Cross(d.parts, |d.parts|))
  {
    var all := Cross(d.parts, |d.parts|);
    FactorsApart(contribs, d);
    CrossDistinct(d.parts, |d.parts|);
    CrossSize(d.parts, |d.parts|);
    MembersInCross(contribs, d);
    if Distinct(contribs) { Pigeonhole(contribs, all); }
    if multiset(contribs) == multiset(all) { DistinctPermuted(all, contribs); }
  }

  /** The count of a decomposed block is the product of the counts of its factors in
      every world if and only if no member is repeated. */
  lemma CountIsProductIff(contribs: Clauses, d: Decomposition)
    requires IsDecomposition(contribs, d)
    ensures Distinct(contribs) <==> forall w :: Count(contribs, w) == ProductOfCounts(d.parts, |d.parts|, w)
  {
    var all := Cross(d.parts, |d.parts|);
    ProductIff(contribs, d);
    forall w ensures Count(all, w) == ProductOfCounts(d.parts, |d.parts|, w) { CountOfCross(d.parts, |d.parts|, w); }
    if Distinct(contribs) {
      forall w ensures Count(contribs, w) == Count(all, w) { SumPermuted(contribs, all, Here(w)); }
    }
    if forall w :: Count(contribs, w) == ProductOfCounts(d.parts, |d.parts|, w) {
      CountsDetermine(contribs, all);
    }
  }

  ghost function ProductOfCounts(parts: seq<Clauses>, k: nat, w: World): nat
    requires k <= |parts|
  {
    if k == 0 then 1 else ProductOfCounts(parts, k - 1, w) * Count(parts[k - 1], w)
  }

  lemma {:induction false} CountOfCross(parts: seq<Clauses>, k: nat, w: World)
    requires k <= |parts|
    ensures Count(Cross(parts, k), w) == ProductOfCounts(parts, k, w)
  {
    hide Count;
    if k == 0 {
      CountNothing(w);
    } else {
      CountOfCross(parts, k - 1, w);
      CountJoins(Cross(parts, k - 1), parts[k - 1], w);
    }
  }
}
