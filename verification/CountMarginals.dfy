/** Exact distribution of how many contributors are present. */
module CountMarginals {
  import opened Worlds
  import opened Probability
  import opened RandomValues
  import opened Sequences
  import opened SeqSums
  import opened MonotoneDnf
  import opened ClauseBlocks
  import opened Contributors
  import opened SharedRoots
  import opened CrossProducts
  import opened ProductBlocks
  import opened ProductDecomposition
  import opened Acceptance
  import opened BlockAcceptance
  import Blocks
  import Connectivity

  // ----- Combining count vectors -----

  function Plus(): (nat, nat) -> nat {
    (a: nat, b: nat) => a + b
  }

  function Multiply(): (nat, nat) -> nat {
    (a: nat, b: nat) => a * b
  }

  /** Entry k of r sums the products of entries whose indices combine to k. */
  ghost predicate IsCombination(op: (nat, nat) -> nat, a: seq<real>, b: seq<real>, r: seq<real>) {
    forall k: nat :: k < |r| ==> r[k] == Rows(op, a, b, k, |a|)
  }

  method Accumulate(op: (nat, nat) -> nat, a: seq<real>, b: seq<real>, size: nat) returns (r: seq<real>)
    requires forall i: nat, j: nat :: i < |a| && j < |b| ==> op(i, j) < size
    ensures |r| == size && IsCombination(op, a, b, r)
  {
    r := seq(size, k => 0.0);
    for i := 0 to |a|
      invariant |r| == size && forall k: nat :: k < size ==> r[k] == Rows(op, a, b, k, i)
    {
      if a[i] == 0.0 {
        forall k: nat ensures Row(op, a, b, k, i, |b|) == 0.0 { ZeroRow(op, a, b, k, i, |b|); }
      } else {
        for j := 0 to |b|
          invariant |r| == size && forall k: nat :: k < size ==> r[k] == Rows(op, a, b, k, i) + Row(op, a, b, k, i, j)
        {
          r := r[op(i, j) := r[op(i, j)] + a[i] * b[j]];
        }
      }
    }
  }

  /** Distribution of a sum of independent counts. */
  method Convolve(a: seq<real>, b: seq<real>) returns (r: seq<real>)
    ensures a == [] ==> r == b
    ensures a != [] && b == [] ==> r == a
    ensures a != [] && b != [] ==> |r| == |a| + |b| - 1 && IsCombination(Plus(), a, b, r)
  {
    if a == [] {
      return b;
    }
    if b == [] {
      return a;
    }
    r := Accumulate(Plus(), a, b, |a| + |b| - 1);
  }

  lemma ProductBound(i: nat, j: nat, m: nat, n: nat)
    requires i <= m && j <= n
    ensures i * j <= m * n
  {
    assert i * j <= m * j <= m * n;
  }

  lemma ProductIndices(m: nat, n: nat)
    ensures m * n >= 0
    ensures forall i: nat, j: nat {:trigger Multiply()(i, j)} :: i <= m && j <= n ==> Multiply()(i, j) < m * n + 1
  {
    forall i: nat, j: nat | i <= m && j <= n ensures Multiply()(i, j) < m * n + 1 {
      ProductBound(i, j, m, n);
    }
  }

  /** One more than the product of the largest indices of vectors of these lengths. */
  function ProductLength(a: nat, b: nat): (n: nat)
    requires a > 0 && b > 0
    ensures n > 0
  {
    ProductIndices(a - 1, b - 1);
    (a - 1) * (b - 1) + 1
  }

  /** Distribution of a product of independent counts. */
  method ProductConvolve(a: seq<real>, b: seq<real>) returns (r: seq<real>)
    ensures a == [] || b == [] ==> r == []
    ensures a != [] && b != [] ==> |r| == ProductLength(|a|, |b|) && IsCombination(Multiply(), a, b, r)
  {
    if a == [] || b == [] {
      return [];
    }
    var aMax, bMax := |a| - 1, |b| - 1;
    ProductIndices(aMax, bMax);
    var size := ProductLength(|a|, |b|);
    hide *;
    r := Accumulate(Multiply(), a, b, size);
  }

  // ----- Distributions of block counts -----

  lemma LengthPositive(p: seq<real>, r: seq<real>, X: World -> nat)
    requires IsPmf(p, r, X)
    ensures r != []
  {
    assert X([]) < |r|;
  }

  lemma NothingPmf(p: seq<real>)
    requires Unit(p)
    ensures IsPmf(p, [1.0], CountOf([]))
  {
    SureEvent(p, Is(CountOf([]), 0));
  }

  lemma SingletonPmf(p: seq<real>, c: set<nat>, q: real)
    requires Unit(p) && q == P(p, Present(c))
    ensures IsPmf(p, [1.0 - q, q], CountOf([c]))
  {
    var X := CountOf([c]);
    forall w ensures X(w) == if AllTrue(w, c) then 1 else 0 {
      var none: Clauses := [];
      SumAppend(none, c, Here(w));
      assert none + [c] == [c];
    }
    hide P;
    SameEvent(p, Present(c), Is(X, 1));
    ComplementEvent(p, Present(c), Is(X, 0));
  }

  /** The two arms of a shared root: absent, or present with the residual count. */
  function Gated(inner: seq<real>, root: real): (r: seq<real>)
    requires inner != []
    ensures |r| == |inner|
    ensures forall c: nat :: c < |r| ==> r[c] == inner[c] * root + (if c == 0 then 1.0 - root else 0.0)
  {
    seq(|inner|, c requires 0 <= c < |inner| => inner[c] * root + (if c == 0 then 1.0 - root else 0.0))
  }

  lemma GatedPmf(p: seq<real>, contribs: Clauses, common: set<nat>, inner: seq<real>)
    requires Unit(p) && SharedBy(contribs, common) && inner != []
    requires IsPmf(p, inner, CountOf(Residuals(contribs, common)))
    ensures IsPmf(p, Gated(inner, P(p, Present(common))), CountOf(contribs))
  {
    var Y, Z := CountOf(Residuals(contribs, common)), CountOf(contribs);
    CountReads(Residuals(contribs, common));
    ResidualSupport(contribs, common);
    forall w ensures Z(w) == if AllTrue(w, common) then Y(w) else 0 { GatedCount(contribs, common, w); }
    hide P;
    hide Count;
    hide Reads;
    forall c: nat ensures Mass(p, Z, c) == P(p, Present(common)) * Mass(p, Y, c)
                                         + (if c == 0 then 1.0 - P(p, Present(common)) else 0.0)
    {
      GatedMass<nat>(p, common, Y, Support(Residuals(contribs, common)), Z, 0, c);
    }
  }

  /** Independent blocks: the counts add. */
  lemma BlockPmf(p: seq<real>, groups: seq<Clauses>, k: nat, total: seq<real>, block: seq<real>, r: seq<real>)
    requires Unit(p) && PairwiseApart(groups) && k < |groups|
    requires IsPmf(p, total, CountOf(Flat(groups, k))) && IsPmf(p, block, CountOf(groups[k]))
    requires |r| == |total| + |block| - 1 && IsCombination(Plus(), total, block, r)
    ensures IsPmf(p, r, CountOf(Flat(groups, k + 1)))
  {
    var done, next := Flat(groups, k), groups[k];
    PrefixApart(groups, k);
    CountReads(done);
    CountReads(next);
    forall w ensures CountOf(done + next)(w) == CountOf(done)(w) + CountOf(next)(w) < |r| {
      SumConcat(done, next, Here(w));
      assert CountOf(done)(w) < |total| && CountOf(next)(w) < |block|;
    }
    hide Count;
    hide Reads;
    CombinedPmf(p, Plus(), total, CountOf(done), Support(done), block, CountOf(next), Support(next), r, CountOf(done + next));
  }

  /** Independent factors: the counts multiply. */
  lemma FactorPmf(p: seq<real>, parts: seq<Clauses>, k: nat, acc: seq<real>, fp: seq<real>, r: seq<real>)
    requires Unit(p) && PairwiseApart(parts) && k < |parts|
    requires IsPmf(p, acc, CountOf(Cross(parts, k))) && IsPmf(p, fp, CountOf(parts[k]))
    requires acc != [] && fp != [] && |r| == ProductLength(|acc|, |fp|) && IsCombination(Multiply(), acc, fp, r)
    ensures IsPmf(p, r, CountOf(Cross(parts, k + 1)))
  {
    var us, qs := Cross(parts, k), parts[k];
    PrefixApart(parts, k);
    CrossSupport(parts, k);
    CountReads(us);
    CountReads(qs);
    forall w ensures CountOf(Joins(us, qs))(w) == Multiply()(CountOf(us)(w), CountOf(qs)(w)) < |r| {
      CountJoins(us, qs, w);
      assert CountOf(us)(w) < |acc| && CountOf(qs)(w) < |fp|;
      ProductBound(CountOf(us)(w), CountOf(qs)(w), |acc| - 1, |fp| - 1);
    }
    hide Count;
    hide Reads;
    CombinedPmf(p, Multiply(), acc, CountOf(us), Support(us), fp, CountOf(qs), Support(qs), r, CountOf(Joins(us, qs)));
  }

  lemma CrossSupport(parts: seq<Clauses>, k: nat)
    requires k <= |parts|
    ensures Support(Cross(parts, k)) <= Support(Flat(parts, k))
  {
    CrossWithin(parts, k);
    forall v | v in Support(Cross(parts, k)) ensures v in Support(Flat(parts, k)) {
      var i :| 0 <= i < |Cross(parts, k)| && v in Cross(parts, k)[i];
      assert Cross(parts, k)[i] in Cross(parts, k);
    }
  }

  /** One factor alone is its own product. */
  lemma FirstFactorPmf(p: seq<real>, parts: seq<Clauses>, fp: seq<real>)
    requires Unit(p) && |parts| > 0 && IsPmf(p, fp, CountOf(parts[0]))
    ensures IsPmf(p, fp, CountOf(Cross(parts, 1)))
  {
    var X, Y := CountOf(parts[0]), CountOf(Cross(parts, 1));
    forall w ensures X(w) == Y(w) {
      assert Cross(parts, 1) == Joins(Cross(parts, 0), parts[0]);
      CountJoins([{}], parts[0], w);
      CountNothing(w);
    }
    SamePmf(p, fp, X, Y);
  }

  lemma SamePmf(p: seq<real>, r: seq<real>, X: World -> nat, Y: World -> nat)
    requires Unit(p) && IsPmf(p, r, X) && forall w :: X(w) == Y(w)
    ensures IsPmf(p, r, Y)
  {
    forall c: nat ensures Mass(p, X, c) == Mass(p, Y, c) { SameMass(p, X, Y, c); }
  }

  // ----- The recursion -----

  /** The first k groups are accepted. */
  ghost predicate AllAccept(groups: seq<Clauses>, k: nat, shape: Shape)
    requires k <= |groups|
  {
    forall j :: 0 <= j < k ==> BlockAccepts(groups[j], shape)
  }

  lemma NextAccepts(groups: seq<Clauses>, k: nat, shape: Shape)
    requires k < |groups|
    ensures AllAccept(groups, k + 1, shape) <==> AllAccept(groups, k, shape) && BlockAccepts(groups[k], shape)
    ensures AllAccept(groups, |groups|, shape) ==> BlockAccepts(groups[k], shape)
    ensures AllAccept(groups, 0, shape)
  {
    hide BlockAccepts;
  }

  lemma BlocksDecide(contribs: Clauses, blocks: seq<seq<nat>>, shape: Shape)
    requires Blocks.IsBlocks(contribs, blocks)
    ensures var groups := Blocks.PickAll(contribs, blocks);
            (Accepts(contribs, shape) <==> AllAccept(groups, |groups|, shape)) && AllAccept(groups, 0, shape)
  {
    hide BlockAccepts;
    hide Accepts;
    AcceptsByBlocks(contribs, blocks, shape);
  }

  lemma NothingAccepts(contribs: Clauses)
    ensures contribs == [] ==> Accepts(contribs, Any) && Accepts(contribs, Unrepeated)
  {
  }

  lemma SingleAccepts(group: Clauses)
    ensures |group| == 1 ==> BlockAccepts(group, Any) && BlockAccepts(group, Unrepeated)
  {
  }

  lemma DistinctPart(contribs: Clauses)
    requires Accepts(contribs, Any) && Distinct(contribs)
    ensures Accepts(contribs, Unrepeated)
  {
    DistinctAccepts(contribs);
  }

  lemma BlockFacts(p: seq<real>, contribs: Clauses, blocks: seq<seq<nat>>, k: nat)
    requires LeavesOk(p, contribs) && Blocks.IsBlocks(contribs, blocks) && k < |blocks|
    ensures var group := Blocks.PickAll(contribs, blocks)[k];
            group != [] && LeavesOk(p, group) && Support(group) <= Support(contribs) && (Distinct(contribs) ==> Distinct(group))
  {
    hide Connectivity.Linked;
    var block, group := blocks[k], Blocks.PickAll(contribs, blocks)[k];
    GroupWithin(contribs, block);
    forall i, v | 0 <= i < |group| && v in group[i] ensures v < |p| { assert group[i] == contribs[block[i]]; }
    if Distinct(contribs) {
      forall i, j | 0 <= i < j < |group| ensures group[i] != group[j] {
        assert block[i] < block[j];
        assert group[i] == contribs[block[i]] && group[j] == contribs[block[j]];
      }
    }
  }

  lemma WholeCount(p: seq<real>, contribs: Clauses, blocks: seq<seq<nat>>, r: seq<real>)
    requires Unit(p) && Blocks.IsBlocks(contribs, blocks)
    requires IsPmf(p, r, CountOf(Flat(Blocks.PickAll(contribs, blocks), |blocks|)))
    ensures IsPmf(p, r, CountOf(contribs))
  {
    var all := Flat(Blocks.PickAll(contribs, blocks), |blocks|);
    forall w ensures CountOf(all)(w) == CountOf(contribs)(w) { SumBlocks(contribs, blocks, contribs, Here(w)); }
    SamePmf(p, r, CountOf(all), CountOf(contribs));
  }

  /** Distribution of the number of present contributors, or refusal: it is given exactly
      when the contributors are accepted, and is right unless a product block lists a
      member twice. */
  method CountPmf(p: seq<real>, contribs: Clauses) returns (r: seq<real>, ok: bool)
    requires LeavesOk(p, contribs)
    ensures ok <==> Accepts(contribs, Any)
    ensures Accepts(contribs, Unrepeated) ==> IsPmf(p, r, CountOf(contribs))
    ensures ok && Distinct(contribs) ==> IsPmf(p, r, CountOf(contribs))
    ensures LeafDisjoint(contribs) ==> ok
    ensures ok <==> r != []
    decreases Support(contribs), 2
  {
    hide IsPmf;
    hide IsCombination;
    hide Accepts;
    hide BlockAccepts;
    hide AllAccept;
    hide PairwiseApart;
    hide Connectivity.Linked;
    NothingPmf(p);
    NothingAccepts(contribs);
    ApartAccepts(contribs);
    if contribs == [] {
      return [1.0], true;
    }
    var blocks := Blocks.Partition(contribs);
    var groups := Blocks.PickAll(contribs, blocks);
    hide Blocks.IsBlocks;
    GroupsApart(contribs, blocks);
    BlocksDecide(contribs, blocks, Any);
    BlocksDecide(contribs, blocks, Unrepeated);
    r := [1.0];
    for k := 0 to |groups|
      invariant r != [] && AllAccept(groups, k, Any)
      invariant AllAccept(groups, k, Unrepeated) ==> IsPmf(p, r, CountOf(Flat(groups, k)))
    {
      NextAccepts(groups, k, Any);
      NextAccepts(groups, k, Unrepeated);
      BlockFacts(p, contribs, blocks, k);
      var block;
      block, ok := BlockCount(p, groups[k]);
      if !ok {
        if Accepts(contribs, Unrepeated) { StrictPart(contribs); }
        return [], false;
      }
      var total := Convolve(r, block);
      if AllAccept(groups, k + 1, Unrepeated) { BlockPmf(p, groups, k, r, block, total); }
      r := total;
    }
    if Accepts(contribs, Unrepeated) { WholeCount(p, contribs, blocks, r); }
    if Distinct(contribs) { DistinctPart(contribs); }
    ok := true;
  }

  lemma ApartAccepts(contribs: Clauses)
    ensures LeafDisjoint(contribs) ==> Accepts(contribs, Any)
  {
    if LeafDisjoint(contribs) {
      LeafDisjointAccepts(contribs);
      AcceptsMore(contribs, Nested, Any);
    }
  }

  /** One independence block: a single contributor, a shared root, or a product. */
  method BlockCount(p: seq<real>, group: Clauses) returns (r: seq<real>, ok: bool)
    requires LeavesOk(p, group) && group != []
    ensures ok <==> BlockAccepts(group, Any)
    ensures ok <==> r != []
    ensures BlockAccepts(group, Unrepeated) ==> IsPmf(p, r, CountOf(group))
    decreases Support(group), 1
  {
    hide IsPmf;
    hide Accepts;
    hide BlockAccepts;
    SingleAccepts(group);
    if |group| == 1 {
      var q := LeafProduct(p, group[0]);
      SingletonPmf(p, group[0], q);
      assert group == [group[0]];
      return [1.0 - q, q], true;
    }
    var common := CommonLeaves(group);
    CommonIs(group, common);
    if common != {} {
      CommonFacts(p, group, common);
      RootAccepted(group, common, Any);
      RootAccepted(group, common, Unrepeated);
      var root := LeafProduct(p, common);
      var residuals := ResidualsOf(group, common);
      var inner;
      inner, ok := CountPmf(p, residuals);
      if !ok {
        if Accepts(residuals, Unrepeated) { StrictPart(residuals); }
        return [], false;
      }
      r := Gated(inner, root);
      if BlockAccepts(group, Unrepeated) { GatedPmf(p, group, common, inner); }
    } else {
      r, ok := ProductCount(p, group);
    }
  }

  lemma CommonFacts(p: seq<real>, group: Clauses, common: set<nat>)
    requires LeavesOk(p, group) && group != [] && common != {}
    requires forall v :: v in common <==> forall i :: 0 <= i < |group| ==> v in group[i]
    ensures SharedBy(group, common) && (forall v :: v in common ==> v < |p|)
    ensures LeavesOk(p, Residuals(group, common)) && Support(Residuals(group, common)) < Support(group)
  {
    ResidualSupport(group, common);
    forall i, v | 0 <= i < |group| && v in common ensures v in group[i] {}
    forall v | v in common ensures v in Support(group) && v < |p| { assert v in group[0]; }
    var v :| v in common;
    assert v in Support(group) && v !in Support(Residuals(group, common));
    forall i, l | 0 <= i < |group| && l in Residuals(group, common)[i] ensures l < |p| { assert l in group[i]; }
  }

  lemma GatesBelow(p: seq<real>, group: Clauses)
    requires LeavesOk(p, group)
    ensures LeavesBelow(group, |p|)
  {
  }

  lemma PartFacts(p: seq<real>, group: Clauses, d: Decomposition, f: nat)
    requires LeavesOk(p, group) && group != [] && IsDecomposition(group, d) && f < |d.parts|
    ensures Distinct(d.parts[f])
    ensures LeavesOk(p, d.parts[f]) && Support(d.parts[f]) < Support(group)
  {
    FactorSmaller(group, d, f);
    forall i, v | 0 <= i < |d.parts[f]| && v in d.parts[f][i] ensures v < |p| {
      assert v in Support(d.parts[f]);
      assert v in Support(group);
    }
  }

  /** Factors on disjoint leaves, smaller than the block, each without repeats. */
  ghost predicate Factored(p: seq<real>, group: Clauses, parts: seq<Clauses>) {
    && |parts| >= 2 && PairwiseApart(parts)
    && forall f: nat :: f < |parts| ==> Distinct(parts[f]) && LeavesOk(p, parts[f]) && Support(parts[f]) < Support(group)
  }

  /** The first k factors are accepted. */
  ghost predicate PartsAccept(parts: seq<Clauses>, k: nat, shape: Shape)
    requires k <= |parts|
  {
    forall f: nat :: f < k ==> Accepts(parts[f], shape)
  }

  lemma NextPart(p: seq<real>, group: Clauses, parts: seq<Clauses>, k: nat)
    requires Factored(p, group, parts) && k < |parts|
    ensures PartsAccept(parts, k + 1, Any) <==> PartsAccept(parts, k, Any) && Accepts(parts[k], Any)
    ensures PartsAccept(parts, |parts|, Any) ==> Accepts(parts[k], Any)
    ensures PartsAccept(parts, 0, Any)
    ensures Accepts(parts[k], Any) ==> Accepts(parts[k], Unrepeated)
    ensures LeavesOk(p, parts[k]) && Support(parts[k]) < Support(group) && PairwiseApart(parts)
  {
    hide Accepts;
    if Accepts(parts[k], Any) { DistinctPart(parts[k]); }
  }

  /** The factors of a block, whose acceptance decides that of the block. */
  method FactorsOf(p: seq<real>, group: Clauses) returns (parts: seq<Clauses>, ok: bool)
    requires LeavesOk(p, group) && NeedsProduct(group)
    ensures !ok ==> !BlockAccepts(group, Any) && !BlockAccepts(group, Unrepeated)
    ensures ok ==> Factored(p, group, parts) && (BlockAccepts(group, Any) <==> PartsAccept(parts, |parts|, Any))
    ensures ok && BlockAccepts(group, Unrepeated) ==> BlockAccepts(group, Any) && Distinct(group)
    ensures ok && Distinct(group) ==> multiset(Cross(parts, |parts|)) == multiset(group)
  {
    hide IsDecomposition;
    hide Accepts;
    hide BlockAccepts;
    GatesBelow(p, group);
    var d;
    ghost var factor, nf;
    ok, d, factor, nf := DecomposeProduct(group, |p|);
    parts := d.parts;
    if !ok {
      ProductRefused(group, |p|, factor, nf, Any);
      ProductRefused(group, |p|, factor, nf, Unrepeated);
      return;
    }
    ProductAccepted(group, |p|, d, Any);
    ProductAccepted(group, |p|, d, Unrepeated);
    DecompositionSize(group, d);
    FactorsApart(group, d);
    if BlockAccepts(group, Unrepeated) { BlockAcceptsMore(group, Unrepeated, Any); }
    forall f: nat | f < |parts| ensures Distinct(parts[f]) && LeavesOk(p, parts[f]) && Support(parts[f]) < Support(group) {
      PartFacts(p, group, d, f);
    }
    if Distinct(group) { ProductIff(group, d); }
  }

  lemma ProductPmf(p: seq<real>, group: Clauses, parts: seq<Clauses>, r: seq<real>)
    requires Unit(p) && multiset(Cross(parts, |parts|)) == multiset(group)
    requires IsPmf(p, r, CountOf(Cross(parts, |parts|)))
    ensures IsPmf(p, r, CountOf(group))
  {
    var all := Cross(parts, |parts|);
    forall w ensures CountOf(all)(w) == CountOf(group)(w) { SumPermuted(group, all, Here(w)); }
    SamePmf(p, r, CountOf(all), CountOf(group));
  }

  /** A block without a shared root: the product of the counts of its factors. */
  method ProductCount(p: seq<real>, group: Clauses) returns (r: seq<real>, ok: bool)
    requires LeavesOk(p, group) && NeedsProduct(group)
    ensures ok <==> BlockAccepts(group, Any)
    ensures ok <==> r != []
    ensures BlockAccepts(group, Unrepeated) ==> IsPmf(p, r, CountOf(group))
    decreases Support(group), 0
  {
    hide IsPmf;
    hide Accepts;
    hide BlockAccepts;
    hide PartsAccept;
    hide PairwiseApart;
    hide IsCombination;
    hide ProductLength;
    var parts;
    parts, ok := FactorsOf(p, group);
    r := [];
    if !ok {
      return;
    }
    NextPart(p, group, parts, 0);
    hide Factored;
    for f := 0 to |parts|
      invariant f > 0 ==> r != [] && IsPmf(p, r, CountOf(Cross(parts, f)))
      invariant PartsAccept(parts, f, Any)
    {
      NextPart(p, group, parts, f);
      var fp;
      fp, ok := CountPmf(p, parts[f]);
      if !ok {
        return [], false;
      }
      if f == 0 {
        FirstFactorPmf(p, parts, fp);
        r := fp;
      } else {
        var next := ProductConvolve(r, fp);
        FactorPmf(p, parts, f, r, fp, next);
        r := next;
      }
    }
    if Distinct(group) { ProductPmf(p, group, parts, r); }
    ok := true;
  }

  lemma StrictPart(part: Clauses)
    requires Accepts(part, Unrepeated)
    ensures Accepts(part, Any)
  {
    AcceptsMore(part, Unrepeated, Any);
  }

  lemma DecompositionSize(group: Clauses, d: Decomposition)
    requires IsDecomposition(group, d)
    ensures |d.parts| >= 2
  {
  }
}
