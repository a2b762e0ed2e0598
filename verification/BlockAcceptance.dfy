/** What the engines compute about a block agrees with the definition of acceptance: their
    partitions list its independence blocks, their factors are its factors.  */
module BlockAcceptance {
  import opened Sequences
  import opened MonotoneDnf
  import opened ClauseBlocks
  import opened Contributors
  import opened SharedRoots
  import opened CrossProducts
  import opened ProductBlocks
  import opened ProductDecomposition
  import opened Acceptance
  import opened Connectivity
  import Blocks

  // ----- Independence blocks -----

  lemma LinkedCoupled(contribs: Clauses, i: nat, j: nat)
    requires Linked(Blocks.Overlap(contribs), |contribs|, i, j)
    ensures i < |contribs| && j < |contribs| && Coupled(Elements(contribs), contribs[i], contribs[j])
  {
    var p :| IsChain(Blocks.Overlap(contribs), |contribs|, p) && p[0] == i && p[|p| - 1] == j;
    var q := seq(|p|, (k: nat) requires k < |p| => contribs[p[k]]);
    forall k | 0 < k < |q| ensures !(q[k - 1] !! q[k]) {
      assert Blocks.Overlap(contribs)(p[k - 1], p[k]);
    }
    assert IsClauseChain(Elements(contribs), q);
  }

  lemma OverlapSameBlock(contribs: Clauses, blocks: seq<seq<nat>>, k: nat, i: nat, j: nat)
    requires Blocks.IsBlocks(contribs, blocks) && k < |blocks| && i in blocks[k] && i < |contribs| && j < |contribs|
    requires !(contribs[i] !! contribs[j])
    ensures j in blocks[k]
  {
    hide Linked;
    assert Blocks.Covered(blocks, j);
    var b :| 0 <= b < |blocks| && j in blocks[b];
    assert b == k;
  }

  lemma {:induction false} ChainSameBlock(contribs: Clauses, blocks: seq<seq<nat>>, k: nat, i: nat, path: seq<set<nat>>, t: nat, j: nat)
    requires Blocks.IsBlocks(contribs, blocks) && k < |blocks| && i in blocks[k] && i < |contribs| && contribs[i] != {}
    requires IsClauseChain(Elements(contribs), path) && path[0] == contribs[i] && t < |path| && j < |contribs| && contribs[j] == path[t]
    ensures j in blocks[k]
    decreases t
  {
    hide Blocks.IsBlocks;
    if t == 0 {
      var v :| v in contribs[i];
      assert v in contribs[j];
      OverlapSameBlock(contribs, blocks, k, i, j);
    } else {
      assert path[t - 1] in Elements(contribs);
      var h :| 0 <= h < |contribs| && contribs[h] == path[t - 1];
      ChainSameBlock(contribs, blocks, k, i, path, t - 1, h);
      OverlapSameBlock(contribs, blocks, k, h, j);
    }
  }

  /** The items of a block are those coupled with any one of them. */
  lemma BlockIsCoupled(contribs: Clauses, blocks: seq<seq<nat>>, k: nat, i: nat, j: nat)
    requires Blocks.IsBlocks(contribs, blocks) && k < |blocks| && i in blocks[k] && i < |contribs| && contribs[i] != {} && j < |contribs|
    ensures j in blocks[k] <==> Coupled(Elements(contribs), contribs[i], contribs[j])
  {
    if j in blocks[k] {
      assert Linked(Blocks.Overlap(contribs), |contribs|, i, j);
      LinkedCoupled(contribs, i, j);
    }
    if Coupled(Elements(contribs), contribs[i], contribs[j]) {
      var path :| IsClauseChain(Elements(contribs), path) && path[0] == contribs[i] && path[|path| - 1] == contribs[j];
      ChainSameBlock(contribs, blocks, k, i, path, |path| - 1, j);
    }
  }

  lemma NextInBlock(block: seq<nat>, m: nat, n: nat)
    requires Blocks.Increasing(block) && m <= |block| && n in block
    requires (forall t :: 0 <= t < m ==> block[t] < n) && forall t :: m <= t < |block| ==> block[t] >= n
    ensures m < |block| && block[m] == n && forall t :: m < t < |block| ==> block[t] > n
  {
    var t :| 0 <= t < |block| && block[t] == n;
  }

  /** Filtering the contributors coupled with c lists the block of c, in its order. */
  lemma {:induction false} FilterIsBlock(contribs: Clauses, block: seq<nat>, c: set<nat>, n: nat) returns (m: nat)
    requires n <= |contribs| && Blocks.Increasing(block) && forall j :: j in block ==> j < |contribs|
    requires forall j: nat :: j < |contribs| ==> (j in block <==> Coupled(Elements(contribs), c, contribs[j]))
    ensures m <= |block| && forall t :: 0 <= t < |block| ==> (block[t] < n <==> t < m)
    ensures CoupledIn(contribs[..n], Elements(contribs), c) == Blocks.Pick(contribs, block)[..m]
    decreases n
  {
    hide Coupled;
    if n == 0 {
      m := 0;
    } else {
      m := FilterIsBlock(contribs, block, c, n - 1);
      assert contribs[..n][..n - 1] == contribs[..n - 1];
      if n - 1 in block {
        NextInBlock(block, m, n - 1);
        assert Blocks.Pick(contribs, block)[..m + 1] == Blocks.Pick(contribs, block)[..m] + [contribs[n - 1]];
        m := m + 1;
      } else {
        assert forall t :: m <= t < |block| ==> block[t] in block;
      }
    }
  }

  lemma FilterAll(contribs: Clauses, block: seq<nat>, c: set<nat>)
    requires Blocks.Increasing(block) && forall j :: j in block ==> j < |contribs|
    requires forall j: nat :: j < |contribs| ==> (j in block <==> Coupled(Elements(contribs), c, contribs[j]))
    ensures CoupledIn(contribs, Elements(contribs), c) == Blocks.Pick(contribs, block)
  {
    var m := FilterIsBlock(contribs, block, c, |contribs|);
    assert contribs[..|contribs|] == contribs;
    if block != [] {
      assert block[|block| - 1] in block;
    }
  }

  /** A contributor without leaves is alone in its block. */
  lemma EmptyAlone(contribs: Clauses, blocks: seq<seq<nat>>, k: nat, i: nat)
    requires Blocks.IsBlocks(contribs, blocks) && k < |blocks| && i in blocks[k] && i < |contribs| && contribs[i] == {}
    ensures Blocks.PickAll(contribs, blocks)[k] == [{}]
  {
    var block := blocks[k];
    hide Linked;
    forall t | 0 <= t < |block| ensures block[t] == i {
      assert block[t] in block;
      EmptyUnlinked(contribs, i, block[t]);
    }
    assert Blocks.Increasing(block);
    OnlyOne(block, i);
  }

  lemma EmptyUnlinked(contribs: Clauses, i: nat, j: nat)
    requires i < |contribs| && contribs[i] == {} && Linked(Blocks.Overlap(contribs), |contribs|, i, j)
    ensures i == j
  {
    var p :| IsChain(Blocks.Overlap(contribs), |contribs|, p) && p[0] == i && p[|p| - 1] == j;
    hide IsChain;
    if |p| > 1 { FirstEdge(contribs, p); }
  }

  lemma FirstEdge(contribs: Clauses, p: seq<nat>)
    requires IsChain(Blocks.Overlap(contribs), |contribs|, p) && |p| > 1
    ensures p[0] < |contribs| && contribs[p[0]] != {}
  {
    assert Blocks.Overlap(contribs)(p[0], p[1]);
  }

  lemma OnlyOne(block: seq<nat>, i: nat)
    requires Blocks.Increasing(block) && block != [] && forall t :: 0 <= t < |block| ==> block[t] == i
    ensures block == [i]
  {
    hide Blocks.Increasing;
    if |block| > 1 { TwoDiffer(block); }
  }

  lemma TwoDiffer(block: seq<nat>)
    requires Blocks.Increasing(block) && |block| > 1
    ensures block[0] < block[1]
  {
  }

  lemma GroupIsBlock(contribs: Clauses, blocks: seq<seq<nat>>, k: nat, i: nat)
    requires Blocks.IsBlocks(contribs, blocks) && k < |blocks| && i in blocks[k]
    ensures i < |contribs| && BlockOf(contribs, contribs[i]) == Blocks.PickAll(contribs, blocks)[k]
  {
    if contribs[i] == {} {
      EmptyAlone(contribs, blocks, k, i);
    } else {
      forall j: nat | j < |contribs| ensures j in blocks[k] <==> Coupled(Elements(contribs), contribs[i], contribs[j]) {
        BlockIsCoupled(contribs, blocks, k, i, j);
      }
      hide Linked;
      hide Coupled;
      assert forall j :: j in blocks[k] ==> j < |contribs|;
      FilterAll(contribs, blocks[k], contribs[i]);
    }
  }

  /** Acceptance, read off any partition into blocks. */
  lemma AcceptsByBlocks(contribs: Clauses, blocks: seq<seq<nat>>, shape: Shape)
    requires Blocks.IsBlocks(contribs, blocks)
    ensures var groups := Blocks.PickAll(contribs, blocks);
            Accepts(contribs, shape) <==> forall k :: 0 <= k < |groups| ==> BlockAccepts(groups[k], shape)
  {
    var groups := Blocks.PickAll(contribs, blocks);
    hide Linked;
    hide BlockAccepts;
    if Accepts(contribs, shape) {
      forall k | 0 <= k < |groups| ensures BlockAccepts(groups[k], shape) {
        var i := blocks[k][0];
        GroupIsBlock(contribs, blocks, k, i);
        assert contribs[i] in contribs;
      }
    }
    if forall k :: 0 <= k < |groups| ==> BlockAccepts(groups[k], shape) {
      forall c | c in contribs ensures Support(BlockOf(contribs, c)) <= Support(contribs) && BlockAccepts(BlockOf(contribs, c), shape) {
        var i :| 0 <= i < |contribs| && contribs[i] == c;
        assert Blocks.Covered(blocks, i);
        var k :| 0 <= k < |blocks| && i in blocks[k];
        GroupIsBlock(contribs, blocks, k, i);
        GroupWithin(contribs, blocks[k]);
      }
    }
  }

  // ----- Factors -----

  lemma ChainsAgree(contribs: Clauses, n: nat, l: nat, m: nat)
    requires LeavesBelow(contribs, n) && l in Support(contribs) && m in Support(contribs)
    ensures Linked(NeverTogether(contribs), n, l, m) <==> SameFactor(Elements(contribs), l, m)
  {
    var cs := Elements(contribs);
    SupportLeaves(contribs);
    forall a, b ensures NeverTogether(contribs)(a, b) == NeverMeet(cs, a, b) {
      TogetherSame(contribs, a, b);
    }
    if Linked(NeverTogether(contribs), n, l, m) {
      var p :| IsChain(NeverTogether(contribs), n, p) && p[0] == l && p[|p| - 1] == m;
      forall k | 0 <= k < |p| ensures p[k] in Leaves(cs) {
        if k > 0 { assert NeverTogether(contribs)(p[k - 1], p[k]); }
      }
      assert IsLeafChain(cs, p);
    }
    if SameFactor(cs, l, m) {
      var p :| IsLeafChain(cs, p) && p[0] == l && p[|p| - 1] == m;
      assert IsChain(NeverTogether(contribs), n, p);
    }
  }

  lemma TogetherSame(contribs: Clauses, a: nat, b: nat)
    ensures Together(contribs, a, b) <==> exists c :: c in Elements(contribs) && a in c && b in c
  {
    if c :| c in Elements(contribs) && a in c && b in c {
      var i :| 0 <= i < |contribs| && contribs[i] == c;
    }
    if i :| 0 <= i < |contribs| && a in contribs[i] && b in contribs[i] {
      assert contribs[i] in Elements(contribs);
    }
  }

  /** The classes that the engines number are the factors. */
  ghost predicate Numbers(contribs: Clauses, factor: map<nat, nat>, nf: nat) {
    && factor.Keys == Support(contribs) && (forall l :: l in factor ==> factor[l] < nf)
    && (forall f: nat :: f < nf ==> Used(factor, f))
    && forall l, m :: l in factor && m in factor ==> (factor[l] == factor[m] <==> SameFactor(Elements(contribs), l, m))
  }

  lemma ClassesNumber(contribs: Clauses, n: nat, factor: map<nat, nat>, nf: nat)
    requires LeavesBelow(contribs, n) && Classes(contribs, n, factor, nf)
    ensures Numbers(contribs, factor, nf)
  {
    forall l, m | l in factor && m in factor ensures factor[l] == factor[m] <==> SameFactor(Elements(contribs), l, m) {
      ChainsAgree(contribs, n, l, m);
    }
  }

  lemma FactorIs(contribs: Clauses, factor: map<nat, nat>, nf: nat, l: nat, c: set<nat>)
    requires Numbers(contribs, factor, nf) && l in factor && c <= Support(contribs)
    ensures c * FactorAt(Elements(contribs), l) == Projection(c, factor, factor[l])
  {
    SupportLeaves(contribs);
    hide SameFactor;
  }

  lemma MemberWithin(contribs: Clauses)
    ensures forall c :: c in contribs ==> c <= Support(contribs)
  {
  }

  lemma PartsAre(contribs: Clauses, factor: map<nat, nat>, nf: nat, l: nat)
    requires Numbers(contribs, factor, nf) && l in factor
    ensures PartsAt(Elements(contribs), l) == PartSet(contribs, factor, factor[l])
  {
    MemberWithin(contribs);
    forall c | c in contribs ensures c * FactorAt(Elements(contribs), l) == Projection(c, factor, factor[l]) {
      FactorIs(contribs, factor, nf, l, c);
    }
    hide FactorAt;
    hide Projection;
    hide Numbers;
  }

  /** The parts that the engines collect list the parts of the factor. */
  lemma PartsListed(contribs: Clauses, factor: map<nat, nat>, nf: nat, l: nat, qs: Clauses)
    requires Numbers(contribs, factor, nf) && l in factor && PartsOf(contribs, factor, factor[l], qs)
    ensures Lists(qs, PartsAt(Elements(contribs), l))
  {
    PartsAre(contribs, factor, nf, l);
    hide PartsAt;
    assert Elements(qs) == PartSet(contribs, factor, factor[l]);
  }

  // ----- Counting the combinations -----

  /** Lists a set. */
  lemma {:induction false} ListSet(ps: set<set<nat>>) returns (qs: Clauses)
    ensures Lists(qs, ps)
    decreases ps
  {
    if ps == {} {
      qs := [];
    } else {
      var p :| p in ps;
      var rest := ListSet(ps - {p});
      qs := rest + [p];
      assert forall i :: 0 <= i < |rest| ==> rest[i] in Elements(rest);
      assert Elements(qs) == Elements(rest) + {p};
    }
  }

  lemma {:induction false} ListParts(contribs: Clauses, factor: map<nat, nat>, nf: nat) returns (parts: seq<Clauses>)
    ensures |parts| == nf && IsParts(contribs, factor, parts)
    decreases nf
  {
    if nf == 0 {
      parts := [];
    } else {
      var init := ListParts(contribs, factor, nf - 1);
      var qs := ListSet(PartSet(contribs, factor, nf - 1));
      PartSetListed(contribs, factor, nf - 1, qs);
      parts := init + [qs];
      forall f: nat | f < |parts| ensures PartsOf(contribs, factor, f, parts[f]) {
        if f < |init| { assert parts[f] == init[f]; }
      }
    }
  }

  lemma PartSetListed(contribs: Clauses, factor: map<nat, nat>, f: nat, qs: Clauses)
    requires Lists(qs, PartSet(contribs, factor, f))
    ensures PartsOf(contribs, factor, f, qs)
  {
    forall c | c in contribs ensures Projection(c, factor, f) in qs {
      assert Projection(c, factor, f) in Elements(qs);
    }
    forall q | q in qs ensures exists c :: c in contribs && q == Projection(c, factor, f) {
      assert q in Elements(qs);
    }
  }

  lemma PartsApart(contribs: Clauses, factor: map<nat, nat>, parts: seq<Clauses>)
    requires IsParts(contribs, factor, parts)
    ensures PairwiseApart(parts) && forall f :: 0 <= f < |parts| ==> Distinct(parts[f])
  {
    forall a, b | 0 <= a < b < |parts| ensures Support(parts[a]) !! Support(parts[b]) {
      forall v | v in Support(parts[a]) ensures v !in Support(parts[b]) {
        PartLeaves(contribs, factor, a, parts[a], v);
        if v in Support(parts[b]) { PartLeaves(contribs, factor, b, parts[b], v); }
      }
    }
    forall f | 0 <= f < |parts| ensures Distinct(parts[f]) {
      assert PartsOf(contribs, factor, f, parts[f]);
    }
  }

  /** x lies in the leaves of the first k factors, and its projections are parts. */
  ghost predicate MadeOfParts(contribs: Clauses, factor: map<nat, nat>, parts: seq<Clauses>, k: nat, x: set<nat>)
    requires k <= |parts|
  {
    && x <= Support(contribs) && (forall v :: v in x ==> v in factor && factor[v] < k)
    && forall f: nat :: f < k ==> Projection(x, factor, f) in parts[f]
  }

  lemma {:induction false} CrossCombines(contribs: Clauses, factor: map<nat, nat>, parts: seq<Clauses>, k: nat, x: set<nat>)
    requires IsParts(contribs, factor, parts) && k <= |parts| && x in Cross(parts, k)
    ensures MadeOfParts(contribs, factor, parts, k, x)
    decreases k
  {
    hide MadeOfParts;
    hide IsParts;
    hide PartsOf;
    hide Joins;
    hide Support;
    if k == 0 {
      NothingCombines(contribs, factor, parts);
      assert x == {};
    } else {
      var us, qs := Cross(parts, k - 1), parts[k - 1];
      InJoins(us, qs, x);
      var u, q :| u in us && q in qs && x == u + q;
      CrossCombines(contribs, factor, parts, k - 1, u);
      PartAt(contribs, factor, parts, k - 1);
      JoinCombines(contribs, factor, parts, k, u, q);
    }
  }

  lemma NothingCombines(contribs: Clauses, factor: map<nat, nat>, parts: seq<Clauses>)
    ensures MadeOfParts(contribs, factor, parts, 0, {})
  {
  }

  lemma JoinCombines(contribs: Clauses, factor: map<nat, nat>, parts: seq<Clauses>, k: nat, u: set<nat>, q: set<nat>)
    requires 0 < k <= |parts| && MadeOfParts(contribs, factor, parts, k - 1, u)
    requires PartsOf(contribs, factor, k - 1, parts[k - 1]) && q in parts[k - 1]
    ensures MadeOfParts(contribs, factor, parts, k, u + q)
  {
    PartIs(contribs, factor, k - 1, parts[k - 1], q);
    JoinProjects(factor, k - 1, u, q);
    hide Projection;
    hide Support;
    hide PartsOf;
  }

  lemma PartAt(contribs: Clauses, factor: map<nat, nat>, parts: seq<Clauses>, f: nat)
    requires IsParts(contribs, factor, parts) && f < |parts|
    ensures PartsOf(contribs, factor, f, parts[f])
  {
  }

  lemma JoinProjects(factor: map<nat, nat>, k: nat, u: set<nat>, q: set<nat>)
    requires forall v :: v in u ==> v in factor && factor[v] < k
    requires forall v :: v in q ==> v in factor && factor[v] == k
    ensures Projection(u + q, factor, k) == q && forall f: nat :: f < k ==> Projection(u + q, factor, f) == Projection(u, factor, f)
  {
  }

  lemma PartIs(contribs: Clauses, factor: map<nat, nat>, f: nat, qs: Clauses, q: set<nat>)
    requires PartsOf(contribs, factor, f, qs) && q in qs
    ensures q <= Support(contribs) && forall v :: v in q ==> v in factor && factor[v] == f
  {
    var c :| c in contribs && q == Projection(c, factor, f);
    MemberWithin(contribs);
  }

  lemma UnionIffProjected(contribs: Clauses, factor: map<nat, nat>, parts: seq<Clauses>, x: set<nat>)
    requires Numbers(contribs, factor, |parts|) && IsParts(contribs, factor, parts) && x <= Support(contribs)
    ensures IsUnion(Elements(contribs), x) <==> Projected(x, factor, parts)
  {
    SupportLeaves(contribs);
    forall l | l in factor ensures x * FactorAt(Elements(contribs), l) == Projection(x, factor, factor[l])
      && PartsAt(Elements(contribs), l) == Elements(parts[factor[l]])
    {
      FactorIs(contribs, factor, |parts|, l, x);
      assert PartsOf(contribs, factor, factor[l], parts[factor[l]]);
      PartsListed(contribs, factor, |parts|, l, parts[factor[l]]);
    }
    hide FactorAt;
    hide PartsAt;
    hide Projection;
    hide SameFactor;
    hide IsParts;
    if IsUnion(Elements(contribs), x) {
      forall f: nat | f < |parts| ensures Projection(x, factor, f) in parts[f] {
        assert Used(factor, f);
        var l :| l in factor && factor[l] == f;
        assert Projection(x, factor, f) in Elements(parts[f]);
      }
    }
    if Projected(x, factor, parts) {
      forall l | l in Leaves(Elements(contribs)) ensures x * FactorAt(Elements(contribs), l) in PartsAt(Elements(contribs), l) {
        assert Projection(x, factor, factor[l]) in parts[factor[l]];
      }
    }
  }

  lemma InCrossIsUnion(contribs: Clauses, factor: map<nat, nat>, parts: seq<Clauses>, x: set<nat>)
    requires Numbers(contribs, factor, |parts|) && IsParts(contribs, factor, parts) && x in Cross(parts, |parts|)
    ensures x <= Support(contribs) && IsUnion(Elements(contribs), x)
  {
    CrossCombines(contribs, factor, parts, |parts|, x);
    assert Projected(x, factor, parts);
    hide *;
    UnionIffProjected(contribs, factor, parts, x);
  }

  lemma CrossIsUnions(contribs: Clauses, factor: map<nat, nat>, parts: seq<Clauses>)
    requires Numbers(contribs, factor, |parts|) && IsParts(contribs, factor, parts)
    ensures Elements(Cross(parts, |parts|)) == Unions(Elements(contribs))
  {
    var all := Cross(parts, |parts|);
    hide Numbers;
    hide IsParts;
    hide Cross;
    hide Unions;
    forall x ensures x in Elements(all) <==> x in Unions(Elements(contribs)) {
      if x in all { InCrossIsUnion(contribs, factor, parts, x); }
      if x in Unions(Elements(contribs)) { UnionInCross(contribs, factor, parts, x); }
    }
  }

  lemma UnionInCross(contribs: Clauses, factor: map<nat, nat>, parts: seq<Clauses>, x: set<nat>)
    requires Numbers(contribs, factor, |parts|) && IsParts(contribs, factor, parts) && x in Unions(Elements(contribs))
    ensures x in Cross(parts, |parts|)
  {
    SupportLeaves(contribs);
    UnionIffProjected(contribs, factor, parts, x);
    AllBelow(contribs, factor, |parts|, x);
    hide Numbers;
    hide IsParts;
    hide Unions;
    hide Projected;
    BelowInCross(x, factor, parts, |parts|);
  }

  lemma AllBelow(contribs: Clauses, factor: map<nat, nat>, nf: nat, x: set<nat>)
    requires Numbers(contribs, factor, nf) && x <= Support(contribs)
    ensures Below(x, factor, nf) == x
  {
  }

  lemma CombinationsAreUnions(contribs: Clauses, factor: map<nat, nat>, nf: nat)
    requires Numbers(contribs, factor, nf)
    ensures Combinations(contribs, factor, nf) == |Unions(Elements(contribs))|
  {
    hide Numbers;
    var parts := ListParts(contribs, factor, nf);
    SizesAreCombinations(contribs, factor, parts);
    CrossSize(parts, nf);
    PartsApart(contribs, factor, parts);
    CrossDistinct(parts, nf);
    DistinctSize(Cross(parts, nf));
    CrossIsUnions(contribs, factor, parts);
  }

  /** The test of the engines for a product is the definition's. */
  lemma ProductTest(contribs: Clauses, n: nat, factor: map<nat, nat>, nf: nat)
    requires LeavesBelow(contribs, n) && Classes(contribs, n, factor, nf)
    ensures nf >= 2 && MeetsAll(contribs, factor, nf) && Combinations(contribs, factor, nf) == |contribs|
       <==> IsProduct(Elements(contribs), |contribs|)
  {
    ClassesNumber(contribs, n, factor, nf);
    hide Classes;
    CombinationsAreUnions(contribs, factor, nf);
    SeveralFactors(contribs, factor, nf);
    AllMet(contribs, factor, nf);
    hide Numbers;
    hide MeetsAll;
    hide Combinations;
    hide Unions;
  }

  lemma SeveralFactors(contribs: Clauses, factor: map<nat, nat>, nf: nat)
    requires Numbers(contribs, factor, nf)
    ensures nf >= 2 <==> exists a, b :: a in Leaves(Elements(contribs)) && b in Leaves(Elements(contribs)) && !SameFactor(Elements(contribs), a, b)
  {
    SupportLeaves(contribs);
    hide SameFactor;
    if nf >= 2 {
      assert Used(factor, 0) && Used(factor, 1);
      var a :| a in factor && factor[a] == 0;
      var b :| b in factor && factor[b] == 1;
      assert !SameFactor(Elements(contribs), a, b);
    }
    if a, b :| a in Leaves(Elements(contribs)) && b in Leaves(Elements(contribs)) && !SameFactor(Elements(contribs), a, b) {
      assert factor[a] != factor[b];
    }
  }

  lemma AllMet(contribs: Clauses, factor: map<nat, nat>, nf: nat)
    requires Numbers(contribs, factor, nf)
    ensures MeetsAll(contribs, factor, nf) <==> forall l :: l in Leaves(Elements(contribs)) ==> {} !in PartsAt(Elements(contribs), l)
  {
    SupportLeaves(contribs);
    forall l | l in factor ensures PartsAt(Elements(contribs), l) == PartSet(contribs, factor, factor[l]) {
      PartsAre(contribs, factor, nf, l);
    }
    hide SameFactor;
    hide PartsAt;
    hide Projection;
    forall c, f: nat | c in contribs && f < nf ensures exists l :: l in factor && factor[l] == f && Projection(c, factor, f) in PartSet(contribs, factor, f) {
      assert Used(factor, f);
    }
  }

  // ----- Acceptance of a product block -----

  ghost predicate NeedsProduct(group: Clauses) {
    group != [] && |group| != 1 && Common(Elements(group)) == {}
  }

  lemma SameListing(a: Clauses, b: Clauses, ps: set<set<nat>>)
    requires Lists(a, ps) && Lists(b, ps)
    ensures multiset(a) == multiset(b)
  {
    forall x ensures x in a <==> x in b {
      assert x in a <==> x in Elements(a);
      assert x in b <==> x in Elements(b);
    }
    SameElements(a, b);
  }

  /** The parts of d list those of the factors of the block. */
  ghost predicate ListsFactors(group: Clauses, d: Decomposition) {
    && d.factor.Keys == Leaves(Elements(group))
    && (forall l :: l in d.factor ==> d.factor[l] < |d.parts| && Lists(d.parts[d.factor[l]], PartsAt(Elements(group), l)))
    && forall f: nat :: f < |d.parts| ==> Support(d.parts[f]) < Support(group) && Used(d.factor, f)
  }

  lemma DecompositionLists(group: Clauses, n: nat, d: Decomposition)
    requires group != [] && LeavesBelow(group, n) && IsDecomposition(group, d) && Classes(group, n, d.factor, |d.parts|)
    ensures ListsFactors(group, d)
  {
    ClassesNumber(group, n, d.factor, |d.parts|);
    SupportLeaves(group);
    forall l | l in d.factor ensures Lists(d.parts[d.factor[l]], PartsAt(Elements(group), l)) {
      assert PartsOf(group, d.factor, d.factor[l], d.parts[d.factor[l]]);
      PartsListed(group, d.factor, |d.parts|, l, d.parts[d.factor[l]]);
    }
    forall f: nat | f < |d.parts| ensures Support(d.parts[f]) < Support(group) {
      FactorSmaller(group, d, f);
    }
  }

  lemma AcceptedFactor(group: Clauses, d: Decomposition, f: nat, shape: Shape)
    requires NeedsProduct(group) && ListsFactors(group, d) && f < |d.parts| && BlockAccepts(group, shape)
    ensures Accepts(d.parts[f], shape)
  {
    hide IsProduct;
    hide PartsAt;
    hide Lists;
    assert Used(d.factor, f);
    var l :| l in d.factor && d.factor[l] == f;
    assert l in Leaves(Elements(group)) && Lists(d.parts[f], PartsAt(Elements(group), l));
  }

  lemma FactorsAccept(group: Clauses, d: Decomposition, shape: Shape)
    requires NeedsProduct(group) && ListsFactors(group, d) && IsProduct(Elements(group), |group|)
    requires Admits(shape, group) && forall f: nat :: f < |d.parts| ==> Accepts(d.parts[f], shape)
    ensures BlockAccepts(group, shape)
  {
    hide IsProduct;
    hide PartsAt;
    hide Lists;
    hide Support;
    forall l, qs | l in Leaves(Elements(group)) && Lists(qs, PartsAt(Elements(group), l))
      ensures Support(qs) < Support(group) && Accepts(qs, shape)
    {
      var part := d.parts[d.factor[l]];
      SameListing(part, qs, PartsAt(Elements(group), l));
      PermutedElements(part, qs);
      AcceptsPermuted(part, qs, shape);
    }
  }

  /** A block that decomposes is accepted as its factors are. */
  lemma ProductAccepted(group: Clauses, n: nat, d: Decomposition, shape: Shape)
    requires NeedsProduct(group) && LeavesBelow(group, n) && IsDecomposition(group, d)
    requires Classes(group, n, d.factor, |d.parts|) && Combinations(group, d.factor, |d.parts|) == |group|
    ensures BlockAccepts(group, shape) <==>
      Admits(shape, group) && forall f: nat :: f < |d.parts| ==> Accepts(d.parts[f], shape)
  {
    ProductTest(group, n, d.factor, |d.parts|);
    DecompositionLists(group, n, d);
    hide ListsFactors;
    hide Classes;
    hide IsDecomposition;
    if BlockAccepts(group, shape) {
      forall f: nat | f < |d.parts| ensures Accepts(d.parts[f], shape) { AcceptedFactor(group, d, f, shape); }
    }
    if Admits(shape, group) && forall f: nat :: f < |d.parts| ==> Accepts(d.parts[f], shape) {
      FactorsAccept(group, d, shape);
    }
  }

  /** A block that fails the test for a product is refused. */
  lemma ProductRefused(group: Clauses, n: nat, factor: map<nat, nat>, nf: nat, shape: Shape)
    requires NeedsProduct(group) && LeavesBelow(group, n) && Classes(group, n, factor, nf)
    requires !(nf >= 2 && MeetsAll(group, factor, nf) && Combinations(group, factor, nf) == |group|)
    ensures !BlockAccepts(group, shape)
  {
    ProductTest(group, n, factor, nf);
    hide IsProduct;
  }

  /** A block with a shared root is accepted as its residuals are. */
  lemma RootAccepted(group: Clauses, common: set<nat>, shape: Shape)
    requires group != [] && |group| != 1 && common != {}
    requires forall v :: v in common <==> forall i :: 0 <= i < |group| ==> v in group[i]
    requires Support(Residuals(group, common)) < Support(group)
    ensures BlockAccepts(group, shape) <==> Accepts(Residuals(group, common), shape)
  {
    CommonIs(group, common);
    hide Common;
  }

  lemma CommonIs(group: Clauses, common: set<nat>)
    requires group != [] && forall v :: v in common <==> forall i :: 0 <= i < |group| ==> v in group[i]
    ensures common == Common(Elements(group))
  {
    forall v ensures v in common <==> v in Common(Elements(group)) {
      if v in common {
        assert group[0] in Elements(group) && v in group[0];
      }
      if v in Common(Elements(group)) {
        forall i | 0 <= i < |group| ensures v in group[i] { assert group[i] in Elements(group); }
      }
    }
  }
}
