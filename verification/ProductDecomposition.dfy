/** Finding the Cartesian factors of a block: leaves that never occur together belong to
    the same factor; the block is accepted when its size is the number of combinations.  */
module ProductDecomposition {
  import opened Sequences
  import opened MonotoneDnf
  import opened Connectivity
  import opened CrossProducts
  import opened ProductBlocks
  import Blocks

  // ----- Indexing the leaves -----

  ghost predicate Indexed(leaves: seq<nat>, index: map<nat, nat>) {
    && (forall i :: 0 <= i < |leaves| ==> leaves[i] in index && index[leaves[i]] == i)
    && (forall l :: l in index ==> index[l] < |leaves| && leaves[index[l]] == l)
  }

  lemma IndexedMore(leaves: seq<nat>, index: map<nat, nat>, l: nat)
    requires Indexed(leaves, index) && l !in index
    ensures Indexed(leaves + [l], index[l := |leaves|])
  {
  }

  method ListLeaves(contribs: Clauses) returns (leaves: seq<nat>, index: map<nat, nat>)
    ensures Indexed(leaves, index) && index.Keys == Support(contribs)
  {
    leaves, index := [], map[];
    for i := 0 to |contribs|
      invariant Indexed(leaves, index) && index.Keys == Support(contribs[..i])
    {
      var rest := contribs[i];
      ghost var before := index.Keys;
      while rest != {}
        invariant rest <= contribs[i] && Indexed(leaves, index)
        invariant index.Keys == before + (contribs[i] - rest)
        decreases rest
      {
        var l :| l in rest;
        rest := rest - {l};
        if l !in index {
          IndexedMore(leaves, index, l);
          leaves, index := leaves + [l], index[l := |leaves|];
        }
      }
      SupportAppend(contribs[..i], contribs[i]);
      assert contribs[..i + 1] == contribs[..i] + [contribs[i]];
    }
    assert contribs[..|contribs|] == contribs;
  }

  // ----- Which leaves never occur together -----

  /** Positions of different leaves that never occur together. */
  ghost function Strangers(contribs: Clauses, leaves: seq<nat>): Edges {
    (i: nat, j: nat) => i < |leaves| && j < |leaves| && i != j && !Together(contribs, leaves[i], leaves[j])
  }

  lemma TogetherStep(contribs: Clauses, m: nat, a: nat, b: nat)
    requires m < |contribs|
    ensures Together(contribs[..m + 1], a, b) == (Together(contribs[..m], a, b) || (a in contribs[m] && b in contribs[m]))
  {
    var more := contribs[..m + 1];
    if Together(contribs[..m], a, b) {
      var i :| 0 <= i < m && a in contribs[..m][i] && b in contribs[..m][i];
      assert more[i] == contribs[..m][i];
    }
    if a in contribs[m] && b in contribs[m] { assert more[m] == contribs[m]; }
  }

  method Cooccurrence(contribs: Clauses, leaves: seq<nat>) returns (cooc: array2<bool>)
    ensures fresh(cooc) && cooc.Length0 == cooc.Length1 == |leaves|
    ensures forall i, j :: 0 <= i < |leaves| && 0 <= j < |leaves| ==>
              cooc[i, j] == (i != j && Together(contribs, leaves[i], leaves[j]))
  {
    var n := |leaves|;
    cooc := new bool[n, n]((i, j) => false);
    for m := 0 to |contribs|
      invariant forall i, j :: 0 <= i < n && 0 <= j < n ==>
                  cooc[i, j] == (i != j && Together(contribs[..m], leaves[i], leaves[j]))
    {
      var c := contribs[m];
      forall i, j | 0 <= i < n && 0 <= j < n
        ensures Together(contribs[..m + 1], leaves[i], leaves[j])
             == (Together(contribs[..m], leaves[i], leaves[j]) || (leaves[i] in c && leaves[j] in c))
      {
        TogetherStep(contribs, m, leaves[i], leaves[j]);
      }
      hide Together;
      forall i, j | 0 <= i < n && 0 <= j < n && i != j && leaves[i] in c && leaves[j] in c {
        cooc[i, j] := true;
      }
    }
    assert contribs[..|contribs|] == contribs;
  }

  /** Pairs before (u, v) in the scan of all pairs. */
  predicate Before(a: nat, b: nat, u: nat, v: nat) {
    a < b && (a < u || (a == u && b < v))
  }

  ghost predicate United(edge: Edges, root: seq<nat>, u: nat, v: nat) {
    forall a: nat, b: nat :: b < |root| && Before(a, b, u, v) && edge(a, b) ==> root[a] == root[b]
  }

  lemma UnitedNext(edge: Edges, root: seq<nat>, u: nat, v: nat)
    requires u < v < |root| && United(edge, root, u, v)
    ensures !edge(u, v) ==> United(edge, root, u, v + 1)
    ensures United(edge, Joined(root, root[u], root[v]), u, v + 1)
  {
  }

  /** Components of the positions under never occurring together. */
  method UniteStrangers(contribs: Clauses, leaves: seq<nat>) returns (root: seq<nat>)
    ensures |root| == |leaves| && Sound(Strangers(contribs, leaves), root)
    ensures United(Strangers(contribs, leaves), root, |root|, 0)
  {
    hide Forest;
    hide Sound;
    hide Joined;
    hide Symmetric;
    hide United;
    var n := |leaves|;
    ghost var edge := Strangers(contribs, leaves);
    var cooc := Cooccurrence(contribs, leaves);
    assert Records(cooc, n, edge);
    hide Records;
    hide Strangers;
    hide Together;
    var uf := new UnionFind(n);
    SoundStart(edge, uf.root);
    StrangersSymmetric(contribs, leaves);
    UnitedNone(edge, uf.root);
    for u := 0 to n
      invariant uf.Valid() && fresh(uf) && fresh(uf.parent) && |uf.root| == n && Records(cooc, n, edge)
      invariant Sound(edge, uf.root) && United(edge, uf.root, u, 0)
    {
      UnitedRow(edge, uf.root, u);
      for v := u + 1 to n
        invariant uf.Valid() && fresh(uf) && fresh(uf.parent) && |uf.root| == n && Records(cooc, n, edge)
        invariant Sound(edge, uf.root) && United(edge, uf.root, u, v)
      {
        Recorded(cooc, n, edge, u, v);
        UnitedNext(edge, uf.root, u, v);
        if !cooc[u, v] {
          SoundUnite(edge, uf.root, u, v);
          uf.Unite(u, v);
        }
      }
      UnitedRowEnd(edge, uf.root, u);
    }
    root := Blocks.Roots(n, uf);
  }

  /** Two leaves are recorded as co-occurring where they are no strangers. */
  ghost predicate Records(cooc: array2<bool>, n: nat, edge: Edges)
    reads cooc
  {
    cooc.Length0 == n && cooc.Length1 == n && forall i: nat, j: nat :: i < j < n ==> cooc[i, j] == !edge(i, j)
  }

  lemma Recorded(cooc: array2<bool>, n: nat, edge: Edges, i: nat, j: nat)
    requires Records(cooc, n, edge) && i < j < n
    ensures cooc.Length0 == n && cooc.Length1 == n && cooc[i, j] == !edge(i, j)
  {
  }

  lemma UnitedNone(edge: Edges, root: seq<nat>)
    ensures United(edge, root, 0, 0)
  {
  }

  lemma UnitedRow(edge: Edges, root: seq<nat>, u: nat)
    requires United(edge, root, u, 0)
    ensures United(edge, root, u, u + 1)
  {
  }

  lemma UnitedRowEnd(edge: Edges, root: seq<nat>, u: nat)
    requires u < |root| && United(edge, root, u, |root|)
    ensures United(edge, root, u + 1, 0)
  {
  }

  lemma StrangersSymmetric(contribs: Clauses, leaves: seq<nat>)
    ensures Symmetric(Strangers(contribs, leaves))
  {
    forall i: nat, j: nat | i < |leaves| && j < |leaves|
      ensures Together(contribs, leaves[i], leaves[j]) == Together(contribs, leaves[j], leaves[i])
    {
      if Together(contribs, leaves[i], leaves[j]) {
        var k :| 0 <= k < |contribs| && leaves[i] in contribs[k] && leaves[j] in contribs[k];
        assert leaves[j] in contribs[k] && leaves[i] in contribs[k];
      }
    }
  }

  // ----- Numbering the factors -----

  /** ids of the first k positions: equal exactly for equal representatives, and dense. */
  ghost predicate Numbered(root: seq<nat>, k: nat, ids: map<nat, nat>) {
    && k <= |root|
    && (forall r :: r in ids ==> ids[r] < |ids| && r in root[..k])
    && (forall r, q :: r in ids && q in ids && ids[r] == ids[q] ==> r == q)
    && (forall i :: 0 <= i < k ==> root[i] in ids)
    && (forall f: nat :: f < |ids| ==> Used(ids, f))
  }

  lemma NumberedSkip(root: seq<nat>, k: nat, ids: map<nat, nat>)
    requires Numbered(root, k, ids) && k < |root| && root[k] in ids
    ensures Numbered(root, k + 1, ids)
  {
    assert root[..k + 1] == root[..k] + [root[k]];
  }

  lemma UsedMore(ids: map<nat, nat>, r: nat)
    requires r !in ids && forall f: nat :: f < |ids| ==> Used(ids, f)
    ensures var more := ids[r := |ids|]; |more| == |ids| + 1 && forall f: nat :: f < |more| ==> Used(more, f)
  {
    var more := ids[r := |ids|];
    assert more.Keys == ids.Keys + {r};
    forall f: nat | f < |more| ensures Used(more, f) {
      if f < |ids| {
        assert Used(ids, f);
        var l :| l in ids && ids[l] == f;
        assert l in more && more[l] == f;
      } else {
        assert r in more && more[r] == f;
      }
    }
  }

  lemma NumberedNew(root: seq<nat>, k: nat, ids: map<nat, nat>)
    requires Numbered(root, k, ids) && k < |root| && root[k] !in ids
    ensures Numbered(root, k + 1, ids[root[k] := |ids|])
  {
    assert forall r :: r in root[..k] ==> r in root[..k + 1];
    assert root[..k + 1][k] == root[k];
    UsedMore(ids, root[k]);
    hide Used;
  }

  method NumberFactors(root: seq<nat>) returns (ids: map<nat, nat>)
    ensures Numbered(root, |root|, ids)
  {
    ids := map[];
    for u := 0 to |root|
      invariant Numbered(root, u, ids)
    {
      if root[u] !in ids {
        NumberedNew(root, u, ids);
        ids := ids[root[u] := |ids|];
      } else {
        NumberedSkip(root, u, ids);
      }
    }
  }

  function FactorOf(index: map<nat, nat>, root: seq<nat>, ids: map<nat, nat>): (factor: map<nat, nat>)
    requires forall l :: l in index ==> index[l] < |root| && root[index[l]] in ids
    ensures factor.Keys == index.Keys && forall l :: l in index ==> factor[l] == ids[root[index[l]]]
  {
    map l | l in index :: ids[root[index[l]]]
  }

  lemma UsedFactors(leaves: seq<nat>, index: map<nat, nat>, root: seq<nat>, ids: map<nat, nat>, f: nat)
    requires Indexed(leaves, index) && |root| == |leaves| && Numbered(root, |root|, ids) && f < |ids|
    ensures Used(FactorOf(index, root, ids), f)
  {
    assert Used(ids, f);
    var r :| r in ids && ids[r] == f;
    assert r in root[..|root|];
    var i :| 0 <= i < |root| && root[i] == r;
    var l := leaves[i];
    assert FactorOf(index, root, ids)[l] == f;
  }

  ghost predicate LeavesBelow(contribs: Clauses, n: nat) {
    forall l :: l in Support(contribs) ==> l < n
  }

  lemma AreClasses(contribs: Clauses, n: nat, leaves: seq<nat>, index: map<nat, nat>, root: seq<nat>, ids: map<nat, nat>)
    requires LeavesBelow(contribs, n) && Indexed(leaves, index) && index.Keys == Support(contribs)
    requires |root| == |leaves| && Sound(Strangers(contribs, leaves), root)
    requires United(Strangers(contribs, leaves), root, |root|, 0) && Numbered(root, |root|, ids)
    ensures Classes(contribs, n, FactorOf(index, root, ids), |ids|)
  {
    var factor := FactorOf(index, root, ids);
    forall f: nat | f < |ids| ensures Used(factor, f) { UsedFactors(leaves, index, root, ids, f); }
    StrangersSymmetric(contribs, leaves);
    forall a, b | a in factor && b in factor
      ensures factor[a] == factor[b] <==> Linked(NeverTogether(contribs), n, a, b)
    {
      if factor[a] == factor[b] {
        SameFactorLinked(contribs, n, leaves, index, root, index[a], index[b]);
      }
      if Linked(NeverTogether(contribs), n, a, b) {
        LinkedSameFactor(contribs, n, leaves, index, root, a, b);
      }
    }
  }

  lemma SameFactorLinked(contribs: Clauses, n: nat, leaves: seq<nat>, index: map<nat, nat>, root: seq<nat>, i: nat, j: nat)
    requires LeavesBelow(contribs, n) && Indexed(leaves, index) && index.Keys == Support(contribs)
    requires |root| == |leaves| && Sound(Strangers(contribs, leaves), root)
    requires i < |leaves| && j < |leaves| && root[i] == root[j]
    ensures Linked(NeverTogether(contribs), n, leaves[i], leaves[j])
  {
    hide Linked;
    hide Together;
    LinkedRenamed(Strangers(contribs, leaves), leaves, NeverTogether(contribs), n, i, j);
  }

  lemma LinkedSameFactor(contribs: Clauses, n: nat, leaves: seq<nat>, index: map<nat, nat>, root: seq<nat>, a: nat, b: nat)
    requires Indexed(leaves, index) && index.Keys == Support(contribs) && |root| == |leaves|
    requires United(Strangers(contribs, leaves), root, |root|, 0) && Symmetric(Strangers(contribs, leaves))
    requires a in index && b in index && Linked(NeverTogether(contribs), n, a, b)
    ensures root[index[a]] == root[index[b]]
  {
    var edge := Strangers(contribs, leaves);
    var color := (l: nat) => if l in index && index[l] < |root| then root[index[l]] else 0;
    forall x, y | NeverTogether(contribs)(x, y) ensures color(x) == color(y) {
      var i, j := index[x], index[y];
      assert edge(i, j) && edge(j, i);
      assert i < j ==> Before(i, j, |root|, 0);
      assert j < i ==> Before(j, i, |root|, 0);
    }
    LinkedSame(NeverTogether(contribs), n, color, a, b);
  }

  // ----- Projecting the members -----

  ghost predicate Collected(contribs: Clauses, k: nat, factor: map<nat, nat>, parts: seq<Clauses>) {
    && k <= |contribs| && IsParts(contribs[..k], factor, parts)
    && MeetsAll(contribs[..k], factor, |parts|)
  }

  lemma PartsStep(contribs: Clauses, c: set<nat>, factor: map<nat, nat>, f: nat, qs: Clauses)
    requires PartsOf(contribs, factor, f, qs)
    ensures var q := Projection(c, factor, f);
            PartsOf(contribs + [c], factor, f, if q in qs then qs else qs + [q])
  {
    var q := Projection(c, factor, f);
    var more := if q in qs then qs else qs + [q];
    forall x | x in more ensures exists y :: y in contribs + [c] && x == Projection(y, factor, f) {
      if x in qs {
        var y :| y in contribs && x == Projection(y, factor, f);
        assert y in contribs + [c];
      } else {
        assert c in contribs + [c];
      }
    }
  }

  /** Adds the projections of one member; refuses a member that misses a factor. */
  method AddMember(contribs: Clauses, k: nat, factor: map<nat, nat>, parts0: seq<Clauses>) returns (ok: bool, parts: seq<Clauses>)
    requires k < |contribs| && Collected(contribs, k, factor, parts0)
    ensures ok <==> MeetsAll(contribs[..k + 1], factor, |parts0|)
    ensures ok ==> |parts| == |parts0| && Collected(contribs, k + 1, factor, parts)
  {
    var c := contribs[k];
    assert contribs[..k + 1] == contribs[..k] + [c];
    parts := parts0;
    for f := 0 to |parts|
      invariant |parts| == |parts0|
      invariant forall g: nat :: g < f ==> PartsOf(contribs[..k + 1], factor, g, parts[g]) && Projection(c, factor, g) != {}
      invariant forall g: nat :: f <= g < |parts| ==> PartsOf(contribs[..k], factor, g, parts[g])
    {
      var q := Projection(c, factor, f);
      PartsStep(contribs[..k], c, factor, f, parts[f]);
      if q == {} {
        assert c in contribs[..k + 1];
        return false, [];
      }
      hide PartsOf;
      if q !in parts[f] {
        parts := parts[f := parts[f] + [q]];
      }
    }
    ok := true;
  }

  method CollectParts(contribs: Clauses, factor: map<nat, nat>, nf: nat) returns (ok: bool, parts: seq<Clauses>)
    ensures ok <==> MeetsAll(contribs, factor, nf)
    ensures ok ==> |parts| == nf && IsParts(contribs, factor, parts)
  {
    parts := seq(nf, f => []);
    hide Projection;
    for k := 0 to |contribs|
      invariant |parts| == nf && Collected(contribs, k, factor, parts)
    {
      ok, parts := AddMember(contribs, k, factor, parts);
      if !ok {
        assert forall c :: c in contribs[..k + 1] ==> c in contribs;
        return;
      }
    }
    assert contribs[..|contribs|] == contribs;
    ok := true;
  }

  // ----- The decomposition -----

  ghost function PartSet(contribs: Clauses, factor: map<nat, nat>, f: nat): set<set<nat>> {
    set c | c in contribs :: Projection(c, factor, f)
  }

  /** The number of combinations of parts of the first k factors. */
  ghost function Combinations(contribs: Clauses, factor: map<nat, nat>, k: nat): nat {
    if k == 0 then 1 else Combinations(contribs, factor, k - 1) * |PartSet(contribs, factor, k - 1)|
  }

  lemma SizesAreCombinations(contribs: Clauses, factor: map<nat, nat>, parts: seq<Clauses>)
    requires IsParts(contribs, factor, parts)
    ensures Sizes(parts, |parts|) == Combinations(contribs, factor, |parts|)
  {
    forall f: nat | f < |parts| ensures |parts[f]| == |PartSet(contribs, factor, f)| {
      PartCount(contribs, factor, f, parts[f]);
    }
    SameProducts(contribs, factor, parts, |parts|);
  }

  lemma {:induction false} SameProducts(contribs: Clauses, factor: map<nat, nat>, parts: seq<Clauses>, k: nat)
    requires k <= |parts| && forall f: nat :: f < |parts| ==> |parts[f]| == |PartSet(contribs, factor, f)|
    ensures Sizes(parts, k) == Combinations(contribs, factor, k)
    decreases k
  {
    hide PartSet;
    if k > 0 { SameProducts(contribs, factor, parts, k - 1); }
  }

  lemma PartCount(contribs: Clauses, factor: map<nat, nat>, f: nat, qs: Clauses)
    requires PartsOf(contribs, factor, f, qs)
    ensures |qs| == |PartSet(contribs, factor, f)|
  {
    DistinctSize(qs);
    assert Elements(qs) == PartSet(contribs, factor, f);
  }

  /** Accepts a block exactly when its leaves fall into at least two classes, every member
      meets every class, and there are as many members as combinations of their parts. */
  method DecomposeProduct(contribs: Clauses, n: nat)
    returns (ok: bool, d: Decomposition, ghost factor: map<nat, nat>, ghost nf: nat)
    requires LeavesBelow(contribs, n)
    ensures Classes(contribs, n, factor, nf)
    ensures ok <==> nf >= 2 && MeetsAll(contribs, factor, nf) && Combinations(contribs, factor, nf) == |contribs|
    ensures ok ==> IsDecomposition(contribs, d) && d.factor == factor && |d.parts| == nf
  {
    var leaves, index := ListLeaves(contribs);
    var root := UniteStrangers(contribs, leaves);
    var ids := NumberFactors(root);
    AreClasses(contribs, n, leaves, index, root, ids);
    var leafFactor := FactorOf(index, root, ids);
    factor, nf := leafFactor, |ids|;
    d := Decomposition(map[], []);
    if |ids| < 2 {
      return false, d, factor, nf;
    }
    var parts;
    ok, parts := CollectParts(contribs, leafFactor, |ids|);
    if !ok {
      return;
    }
    var prod := 1;
    for f := 0 to |ids|
      invariant prod == Sizes(parts, f)
    {
      prod := prod * |parts[f]|;
    }
    SizesAreCombinations(contribs, leafFactor, parts);
    ok := prod == |contribs|;
    if ok {
      d := Decomposition(leafFactor, parts);
    }
  }
}
