/** Which sets of contributors the recursive engines accept: independence blocks must be
    single contributors, share a root, or be complete products, down to the last level.
    The order in which blocks, factors and parts are listed does not matter.  */
module Acceptance {
  import opened Sequences
  import opened SeqSums
  import opened MonotoneDnf
  import opened Contributors
  import opened SharedRoots

  // ----- Independence blocks -----

  ghost predicate IsClauseChain(cs: set<set<nat>>, path: seq<set<nat>>) {
    && |path| > 0 && (forall k :: 0 <= k < |path| ==> path[k] in cs)
    && (forall k :: 0 < k < |path| ==> !(path[k - 1] !! path[k]))
  }

  /** c and d share a leaf, directly or through other contributors. */
  ghost predicate Coupled(cs: set<set<nat>>, c: set<nat>, d: set<nat>) {
    exists path :: IsClauseChain(cs, path) && path[0] == c && path[|path| - 1] == d
  }

  ghost function CoupledIn(s: Clauses, cs: set<set<nat>>, c: set<nat>): Clauses {
    if s == [] then []
    else
      var last := s[|s| - 1];
      CoupledIn(s[..|s| - 1], cs, c) + if Coupled(cs, c, last) then [last] else []
  }

  /** The independence block of contributor c; contributors without leaves stand alone. */
  ghost function BlockOf(s: Clauses, c: set<nat>): Clauses {
    if c == {} then [c] else CoupledIn(s, Elements(s), c)
  }

  // ----- Factors of a block -----

  ghost function Leaves(cs: set<set<nat>>): set<nat> {
    set c, v | c in cs && v in c :: v
  }

  ghost function Common(cs: set<set<nat>>): set<nat> {
    set v | v in Leaves(cs) && forall c :: c in cs ==> v in c
  }

  /** Different leaves that no contributor has both of. */
  ghost predicate NeverMeet(cs: set<set<nat>>, a: nat, b: nat) {
    a != b && a in Leaves(cs) && b in Leaves(cs) && !exists c :: c in cs && a in c && b in c
  }

  ghost predicate IsLeafChain(cs: set<set<nat>>, path: seq<nat>) {
    && |path| > 0 && (forall k :: 0 <= k < |path| ==> path[k] in Leaves(cs))
    && (forall k :: 0 < k < |path| ==> NeverMeet(cs, path[k - 1], path[k]))
  }

  /** The leaves of the factor of leaf l. */
  ghost function FactorAt(cs: set<set<nat>>, l: nat): set<nat> {
    set m | m in Leaves(cs) && SameFactor(cs, l, m)
  }

  ghost predicate SameFactor(cs: set<set<nat>>, l: nat, m: nat) {
    exists path :: IsLeafChain(cs, path) && path[0] == l && path[|path| - 1] == m
  }

  /** The parts of the factor of leaf l. */
  ghost function PartsAt(cs: set<set<nat>>, l: nat): set<set<nat>> {
    set c | c in cs :: c * FactorAt(cs, l)
  }

  ghost predicate IsUnion(cs: set<set<nat>>, x: set<nat>) {
    x <= Leaves(cs) && forall l :: l in Leaves(cs) ==> x * FactorAt(cs, l) in PartsAt(cs, l)
  }

  /** The unions of one part from each factor. */
  ghost function Unions(cs: set<set<nat>>): set<set<nat>> {
    set x | x <= Leaves(cs) && IsUnion(cs, x)
  }

  /** At least two factors, each met by every contributor, and n combinations of parts. */
  ghost predicate IsProduct(cs: set<set<nat>>, n: nat) {
    && (exists a, b :: a in Leaves(cs) && b in Leaves(cs) && !SameFactor(cs, a, b))
    && (forall l :: l in Leaves(cs) ==> {} !in PartsAt(cs, l))
    && |Unions(cs)| == n
  }

  // ----- Acceptance -----

  /** Any accepted blocks; none that is a product with a repeated member; no product at all. */
  datatype Shape = Any | Unrepeated | Nested

  ghost predicate Admits(shape: Shape, g: Clauses) {
    shape != Nested && (shape == Unrepeated ==> Distinct(g))
  }

  /** Every independence block is accepted, with product blocks as the shape admits. */
  ghost predicate Accepts(s: Clauses, shape: Shape)
    decreases Support(s), 1
  {
    forall c :: c in s ==> Support(BlockOf(s, c)) <= Support(s) && BlockAccepts(BlockOf(s, c), shape)
  }

  ghost predicate BlockAccepts(g: Clauses, shape: Shape)
    decreases Support(g), 0
  {
    var common := Common(Elements(g));
    if |g| == 1 then true
    else if common != {} then
      Support(Residuals(g, common)) < Support(g) && Accepts(Residuals(g, common), shape)
    else
      && IsProduct(Elements(g), |g|) && Admits(shape, g)
      && forall l, qs :: l in Leaves(Elements(g)) && Lists(qs, PartsAt(Elements(g), l)) ==>
           Support(qs) < Support(g) && Accepts(qs, shape)
  }

  /** qs lists the clauses of ps once each. */
  ghost predicate Lists(qs: Clauses, ps: set<set<nat>>) {
    Distinct(qs) && Elements(qs) == ps
  }

  // ----- The order does not matter -----

  lemma {:induction false} CoupledCount(s: Clauses, cs: set<set<nat>>, c: set<nat>, x: set<nat>)
    ensures multiset(CoupledIn(s, cs, c))[x] == if Coupled(cs, c, x) then multiset(s)[x] else 0
  {
    if s != [] {
      var init, last := s[..|s| - 1], s[|s| - 1];
      assert s == init + [last];
      hide Coupled;
      CoupledCount(init, cs, c, x);
    }
  }

  lemma PermutedElements(s: Clauses, t: Clauses)
    requires multiset(s) == multiset(t)
    ensures Elements(s) == Elements(t) && Support(s) == Support(t) && |s| == |t| && (Distinct(s) ==> Distinct(t))
  {
    assert |s| == |multiset(s)| && |t| == |multiset(t)|;
    forall c ensures c in s <==> c in t {
      assert c in s <==> c in multiset(s);
      assert c in t <==> c in multiset(t);
    }
    SupportLeaves(s);
    SupportLeaves(t);
    if Distinct(s) { DistinctPermuted(s, t); }
  }

  lemma SupportLeaves(s: Clauses)
    ensures Support(s) == Leaves(Elements(s))
  {
    forall v | v in Leaves(Elements(s)) ensures v in Support(s) {
      var c :| c in Elements(s) && v in c;
      var i :| 0 <= i < |s| && s[i] == c;
    }
    forall v | v in Support(s) ensures v in Leaves(Elements(s)) {
      var i :| 0 <= i < |s| && v in s[i];
      assert s[i] in Elements(s);
    }
  }

  lemma BlockPermuted(s: Clauses, t: Clauses, c: set<nat>)
    requires multiset(s) == multiset(t)
    ensures multiset(BlockOf(s, c)) == multiset(BlockOf(t, c))
  {
    PermutedElements(s, t);
    if c != {} {
      forall x ensures multiset(BlockOf(s, c))[x] == multiset(BlockOf(t, c))[x] {
        CoupledCount(s, Elements(s), c, x);
        CoupledCount(t, Elements(t), c, x);
      }
    }
  }

  lemma {:induction false} ResidualsPermuted(s: Clauses, t: Clauses, common: set<nat>)
    requires multiset(s) == multiset(t)
    ensures multiset(Residuals(s, common)) == multiset(Residuals(t, common))
    decreases |s|
  {
    if s == [] {
      assert |multiset(t)| == 0;
    } else {
      var last := s[|s| - 1];
      assert s == s[..|s| - 1] + [last];
      assert last in multiset(s);
      assert last in t;
      var j :| 0 <= j < |t| && t[j] == last;
      MultisetWithout(t, j);
      assert multiset(s[..|s| - 1]) == multiset(s) - multiset{last};
      ResidualsPermuted(s[..|s| - 1], Without(t, j), common);
      ResidualsSplit(s, t, j, common);
      MultisetWithout(Residuals(t, common), j);
    }
  }

  lemma ResidualsSplit(s: Clauses, t: Clauses, j: nat, common: set<nat>)
    requires s != [] && j < |t|
    ensures Residuals(s, common) == Residuals(s[..|s| - 1], common) + [s[|s| - 1] - common]
    ensures Residuals(Without(t, j), common) == Without(Residuals(t, common), j)
  {
  }

  lemma {:induction false} AcceptsPermuted(s: Clauses, t: Clauses, shape: Shape)
    requires multiset(s) == multiset(t) && Accepts(s, shape)
    ensures Accepts(t, shape)
    decreases Support(s), 1
  {
    PermutedElements(s, t);
    forall c | c in t ensures Support(BlockOf(t, c)) <= Support(t) && BlockAccepts(BlockOf(t, c), shape) {
      assert c in Elements(s);
      BlockPermuted(s, t, c);
      PermutedElements(BlockOf(s, c), BlockOf(t, c));
      BlockAcceptsPermuted(BlockOf(s, c), BlockOf(t, c), shape);
    }
  }

  lemma {:induction false} BlockAcceptsPermuted(g: Clauses, h: Clauses, shape: Shape)
    requires multiset(g) == multiset(h) && BlockAccepts(g, shape)
    ensures BlockAccepts(h, shape)
    decreases Support(g), 0
  {
    PermutedElements(g, h);
    var common := Common(Elements(g));
    if |g| != 1 && common != {} {
      ResidualsPermuted(g, h, common);
      PermutedElements(Residuals(g, common), Residuals(h, common));
      AcceptsPermuted(Residuals(g, common), Residuals(h, common), shape);
    }
  }

  ghost predicate Implies(a: Shape, b: Shape) {
    a == b || a == Nested || b == Any
  }

  /** Acceptance under a shape that admits less. */
  lemma {:induction false} AcceptsMore(s: Clauses, a: Shape, b: Shape)
    requires Accepts(s, a) && Implies(a, b)
    ensures Accepts(s, b)
    decreases Support(s), 1
  {
    forall c | c in s ensures BlockAccepts(BlockOf(s, c), b) {
      assert Support(BlockOf(s, c)) <= Support(s) && BlockAccepts(BlockOf(s, c), a);
      BlockAcceptsMore(BlockOf(s, c), a, b);
    }
  }

  lemma {:induction false} BlockAcceptsMore(g: Clauses, a: Shape, b: Shape)
    requires BlockAccepts(g, a) && Implies(a, b)
    ensures BlockAccepts(g, b)
    decreases Support(g), 0
  {
    hide Common;
    hide IsProduct;
    hide PartsAt;
    hide Support;
    hide Residuals;
    hide Lists;
    var common := Common(Elements(g));
    if |g| != 1 {
      if common != {} {
        AcceptsMore(Residuals(g, common), a, b);
      } else {
        forall l, qs | l in Leaves(Elements(g)) && Lists(qs, PartsAt(Elements(g), l)) ensures Accepts(qs, b) {
          AcceptsMore(qs, a, b);
        }
      }
    }
  }

  lemma {:induction false} SameAlong(s: Clauses, path: seq<set<nat>>, k: nat)
    requires LeafDisjoint(s) && IsClauseChain(Elements(s), path) && k < |path|
    ensures path[k] == path[0]
  {
    if k > 0 {
      SameAlong(s, path, k - 1);
      assert path[k] in Elements(s) && path[k - 1] in Elements(s);
      var i :| 0 <= i < |s| && s[i] == path[k];
      var j :| 0 <= j < |s| && s[j] == path[k - 1];
      assert i == j;
    }
  }

  /** Contributors without a leaf in common are accepted as single blocks. */
  lemma LeafDisjointAccepts(s: Clauses)
    requires LeafDisjoint(s)
    ensures Accepts(s, Nested)
  {
    forall c | c in s ensures Support(BlockOf(s, c)) <= Support(s) && BlockAccepts(BlockOf(s, c), Nested) {
      AloneInBlock(s, c);
      assert BlockOf(s, c)[0] == c;
      var i :| 0 <= i < |s| && s[i] == c;
    }
  }

  lemma AloneInBlock(s: Clauses, c: set<nat>)
    requires LeafDisjoint(s) && c in s
    ensures BlockOf(s, c) == [c]
  {
    if c != {} {
      var i :| 0 <= i < |s| && s[i] == c;
      forall j | 0 <= j < |s| ensures Coupled(Elements(s), c, s[j]) <==> j == i {
        if path :| IsClauseChain(Elements(s), path) && path[0] == c && path[|path| - 1] == s[j] {
          SameAlong(s, path, |path| - 1);
        }
        assert j == i ==> IsClauseChain(Elements(s), [c]) && [c][0] == c;
      }
      OnlyOne(s, Elements(s), c, i);
    }
  }

  lemma {:induction false} OnlyOne(s: Clauses, cs: set<set<nat>>, c: set<nat>, i: nat)
    requires forall j :: 0 <= j < |s| ==> (Coupled(cs, c, s[j]) <==> j == i)
    ensures CoupledIn(s, cs, c) == if i < |s| then [s[i]] else []
  {
    hide Coupled;
    if s != [] { OnlyOne(s[..|s| - 1], cs, c, i); }
  }

  /** Without repeated members, no product block repeats one. */
  lemma {:induction false} DistinctAccepts(s: Clauses)
    requires Distinct(s) && Accepts(s, Any)
    ensures Accepts(s, Unrepeated)
    decreases Support(s), 1
  {
    forall c | c in s ensures BlockAccepts(BlockOf(s, c), Unrepeated) {
      assert Support(BlockOf(s, c)) <= Support(s) && BlockAccepts(BlockOf(s, c), Any);
      BlockDistinct(s, c);
      DistinctBlockAccepts(BlockOf(s, c));
    }
  }

  lemma BlockDistinct(s: Clauses, c: set<nat>)
    requires Distinct(s)
    ensures Distinct(BlockOf(s, c))
  {
    NoRepeats(s);
    var b := BlockOf(s, c);
    if c != {} {
      forall i, j | 0 <= i < j < |b| ensures b[i] != b[j] {
        CoupledCount(s, Elements(s), c, b[i]);
        if b[i] == b[j] { Repeated(b, i, j); }
      }
    }
  }

  lemma CommonShared(g: Clauses)
    ensures SharedBy(g, Common(Elements(g)))
  {
  }

  lemma ListsDistinct(qs: Clauses, ps: set<set<nat>>)
    requires Lists(qs, ps)
    ensures Distinct(qs)
  {
  }

  lemma {:induction false} DistinctBlockAccepts(g: Clauses)
    requires Distinct(g) && BlockAccepts(g, Any)
    ensures BlockAccepts(g, Unrepeated)
    decreases Support(g), 0
  {
    hide Common;
    hide IsProduct;
    hide PartsAt;
    hide Support;
    hide Residuals;
    hide Lists;
    var common := Common(Elements(g));
    if |g| != 1 {
      if common != {} {
        CommonShared(g);
        ResidualsDistinct(g, common);
        DistinctAccepts(Residuals(g, common));
      } else {
        forall l, qs | l in Leaves(Elements(g)) && Lists(qs, PartsAt(Elements(g), l)) ensures Accepts(qs, Unrepeated) {
          ListsDistinct(qs, PartsAt(Elements(g), l));
          DistinctAccepts(qs);
        }
      }
    }
  }
}
