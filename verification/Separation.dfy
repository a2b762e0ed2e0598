/** Sums over a Cartesian block whose values separate across the factors, by addition or
    by multiplication.  */
module Separation {
  import opened Worlds
  import opened Probability
  import opened Sequences
  import opened SeqSums
  import opened MonotoneDnf
  import opened ClauseBlocks
  import opened Contributors
  import opened CrossProducts
  import opened ProductBlocks
  import opened WeightedRows

  type Value = set<nat> -> int

  /** A value for each part of each factor. */
  type Valuation = (nat, set<nat>) -> int

  /** The value of c where it is present. */
  function Valued(h: Value, w: World): Value {
    c => if AllTrue(w, c) then h(c) else 0
  }

  ghost function ValueSum(cls: Clauses, h: Value, w: World): int {
    SumOf(cls, Valued(h, w))
  }

  // ----- One more factor -----

  lemma {:induction false} TimesJoin(us: Clauses, qs: Clauses, V: Value, G: Value, H: Value, w: World)
    requires forall u, q :: u in us && q in qs ==> V(u + q) == G(u) * H(q)
    ensures ValueSum(Joins(us, qs), V, w) == ValueSum(us, G, w) * ValueSum(qs, H, w)
  {
    forall q | q in qs ensures Splits(us, q, Valued(V, w), Valued(G, w), Valued(H, w)(q)) {
      forall u | u in us ensures Valued(V, w)(u + q) == Valued(G, w)(u) * Valued(H, w)(q) {
        assert AllTrue(w, u + q) == (AllTrue(w, u) && AllTrue(w, q));
        assert V(u + q) == G(u) * H(q);
      }
    }
    JoinSum(us, qs, Valued(V, w), Valued(G, w), Valued(H, w));
  }

  function One(): Value {
    c => 1
  }

  lemma CountIsValueSum(cls: Clauses, w: World)
    ensures ValueSum(cls, One(), w) == Count(cls, w)
  {
    SumEqual(cls, Valued(One(), w), Here(w));
  }

  /** G on the leaves in a times H on those in b. */
  function OnSides(G: Value, a: set<nat>, H: Value, b: set<nat>): Value {
    c => G(c * a) * H(c * b)
  }

  /** What is G times N plus M times H on every union sums to the products of the sums. */
  lemma BothJoin(us: Clauses, a: set<nat>, qs: Clauses, b: set<nat>, F: Value, G: Value, M: Value, H: Value, N: Value)
    requires Apart(us, a, qs, b)
    requires forall u, q :: u in us && q in qs ==> F(u + q) == G(u) * N(q) + M(u) * H(q)
    ensures SumOf(Joins(us, qs), F) == SumOf(us, G) * SumOf(qs, N) + SumOf(us, M) * SumOf(qs, H)
  {
    var left, right := OnSides(G, a, N, b), OnSides(M, a, H, b);
    forall u, q | u in us && q in qs ensures left(u + q) == G(u) * N(q) && right(u + q) == M(u) * H(q) {
      SplitUnion(a, b, u, q);
    }
    JoinSum(us, qs, left, G, N);
    JoinSum(us, qs, right, M, H);
    forall c | c in Joins(us, qs) ensures F(c) == left(c) + right(c) {
      InJoins(us, qs, c);
      var u, q :| u in us && q in qs && c == u + q;
      SplitUnion(a, b, u, q);
    }
    SumPlus(Joins(us, qs), left, right, F);
  }

  lemma PlusJoin(us: Clauses, a: set<nat>, qs: Clauses, b: set<nat>, V: Value, G: Value, H: Value, w: World)
    requires Apart(us, a, qs, b)
    requires forall u, q :: u in us && q in qs ==> V(u + q) == G(u) + H(q)
    ensures ValueSum(Joins(us, qs), V, w)
         == ValueSum(us, G, w) * Count(qs, w) + Count(us, w) * ValueSum(qs, H, w)
  {
    forall u, q | u in us && q in qs
      ensures Valued(V, w)(u + q) == Valued(G, w)(u) * Here(w)(q) + Here(w)(u) * Valued(H, w)(q)
    {
      assert AllTrue(w, u + q) == (AllTrue(w, u) && AllTrue(w, q));
      assert V(u + q) == G(u) + H(q);
    }
    BothJoin(us, a, qs, b, Valued(V, w), Valued(G, w), Here(w), Valued(H, w), Here(w));
  }

  // ----- Values of members, from values of their parts -----

  function Added(v: Valuation, factor: map<nat, nat>, c: set<nat>, k: nat): int {
    if k == 0 then 0 else Added(v, factor, c, k - 1) + v(k - 1, Projection(c, factor, k - 1))
  }

  function Multiplied(v: Valuation, factor: map<nat, nat>, c: set<nat>, k: nat): int {
    if k == 0 then 1 else Multiplied(v, factor, c, k - 1) * v(k - 1, Projection(c, factor, k - 1))
  }

  function AddedBy(v: Valuation, factor: map<nat, nat>, k: nat): Value {
    c => Added(v, factor, c, k)
  }

  function MultipliedBy(v: Valuation, factor: map<nat, nat>, k: nat): Value {
    c => Multiplied(v, factor, c, k)
  }

  function PartValue(v: Valuation, f: nat): Value {
    q => v(f, q)
  }

  /** The leaves of c lie in factors below k. */
  ghost predicate Within(c: set<nat>, factor: map<nat, nat>, k: nat) {
    forall l :: l in c ==> l in factor && factor[l] < k
  }

  ghost predicate InFactor(c: set<nat>, factor: map<nat, nat>, k: nat) {
    forall l :: l in c ==> l in factor && factor[l] == k
  }

  lemma ProjectUnion(u: set<nat>, q: set<nat>, factor: map<nat, nat>, k: nat)
    requires Within(u, factor, k) && InFactor(q, factor, k)
    ensures Projection(u + q, factor, k) == q
    ensures forall f: nat :: f < k ==> Projection(u + q, factor, f) == Projection(u, factor, f)
  {
  }

  lemma {:induction false} ValuesOfUnion(v: Valuation, factor: map<nat, nat>, u: set<nat>, q: set<nat>, k: nat, j: nat)
    requires Within(u, factor, k) && InFactor(q, factor, k) && j <= k
    ensures Added(v, factor, u + q, j) == Added(v, factor, u, j)
    ensures Multiplied(v, factor, u + q, j) == Multiplied(v, factor, u, j)
    decreases j
  {
    ProjectUnion(u, q, factor, k);
    if j > 0 { ValuesOfUnion(v, factor, u, q, k, j - 1); }
  }

  lemma OneMorePart(v: Valuation, factor: map<nat, nat>, u: set<nat>, q: set<nat>, k: nat)
    requires Within(u, factor, k) && InFactor(q, factor, k)
    ensures AddedBy(v, factor, k + 1)(u + q) == AddedBy(v, factor, k)(u) + PartValue(v, k)(q)
    ensures MultipliedBy(v, factor, k + 1)(u + q) == MultipliedBy(v, factor, k)(u) * PartValue(v, k)(q)
  {
    ProjectUnion(u, q, factor, k);
    ValuesOfUnion(v, factor, u, q, k, k);
  }

  ghost predicate Numbered(parts: seq<Clauses>, factor: map<nat, nat>) {
    forall f: nat, v :: f < |parts| && v in Support(parts[f]) ==> v in factor && factor[v] == f
  }

  lemma LeafFactors(contribs: Clauses, d: Decomposition)
    requires IsDecomposition(contribs, d)
    ensures Numbered(d.parts, d.factor)
  {
    forall f: nat, v | f < |d.parts| && v in Support(d.parts[f]) ensures v in d.factor && d.factor[v] == f {
      assert PartsOf(contribs, d.factor, f, d.parts[f]);
      PartLeaves(contribs, d.factor, f, d.parts[f], v);
    }
  }

  lemma FactorLeaves(parts: seq<Clauses>, factor: map<nat, nat>, k: nat)
    requires Numbered(parts, factor) && k < |parts|
    ensures forall q :: q in parts[k] ==> InFactor(q, factor, k)
    ensures forall u :: u in Cross(parts, k) ==> Within(u, factor, k)
  {
    MembersWithin(parts[k]);
    CrossWithin(parts, k);
    FlatSupport(parts, k);
    forall u | u in Cross(parts, k) ensures Within(u, factor, k) {
      forall l | l in u ensures l in factor && factor[l] < k {
        assert l in Support(Flat(parts, k));
        var b :| 0 <= b < k && l in Support(parts[b]);
      }
    }
  }

  // ----- Folding over the factors -----

  /** The sum over the product of the first k factors of the added values. */
  ghost function AddedSum(d: Decomposition, v: Valuation, k: nat, w: World): int
    requires k <= |d.parts|
  {
    ValueSum(Cross(d.parts, k), AddedBy(v, d.factor, k), w)
  }

  ghost function MultipliedSum(d: Decomposition, v: Valuation, k: nat, w: World): int
    requires k <= |d.parts|
  {
    ValueSum(Cross(d.parts, k), MultipliedBy(v, d.factor, k), w)
  }

  lemma ValueNothing(h: Value, w: World)
    ensures ValueSum([{}], h, w) == h({})
  {
    var none: Clauses := [];
    SumAppend(none, {}, Valued(h, w));
    assert none + [{}] == [{}];
  }

  lemma FoldStart(d: Decomposition, v: Valuation, w: World)
    ensures AddedSum(d, v, 0, w) == 0 && MultipliedSum(d, v, 0, w) == 1 && Count(Cross(d.parts, 0), w) == 1
  {
    ValueNothing(AddedBy(v, d.factor, 0), w);
    ValueNothing(MultipliedBy(v, d.factor, 0), w);
    CountNothing(w);
  }

  /** The products of the first k factors and the next factor, on different leaves. */
  lemma PrefixSides(contribs: Clauses, d: Decomposition, v: Valuation, k: nat)
    requires IsDecomposition(contribs, d) && k < |d.parts|
    ensures Apart(Cross(d.parts, k), Support(Flat(d.parts, k)), d.parts[k], Support(d.parts[k]))
    ensures forall u, q :: u in Cross(d.parts, k) && q in d.parts[k] ==>
              && AddedBy(v, d.factor, k + 1)(u + q) == AddedBy(v, d.factor, k)(u) + PartValue(v, k)(q)
              && MultipliedBy(v, d.factor, k + 1)(u + q) == MultipliedBy(v, d.factor, k)(u) * PartValue(v, k)(q)
  {
    LeafFactors(contribs, d);
    FactorLeaves(d.parts, d.factor, k);
    FactorsApart(contribs, d);
    PrefixApart(d.parts, k);
    CrossWithin(d.parts, k);
    MembersWithin(d.parts[k]);
    forall u, q | u in Cross(d.parts, k) && q in d.parts[k]
      ensures AddedBy(v, d.factor, k + 1)(u + q) == AddedBy(v, d.factor, k)(u) + PartValue(v, k)(q)
      ensures MultipliedBy(v, d.factor, k + 1)(u + q) == MultipliedBy(v, d.factor, k)(u) * PartValue(v, k)(q)
    {
      OneMorePart(v, d.factor, u, q, k);
    }
  }

  /** (S, N) with a factor of sum s and count n gives (S n + s N, N n). */
  lemma FoldStep(contribs: Clauses, d: Decomposition, v: Valuation, k: nat, w: World)
    requires IsDecomposition(contribs, d) && k < |d.parts|
    ensures AddedSum(d, v, k + 1, w)
         == AddedSum(d, v, k, w) * Count(d.parts[k], w) + Count(Cross(d.parts, k), w) * ValueSum(d.parts[k], PartValue(v, k), w)
    ensures MultipliedSum(d, v, k + 1, w) == MultipliedSum(d, v, k, w) * ValueSum(d.parts[k], PartValue(v, k), w)
    ensures Count(Cross(d.parts, k + 1), w) == Count(Cross(d.parts, k), w) * Count(d.parts[k], w)
  {
    PrefixSides(contribs, d, v, k);
    hide *;
    FoldJoin(d, v, k, w, Cross(d.parts, k), Support(Flat(d.parts, k)), d.parts[k], Support(d.parts[k]));
  }

  lemma FoldJoin(d: Decomposition, v: Valuation, k: nat, w: World, us: Clauses, a: set<nat>, qs: Clauses, b: set<nat>)
    requires k < |d.parts| && us == Cross(d.parts, k) && qs == d.parts[k] && Apart(us, a, qs, b)
    requires forall u, q :: u in us && q in qs ==>
               && AddedBy(v, d.factor, k + 1)(u + q) == AddedBy(v, d.factor, k)(u) + PartValue(v, k)(q)
               && MultipliedBy(v, d.factor, k + 1)(u + q) == MultipliedBy(v, d.factor, k)(u) * PartValue(v, k)(q)
    ensures AddedSum(d, v, k + 1, w)
         == AddedSum(d, v, k, w) * Count(qs, w) + Count(us, w) * ValueSum(qs, PartValue(v, k), w)
    ensures MultipliedSum(d, v, k + 1, w) == MultipliedSum(d, v, k, w) * ValueSum(qs, PartValue(v, k), w)
    ensures Count(Cross(d.parts, k + 1), w) == Count(us, w) * Count(qs, w)
  {
    assert Cross(d.parts, k + 1) == Joins(us, qs);
    PlusJoin(us, a, qs, b, AddedBy(v, d.factor, k + 1), AddedBy(v, d.factor, k), PartValue(v, k), w);
    TimesJoin(us, qs, MultipliedBy(v, d.factor, k + 1), MultipliedBy(v, d.factor, k), PartValue(v, k), w);
    CountJoins(us, qs, w);
  }

  // ----- Blocks whose weights separate -----

  /** Every row's weight is the sum of the values of its parts. */
  ghost predicate AddSeparates(rows: seq<Row>, d: Decomposition, v: Valuation) {
    forall i :: 0 <= i < |rows| ==> rows[i].weight == Added(v, d.factor, rows[i].leaves, |d.parts|)
  }

  /** Every row's weight, scaled, is the product of the values of its parts. */
  ghost predicate MulSeparates(rows: seq<Row>, d: Decomposition, v: Valuation, scale: int) {
    forall i :: 0 <= i < |rows| ==> rows[i].weight * scale == Multiplied(v, d.factor, rows[i].leaves, |d.parts|)
  }

  ghost predicate IsBlock(rows: seq<Row>, d: Decomposition) {
    IsDecomposition(LeavesOf(rows), d) && Distinct(LeavesOf(rows))
  }

  /** Sums over the members of a block are sums over the full product of its parts. */
  lemma OverProduct(rows: seq<Row>, d: Decomposition, h: Value, w: World)
    requires IsBlock(rows, d)
    ensures ValueSum(LeavesOf(rows), h, w) == ValueSum(Cross(d.parts, |d.parts|), h, w)
  {
    ProductIff(LeavesOf(rows), d);
    SumPermuted(LeavesOf(rows), Cross(d.parts, |d.parts|), Valued(h, w));
  }

  lemma BlockAdded(rows: seq<Row>, d: Decomposition, v: Valuation, w: World)
    requires IsBlock(rows, d) && AddSeparates(rows, d, v)
    ensures Sum(rows, w) == AddedSum(d, v, |d.parts|, w)
  {
    SumMapped(rows, LeavesOf(rows), Worth(w), Valued(AddedBy(v, d.factor, |d.parts|), w));
    OverProduct(rows, d, AddedBy(v, d.factor, |d.parts|), w);
  }

  lemma BlockMultiplied(rows: seq<Row>, d: Decomposition, v: Valuation, scale: int, w: World)
    requires IsBlock(rows, d) && MulSeparates(rows, d, v, scale)
    ensures Sum(rows, w) * scale == MultipliedSum(d, v, |d.parts|, w)
  {
    var h := MultipliedBy(v, d.factor, |d.parts|);
    forall i | 0 <= i < |rows| ensures ScaledWorth(w, scale)(rows[i]) == Valued(h, w)(LeavesOf(rows)[i]) {
      ScaledIs(rows, d, v, scale, w, i);
    }
    hide Multiplied;
    hide ScaledWorth;
    hide Valued;
    WholeScaled(rows, w, scale);
    SumMapped(rows, LeavesOf(rows), ScaledWorth(w, scale), Valued(h, w));
    OverProduct(rows, d, h, w);
  }

  function ScaledWorth(w: World, scale: int): Row -> int {
    (r: Row) => scale * Worth(w)(r)
  }

  lemma WholeScaled(rows: seq<Row>, w: World, scale: int)
    ensures Sum(rows, w) * scale == SumOf(rows, ScaledWorth(w, scale))
  {
    SumTimes(rows, scale, Worth(w), ScaledWorth(w, scale));
  }

  lemma ScaledIs(rows: seq<Row>, d: Decomposition, v: Valuation, scale: int, w: World, i: nat)
    requires MulSeparates(rows, d, v, scale) && i < |rows|
    ensures ScaledWorth(w, scale)(rows[i]) == Valued(MultipliedBy(v, d.factor, |d.parts|), w)(rows[i].leaves)
  {
    var r := rows[i];
    assert r.weight * scale == Multiplied(v, d.factor, r.leaves, |d.parts|);
    hide Multiplied;
    if AllTrue(w, r.leaves) {
      assert Worth(w)(r) == r.weight;
    } else {
      assert Worth(w)(r) == 0;
    }
  }

  lemma BlockCounted(rows: seq<Row>, d: Decomposition, w: World)
    requires IsBlock(rows, d)
    ensures Count(LeavesOf(rows), w) == Count(Cross(d.parts, |d.parts|), w)
  {
    CountIsValueSum(LeavesOf(rows), w);
    CountIsValueSum(Cross(d.parts, |d.parts|), w);
    OverProduct(rows, d, One(), w);
  }

  // ----- Values given as tables over the parts -----

  /** The position of x in s. */
  function IndexOf(s: Clauses, x: set<nat>): (i: nat)
    ensures x in s <==> i < |s|
    ensures i < |s| ==> s[i] == x
    ensures i <= |s|
  {
    if s == [] then 0
    else if s[0] == x then 0
    else
      assert s == [s[0]] + s[1..];
      1 + IndexOf(s[1..], x)
  }

  ghost predicate Aligned(parts: seq<Clauses>, table: seq<seq<int>>) {
    |table| == |parts| && forall f :: 0 <= f < |parts| ==> |table[f]| == |parts[f]|
  }

  function Lookup(parts: seq<Clauses>, table: seq<seq<int>>): Valuation {
    (f: nat, q: set<nat>) =>
      if f < |parts| && f < |table| && IndexOf(parts[f], q) < |table[f]| then table[f][IndexOf(parts[f], q)] else 0
  }

  function Zip(qs: Clauses, vals: seq<int>): (rows: seq<Row>)
    requires |qs| == |vals|
    ensures LeavesOf(rows) == qs && |rows| == |qs| && forall i :: 0 <= i < |qs| ==> rows[i] == Row(qs[i], vals[i])
  {
    seq(|qs|, i requires 0 <= i < |qs| == |vals| => Row(qs[i], vals[i]))
  }

  lemma DistinctIndex(s: Clauses, i: nat)
    requires Distinct(s) && i < |s|
    ensures IndexOf(s, s[i]) == i
  {
    assert s[i] in s;
  }

  /** The rows of one factor sum to the values of its present parts. */
  lemma ZipSum(parts: seq<Clauses>, table: seq<seq<int>>, f: nat, w: World)
    requires Aligned(parts, table) && f < |parts| && Distinct(parts[f])
    ensures Sum(Zip(parts[f], table[f]), w) == ValueSum(parts[f], PartValue(Lookup(parts, table), f), w)
  {
    var rows, v := Zip(parts[f], table[f]), Lookup(parts, table);
    forall i | 0 <= i < |rows| ensures Worth(w)(rows[i]) == Valued(PartValue(v, f), w)(parts[f][i]) {
      DistinctIndex(parts[f], i);
    }
    SumMapped(rows, parts[f], Worth(w), Valued(PartValue(v, f), w));
  }
}
