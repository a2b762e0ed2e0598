/** The factors of a product block, and the products of the first of them, as rows that lie
    inside those of the block. */
module ProductRows {
  import opened Sequences
  import opened SeqSums
  import opened MonotoneDnf
  import opened ClauseBlocks
  import opened Contributors
  import opened CrossProducts
  import opened ProductBlocks
  import opened ProductDecomposition
  import opened WeightedRows
  import opened Separation
  import opened SeparationRecovery
  import opened Acceptance
  import opened BlockAcceptance
  import opened Distributions
  import opened SumWindows
  import opened SeparableRows
  import opened PickedRows
  import Blocks

  // ----- Members with some parts fixed -----

  /** The leaves of ref in factors k and up. */
  ghost function Onward(ref: set<nat>, factor: map<nat, nat>, k: nat): set<nat> {
    set l | l in ref && l in factor && factor[l] >= k
  }

  /** u made of parts of the first k factors, completed by the parts of ref. */
  ghost predicate Begins(u: set<nat>, d: Decomposition, k: nat) {
    && k <= |d.parts| && (forall l :: l in u ==> l in d.factor && d.factor[l] < k)
    && forall f: nat :: f < k ==> Projection(u, d.factor, f) in d.parts[f]
  }

  lemma CrossBegins(contribs: Clauses, d: Decomposition, k: nat, u: set<nat>)
    requires IsDecomposition(contribs, d) && k <= |d.parts| && u in Cross(d.parts, k)
    ensures Begins(u, d, k)
  {
    CrossCombines(contribs, d.factor, d.parts, k, u);
  }

  lemma CompletedProjection(u: set<nat>, ref: set<nat>, d: Decomposition, k: nat, f: nat)
    requires Begins(u, d, k)
    ensures Projection(u + Onward(ref, d.factor, k), d.factor, f) == Projection(if f < k then u else ref, d.factor, f)
    ensures u !! Onward(ref, d.factor, k)
  {
  }

  lemma CompletedInCross(d: Decomposition, c: set<nat>, k: nat, u: set<nat>)
    requires Composed(c, d) && Begins(u, d, k)
    ensures u + Onward(c, d.factor, k) in Cross(d.parts, |d.parts|)
  {
    var m := u + Onward(c, d.factor, k);
    forall f: nat | f < |d.parts| ensures Projection(m, d.factor, f) in d.parts[f] {
      CompletedProjection(u, c, d, k, f);
    }
    BelowInCross(m, d.factor, d.parts, |d.parts|);
    assert Below(m, d.factor, |d.parts|) == m;
  }

  /** Completed by the parts of a member, it is a member. */
  lemma CompletedIsRow(rows: seq<Row>, d: Decomposition, r: nat, k: nat, u: set<nat>) returns (j: nat)
    requires IsBlock(rows, d) && r < |rows| && k <= |d.parts| && u in Cross(d.parts, k)
    ensures j < |rows| && rows[j].leaves == u + Onward(rows[r].leaves, d.factor, k) && Begins(u, d, k)
  {
    hide Begins;
    hide Composed;
    hide IsDecomposition;
    hide Cross;
    hide Onward;
    var cls, all := LeavesOf(rows), Cross(d.parts, |d.parts|);
    assert cls[r] in cls;
    CrossBegins(cls, d, k, u);
    MemberComposed(cls, d, cls[r]);
    CompletedInCross(d, cls[r], k, u);
    ProductIff(cls, d);
    j := FindMember(cls, all, u + Onward(cls[r], d.factor, k));
  }

  /** The value added up over the parts of ref in factors k and up comes on top. */
  lemma {:induction false} AddedCompleted(v: Valuation, d: Decomposition, u: set<nat>, ref: set<nat>, k: nat, j: nat)
    requires Begins(u, d, k)
    ensures Added(v, d.factor, u + Onward(ref, d.factor, k), j)
         == if j <= k then Added(v, d.factor, u, j)
            else Added(v, d.factor, u, k) + Added(v, d.factor, ref, j) - Added(v, d.factor, ref, k)
    decreases j
  {
    hide Begins;
    hide Projection;
    if j > 0 {
      AddedCompleted(v, d, u, ref, k, j - 1);
      CompletedProjection(u, ref, d, k, j - 1);
    }
  }

  // ----- Rows of the product of the first factors -----

  /** The products of the first k factors, with added values. */
  ghost function CrossRows(d: Decomposition, v: Valuation, k: nat): (rows: seq<Row>)
    requires k <= |d.parts|
    ensures LeavesOf(rows) == Cross(d.parts, k)
    ensures |rows| == |Cross(d.parts, k)| && forall i :: 0 <= i < |rows| ==> rows[i] == Row(Cross(d.parts, k)[i], Added(v, d.factor, Cross(d.parts, k)[i], k))
  {
    var us := Cross(d.parts, k);
    seq(|us|, i requires 0 <= i < |us| => Row(us[i], Added(v, d.factor, us[i], k)))
  }

  lemma BlockParts(rows: seq<Row>, d: Decomposition)
    requires IsBlock(rows, d)
    ensures IsDecomposition(LeavesOf(rows), d) && Distinct(LeavesOf(rows)) && |d.parts| >= 2
    ensures PairwiseApart(d.parts) && forall f :: 0 <= f < |d.parts| ==> Distinct(d.parts[f])
  {
    FactorsApart(LeavesOf(rows), d);
  }

  lemma CrossRowsEmbed(rows: seq<Row>, d: Decomposition, v: Valuation, k: nat)
    requires IsBlock(rows, d) && rows != [] && AddSeparates(rows, d, v) && k <= |d.parts|
    ensures exists rest, e :: Embeds(CrossRows(d, v, k), rows, rest, e)
  {
    hide AddSeparates;
    hide IsBlock;
    hide Cross;
    hide Added;
    hide Onward;
    var ref, us, sub := rows[0].leaves, Cross(d.parts, k), CrossRows(d, v, k);
    var rest, e := Onward(ref, d.factor, k), Added(v, d.factor, ref, |d.parts|) - Added(v, d.factor, ref, k);
    BlockParts(rows, d);
    hide PairwiseApart;
    CrossDistinct(d.parts, k);
    forall i | 0 <= i < |sub| ensures sub[i].leaves !! rest && Row(sub[i].leaves + rest, sub[i].weight + e) in rows {
      CompletedRow(rows, d, v, k, us[i]);
    }
    assert Embeds(sub, rows, rest, e);
  }

  lemma CompletedRow(rows: seq<Row>, d: Decomposition, v: Valuation, k: nat, u: set<nat>)
    requires IsBlock(rows, d) && rows != [] && AddSeparates(rows, d, v) && k <= |d.parts| && u in Cross(d.parts, k)
    ensures var ref := rows[0].leaves;
            var rest, e := Onward(ref, d.factor, k), Added(v, d.factor, ref, |d.parts|) - Added(v, d.factor, ref, k);
            u !! rest && Row(u + rest, Added(v, d.factor, u, k) + e) in rows
  {
    hide IsDecomposition;
    hide Added;
    hide Projection;
    hide Cross;
    var ref := rows[0].leaves;
    var j := CompletedIsRow(rows, d, 0, k, u);
    AddedCompleted(v, d, u, ref, k, |d.parts|);
    CompletedProjection(u, ref, d, k, 0);
    assert rows[j] in rows;
  }

  // ----- Rows of one factor -----

  lemma LookupAt(parts: seq<Clauses>, table: seq<seq<int>>, f: nat, i: nat)
    requires Aligned(parts, table) && f < |parts| && i < |parts[f]| && Distinct(parts[f])
    ensures Lookup(parts, table)(f, parts[f][i]) == table[f][i]
  {
    DistinctIndex(parts[f], i);
  }

  lemma PartEmbeds(rows: seq<Row>, d: Decomposition, table: seq<seq<int>>, f: nat)
    requires IsBlock(rows, d) && rows != [] && Aligned(d.parts, table) && AddSeparates(rows, d, Lookup(d.parts, table)) && f < |d.parts|
    ensures exists rest, e :: Embeds(Zip(d.parts[f], table[f]), rows, rest, e)
  {
    hide AddSeparates;
    hide IsBlock;
    hide Projection;
    hide IsDecomposition;
    hide PairwiseApart;
    hide Lookup;
    BlockParts(rows, d);
    var v, ref, sub := Lookup(d.parts, table), rows[0].leaves, Zip(d.parts[f], table[f]);
    var rest, e := ref - Projection(ref, d.factor, f), rows[0].weight - v(f, Projection(ref, d.factor, f));
    forall i | 0 <= i < |sub| ensures sub[i].leaves !! rest && Row(sub[i].leaves + rest, sub[i].weight + e) in rows {
      LookupAt(d.parts, table, f, i);
      MovedRow(rows, d, v, f, d.parts[f][i]);
    }
    assert Embeds(sub, rows, rest, e);
  }

  lemma MovedRow(rows: seq<Row>, d: Decomposition, v: Valuation, f: nat, q: set<nat>)
    requires IsBlock(rows, d) && rows != [] && AddSeparates(rows, d, v) && f < |d.parts| && q in d.parts[f]
    ensures var ref := rows[0].leaves;
            var rest, e := ref - Projection(ref, d.factor, f), rows[0].weight - v(f, Projection(ref, d.factor, f));
            q !! rest && Row(q + rest, v(f, q) + e) in rows
  {
    hide IsDecomposition;
    hide Added;
    var ref := rows[0].leaves;
    var j := MovedIsRow(rows, d, 0, f, q);
    WeightIs(rows, d, v, 0);
    WeightIs(rows, d, v, j);
    forall g: nat | g < |d.parts|
      ensures Projection(rows[j].leaves, d.factor, g) == if g == f then q else Projection(ref, d.factor, g)
    {
      MovedProjection(ref, d.factor, f, q, g);
    }
    AddedMoved(v, d.factor, ref, rows[j].leaves, f, q, |d.parts|);
    assert rows[j] in rows;
    assert rows[j].leaves == q + (ref - Projection(ref, d.factor, f));
  }

  // ----- Selections of a product -----

  /** The value of c if picked. */
  function PickedBy(h: Value, T: set<set<nat>>): Value {
    c => if c in T then h(c) else 0
  }

  lemma CrossPick(d: Decomposition, v: Valuation, k: nat, T: set<set<nat>>)
    requires k <= |d.parts|
    ensures PickSum(CrossRows(d, v, k), T) == SumOf(Cross(d.parts, k), PickedBy(AddedBy(v, d.factor, k), T))
    ensures PickCount(CrossRows(d, v, k), T) == SumOf(Cross(d.parts, k), In(T))
  {
    SumMapped(CrossRows(d, v, k), Cross(d.parts, k), Picked(T), PickedBy(AddedBy(v, d.factor, k), T));
  }

  lemma PartPick(parts: seq<Clauses>, table: seq<seq<int>>, f: nat, T: set<set<nat>>)
    requires Aligned(parts, table) && f < |parts| && Distinct(parts[f])
    ensures PickSum(Zip(parts[f], table[f]), T) == SumOf(parts[f], PickedBy(PartValue(Lookup(parts, table), f), T))
    ensures PickCount(Zip(parts[f], table[f]), T) == SumOf(parts[f], In(T))
  {
    var rows, v := Zip(parts[f], table[f]), Lookup(parts, table);
    forall i | 0 <= i < |rows| ensures Picked(T)(rows[i]) == PickedBy(PartValue(v, f), T)(parts[f][i]) {
      LookupAt(parts, table, f, i);
    }
    SumMapped(rows, parts[f], Picked(T), PickedBy(PartValue(v, f), T));
  }

  /** The unions of picked elements. */
  ghost function PickedUnions(us: Clauses, T: set<set<nat>>, qs: Clauses, U: set<set<nat>>): set<set<nat>> {
    set u, q | u in us && q in qs && u in T && q in U :: u + q
  }

  lemma UnionPicked(us: Clauses, a: set<nat>, T: set<set<nat>>, qs: Clauses, b: set<nat>, U: set<set<nat>>, u: set<nat>, q: set<nat>)
    requires Apart(us, a, qs, b) && u in us && q in qs
    ensures u + q in PickedUnions(us, T, qs, U) <==> u in T && q in U
  {
    if u + q in PickedUnions(us, T, qs, U) {
      var x, y :| x in us && y in qs && x in T && y in U && u + q == x + y;
      SplitUnion(a, b, u, q);
      SplitUnion(a, b, x, y);
    }
  }

  /** Selections of two sides make a selection of the product. */
  lemma PickJoin(us: Clauses, a: set<nat>, T: set<set<nat>>, qs: Clauses, b: set<nat>, U: set<set<nat>>, V: Value, G: Value, H: Value)
    requires Apart(us, a, qs, b) && forall u, q :: u in us && q in qs ==> V(u + q) == G(u) + H(q)
    ensures var X := PickedUnions(us, T, qs, U);
            && SumOf(Joins(us, qs), PickedBy(V, X))
            == SumOf(us, PickedBy(G, T)) * SumOf(qs, In(U)) + SumOf(us, In(T)) * SumOf(qs, PickedBy(H, U))
            && SumOf(Joins(us, qs), In(X)) == SumOf(us, In(T)) * SumOf(qs, In(U))
  {
    var X := PickedUnions(us, T, qs, U);
    forall u, q | u in us && q in qs
      ensures PickedBy(V, X)(u + q) == PickedBy(G, T)(u) * In(U)(q) + In(T)(u) * PickedBy(H, U)(q)
      ensures In(X)(u + q) == In(T)(u) * In(U)(q)
    {
      UnionPicked(us, a, T, qs, b, U, u, q);
      assert V(u + q) == G(u) + H(q);
    }
    hide PickedUnions;
    BothJoin(us, a, qs, b, PickedBy(V, X), PickedBy(G, T), In(T), PickedBy(H, U), In(U));
    JoinSum(us, qs, In(X), In(T), In(U));
  }

  lemma PickedProduct(contribs: Clauses, d: Decomposition, table: seq<seq<int>>, k: nat, T: set<set<nat>>, U: set<set<nat>>)
    requires IsDecomposition(contribs, d) && Aligned(d.parts, table) && k < |d.parts|
    ensures var a, b, X := CrossRows(d, Lookup(d.parts, table), k), Zip(d.parts[k], table[k]), PickedUnions(Cross(d.parts, k), T, d.parts[k], U);
            && PickSum(CrossRows(d, Lookup(d.parts, table), k + 1), X) == PickSum(a, T) * PickCount(b, U) + PickCount(a, T) * PickSum(b, U)
            && PickCount(CrossRows(d, Lookup(d.parts, table), k + 1), X) == PickCount(a, T) * PickCount(b, U)
  {
    hide IsDecomposition;
    hide Lookup;
    hide PickSum;
    hide PickCount;
    hide PickedUnions;
    hide CrossRows;
    hide AddedBy;
    hide MultipliedBy;
    hide PartValue;
    hide PickedBy;
    hide Apart;
    hide In;
    hide Joins;
    var v, us, qs := Lookup(d.parts, table), Cross(d.parts, k), d.parts[k];
    FactorsApart(contribs, d);
    PrefixSides(contribs, d, v, k);
    var X := PickedUnions(us, T, qs, U);
    assert Cross(d.parts, k + 1) == Joins(us, qs);
    hide Cross;
    CrossPick(d, v, k, T);
    PartPick(d.parts, table, k, U);
    CrossPick(d, v, k + 1, X);
    PickJoin(us, Support(Flat(d.parts, k)), T, qs, Support(qs), U, AddedBy(v, d.factor, k + 1), AddedBy(v, d.factor, k), PartValue(v, k));
  }

  lemma RealizedProduct(contribs: Clauses, d: Decomposition, table: seq<seq<int>>, k: nat, x: (int, int), y: (int, int))
    requires IsDecomposition(contribs, d) && Aligned(d.parts, table) && k < |d.parts|
    requires Realized(x, CrossRows(d, Lookup(d.parts, table), k)) && Realized(y, Zip(d.parts[k], table[k]))
    ensures Realized(MulPairs()(x, y), CrossRows(d, Lookup(d.parts, table), k + 1))
  {
    hide PickSum;
    hide PickCount;
    hide IsDecomposition;
    hide Lookup;
    hide PickedUnions;
    hide CrossRows;
    var a, b := CrossRows(d, Lookup(d.parts, table), k), Zip(d.parts[k], table[k]);
    var T :| PickSum(a, T) == x.0 && PickCount(a, T) == x.1;
    var U :| PickSum(b, U) == y.0 && PickCount(b, U) == y.1;
    PickedProduct(contribs, d, table, k, T, U);
    Swap(x.1, y.0);
  }

  lemma Swap(a: int, b: int)
    ensures a * b == b * a
  {
  }

  lemma RealizedBy(k: (int, int), rows: seq<Row>, T: set<set<nat>>)
    requires PickSum(rows, T) == k.0 && PickCount(rows, T) == k.1
    ensures Realized(k, rows)
  {
  }

  lemma RealizedProducts(contribs: Clauses, d: Decomposition, table: seq<seq<int>>, k: nat, xs: set<(int, int)>, ys: set<(int, int)>, zs: set<(int, int)>)
    requires IsDecomposition(contribs, d) && Aligned(d.parts, table) && k < |d.parts| && Combined(MulPairs(), xs, ys, zs)
    requires AllRealized(xs, CrossRows(d, Lookup(d.parts, table), k)) && AllRealized(ys, Zip(d.parts[k], table[k]))
    ensures AllRealized(zs, CrossRows(d, Lookup(d.parts, table), k + 1))
  {
    hide Realized;
    hide IsDecomposition;
    hide MulPairs;
    hide Lookup;
    forall z | z in zs ensures Realized(z, CrossRows(d, Lookup(d.parts, table), k + 1)) {
      var x, y :| x in xs && y in ys && z == MulPairs()(x, y);
      RealizedProduct(contribs, d, table, k, x, y);
    }
  }

  lemma EmptyProduct(d: Decomposition, v: Valuation)
    ensures AllRealized({(0, 1)}, CrossRows(d, v, 0))
  {
    var none: Clauses, rows := [], CrossRows(d, v, 0);
    assert rows == [Row({}, 0)];
    SumAppend([], Row({}, 0), Picked({{}}));
    SumAppend(none, {}, In({{}}));
    assert [] + [Row({}, 0)] == rows && LeavesOf(rows) == none + [{}];
    assert PickSum(rows, {{}}) == 0 && PickCount(rows, {{}}) == 1;
  }

  /** The full product has the block's rows, in another order. */
  lemma WholeProduct(rows: seq<Row>, d: Decomposition, v: Valuation, keys: set<(int, int)>)
    requires IsBlock(rows, d) && AddSeparates(rows, d, v) && AllRealized(keys, CrossRows(d, v, |d.parts|))
    ensures AllRealized(keys, rows)
  {
    var all, n := Cross(d.parts, |d.parts|), |d.parts|;
    ProductIff(LeavesOf(rows), d);
    hide IsDecomposition;
    forall k | k in keys ensures Realized(k, rows) {
      assert Realized(k, CrossRows(d, v, n));
      var T :| PickSum(CrossRows(d, v, n), T) == k.0 && PickCount(CrossRows(d, v, n), T) == k.1;
      CrossPick(d, v, n, T);
      SumMapped(rows, LeavesOf(rows), Picked(T), PickedBy(AddedBy(v, d.factor, n), T));
      SumPermuted(LeavesOf(rows), all, PickedBy(AddedBy(v, d.factor, n), T));
      SumPermuted(LeavesOf(rows), all, In(T));
      RealizedBy(k, rows, T);
    }
  }

  // ----- Weights that are sums of leaf values separate -----

  /** Each part has the sum of the values of its leaves, and the first also the constant. */
  ghost function PartSums(v: seq<int>, k: int): Valuation {
    (f: nat, q: set<nat>) => LeafSum(v, q) + if f == 0 then k else 0
  }

  lemma {:induction false} PartSumsAdd(v: seq<int>, k: int, factor: map<nat, nat>, c: set<nat>, j: nat)
    ensures Added(PartSums(v, k), factor, c, j) == LeafSum(v, Below(c, factor, j)) + if j > 0 then k else 0
  {
    if j == 0 {
      assert Below(c, factor, 0) == {};
      NoLeaves(v);
    } else {
      PartSumsAdd(v, k, factor, c, j - 1);
      BelowStep(c, factor, j);
      LeafSumUnion(v, Below(c, factor, j - 1), Projection(c, factor, j - 1));
    }
  }

  lemma {:induction false} NoLeaves(v: seq<int>)
    ensures LeafSum(v, {}) == 0 && LeafTimes(v, {}) == 1
  {
    if v != [] { NoLeaves(v[..|v| - 1]); }
  }

  lemma MemberBelow(contribs: Clauses, d: Decomposition, c: set<nat>)
    requires IsDecomposition(contribs, d) && c in contribs
    ensures Below(c, d.factor, |d.parts|) == c
  {
    MemberComposed(contribs, d, c);
  }

  /** Weights that are sums of leaf values add up over the parts. */
  lemma SumsSeparate(rows: seq<Row>, d: Decomposition)
    requires IsDecomposition(LeavesOf(rows), d) && HasForm(rows, Sums)
    ensures exists v :: AddSeparates(rows, d, v)
  {
    var v: seq<int>, k: int :| Formed(rows, Sums, v, k);
    var u := PartSums(v, k);
    hide LeafSum;
    forall i | 0 <= i < |rows| ensures rows[i].weight == Added(u, d.factor, rows[i].leaves, |d.parts|) {
      assert rows[i] in rows && LeavesOf(rows)[i] in LeavesOf(rows);
      MemberBelow(LeavesOf(rows), d, rows[i].leaves);
      PartSumsAdd(v, k, d.factor, rows[i].leaves, |d.parts|);
    }
    assert AddSeparates(rows, d, u);
  }

  /** A separable block that is decomposed, with values of its parts that add up. */
  ghost predicate AddsUp(rows: seq<Row>, d: Decomposition, table: seq<seq<int>>) {
    && IsBlock(rows, d) && rows != [] && Aligned(d.parts, table) && AddSeparates(rows, d, Lookup(d.parts, table))
    && HasForm(rows, Sums) && Roomable(rows) && forall f: nat :: f < |d.parts| ==> Accepts(d.parts[f], Any)
  }

  /** A separable block passes the test for a product. */
  lemma SeparableProduct(rows: seq<Row>, form: Form, n: nat, factor: map<nat, nat>, nf: nat)
    requires SeparableBlock(rows, form) && NeedsProduct(LeavesOf(rows)) && LeavesBelow(LeavesOf(rows), n) && Classes(LeavesOf(rows), n, factor, nf)
    ensures nf >= 2 && MeetsAll(LeavesOf(rows), factor, nf) && Combinations(LeavesOf(rows), factor, nf) == |LeavesOf(rows)|
  {
    hide BlockAccepts;
    hide Classes;
    if !(nf >= 2 && MeetsAll(LeavesOf(rows), factor, nf) && Combinations(LeavesOf(rows), factor, nf) == |LeavesOf(rows)|) {
      ProductRefused(LeavesOf(rows), n, factor, nf, Any);
    }
  }

  lemma SeparableParts(rows: seq<Row>, form: Form, n: nat, d: Decomposition)
    requires SeparableBlock(rows, form) && NeedsProduct(LeavesOf(rows)) && LeavesBelow(LeavesOf(rows), n)
    requires IsDecomposition(LeavesOf(rows), d) && Classes(LeavesOf(rows), n, d.factor, |d.parts|)
    requires Combinations(LeavesOf(rows), d.factor, |d.parts|) == |LeavesOf(rows)|
    ensures IsBlock(rows, d) && HasForm(rows, form) && forall f: nat :: f < |d.parts| ==> Accepts(d.parts[f], Any)
  {
    hide BlockAccepts;
    hide Classes;
    hide Accepts;
    hide HasForm;
    hide IsDecomposition;
    ProductAccepted(LeavesOf(rows), n, d, Any);
  }

  lemma ReadyToAdd(rows: seq<Row>, d: Decomposition, table: seq<seq<int>>)
    requires IsBlock(rows, d) && rows != [] && Aligned(d.parts, table) && AddSeparates(rows, d, Lookup(d.parts, table))
    requires HasForm(rows, Sums) && Roomable(rows) && forall f: nat :: f < |d.parts| ==> Accepts(d.parts[f], Any)
    ensures AddsUp(rows, d, table)
  {
    hide Accepts;
    hide HasForm;
  }

  lemma AddedKeys(rows: seq<Row>, d: Decomposition, table: seq<seq<int>>, keys: set<(int, int)>)
    requires AddsUp(rows, d, table) && AllRealized(keys, CrossRows(d, Lookup(d.parts, table), |d.parts|))
    ensures AllRealized(keys, rows)
  {
    hide Accepts;
    hide HasForm;
    hide AllRealized;
    hide IsBlock;
    hide AddSeparates;
    WholeProduct(rows, d, Lookup(d.parts, table), keys);
  }

  /** A factor is separable too, and has room. */
  lemma PartReady(rows: seq<Row>, d: Decomposition, table: seq<seq<int>>, f: nat)
    requires AddsUp(rows, d, table) && f < |d.parts|
    ensures Separable(Zip(d.parts[f], table[f]), Sums) && Roomable(Zip(d.parts[f], table[f]))
  {
    hide AddSeparates;
    hide Lookup;
    hide Accepts;
    hide Roomable;
    hide HasForm;
    hide Embeds;
    hide IsBlock;
    var sub := Zip(d.parts[f], table[f]);
    BlockParts(rows, d);
    PartEmbeds(rows, d, table, f);
    var rest, e :| Embeds(sub, rows, rest, e);
    EmbedsForm(sub, rows, rest, e, Sums);
    EmbedsRoom(sub, rows, rest, e);
  }

  /** The distribution over a product of factors has room. */
  lemma ProductFits(rows: seq<Row>, d: Decomposition, table: seq<seq<int>>, k: nat, m: map<(int, int), real>)
    requires AddsUp(rows, d, table) && k <= |d.parts| && AllRealized(m.Keys, CrossRows(d, Lookup(d.parts, table), k))
    ensures |m| <= MAX_SUPPORT
  {
    hide AddSeparates;
    hide Lookup;
    hide Roomable;
    hide Embeds;
    hide IsBlock;
    hide AllRealized;
    var sub := CrossRows(d, Lookup(d.parts, table), k);
    CrossRowsEmbed(rows, d, Lookup(d.parts, table), k);
    var rest, e :| Embeds(sub, rows, rest, e);
    EmbedsRoom(sub, rows, rest, e);
    RealizedFits(m, sub);
  }

  /** One independent block more. */
  lemma RealizedStep(rows: seq<Row>, blocks: seq<seq<nat>>, k: nat, a: map<(int, int), real>, b: map<(int, int), real>, n: map<(int, int), real>)
    requires Blocks.IsBlocks(LeavesOf(rows), blocks) && k < |blocks| && Separable(rows, Sums) && Roomable(rows)
    requires var groups := Blocks.PickAll(rows, blocks); AllRealized(a.Keys, Flat(groups, k)) && AllRealized(b.Keys, groups[k])
    requires Combined(AddPairs(), a.Keys, b.Keys, n.Keys)
    ensures AllRealized(n.Keys, Flat(Blocks.PickAll(rows, blocks), k + 1)) && |n| <= MAX_SUPPORT
  {
    hide AllRealized;
    hide Roomable;
    hide Blocks.IsBlocks;
    hide Combined;
    hide Accepts;
    hide HasForm;
    var groups := Blocks.PickAll(rows, blocks);
    GroupsDiffer(rows, blocks, k);
    RealizedSums(a.Keys, Flat(groups, k), b.Keys, groups[k], n.Keys);
    BlockRoomable(rows, blocks, k);
    RealizedFits(n, Flat(groups, k + 1));
  }
}
