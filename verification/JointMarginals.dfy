/** Exact joint distribution of the weighted sum and the number of present contributors. */
module JointMarginals {
  import opened Worlds
  import opened Probability
  import opened RandomValues
  import opened Distributions
  import opened Sequences
  import opened SeqSums
  import opened MonotoneDnf
  import opened ClauseBlocks
  import opened Contributors
  import opened WeightedRows
  import opened SharedRoots
  import opened CrossProducts
  import opened ProductBlocks
  import opened ProductDecomposition
  import opened Acceptance
  import opened BlockAcceptance
  import opened SumWindows
  import opened CountMarginals
  import opened Separation
  import opened SeparationRecovery
  import opened SeparableRows
  import opened PickedRows
  import opened ProductRows
  import Blocks

  // ----- Rows in blocks -----

  lemma RowBlockFacts(p: seq<real>, rows: seq<Row>, blocks: seq<seq<nat>>, k: nat)
    requires LeavesOk(p, LeavesOf(rows)) && Blocks.IsBlocks(LeavesOf(rows), blocks) && k < |blocks|
    ensures var group := Blocks.PickAll(rows, blocks)[k];
            && group != [] && LeavesOk(p, LeavesOf(group)) && Support(LeavesOf(group)) <= Support(LeavesOf(rows))
            && (Distinct(LeavesOf(rows)) ==> Distinct(LeavesOf(group)))
  {
    BlockFacts(p, LeavesOf(rows), blocks, k);
    PickLeaves(rows, blocks[k]);
  }

  lemma RowsApart(rows: seq<Row>, blocks: seq<seq<nat>>, k: nat)
    requires Blocks.IsBlocks(LeavesOf(rows), blocks) && k < |blocks|
    ensures var groups := Blocks.PickAll(rows, blocks);
            Support(LeavesOf(Flat(groups, k))) !! Support(LeavesOf(groups[k]))
  {
    FlatLeaves(rows, blocks, k);
    PickLeaves(rows, blocks[k]);
    GroupsApart(LeavesOf(rows), blocks);
    PrefixApart(Blocks.PickAll(LeavesOf(rows), blocks), k);
  }

  // ----- Adding independent blocks -----

  lemma JointBlocks(p: seq<real>, a: seq<Row>, ma: map<(int, int), real>, b: seq<Row>, mb: map<(int, int), real>)
    requires Unit(p) && IsDist(p, ma, JointRv(a)) && IsDist(p, mb, JointRv(b))
    requires Support(LeavesOf(a)) !! Support(LeavesOf(b))
    ensures Combines(p, AddPairs(), ma, JointRv(a), Support(LeavesOf(a)), mb, JointRv(b), Support(LeavesOf(b)), JointRv(a + b))
  {
    RowsReads(a);
    RowsReads(b);
    hide IsDist;
    hide Reads;
    forall w ensures JointRv(a + b)(w) == AddPairs()(JointRv(a)(w), JointRv(b)(w)) { SumBoth(a, b, w); }
  }

  lemma JointWhole(p: seq<real>, rows: seq<Row>, blocks: seq<seq<nat>>, m: map<(int, int), real>)
    requires Unit(p) && Blocks.IsBlocks(LeavesOf(rows), blocks)
    requires IsDist(p, m, JointRv(Flat(Blocks.PickAll(rows, blocks), |blocks|)))
    ensures IsDist(p, m, JointRv(rows))
  {
    var all := Flat(Blocks.PickAll(rows, blocks), |blocks|);
    forall w ensures JointRv(all)(w) == JointRv(rows)(w) { WholeRows(rows, blocks, w); }
    SameDist(p, m, JointRv(all), JointRv(rows));
  }

  lemma JointSingle(p: seq<real>, r: Row, q: real)
    requires Unit(p) && q == P(p, Present(r.leaves))
    ensures IsDist(p, AddAt(AddAt(map[], (0, 0), 1.0 - q), (r.weight, 1), q), JointRv([r]))
  {
    forall w ensures JointRv([r])(w) == if AllTrue(w, r.leaves) then (r.weight, 1) else (0, 0) {
      SumSingle(r, w);
      assert LeavesOf([r]) == [r.leaves];
    }
    hide P;
    SingleDist(p, r.leaves, q, (0, 0), (r.weight, 1), JointRv([r]));
  }

  lemma JointGated(p: seq<real>, rows: seq<Row>, common: set<nat>, inner: map<(int, int), real>)
    requires Unit(p) && SharedBy(LeavesOf(rows), common) && IsDist(p, inner, JointRv(Residues(rows, common)))
    ensures IsDist(p, AddAt(Weighted(inner, P(p, Present(common))), (0, 0), 1.0 - P(p, Present(common))), JointRv(rows))
  {
    var res := Residues(rows, common);
    RowsReads(res);
    ResiduesLeaves(rows, common);
    ResidualSupport(LeavesOf(rows), common);
    forall w ensures JointRv(rows)(w) == if AllTrue(w, common) then JointRv(res)(w) else (0, 0) { GatedSum(rows, common, w); }
    hide P;
    hide Reads;
    hide IsDist;
    hide JointRv;
    GatedDist(p, common, inner, JointRv(res), Support(LeavesOf(res)), (0, 0), JointRv(rows));
  }

  /** Without repetitions, and with the shared leaves gone, nothing is repeated either. */
  lemma ResidueFacts(p: seq<real>, rows: seq<Row>, common: set<nat>)
    requires LeavesOk(p, LeavesOf(rows)) && rows != [] && common != {}
    requires forall v :: v in common <==> forall i :: 0 <= i < |rows| ==> v in LeavesOf(rows)[i]
    ensures SharedBy(LeavesOf(rows), common) && (forall v :: v in common ==> v < |p|)
    ensures LeavesOk(p, LeavesOf(Residues(rows, common)))
    ensures Support(LeavesOf(Residues(rows, common))) < Support(LeavesOf(rows))
    ensures Distinct(LeavesOf(rows)) ==> Distinct(LeavesOf(Residues(rows, common)))
  {
    CommonFacts(p, LeavesOf(rows), common);
    ResiduesLeaves(rows, common);
    if Distinct(LeavesOf(rows)) { ResidualsDistinct(LeavesOf(rows), common); }
  }

  // ----- Multiplying independent factors -----

  /** Sum and count over the product of the first k factors. */
  ghost function FoldRv(d: Decomposition, v: Valuation, k: nat): World -> (int, int)
    requires k <= |d.parts|
  {
    w => (AddedSum(d, v, k, w), Count(Cross(d.parts, k), w))
  }

  lemma ValueReads(cls: Clauses, h: Value)
    ensures Reads(w => ValueSum(cls, h, w), Support(cls))
  {
    forall u, w | forall v :: v in Support(cls) ==> True(u, v) == True(w, v)
      ensures ValueSum(cls, h, u) == ValueSum(cls, h, w)
    {
      HereReads(cls, u, w);
      SumEqual(cls, Valued(h, u), Valued(h, w));
    }
  }

  lemma FoldReads(d: Decomposition, v: Valuation, k: nat)
    requires k <= |d.parts|
    ensures Reads(FoldRv(d, v, k), Support(Flat(d.parts, k)))
  {
    var cls, h := Cross(d.parts, k), AddedBy(v, d.factor, k);
    CrossSupport(d.parts, k);
    ValueReads(cls, h);
    CountReads(cls);
    forall u, w | forall l :: l in Support(Flat(d.parts, k)) ==> True(u, l) == True(w, l)
      ensures FoldRv(d, v, k)(u) == FoldRv(d, v, k)(w)
    {
      assert (x => ValueSum(cls, h, x))(u) == (x => ValueSum(cls, h, x))(w);
      assert CountOf(cls)(u) == CountOf(cls)(w);
    }
  }

  /** One more factor, given as rows of its parts and their values. */
  lemma FoldFactor(p: seq<real>, contribs: Clauses, d: Decomposition, table: seq<seq<int>>, k: nat,
                   acc: map<(int, int), real>, mf: map<(int, int), real>)
    requires Unit(p) && IsDecomposition(contribs, d) && Aligned(d.parts, table) && k < |d.parts|
    requires IsDist(p, acc, FoldRv(d, Lookup(d.parts, table), k)) && IsDist(p, mf, JointRv(Zip(d.parts[k], table[k])))
    ensures Combines(p, MulPairs(), acc, FoldRv(d, Lookup(d.parts, table), k), Support(Flat(d.parts, k)),
                     mf, JointRv(Zip(d.parts[k], table[k])), Support(d.parts[k]), FoldRv(d, Lookup(d.parts, table), k + 1))
  {
    hide IsDist;
    hide FoldRv;
    hide JointRv;
    hide Reads;
    hide IsDecomposition;
    hide MulPairs;
    var v, rows := Lookup(d.parts, table), Zip(d.parts[k], table[k]);
    FoldReads(d, v, k);
    RowsReads(rows);
    FactorsApart(contribs, d);
    PrefixApart(d.parts, k);
    forall w ensures FoldRv(d, v, k + 1)(w) == MulPairs()(FoldRv(d, v, k)(w), JointRv(rows)(w)) {
      FoldFactorAt(contribs, d, table, k, w);
    }
  }

  lemma FoldFactorAt(contribs: Clauses, d: Decomposition, table: seq<seq<int>>, k: nat, w: World)
    requires IsDecomposition(contribs, d) && Aligned(d.parts, table) && k < |d.parts|
    ensures FoldRv(d, Lookup(d.parts, table), k + 1)(w)
         == MulPairs()(FoldRv(d, Lookup(d.parts, table), k)(w), JointRv(Zip(d.parts[k], table[k]))(w))
  {
    var v := Lookup(d.parts, table);
    FactorsApart(contribs, d);
    hide Sizes;
    hide IsDecomposition;
    hide AddedSum;
    hide MultipliedSum;
    hide ValueSum;
    hide Count;
    hide Sum;
    FoldStep(contribs, d, v, k, w);
    ZipSum(d.parts, table, k, w);
    FoldArith(AddedSum(d, v, k, w), Count(d.parts[k], w), Count(Cross(d.parts, k), w), ValueSum(d.parts[k], PartValue(v, k), w));
  }

  lemma FoldArith(s: int, n: int, c: int, t: int)
    ensures s * n + c * t == s * n + t * c
  {
  }

  lemma FoldNothing(p: seq<real>, d: Decomposition, v: Valuation)
    requires Unit(p)
    ensures IsDist(p, map[(0, 1) := 1.0], FoldRv(d, v, 0))
  {
    forall w ensures FoldRv(d, v, 0)(w) == (0, 1) { FoldStart(d, v, w); }
    ConstantDist(p, (0, 1), FoldRv(d, v, 0));
  }

  lemma FoldWhole(p: seq<real>, rows: seq<Row>, d: Decomposition, v: Valuation, m: map<(int, int), real>)
    requires Unit(p) && IsBlock(rows, d) && AddSeparates(rows, d, v) && IsDist(p, m, FoldRv(d, v, |d.parts|))
    ensures IsDist(p, m, JointRv(rows))
  {
    forall w ensures FoldRv(d, v, |d.parts|)(w) == JointRv(rows)(w) {
      BlockAdded(rows, d, v, w);
      BlockCounted(rows, d, w);
    }
    SameDist(p, m, FoldRv(d, v, |d.parts|), JointRv(rows));
  }

  // ----- The recursion -----

  /** m is the joint distribution, for rows none of whose leaf sets is repeated. */
  ghost predicate JointExactly(p: seq<real>, m: map<(int, int), real>, rows: seq<Row>) {
    Distinct(LeavesOf(rows)) ==> IsDist(p, m, JointRv(rows))
  }

  lemma NoRows(p: seq<real>)
    requires Unit(p)
    ensures IsDist(p, map[(0, 0) := 1.0], JointRv([]))
  {
    ConstantDist(p, (0, 0), JointRv([]));
  }

  /** Rows that nest, with room. */
  ghost predicate Nests(rows: seq<Row>) {
    Accepts(LeavesOf(rows), Nested) && RoomyPairs(rows)
  }

  /** Separable rows whose weights are sums of leaf values, with room. */
  ghost predicate Adds(rows: seq<Row>) {
    Separable(rows, Sums) && Roomable(rows)
  }

  /** What is known of m after the rows in done. */
  ghost predicate JointSoFar(p: seq<real>, rows: seq<Row>, done: seq<Row>, m: map<(int, int), real>) {
    && (Distinct(LeavesOf(rows)) ==> IsDist(p, m, JointRv(done)))
    && (Nests(rows) ==> InBox(m.Keys, done)) && (Adds(rows) ==> AllRealized(m.Keys, done))
  }

  lemma JointStart(p: seq<real>, rows: seq<Row>)
    requires Unit(p)
    ensures JointSoFar(p, rows, [], map[(0, 0) := 1.0])
  {
    var m: map<(int, int), real> := map[(0, 0) := 1.0];
    NoRows(p);
    NoWindow();
    ZeroRealized([]);
    hide IsDist;
    hide Nests;
    hide Adds;
    assert m.Keys == {(0, 0)};
  }

  /** What the next block needs. */
  lemma JointReady(rows: seq<Row>, blocks: seq<seq<nat>>, k: nat)
    requires Blocks.IsBlocks(LeavesOf(rows), blocks) && k < |blocks|
    ensures var group := Blocks.PickAll(rows, blocks)[k];
            && (Nests(rows) ==> BlockAccepts(LeavesOf(group), Nested) && RoomyPairs(group))
            && (Adds(rows) ==> SeparableBlock(group, Sums) && Roomable(group))
  {
    hide Accepts;
    hide BlockAccepts;
    hide Separable;
    hide SeparableBlock;
    hide Roomable;
    hide Blocks.IsBlocks;
    hide RoomyPairs;
    if Nests(rows) { NestedBlock(rows, blocks, k); }
    RoomInBlock(rows, blocks, k);
    if Adds(rows) {
      SeparableGroup(rows, blocks, k, Sums);
      BlockRoomable(rows, blocks, k);
    }
  }

  lemma JointStep(p: seq<real>, rows: seq<Row>, blocks: seq<seq<nat>>, k: nat, was: map<(int, int), real>,
                  block: map<(int, int), real>, m: map<(int, int), real>)
    requires Blocks.IsBlocks(LeavesOf(rows), blocks) && k < |blocks|
    requires var groups := Blocks.PickAll(rows, blocks);
             && JointSoFar(p, rows, Flat(groups, k), was) && Combined(AddPairs(), was.Keys, block.Keys, m.Keys)
             && (Distinct(LeavesOf(rows)) ==> IsDist(p, m, JointRv(Flat(groups, k) + groups[k])))
             && (Nests(rows) ==> InBox(block.Keys, groups[k])) && (Adds(rows) ==> AllRealized(block.Keys, groups[k]))
    ensures JointSoFar(p, rows, Flat(Blocks.PickAll(rows, blocks), k + 1), m)
    ensures Nests(rows) || Adds(rows) ==> |m| <= MAX_SUPPORT
  {
    hide Accepts;
    hide Separable;
    hide Roomable;
    hide Blocks.IsBlocks;
    hide RoomyPairs;
    hide IsDist;
    hide JointRv;
    hide InBox;
    hide AllRealized;
    hide Combined;
    var groups := Blocks.PickAll(rows, blocks);
    RoomInBlock(rows, blocks, k);
    if Nests(rows) { BoxSum(was, Flat(groups, k), block, groups[k], m); }
    if Adds(rows) { RealizedStep(rows, blocks, k, was, block, m); }
  }

  lemma JointEnd(p: seq<real>, rows: seq<Row>, blocks: seq<seq<nat>>, m: map<(int, int), real>)
    requires Unit(p) && Blocks.IsBlocks(LeavesOf(rows), blocks)
    requires JointSoFar(p, rows, Flat(Blocks.PickAll(rows, blocks), |blocks|), m)
    ensures JointSoFar(p, rows, rows, m)
  {
    hide Blocks.IsBlocks;
    hide IsDist;
    hide JointRv;
    hide InBox;
    hide AllRealized;
    hide Nests;
    hide Adds;
    if Distinct(LeavesOf(rows)) { JointWhole(p, rows, blocks, m); }
    if Nests(rows) { WholeBox(m.Keys, rows, blocks); }
    if Adds(rows) { RealizedWhole(m.Keys, rows, blocks); }
  }

  /** Joint distribution of the sum and the count of the present rows, or refusal; given when
      there is room and the rows nest, or are accepted with weights that are sums of values
      of their leaves. */
  method JointPmf(p: seq<real>, rows: seq<Row>) returns (m: map<(int, int), real>, ok: bool)
    requires LeavesOk(p, LeavesOf(rows))
    ensures ok ==> JointExactly(p, m, rows)
    ensures Accepts(LeavesOf(rows), Nested) && RoomyPairs(rows) ==> ok && InBox(m.Keys, rows)
    ensures Separable(rows, Sums) && Roomable(rows) ==> ok && AllRealized(m.Keys, rows)
    decreases Support(LeavesOf(rows)), 2
  {
    hide InBox;
    hide RoomyPairs;
    hide IsDist;
    hide JointRv;
    hide Combines;
    hide Combined;
    hide Accepts;
    hide BlockAccepts;
    hide Separable;
    hide SeparableBlock;
    hide Roomable;
    hide AllRealized;
    JointStart(p, rows);
    m := map[(0, 0) := 1.0];
    if rows == [] {
      return m, true;
    }
    var blocks := Blocks.Partition(LeavesOf(rows));
    var groups := Blocks.PickAll(rows, blocks);
    hide Blocks.IsBlocks;
    hide JointSoFar;
    hide Distinct;
    for k := 0 to |groups|
      invariant JointSoFar(p, rows, Flat(groups, k), m)
    {
      ghost var done, next := Flat(groups, k), groups[k];
      RowBlockFacts(p, rows, blocks, k);
      JointReady(rows, blocks, k);
      var block;
      block, ok := BlockJoint(p, groups[k]);
      if !ok {
        return map[], false;
      }
      ghost var was := m;
      m := AddBlock(p, rows, blocks, k, m, block);
      JointStep(p, rows, blocks, k, was, block, m);
      if |m| > MAX_SUPPORT {
        return map[], false;
      }
    }
    JointEnd(p, rows, blocks, m);
    JointDone(p, rows, m);
    ok := true;
  }

  lemma JointDone(p: seq<real>, rows: seq<Row>, m: map<(int, int), real>)
    requires JointSoFar(p, rows, rows, m)
    ensures JointExactly(p, m, rows)
    ensures Accepts(LeavesOf(rows), Nested) && RoomyPairs(rows) ==> InBox(m.Keys, rows)
    ensures Separable(rows, Sums) && Roomable(rows) ==> AllRealized(m.Keys, rows)
  {
    hide IsDist;
  }

  /** Adds an independent block to the rows before it. */
  method AddBlock(p: seq<real>, ghost rows: seq<Row>, ghost blocks: seq<seq<nat>>, ghost k: nat,
                  a: map<(int, int), real>, block: map<(int, int), real>) returns (m: map<(int, int), real>)
    requires Unit(p) && Blocks.IsBlocks(LeavesOf(rows), blocks) && k < |blocks|
    requires var groups := Blocks.PickAll(rows, blocks);
             JointSoFar(p, rows, Flat(groups, k), a) && (Distinct(LeavesOf(rows)) ==> IsDist(p, block, JointRv(groups[k])))
    ensures var groups := Blocks.PickAll(rows, blocks);
            && (Distinct(LeavesOf(rows)) ==> IsDist(p, m, JointRv(Flat(groups, k) + groups[k])))
            && Combined(AddPairs(), a.Keys, block.Keys, m.Keys)
  {
    hide IsDist;
    hide JointRv;
    hide Combines;
    hide Combined;
    hide Nests;
    hide Adds;
    hide Blocks.IsBlocks;
    ghost var groups := Blocks.PickAll(rows, blocks);
    ghost var done, next, exact := Flat(groups, k), groups[k], Distinct(LeavesOf(rows));
    hide Distinct;
    RowsApart(rows, blocks, k);
    if exact { JointBlocks(p, done, a, next, block); }
    m := Combine(AddPairs(), a, block, p, JointRv(done), Support(LeavesOf(done)), JointRv(next), Support(LeavesOf(next)),
                 JointRv(done + next), exact);
  }

  method BlockJoint(p: seq<real>, rows: seq<Row>) returns (m: map<(int, int), real>, ok: bool)
    requires LeavesOk(p, LeavesOf(rows)) && rows != []
    ensures ok ==> JointExactly(p, m, rows)
    ensures BlockAccepts(LeavesOf(rows), Nested) && RoomyPairs(rows) ==> ok && InBox(m.Keys, rows)
    ensures SeparableBlock(rows, Sums) && Roomable(rows) ==> ok && AllRealized(m.Keys, rows)
    decreases Support(LeavesOf(rows)), 1
  {
    hide InBox;
    hide RoomyPairs;
    hide Accepts;
    hide BlockAccepts;
    hide IsDist;
    hide JointRv;
    hide Separable;
    hide SeparableBlock;
    hide Roomable;
    hide AllRealized;
    if |rows| == 1 {
      assert LeavesOf(rows)[0] == rows[0].leaves;
      var q := LeafProduct(p, rows[0].leaves);
      JointSingle(p, rows[0], q);
      assert rows == [rows[0]];
      SingleWindow(rows[0]);
      SingleRealized(rows[0]);
      m := AddAt(AddAt(map[], (0, 0), 1.0 - q), (rows[0].weight, 1), q);
      assert m.Keys == {(0, 0), (rows[0].weight, 1)};
      return m, true;
    }
    var common := CommonLeaves(LeavesOf(rows));
    CommonIs(LeavesOf(rows), common);
    if common != {} {
      ResidueFacts(p, rows, common);
      ResidueReach(rows, common);
      NestedResidues(rows, common);
      if SeparableBlock(rows, Sums) { SeparableResidues(rows, common, Sums); }
      if Roomable(rows) { ResiduesRoomable(rows, common); }
      var root := LeafProduct(p, common);
      var inner;
      inner, ok := JointPmf(p, Residues(rows, common));
      if !ok {
        return map[], false;
      }
      m := AddAt(Weighted(inner, root), (0, 0), 1.0 - root);
      assert m.Keys == inner.Keys + {(0, 0)};
      if Distinct(LeavesOf(rows)) { JointGated(p, rows, common, inner); }
      if SeparableBlock(rows, Sums) && Roomable(rows) { RealizedResidues(inner.Keys, rows, common); }
    } else {
      NotNested(LeavesOf(rows));
      m, ok := ProductJoint(p, rows);
    }
  }

  /** A product block whose weights separate by addition: fold the factors' joints. */
  method ProductJoint(p: seq<real>, rows: seq<Row>) returns (m: map<(int, int), real>, ok: bool)
    requires LeavesOk(p, LeavesOf(rows)) && NeedsProduct(LeavesOf(rows))
    ensures ok ==> JointExactly(p, m, rows)
    ensures SeparableBlock(rows, Sums) && Roomable(rows) ==> ok && AllRealized(m.Keys, rows)
    decreases Support(LeavesOf(rows)), 0
  {
    hide IsDist;
    hide JointRv;
    hide IsDecomposition;
    hide Classes;
    hide AddSeparates;
    hide SeparableBlock;
    hide Roomable;
    hide AllRealized;
    hide Accepts;
    hide HasForm;
    hide AddsUp;
    hide Aligned;
    m := map[];
    GatesBelow(p, LeavesOf(rows));
    var d;
    ghost var factor, nf;
    ok, d, factor, nf := DecomposeProduct(LeavesOf(rows), |p|);
    ghost var sep := SeparableBlock(rows, Sums) && Roomable(rows);
    if !ok {
      if sep { SeparableProduct(rows, Sums, |p|, factor, nf); }
      return;
    }
    var vals;
    ok, vals := RecoverAdditive(rows, d);
    if sep { SeparableParts(rows, Sums, |p|, d); }
    if !ok {
      if sep { SumsSeparate(rows, d); }
      return;
    }
    if sep { ReadyToAdd(rows, d, vals); }
    m, ok := FoldFactors(p, rows, d, vals);
    if ok && Distinct(LeavesOf(rows)) { FoldWhole(p, rows, d, Lookup(d.parts, vals), m); }
    if sep { AddedKeys(rows, d, vals, m.Keys); }
  }

  method FoldFactors(p: seq<real>, ghost rows: seq<Row>, d: Decomposition, vals: seq<seq<int>>)
    returns (m: map<(int, int), real>, ok: bool)
    requires LeavesOk(p, LeavesOf(rows)) && rows != [] && IsDecomposition(LeavesOf(rows), d) && Aligned(d.parts, vals)
    ensures ok ==> IsDist(p, m, FoldRv(d, Lookup(d.parts, vals), |d.parts|))
    ensures AddsUp(rows, d, vals) ==> ok && AllRealized(m.Keys, CrossRows(d, Lookup(d.parts, vals), |d.parts|))
    decreases Support(LeavesOf(rows)), 0, 0
  {
    hide IsDist;
    hide JointRv;
    hide FoldRv;
    hide IsDecomposition;
    hide Combines;
    hide Combined;
    hide InBox;
    hide Accepts;
    hide RoomyPairs;
    hide AllRealized;
    hide AddsUp;
    hide Separable;
    hide Roomable;
    ghost var v := Lookup(d.parts, vals);
    m := map[(0, 1) := 1.0];
    FoldNothing(p, d, v);
    EmptyProduct(d, v);
    assert m.Keys == {(0, 1)};
    for f := 0 to |d.parts|
      invariant IsDist(p, m, FoldRv(d, v, f))
      invariant AddsUp(rows, d, vals) ==> AllRealized(m.Keys, CrossRows(d, v, f))
    {
      PartFacts(p, LeavesOf(rows), d, f);
      var part := Zip(d.parts[f], vals[f]);
      if AddsUp(rows, d, vals) { PartReady(rows, d, vals, f); }
      var mf;
      mf, ok := JointPmf(p, part);
      if !ok {
        return map[], false;
      }
      FoldFactor(p, LeavesOf(rows), d, vals, f, m, mf);
      ghost var was := m;
      m := Combine(MulPairs(), m, mf, p, FoldRv(d, v, f), Support(Flat(d.parts, f)), JointRv(part), Support(d.parts[f]),
                   FoldRv(d, v, f + 1), true);
      if AddsUp(rows, d, vals) {
        RealizedProducts(LeavesOf(rows), d, vals, f, was.Keys, mf.Keys, m.Keys);
        ProductFits(rows, d, vals, f + 1, m);
      }
      if |m| > MAX_SUPPORT {
        return map[], false;
      }
    }
    ok := true;
  }
}
