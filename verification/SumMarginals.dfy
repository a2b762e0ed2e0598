/** Exact distribution of the sum of the values of present contributors. */
module SumMarginals {
  import opened Worlds
  import opened Probability
  import opened RandomValues
  import opened Distributions
  import opened Sequences
  import opened SeqSums
  import opened MonotoneDnf
  import opened ClauseBlocks
  import opened Contributors
  import opened WeightedRows
  import opened SharedRoots
  import opened CrossProducts
  import opened ProductBlocks
  import opened ProductDecomposition
  import opened Acceptance
  import opened BlockAcceptance
  import opened SumWindows
  import opened CountMarginals
  import opened Separation
  import opened SeparationRecovery
  import opened JointMarginals
  import opened SeparableRows
  import opened PickedRows
  import opened ProductRows
  import opened SumSpans
  import opened OneFactorBlocks
  import opened MultiplicativeWeights
  import opened MultiplicativeKeys
  import opened MultiplicativeRecovery
  import Blocks

  // ----- Blocks and shared roots -----

  lemma SumCombines(p: seq<real>, a: seq<Row>, ma: map<int, real>, b: seq<Row>, mb: map<int, real>)
    requires Unit(p) && IsDist(p, ma, SumRv(a)) && IsDist(p, mb, SumRv(b))
    requires Support(LeavesOf(a)) !! Support(LeavesOf(b))
    ensures Combines(p, PlusInt(), ma, SumRv(a), Support(LeavesOf(a)), mb, SumRv(b), Support(LeavesOf(b)), SumRv(a + b))
  {
    RowsReads(a);
    RowsReads(b);
    hide IsDist;
    hide Reads;
    forall w ensures SumRv(a + b)(w) == PlusInt()(SumRv(a)(w), SumRv(b)(w)) { SumBoth(a, b, w); }
  }

  lemma SumWhole(p: seq<real>, rows: seq<Row>, blocks: seq<seq<nat>>, m: map<int, real>)
    requires Unit(p) && Blocks.IsBlocks(LeavesOf(rows), blocks)
    requires IsDist(p, m, SumRv(Flat(Blocks.PickAll(rows, blocks), |blocks|)))
    ensures IsDist(p, m, SumRv(rows))
  {
    var all := Flat(Blocks.PickAll(rows, blocks), |blocks|);
    forall w ensures SumRv(all)(w) == SumRv(rows)(w) { WholeRows(rows, blocks, w); }
    SameDist(p, m, SumRv(all), SumRv(rows));
  }

  lemma SumSingleDist(p: seq<real>, r: Row, q: real)
    requires Unit(p) && q == P(p, Present(r.leaves))
    ensures IsDist(p, AddAt(AddAt(map[], 0, 1.0 - q), r.weight, q), SumRv([r]))
  {
    forall w ensures SumRv([r])(w) == if AllTrue(w, r.leaves) then r.weight else 0 { SumSingle(r, w); }
    hide P;
    SingleDist(p, r.leaves, q, 0, r.weight, SumRv([r]));
  }

  lemma SumGated(p: seq<real>, rows: seq<Row>, common: set<nat>, inner: map<int, real>)
    requires Unit(p) && SharedBy(LeavesOf(rows), common) && IsDist(p, inner, SumRv(Residues(rows, common)))
    ensures IsDist(p, AddAt(Weighted(inner, P(p, Present(common))), 0, 1.0 - P(p, Present(common))), SumRv(rows))
  {
    var res := Residues(rows, common);
    RowsReads(res);
    ResiduesLeaves(rows, common);
    ResidualSupport(LeavesOf(rows), common);
    forall w ensures SumRv(rows)(w) == if AllTrue(w, common) then SumRv(res)(w) else 0 { GatedSum(rows, common, w); }
    hide P;
    hide Reads;
    hide IsDist;
    hide SumRv;
    GatedDist(p, common, inner, SumRv(res), Support(LeavesOf(res)), 0, SumRv(rows));
  }

  // ----- The recursion -----

  /** m is the distribution of the sum, for rows none of whose leaf sets is repeated. */
  ghost predicate SumExactly(p: seq<real>, m: map<int, real>, rows: seq<Row>) {
    Distinct(LeavesOf(rows)) ==> IsDist(p, m, SumRv(rows))
  }

  lemma SumNoRows(p: seq<real>)
    requires Unit(p)
    ensures IsDist(p, map[0 := 1.0], SumRv([]))
  {
    ConstantDist(p, 0, SumRv([]));
  }

  /** Rows that nest, with room. */
  ghost predicate Nests(rows: seq<Row>) {
    Accepts(LeavesOf(rows), Nested) && Roomy(rows)
  }

  /** Separable rows, with room for sums and counts. */
  ghost predicate Makes(rows: seq<Row>) {
    (Separable(rows, Sums) || Separable(rows, Products)) && RoomyPairs(rows)
  }

  ghost predicate MakesBlock(rows: seq<Row>) {
    (SeparableBlock(rows, Sums) || SeparableBlock(rows, Products)) && RoomyPairs(rows)
  }

  /** What is known of m after the rows in done. */
  ghost predicate SumSoFar(p: seq<real>, rows: seq<Row>, done: seq<Row>, m: map<int, real>) {
    && (Distinct(LeavesOf(rows)) ==> IsDist(p, m, SumRv(done)))
    && (Nests(rows) ==> InWindow(m.Keys, done)) && (Makes(rows) ==> Reachable(m.Keys, done))
  }

  lemma SumStart(p: seq<real>, rows: seq<Row>)
    requires Unit(p)
    ensures SumSoFar(p, rows, [], map[0 := 1.0])
  {
    var m: map<int, real> := map[0 := 1.0];
    SumNoRows(p);
    NoWindow();
    NothingReachable();
    hide IsDist;
    hide Nests;
    hide Makes;
    assert m.Keys == {0};
  }

  /** What the next block needs. */
  lemma SumReady(rows: seq<Row>, blocks: seq<seq<nat>>, k: nat)
    requires Blocks.IsBlocks(LeavesOf(rows), blocks) && k < |blocks|
    ensures var group := Blocks.PickAll(rows, blocks)[k];
            (Nests(rows) ==> BlockAccepts(LeavesOf(group), Nested) && Roomy(group)) && (Makes(rows) ==> MakesBlock(group))
  {
    hide Accepts;
    hide BlockAccepts;
    hide Separable;
    hide SeparableBlock;
    hide Blocks.IsBlocks;
    hide RoomyPairs;
    hide Roomy;
    if Nests(rows) { NestedBlock(rows, blocks, k); }
    RoomInBlock(rows, blocks, k);
    if Separable(rows, Sums) { SeparableGroup(rows, blocks, k, Sums); }
    if Separable(rows, Products) { SeparableGroup(rows, blocks, k, Products); }
  }

  lemma SumStep(p: seq<real>, rows: seq<Row>, blocks: seq<seq<nat>>, k: nat, was: map<int, real>, block: map<int, real>, m: map<int, real>)
    requires Blocks.IsBlocks(LeavesOf(rows), blocks) && k < |blocks|
    requires var groups := Blocks.PickAll(rows, blocks);
             && SumSoFar(p, rows, Flat(groups, k), was) && Combined(PlusInt(), was.Keys, block.Keys, m.Keys)
             && (Distinct(LeavesOf(rows)) ==> IsDist(p, m, SumRv(Flat(groups, k) + groups[k])))
             && (Nests(rows) ==> InWindow(block.Keys, groups[k])) && (Makes(rows) ==> Reachable(block.Keys, groups[k]))
    ensures SumSoFar(p, rows, Flat(Blocks.PickAll(rows, blocks), k + 1), m)
    ensures Nests(rows) || Makes(rows) ==> |m| <= MAX_SUPPORT
  {
    hide Accepts;
    hide Separable;
    hide Blocks.IsBlocks;
    hide RoomyPairs;
    hide Roomy;
    hide IsDist;
    hide SumRv;
    hide InWindow;
    hide Reachable;
    hide Combined;
    var groups := Blocks.PickAll(rows, blocks);
    RoomInBlock(rows, blocks, k);
    if Nests(rows) { WindowSum(was, Flat(groups, k), block, groups[k], m); }
    if Makes(rows) {
      ReachableSums(was.Keys, Flat(groups, k), block.Keys, groups[k], m.Keys);
      ReachableFits(m, Flat(groups, k + 1));
    }
  }

  lemma SumEnd(p: seq<real>, rows: seq<Row>, blocks: seq<seq<nat>>, m: map<int, real>)
    requires Unit(p) && Blocks.IsBlocks(LeavesOf(rows), blocks)
    requires SumSoFar(p, rows, Flat(Blocks.PickAll(rows, blocks), |blocks|), m)
    ensures SumSoFar(p, rows, rows, m)
  {
    hide Blocks.IsBlocks;
    hide IsDist;
    hide SumRv;
    hide InWindow;
    hide Reachable;
    hide Nests;
    hide Makes;
    if Distinct(LeavesOf(rows)) { SumWhole(p, rows, blocks, m); }
    if Nests(rows) { WholeWindow(m.Keys, rows, blocks); }
    if Makes(rows) { ReachableWhole(m.Keys, rows, blocks); }
  }

  lemma SumDone(p: seq<real>, rows: seq<Row>, m: map<int, real>)
    requires SumSoFar(p, rows, rows, m)
    ensures SumExactly(p, m, rows)
    ensures Accepts(LeavesOf(rows), Nested) && Roomy(rows) ==> InWindow(m.Keys, rows)
    ensures (Separable(rows, Sums) || Separable(rows, Products)) && RoomyPairs(rows) ==> Reachable(m.Keys, rows)
  {
    hide IsDist;
  }

  /** Adds an independent block to the rows before it. */
  method AddRows(p: seq<real>, ghost rows: seq<Row>, ghost blocks: seq<seq<nat>>, ghost k: nat,
                 a: map<int, real>, block: map<int, real>) returns (m: map<int, real>)
    requires Unit(p) && Blocks.IsBlocks(LeavesOf(rows), blocks) && k < |blocks|
    requires var groups := Blocks.PickAll(rows, blocks);
             SumSoFar(p, rows, Flat(groups, k), a) && (Distinct(LeavesOf(rows)) ==> IsDist(p, block, SumRv(groups[k])))
    ensures var groups := Blocks.PickAll(rows, blocks);
            && (Distinct(LeavesOf(rows)) ==> IsDist(p, m, SumRv(Flat(groups, k) + groups[k])))
            && Combined(PlusInt(), a.Keys, block.Keys, m.Keys)
  {
    hide IsDist;
    hide SumRv;
    hide Combines;
    hide Combined;
    hide Nests;
    hide Makes;
    hide Blocks.IsBlocks;
    ghost var groups := Blocks.PickAll(rows, blocks);
    ghost var done, next, exact := Flat(groups, k), groups[k], Distinct(LeavesOf(rows));
    hide Distinct;
    RowsApart(rows, blocks, k);
    if exact { SumCombines(p, done, a, next, block); }
    m := Combine(PlusInt(), a, block, p, SumRv(done), Support(LeavesOf(done)), SumRv(next), Support(LeavesOf(next)),
                 SumRv(done + next), exact);
  }

  /** Distribution of the sum of the values of the present rows, or refusal; given when there
      is room and the rows nest, or are accepted with weights that are sums, or products
      other than zero, of values of their leaves. */
  method SumPmf(p: seq<real>, rows: seq<Row>) returns (m: map<int, real>, ok: bool)
    requires LeavesOk(p, LeavesOf(rows))
    ensures ok ==> SumExactly(p, m, rows)
    ensures Accepts(LeavesOf(rows), Nested) && Roomy(rows) ==> ok && InWindow(m.Keys, rows)
    ensures (Separable(rows, Sums) || Separable(rows, Products)) && RoomyPairs(rows) ==> ok && Reachable(m.Keys, rows)
    decreases Support(LeavesOf(rows)), 2
  {
    hide InWindow;
    hide Reachable;
    hide Roomy;
    hide RoomyPairs;
    hide IsDist;
    hide SumRv;
    hide Combines;
    hide Combined;
    hide Accepts;
    hide BlockAccepts;
    hide Separable;
    hide SeparableBlock;
    SumStart(p, rows);
    m := map[0 := 1.0];
    if rows == [] {
      SumDone(p, rows, m);
      return m, true;
    }
    var blocks := Blocks.Partition(LeavesOf(rows));
    var groups := Blocks.PickAll(rows, blocks);
    hide Blocks.IsBlocks;
    hide SumSoFar;
    hide Distinct;
    for k := 0 to |groups|
      invariant SumSoFar(p, rows, Flat(groups, k), m)
    {
      RowBlockFacts(p, rows, blocks, k);
      SumReady(rows, blocks, k);
      var block;
      block, ok := BlockSum(p, groups[k]);
      if !ok {
        return map[], false;
      }
      ghost var was := m;
      m := AddRows(p, rows, blocks, k, m, block);
      SumStep(p, rows, blocks, k, was, block, m);
      if |m| > MAX_SUPPORT {
        return map[], false;
      }
    }
    SumEnd(p, rows, blocks, m);
    SumDone(p, rows, m);
    ok := true;
  }

  method BlockSum(p: seq<real>, rows: seq<Row>) returns (m: map<int, real>, ok: bool)
    requires LeavesOk(p, LeavesOf(rows)) && rows != []
    ensures ok ==> SumExactly(p, m, rows)
    ensures BlockAccepts(LeavesOf(rows), Nested) && Roomy(rows) ==> ok && InWindow(m.Keys, rows)
    ensures MakesBlock(rows) ==> ok && Reachable(m.Keys, rows)
    decreases Support(LeavesOf(rows)), 1
  {
    hide InWindow;
    hide Reachable;
    hide Roomy;
    hide Accepts;
    hide BlockAccepts;
    hide IsDist;
    hide SumRv;
    hide MakesBlock;
    hide Separable;
    hide RoomyPairs;
    if |rows| == 1 {
      m := SingleSum(p, rows[0]);
      assert rows == [rows[0]];
      return m, true;
    }
    var common := CommonLeaves(LeavesOf(rows));
    CommonIs(LeavesOf(rows), common);
    if common != {} {
      ResidueFacts(p, rows, common);
      ResidueReach(rows, common);
      NestedResidues(rows, common);
      if MakesBlock(rows) { ResiduesMake(rows, common); }
      var root := LeafProduct(p, common);
      var inner;
      inner, ok := SumPmf(p, Residues(rows, common));
      if !ok {
        return map[], false;
      }
      m := AddAt(Weighted(inner, root), 0, 1.0 - root);
      assert m.Keys == inner.Keys + {0};
      if Distinct(LeavesOf(rows)) { SumGated(p, rows, common, inner); }
      if MakesBlock(rows) { ReachableResidues(inner.Keys, rows, common); }
    } else {
      NotNested(LeavesOf(rows));
      m, ok := ProductSum(p, rows);
    }
  }

  method SingleSum(p: seq<real>, r: Row) returns (m: map<int, real>)
    requires LeavesOk(p, LeavesOf([r]))
    ensures IsDist(p, m, SumRv([r])) && InWindow(m.Keys, [r]) && Reachable(m.Keys, [r])
  {
    hide InWindow;
    hide Reachable;
    hide IsDist;
    hide SumRv;
    assert LeavesOf([r])[0] == r.leaves;
    var q := LeafProduct(p, r.leaves);
    SumSingleDist(p, r, q);
    SingleWindow(r);
    SingleReachable(r);
    m := AddAt(AddAt(map[], 0, 1.0 - q), r.weight, q);
    assert m.Keys == {0, r.weight};
  }

  lemma ResiduesMake(rows: seq<Row>, common: set<nat>)
    requires |rows| > 1 && common != {} && Support(LeavesOf(Residues(rows, common))) < Support(LeavesOf(rows))
    requires forall v :: v in common <==> forall i :: 0 <= i < |rows| ==> v in LeavesOf(rows)[i]
    requires MakesBlock(rows)
    ensures (Separable(Residues(rows, common), Sums) || Separable(Residues(rows, common), Products)) && RoomyPairs(Residues(rows, common))
  {
    hide Separable;
    hide SeparableBlock;
    hide RoomyPairs;
    ResidueReach(rows, common);
    if SeparableBlock(rows, Sums) { SeparableResidues(rows, common, Sums); }
    if SeparableBlock(rows, Products) { SeparableResidues(rows, common, Products); }
  }

  /** A product block: a value of one factor, or one that separates by addition or by
      multiplication; anything else is refused. */
  method ProductSum(p: seq<real>, rows: seq<Row>) returns (m: map<int, real>, ok: bool)
    requires LeavesOk(p, LeavesOf(rows)) && NeedsProduct(LeavesOf(rows))
    ensures ok ==> SumExactly(p, m, rows)
    ensures MakesBlock(rows) ==> ok && Reachable(m.Keys, rows)
    decreases Support(LeavesOf(rows)), 0
  {
    hide IsDist;
    hide IsDecomposition;
    hide Classes;
    hide AddSeparates;
    hide DependsOn;
    hide MulSeparates;
    hide Conflict;
    hide MakesBlock;
    hide Makeable;
    hide Reachable;
    hide BlockAccepts;
    m := map[];
    GatesBelow(p, LeavesOf(rows));
    var d;
    ghost var factor, nf;
    ok, d, factor, nf := DecomposeProduct(LeavesOf(rows), |p|);
    if !ok {
      if MakesBlock(rows) { MadeProduct(rows, |p|, factor, nf); }
      return;
    }
    if MakesBlock(rows) { MadeParts(rows, |p|, d); }
    var found, chosen, vals := SingleFactor(rows, d);
    if found {
      m, ok := OneFactorSum(p, rows, d, chosen, vals);
      return;
    }
    m, ok := SpanningSum(p, rows, d);
  }

  lemma MadeProduct(rows: seq<Row>, n: nat, factor: map<nat, nat>, nf: nat)
    requires MakesBlock(rows) && NeedsProduct(LeavesOf(rows)) && LeavesBelow(LeavesOf(rows), n) && Classes(LeavesOf(rows), n, factor, nf)
    ensures nf >= 2 && MeetsAll(LeavesOf(rows), factor, nf) && Combinations(LeavesOf(rows), factor, nf) == |LeavesOf(rows)|
  {
    hide SeparableBlock;
    hide Classes;
    hide RoomyPairs;
    if SeparableBlock(rows, Sums) { SeparableProduct(rows, Sums, n, factor, nf); } else { SeparableProduct(rows, Products, n, factor, nf); }
  }

  lemma MadeParts(rows: seq<Row>, n: nat, d: Decomposition)
    requires MakesBlock(rows) && NeedsProduct(LeavesOf(rows)) && LeavesBelow(LeavesOf(rows), n)
    requires IsDecomposition(LeavesOf(rows), d) && Classes(LeavesOf(rows), n, d.factor, |d.parts|)
    requires Combinations(LeavesOf(rows), d.factor, |d.parts|) == |LeavesOf(rows)|
    ensures Makeable(rows, d) && BlockAccepts(LeavesOf(rows), Any)
  {
    hide Classes;
    hide RoomyPairs;
    hide IsDecomposition;
    hide BlockAccepts;
    hide Accepts;
    if SeparableBlock(rows, Sums) { SeparableParts(rows, Sums, n, d); } else { SeparableParts(rows, Products, n, d); }
  }

  /** A value that no single factor determines. */
  method SpanningSum(p: seq<real>, rows: seq<Row>, d: Decomposition) returns (m: map<int, real>, ok: bool)
    requires LeavesOk(p, LeavesOf(rows)) && NeedsProduct(LeavesOf(rows)) && IsDecomposition(LeavesOf(rows), d)
    requires forall f: nat :: f < |d.parts| ==> Conflict(rows, d, f)
    ensures ok ==> SumExactly(p, m, rows)
    ensures Makeable(rows, d) && BlockAccepts(LeavesOf(rows), Any) ==> ok && Reachable(m.Keys, rows)
    decreases Support(LeavesOf(rows)), 0, 2
  {
    hide IsDist;
    hide IsDecomposition;
    hide AddSeparates;
    hide MulSeparates;
    hide Conflict;
    hide Makeable;
    hide Reachable;
    hide BlockAccepts;
    hide Separable;
    hide Roomable;
    hide AllRealized;
    m := map[];
    ghost var mk := Makeable(rows, d) && BlockAccepts(LeavesOf(rows), Any);
    var additive, partVals := RecoverAdditive(rows, d);
    if additive {
      if mk { AdditiveReady(rows, d, Lookup(d.parts, partVals)); }
      var joint;
      joint, ok := JointPmf(p, rows);
      if ok {
        m := Push(First(), joint, p, JointRv(rows), SumRv(rows), Distinct(LeavesOf(rows)));
        if mk { FirstsReachable(joint.Keys, rows, m.Keys); }
      }
    } else {
      if mk {
        MadeDistinct(rows, d);
        OnlyProducts(rows, d);
      }
      m, ok := MulSeparableSum(p, rows, d);
    }
    if mk { MadeFits(rows, d, m); }
    ok := ok && |m| <= MAX_SUPPORT;
  }

  lemma MadeDistinct(rows: seq<Row>, d: Decomposition)
    requires Makeable(rows, d)
    ensures Distinct(LeavesOf(rows))
  {
    hide Accepts;
  }

  lemma MadeFits(rows: seq<Row>, d: Decomposition, m: map<int, real>)
    requires Makeable(rows, d) && Reachable(m.Keys, rows)
    ensures |m| <= MAX_SUPPORT
  {
    hide Reachable;
    hide Accepts;
    ReachableFits(m, rows);
  }

  /** Where values add up and no factor decides, they are sums of leaf values. */
  lemma AdditiveReady(rows: seq<Row>, d: Decomposition, u: Valuation)
    requires Makeable(rows, d) && BlockAccepts(LeavesOf(rows), Any) && AddSeparates(rows, d, u)
    requires forall f: nat :: f < |d.parts| ==> Conflict(rows, d, f)
    ensures Separable(rows, Sums) && Roomable(rows)
  {
    hide HasForm;
    hide IsDecomposition;
    hide AddSeparates;
    hide Conflict;
    hide Accepts;
    hide BlockAccepts;
    hide RoomyPairs;
    ProductAccepts(rows, d);
    RoomyRoomable(rows);
    if !HasForm(rows, Sums) { NotBothWays(rows, d, u); }
  }

  lemma OnlyProducts(rows: seq<Row>, d: Decomposition)
    requires Makeable(rows, d) && NeedsProduct(LeavesOf(rows)) && forall v :: !AddSeparates(rows, d, v)
    ensures Recoverable(rows, d)
  {
    hide IsDecomposition;
    hide AddSeparates;
    hide Accepts;
    hide Small;
    if HasForm(rows, Sums) {
      SumsSeparate(rows, d);
    } else {
      assert rows[0] in rows;
      RoomySmall(rows, d);
    }
  }

  function First(): ((int, int)) -> int {
    (x: (int, int)) => x.0
  }

  // ----- One factor -----

  /** The product of the counts of all factors but the chosen one. */
  method OtherCounts(p: seq<real>, ghost rows: seq<Row>, d: Decomposition, chosen: nat) returns (pmf: seq<real>, ok: bool)
    requires LeavesOk(p, LeavesOf(rows)) && rows != [] && IsDecomposition(LeavesOf(rows), d) && chosen < |d.parts|
    ensures ok ==> IsPmf(p, pmf, CountOf(Cross(Others(d.parts, chosen), |d.parts| - 1)))
    ensures (forall f: nat :: f < |d.parts| ==> Accepts(d.parts[f], Any)) ==> ok
  {
    hide IsPmf;
    hide IsCombination;
    hide IsDecomposition;
    hide ProductLength;
    hide Accepts;
    DecompositionSize(LeavesOf(rows), d);
    FactorsApart(LeavesOf(rows), d);
    var others := Others(d.parts, chosen);
    OthersApart(d.parts, chosen);
    pmf := [];
    for j := 0 to |others|
      invariant j > 0 ==> pmf != [] && IsPmf(p, pmf, CountOf(Cross(others, j)))
    {
      PartFacts(p, LeavesOf(rows), d, if j < chosen then j else j + 1);
      var cf;
      cf, ok := CountPmf(p, others[j]);
      if !ok {
        return [], false;
      }
      if j == 0 {
        FirstFactorPmf(p, others, cf);
        pmf := cf;
      } else {
        var next := ProductConvolve(pmf, cf);
        FactorPmf(p, others, j, pmf, cf, next);
        pmf := next;
      }
    }
    ok := true;
  }

  ghost function CrossCount(parts: seq<Clauses>, k: nat): World -> int
    requires k <= |parts|
  {
    w => Count(Cross(parts, k), w)
  }

  lemma OneFactorCombines(p: seq<real>, rows: seq<Row>, d: Decomposition, chosen: nat, vals: map<set<nat>, int>, values: seq<int>,
                          ms: map<int, real>, pmf: seq<real>)
    requires Unit(p) && IsBlock(rows, d) && chosen < |d.parts| && DependsOn(rows, d, chosen, vals)
    requires |values| == |d.parts[chosen]|
    requires forall i :: 0 <= i < |values| ==> values[i] == PartValue(Only(chosen, vals), chosen)(d.parts[chosen][i])
    requires IsDist(p, ms, SumRv(Zip(d.parts[chosen], values)))
    requires IsPmf(p, pmf, CountOf(Cross(Others(d.parts, chosen), |d.parts| - 1)))
    ensures var others := Others(d.parts, chosen);
            Combines(p, TimesInt(), ms, SumRv(Zip(d.parts[chosen], values)), Support(d.parts[chosen]),
                     Listed(pmf), CrossCount(others, |others|), Support(Flat(others, |others|)), SumRv(rows))
  {
    var others, part := Others(d.parts, chosen), Zip(d.parts[chosen], values);
    ListedDist(p, pmf, CountOf(Cross(others, |others|)), CrossCount(others, |others|));
    RowsReads(part);
    CrossCountReads(others);
    FactorsApart(LeavesOf(rows), d);
    OthersApart(d.parts, chosen);
    hide IsDist;
    hide IsPmf;
    hide Reads;
    forall w ensures SumRv(rows)(w) == TimesInt()(SumRv(part)(w), CrossCount(others, |others|)(w)) {
      OneFactorAt(rows, d, chosen, vals, values, w);
    }
  }

  lemma CrossCountReads(parts: seq<Clauses>)
    ensures Reads(CrossCount(parts, |parts|), Support(Flat(parts, |parts|)))
  {
    CrossSupport(parts, |parts|);
    CountReads(Cross(parts, |parts|));
    forall u, w | forall l :: l in Support(Flat(parts, |parts|)) ==> True(u, l) == True(w, l)
      ensures CrossCount(parts, |parts|)(u) == CrossCount(parts, |parts|)(w)
    {
      assert CountOf(Cross(parts, |parts|))(u) == CountOf(Cross(parts, |parts|))(w);
    }
  }

  method OneFactorSum(p: seq<real>, rows: seq<Row>, d: Decomposition, chosen: nat, vals: map<set<nat>, int>)
    returns (m: map<int, real>, ok: bool)
    requires LeavesOk(p, LeavesOf(rows)) && rows != [] && IsDecomposition(LeavesOf(rows), d)
    requires chosen < |d.parts| && DependsOn(rows, d, chosen, vals)
    ensures ok ==> SumExactly(p, m, rows)
    ensures Makeable(rows, d) ==> ok && Reachable(m.Keys, rows)
    decreases Support(LeavesOf(rows)), 0, 0
  {
    hide Makeable;
    hide Reachable;
    hide Separable;
    hide RoomyPairs;
    hide IsDist;
    hide IsPmf;
    hide IsDecomposition;
    hide DependsOn;
    hide Combines;
    hide Combined;
    hide InWindow;
    hide Accepts;
    hide Roomy;
    m := map[];
    PartFacts(p, LeavesOf(rows), d, chosen);
    var values := ValuesOf(d.parts[chosen], chosen, vals);
    var part := Zip(d.parts[chosen], values);
    if Makeable(rows, d) {
      ChosenReady(rows, d, chosen, vals, values);
      MadeAccepts(rows, d);
    }
    var ms;
    ms, ok := SumPmf(p, part);
    if !ok {
      return;
    }
    var pmf;
    pmf, ok := OtherCounts(p, rows, d, chosen);
    if !ok {
      return;
    }
    ghost var exact := Distinct(LeavesOf(rows));
    if exact { OneFactorCombines(p, rows, d, chosen, vals, values, ms, pmf); }
    ghost var others := Others(d.parts, chosen);
    m := Combine(TimesInt(), ms, Listed(pmf), p, SumRv(part), Support(d.parts[chosen]), CrossCount(others, |others|),
                 Support(Flat(others, |others|)), SumRv(rows), exact);
    if Makeable(rows, d) { OneFactorMade(p, rows, d, chosen, vals, values, ms, pmf, m); }
    ok := |m| <= MAX_SUPPORT;
  }

  lemma MadeAccepts(rows: seq<Row>, d: Decomposition)
    requires Makeable(rows, d)
    ensures forall f: nat :: f < |d.parts| ==> Accepts(d.parts[f], Any)
  {
    hide Accepts;
  }

  /** The counts with a mass are counts of some world. */
  lemma ListedCounts(p: seq<real>, pmf: seq<real>, cls: Clauses)
    requires Unit(p) && IsPmf(p, pmf, CountOf(cls))
    ensures forall c :: c in Listed(pmf).Keys ==> 0 <= c <= |cls|
  {
    forall c | c in Listed(pmf).Keys ensures 0 <= c <= |cls| {
      if c > |cls| { NoEvent(p, Is<nat>(CountOf(cls), c)); }
    }
  }

  lemma OneFactorMade(p: seq<real>, rows: seq<Row>, d: Decomposition, chosen: nat, vals: map<set<nat>, int>, values: seq<int>,
                      ms: map<int, real>, pmf: seq<real>, m: map<int, real>)
    requires LeavesOk(p, LeavesOf(rows)) && Makeable(rows, d) && DependsOn(rows, d, chosen, vals) && Gives(d, chosen, vals, values)
    requires Reachable(ms.Keys, Zip(d.parts[chosen], values)) && |d.parts| >= 1
    requires IsPmf(p, pmf, CountOf(Cross(Others(d.parts, chosen), |d.parts| - 1)))
    requires Combined(TimesInt(), ms.Keys, Listed(pmf).Keys, m.Keys)
    ensures Reachable(m.Keys, rows) && |m| <= MAX_SUPPORT
  {
    hide IsBlock;
    hide DependsOn;
    hide IsPmf;
    hide Reachable;
    hide Combined;
    hide Accepts;
    ListedCounts(p, pmf, Cross(Others(d.parts, chosen), |d.parts| - 1));
    OneFactorKeys(rows, d, chosen, vals, values, |p|, ms.Keys, Listed(pmf).Keys, m.Keys);
    MadeFits(rows, d, m);
  }

  // ----- Values that separate by multiplication -----

  ghost function MulRv(d: Decomposition, v: Valuation, k: nat): World -> int
    requires k <= |d.parts|
  {
    w => MultipliedSum(d, v, k, w)
  }

  lemma MulReads(d: Decomposition, v: Valuation, k: nat)
    requires k <= |d.parts|
    ensures Reads(MulRv(d, v, k), Support(Flat(d.parts, k)))
  {
    var cls, h := Cross(d.parts, k), MultipliedBy(v, d.factor, k);
    CrossSupport(d.parts, k);
    ValueReads(cls, h);
    forall u, w | forall l :: l in Support(Flat(d.parts, k)) ==> True(u, l) == True(w, l)
      ensures MulRv(d, v, k)(u) == MulRv(d, v, k)(w)
    {
      assert (x => ValueSum(cls, h, x))(u) == (x => ValueSum(cls, h, x))(w);
    }
  }

  lemma MulNothing(p: seq<real>, d: Decomposition, v: Valuation)
    requires Unit(p)
    ensures IsDist(p, map[1 := 1.0], MulRv(d, v, 0))
  {
    forall w ensures MulRv(d, v, 0)(w) == 1 { FoldStart(d, v, w); }
    ConstantDist(p, 1, MulRv(d, v, 0));
  }

  lemma MulFactor(p: seq<real>, contribs: Clauses, d: Decomposition, table: seq<seq<int>>, k: nat, run: map<int, real>, mf: map<int, real>)
    requires Unit(p) && IsDecomposition(contribs, d) && Aligned(d.parts, table) && k < |d.parts|
    requires IsDist(p, run, MulRv(d, Lookup(d.parts, table), k)) && IsDist(p, mf, SumRv(Zip(d.parts[k], table[k])))
    ensures Combines(p, TimesInt(), run, MulRv(d, Lookup(d.parts, table), k), Support(Flat(d.parts, k)),
                     mf, SumRv(Zip(d.parts[k], table[k])), Support(d.parts[k]), MulRv(d, Lookup(d.parts, table), k + 1))
  {
    hide IsDist;
    hide MulRv;
    hide SumRv;
    hide Reads;
    hide IsDecomposition;
    var v, rows := Lookup(d.parts, table), Zip(d.parts[k], table[k]);
    MulReads(d, v, k);
    RowsReads(rows);
    FactorsApart(contribs, d);
    PrefixApart(d.parts, k);
    forall w ensures MulRv(d, v, k + 1)(w) == TimesInt()(MulRv(d, v, k)(w), SumRv(rows)(w)) {
      MulFactorAt(contribs, d, table, k, w);
    }
  }

  lemma MulFactorAt(contribs: Clauses, d: Decomposition, table: seq<seq<int>>, k: nat, w: World)
    requires IsDecomposition(contribs, d) && Aligned(d.parts, table) && k < |d.parts|
    ensures MulRv(d, Lookup(d.parts, table), k + 1)(w)
         == TimesInt()(MulRv(d, Lookup(d.parts, table), k)(w), SumRv(Zip(d.parts[k], table[k]))(w))
  {
    var v := Lookup(d.parts, table);
    FactorsApart(contribs, d);
    hide IsDecomposition;
    hide MultipliedSum;
    hide ValueSum;
    hide Sum;
    FoldStep(contribs, d, v, k, w);
    ZipSum(d.parts, table, k, w);
  }

  /** A block that can be recovered by multiplication, with the axes through its first member. */
  ghost predicate Multipliable(rows: seq<Row>, d: Decomposition, axes: seq<seq<int>>) {
    Makeable(rows, d) && Recoverable(rows, d) && OnAxes(rows, d, axes)
  }

  /** After f factors every key is a sum of weights times a power of the pivot. */
  ghost predicate RunKeys(keys: set<int>, rows: seq<Row>, d: Decomposition, f: nat)
    requires rows != [] && f <= |d.parts|
  {
    exists v: seq<int>, k: int :: Multiplies(rows, d, v, k) && AllLift(keys, Begun(d, v, k, rows[0].leaves, f), rows[0].weight, f)
  }

  lemma RunStart(rows: seq<Row>, d: Decomposition)
    requires Recoverable(rows, d)
    ensures RunKeys({1}, rows, d, 0)
  {
    hide IsBlock;
    hide Formed;
    hide Small;
    hide AllLift;
    var v: seq<int>, k: int :| Formed(rows, Products, v, k);
    assert Multiplies(rows, d, v, k);
    LiftStart(rows, d, v, k);
  }

  lemma RunStep(rows: seq<Row>, d: Decomposition, axes: seq<seq<int>>, f: nat, xs: set<int>, ys: set<int>, zs: set<int>)
    requires rows != [] && OnAxes(rows, d, axes) && f < |d.parts| && RunKeys(xs, rows, d, f)
    requires |axes| == |d.parts| && |axes[f]| == |d.parts[f]| && Reachable(ys, Zip(d.parts[f], axes[f])) && Combined(TimesInt(), xs, ys, zs)
    ensures RunKeys(zs, rows, d, f + 1)
  {
    hide Multiplies;
    hide OnAxes;
    hide AllLift;
    hide Reachable;
    hide Combined;
    var v: seq<int>, k: int :| Multiplies(rows, d, v, k) && AllLift(xs, Begun(d, v, k, rows[0].leaves, f), rows[0].weight, f);
    LiftStep(rows, d, v, k, axes, f, xs, ys, zs);
  }

  lemma RunSmall(rows: seq<Row>, d: Decomposition, f: nat, m: map<int, real>)
    requires Recoverable(rows, d) && f <= |d.parts| && RunKeys(m.Keys, rows, d, f)
    ensures AllFit(m.Keys) && |m| <= MAX_SUPPORT
  {
    hide Multiplies;
    hide IsBlock;
    hide HasForm;
    hide Small;
    hide Lifts;
    var v: seq<int>, k: int :| Multiplies(rows, d, v, k) && AllLift(m.Keys, Begun(d, v, k, rows[0].leaves, f), rows[0].weight, f);
    forall x | x in m.Keys ensures Fits(x) { LiftsFit(rows, d, v, k, f, x); }
    LiftsFew(m, rows, d, v, k, f);
  }

  lemma AxisReady(rows: seq<Row>, d: Decomposition, axes: seq<seq<int>>, f: nat)
    requires Multipliable(rows, d, axes) && f < |d.parts| && |axes| == |d.parts| && |axes[f]| == |d.parts[f]|
    ensures var part := Zip(d.parts[f], axes[f]);
            (Separable(part, Sums) || Separable(part, Products)) && RoomyPairs(part)
  {
    hide Makeable;
    hide OnAxes;
    hide Separable;
    hide RoomyPairs;
    hide HasForm;
    hide Small;
    hide Embeds;
    AxisEmbeds(rows, d, axes, f);
    InsideMakeable(rows, d, f, Zip(d.parts[f], axes[f]), rows[0].leaves - Projection(rows[0].leaves, d.factor, f));
  }

  /** Each key divides back to a sum of the rows' weights. */
  lemma RunEnd(rows: seq<Row>, d: Decomposition, scale: int, x: int, keys: set<int>)
    requires Recoverable(rows, d) && RunKeys(keys, rows, d, |d.parts|) && x in keys && |d.parts| >= 1 && scale != 0
    requires scale == Power(rows[0].weight, |d.parts| - 1)
    ensures x % scale == 0 && FitsLong(x / scale) && Reaches(rows, x / scale)
  {
    hide Multiplies;
    hide IsBlock;
    hide HasForm;
    hide Lifts;
    hide Spans;
    hide Power;
    var v: seq<int>, k: int :| Multiplies(rows, d, v, k) && AllLift(keys, Begun(d, v, k, rows[0].leaves, |d.parts|), rows[0].weight, |d.parts|);
    var t := LiftEnd(rows, d, v, k, x);
    DivideExactly(t, scale);
  }

  lemma RunDivides(rows: seq<Row>, d: Decomposition, scale: int, keys: set<int>, quotients: set<int>)
    requires Recoverable(rows, d) && RunKeys(keys, rows, d, |d.parts|) && |d.parts| >= 1 && scale != 0
    requires scale == Power(rows[0].weight, |d.parts| - 1)
    requires forall z :: z in quotients ==> exists x :: x in keys && x / scale == z
    ensures forall x :: x in keys ==> x % scale == 0 && FitsLong(x / scale)
    ensures Reachable(quotients, rows)
  {
    hide Recoverable;
    hide RunKeys;
    hide Spans;
    hide Power;
    hide FitsLong;
    forall x | x in keys ensures x % scale == 0 && FitsLong(x / scale) { RunEnd(rows, d, scale, x, keys); }
    forall z | z in quotients ensures -Bulk(rows) <= z <= Bulk(rows) && Spans(rows, z) {
      var x :| x in keys && x / scale == z;
      RunEnd(rows, d, scale, x, keys);
    }
  }

  lemma MultipliableParts(rows: seq<Row>, d: Decomposition, axes: seq<seq<int>>)
    requires Multipliable(rows, d, axes)
    ensures Recoverable(rows, d) && OnAxes(rows, d, axes) && RunKeys({1}, rows, d, 0)
  {
    hide Makeable;
    hide Recoverable;
    hide OnAxes;
    hide RunKeys;
    RunStart(rows, d);
  }

  /** The product of the factors' sums over their axis values. */
  method FoldProducts(p: seq<real>, ghost rows: seq<Row>, d: Decomposition, axes: seq<seq<int>>)
    returns (run: map<int, real>, ok: bool)
    requires LeavesOk(p, LeavesOf(rows)) && rows != [] && IsDecomposition(LeavesOf(rows), d) && Aligned(d.parts, axes)
    ensures ok ==> IsDist(p, run, MulRv(d, Lookup(d.parts, axes), |d.parts|))
    ensures Multipliable(rows, d, axes) ==> ok && RunKeys(run.Keys, rows, d, |d.parts|)
    decreases Support(LeavesOf(rows)), 0, 0
  {
    hide Multipliable;
    hide Makeable;
    hide Recoverable;
    hide OnAxes;
    hide RunKeys;
    hide Reachable;
    hide Separable;
    hide RoomyPairs;
    hide AllFit;
    hide IsDist;
    hide SumRv;
    hide MulRv;
    hide IsDecomposition;
    hide Combines;
    hide Combined;
    hide InWindow;
    hide Accepts;
    hide Roomy;
    ghost var v := Lookup(d.parts, axes);
    run := map[1 := 1.0];
    MulNothing(p, d, v);
    ghost var mul := Multipliable(rows, d, axes);
    if mul { MultipliableParts(rows, d, axes); }
    assert run.Keys == {1};
    for f := 0 to |d.parts|
      invariant IsDist(p, run, MulRv(d, v, f)) && (mul ==> RunKeys(run.Keys, rows, d, f))
    {
      PartFacts(p, LeavesOf(rows), d, f);
      var part := Zip(d.parts[f], axes[f]);
      if mul { AxisReady(rows, d, axes, f); }
      ghost var was := run.Keys;
      var mf;
      mf, ok := SumPmf(p, part);
      if !ok {
        return map[], false;
      }
      MulFactor(p, LeavesOf(rows), d, axes, f, run, mf);
      run := Combine(TimesInt(), run, mf, p, MulRv(d, v, f), Support(Flat(d.parts, f)), SumRv(part), Support(d.parts[f]),
                     MulRv(d, v, f + 1), true);
      if mul {
        RunStep(rows, d, axes, f, was, mf.Keys, run.Keys);
        RunSmall(rows, d, f + 1, run);
      }
      if !AllFit(run.Keys) || |run| > MAX_SUPPORT {
        return map[], false;
      }
    }
    ok := true;
  }

  /** Every product stayed within 128 bits. */
  predicate AllFit(xs: set<int>) {
    forall x :: x in xs ==> Fits(x)
  }

  const LONG_MAX := 0x7fff_ffff_ffff_ffff

  predicate FitsLong(x: int) {
    -LONG_MAX - 1 <= x <= LONG_MAX
  }

  function DividedBy(scale: int): int -> int
    requires scale != 0
  {
    (x: int) => x / scale
  }

  /** In every world the product of the axis sums is the sum, times the power of the pivot:
      the final division is exact. */
  lemma ExactDivision(rows: seq<Row>, d: Decomposition, axes: seq<seq<int>>, scale: int, w: World)
    requires IsBlock(rows, d) && scale != 0 && MulSeparates(rows, d, Lookup(d.parts, axes), scale)
    ensures MultipliedSum(d, Lookup(d.parts, axes), |d.parts|, w) % scale == 0
    ensures MultipliedSum(d, Lookup(d.parts, axes), |d.parts|, w) / scale == Sum(rows, w)
  {
    hide IsBlock;
    hide MulSeparates;
    hide MultipliedSum;
    hide Sum;
    BlockMultiplied(rows, d, Lookup(d.parts, axes), scale, w);
    DivideExactly(Sum(rows, w), scale);
  }

  /** Sums of products: per-factor sums over the axes, multiplied and divided back. */
  method MulSeparableSum(p: seq<real>, rows: seq<Row>, d: Decomposition) returns (m: map<int, real>, ok: bool)
    requires LeavesOk(p, LeavesOf(rows)) && rows != [] && IsDecomposition(LeavesOf(rows), d)
    ensures ok ==> SumExactly(p, m, rows)
    ensures Makeable(rows, d) && Recoverable(rows, d) ==> ok && Reachable(m.Keys, rows)
    decreases Support(LeavesOf(rows)), 0, 1
  {
    hide IsDist;
    hide IsDecomposition;
    hide MulSeparates;
    hide Aligned;
    hide Makeable;
    hide Recoverable;
    hide OnAxes;
    hide RunKeys;
    hide Reachable;
    hide Power;
    m := map[];
    ghost var mul := Makeable(rows, d) && Recoverable(rows, d);
    DecompositionSize(LeavesOf(rows), d);
    var axes, scale;
    ok, axes, scale := RecoverMultiplicative(rows, d);
    if !ok {
      return;
    }
    var run;
    run, ok := FoldProducts(p, rows, d, axes);
    if !ok {
      return;
    }
    ghost var exact := Distinct(LeavesOf(rows));
    if exact { ExactDivisions(rows, d, axes, scale); }
    if mul { RunDivides(rows, d, scale, run.Keys, {}); }
    if exists x :: x in run && (x % scale != 0 || !FitsLong(x / scale)) {
      ok := false;
    } else {
      m := Push(DividedBy(scale), run, p, MulRv(d, Lookup(d.parts, axes), |d.parts|), SumRv(rows), exact);
      if mul { RunDivides(rows, d, scale, run.Keys, m.Keys); }
    }
  }

  lemma ExactDivisions(rows: seq<Row>, d: Decomposition, axes: seq<seq<int>>, scale: int)
    requires IsDecomposition(LeavesOf(rows), d) && Distinct(LeavesOf(rows)) && scale != 0 && MulSeparates(rows, d, Lookup(d.parts, axes), scale)
    ensures forall w :: SumRv(rows)(w) == DividedBy(scale)(MulRv(d, Lookup(d.parts, axes), |d.parts|)(w))
  {
    hide IsDecomposition;
    hide MulSeparates;
    forall w ensures SumRv(rows)(w) == DividedBy(scale)(MulRv(d, Lookup(d.parts, axes), |d.parts|)(w)) {
      ExactDivision(rows, d, axes, scale, w);
    }
  }
}
