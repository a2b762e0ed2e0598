/** Contributors with values: what the present ones add up to, alone and jointly with how
    many they are.  */
module WeightedRows {
  import opened Worlds
  import opened Probability
  import opened RandomValues
  import opened Sequences
  import opened SeqSums
  import opened MonotoneDnf
  import opened ClauseBlocks
  import opened Contributors
  import opened SharedRoots
  import Blocks

  datatype Row = Row(leaves: set<nat>, weight: int)

  function LeavesOf(rows: seq<Row>): (c: Clauses)
    ensures |c| == |rows| && forall i :: 0 <= i < |rows| ==> c[i] == rows[i].leaves
  {
    seq(|rows|, i requires 0 <= i < |rows| => rows[i].leaves)
  }

  /** What a row adds in w. */
  function Worth(w: World): Row -> int {
    (r: Row) => if AllTrue(w, r.leaves) then r.weight else 0
  }

  ghost function Sum(rows: seq<Row>, w: World): int {
    SumOf(rows, Worth(w))
  }

  ghost function SumRv(rows: seq<Row>): World -> int {
    w => Sum(rows, w)
  }

  /** Sum and count together. */
  ghost function JointRv(rows: seq<Row>): World -> (int, int) {
    w => (Sum(rows, w), Count(LeavesOf(rows), w))
  }

  lemma RowsReads(rows: seq<Row>)
    ensures Reads(SumRv(rows), Support(LeavesOf(rows))) && Reads(JointRv(rows), Support(LeavesOf(rows)))
  {
    var cls := LeavesOf(rows);
    forall u, w | forall v :: v in Support(cls) ==> True(u, v) == True(w, v)
      ensures SumRv(rows)(u) == SumRv(rows)(w) && JointRv(rows)(u) == JointRv(rows)(w)
    {
      forall r | r in rows ensures Worth(u)(r) == Worth(w)(r) {
        var i :| 0 <= i < |rows| && rows[i] == r;
        assert cls[i] == r.leaves;
        assert r.leaves <= Support(cls);
      }
      SumEqual(rows, Worth(u), Worth(w));
      CountReads(cls);
      assert CountOf(cls)(u) == CountOf(cls)(w);
    }
  }

  lemma SumSingle(r: Row, w: World)
    ensures Sum([r], w) == if AllTrue(w, r.leaves) then r.weight else 0
    ensures Count([r.leaves], w) == if AllTrue(w, r.leaves) then 1 else 0
  {
    SumAppend([], r, Worth(w));
    assert [] + [r] == [r];
    var none: Clauses := [];
    SumAppend(none, r.leaves, Here(w));
    assert none + [r.leaves] == [r.leaves];
  }

  // ----- Blocks -----

  lemma LeavesConcat(a: seq<Row>, b: seq<Row>)
    ensures LeavesOf(a + b) == LeavesOf(a) + LeavesOf(b)
  {
  }

  lemma SumBoth(a: seq<Row>, b: seq<Row>, w: World)
    ensures Sum(a + b, w) == Sum(a, w) + Sum(b, w)
    ensures Count(LeavesOf(a + b), w) == Count(LeavesOf(a), w) + Count(LeavesOf(b), w)
  {
    SumConcat(a, b, Worth(w));
    LeavesConcat(a, b);
    SumConcat(LeavesOf(a), LeavesOf(b), Here(w));
  }

  lemma PickLeaves(rows: seq<Row>, block: seq<nat>)
    requires forall i :: i in block ==> i < |rows|
    ensures LeavesOf(Blocks.Pick(rows, block)) == Blocks.Pick(LeavesOf(rows), block)
  {
  }

  lemma {:induction false} FlatLeaves(rows: seq<Row>, blocks: seq<seq<nat>>, k: nat)
    requires k <= |blocks| && forall b, i :: 0 <= b < |blocks| && i in blocks[b] ==> i < |rows|
    ensures LeavesOf(Flat(Blocks.PickAll(rows, blocks), k)) == Flat(Blocks.PickAll(LeavesOf(rows), blocks), k)
  {
    if k > 0 {
      FlatLeaves(rows, blocks, k - 1);
      PickLeaves(rows, blocks[k - 1]);
      LeavesConcat(Flat(Blocks.PickAll(rows, blocks), k - 1), Blocks.Pick(rows, blocks[k - 1]));
    }
  }

  /** The blocks together have the sum and the count of all rows. */
  lemma WholeRows(rows: seq<Row>, blocks: seq<seq<nat>>, w: World)
    requires Blocks.IsBlocks(LeavesOf(rows), blocks)
    ensures Sum(Flat(Blocks.PickAll(rows, blocks), |blocks|), w) == Sum(rows, w)
    ensures Count(LeavesOf(Flat(Blocks.PickAll(rows, blocks), |blocks|)), w) == Count(LeavesOf(rows), w)
  {
    SumBlocks(LeavesOf(rows), blocks, rows, Worth(w));
    SumBlocks(LeavesOf(rows), blocks, LeavesOf(rows), Here(w));
    FlatLeaves(rows, blocks, |blocks|);
  }

  // ----- Weights measured from elsewhere -----

  function Shift(rows: seq<Row>, base: int): (r: seq<Row>)
    ensures |r| == |rows| && LeavesOf(r) == LeavesOf(rows)
    ensures forall i :: 0 <= i < |rows| ==> r[i] == Row(rows[i].leaves, rows[i].weight - base)
  {
    seq(|rows|, i requires 0 <= i < |rows| => Row(rows[i].leaves, rows[i].weight - base))
  }

  // ----- Shared roots -----

  function Residues(rows: seq<Row>, common: set<nat>): (r: seq<Row>)
    ensures |r| == |rows| && forall i :: 0 <= i < |rows| ==> r[i] == Row(rows[i].leaves - common, rows[i].weight)
  {
    seq(|rows|, i requires 0 <= i < |rows| => Row(rows[i].leaves - common, rows[i].weight))
  }

  lemma ResiduesLeaves(rows: seq<Row>, common: set<nat>)
    ensures LeavesOf(Residues(rows, common)) == Residuals(LeavesOf(rows), common)
  {
  }

  lemma GatedSum(rows: seq<Row>, common: set<nat>, w: World)
    requires SharedBy(LeavesOf(rows), common)
    ensures Sum(rows, w) == if AllTrue(w, common) then Sum(Residues(rows, common), w) else 0
    ensures Count(LeavesOf(rows), w) == if AllTrue(w, common) then Count(LeavesOf(Residues(rows, common)), w) else 0
  {
    GatedCount(LeavesOf(rows), common, w);
    ResiduesLeaves(rows, common);
    var res := Residues(rows, common);
    forall i | 0 <= i < |rows|
      ensures Worth(w)(rows[i]) == if AllTrue(w, common) then Worth(w)(res[i]) else 0
    {
      assert common <= LeavesOf(rows)[i];
      RootAndRest(rows[i].leaves, common, w);
    }
    if AllTrue(w, common) {
      SumMapped(rows, res, Worth(w), Worth(w));
    } else {
      var zero: Row -> int := (r: Row) => 0 * Worth(w)(r);
      SumMapped(rows, res, Worth(w), zero);
      SumTimes(res, 0, Worth(w), zero);
    }
  }
}
