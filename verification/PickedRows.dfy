/** Sums and counts of any selection of rows: every listed pair of a sum and a count is that
    of some selection, also where no world makes exactly that selection. */
module PickedRows {
  import opened Sequences
  import opened SeqSums
  import opened MonotoneDnf
  import opened ClauseBlocks
  import opened Contributors
  import opened SharedRoots
  import opened CrossProducts
  import opened WeightedRows
  import opened Distributions
  import opened Separation
  import opened SumWindows
  import opened SeparableRows
  import Blocks

  /** The weight of a row that is picked, by its leaves. */
  function Picked(T: set<set<nat>>): Row -> int {
    (r: Row) => if r.leaves in T then r.weight else 0
  }

  function In(T: set<set<nat>>): set<nat> -> int {
    c => if c in T then 1 else 0
  }

  ghost function PickSum(rows: seq<Row>, T: set<set<nat>>): int {
    SumOf(rows, Picked(T))
  }

  ghost function PickCount(rows: seq<Row>, T: set<set<nat>>): int {
    SumOf(LeavesOf(rows), In(T))
  }

  /** k is the sum and the count of some of the rows. */
  ghost predicate Realized(k: (int, int), rows: seq<Row>) {
    exists T :: PickSum(rows, T) == k.0 && PickCount(rows, T) == k.1
  }

  ghost predicate AllRealized(keys: set<(int, int)>, rows: seq<Row>) {
    forall k :: k in keys ==> Realized(k, rows)
  }

  // ----- How many there are -----

  lemma LeavesInit(rows: seq<Row>)
    requires rows != []
    ensures LeavesOf(rows)[..|rows| - 1] == LeavesOf(rows[..|rows| - 1])
  {
  }

  /** The sum of picked rows, measured from anywhere, lies within reach. */
  lemma {:induction false} PickWithin(rows: seq<Row>, T: set<set<nat>>, base: int)
    ensures 0 <= PickCount(rows, T) <= |rows|
    ensures Low(Shift(rows, base)) <= PickSum(rows, T) - base * PickCount(rows, T) <= High(Shift(rows, base))
  {
    if rows != [] {
      var init, r, n := rows[..|rows| - 1], rows[|rows| - 1], PickCount(rows[..|rows| - 1], T);
      PickWithin(init, T, base);
      LeavesInit(rows);
      assert Shift(rows, base)[..|rows| - 1] == Shift(init, base);
      if r.leaves in T { assert base * (n + 1) == base * n + base; }
    }
  }

  lemma RealizedFits(m: map<(int, int), real>, rows: seq<Row>)
    requires AllRealized(m.Keys, rows) && Roomable(rows)
    ensures |m| <= MAX_SUPPORT
  {
    var base :| RoomyPairs(Shift(rows, base));
    var far := Shift(rows, base);
    forall k | k in m.Keys ensures Low(far) <= k.0 - base * k.1 <= High(far) && 0 <= k.1 < |rows| + 1 {
      assert Realized(k, rows);
      var T :| PickSum(rows, T) == k.0 && PickCount(rows, T) == k.1;
      PickWithin(rows, T, base);
    }
    ZeroWithin(far);
    BoxSize(m.Keys, Low(far), High(far), base, |rows| + 1);
    assert |m| == |m.Keys|;
  }

  // ----- Blocks, roots and single rows -----

  lemma {:induction false} PickNothing(rows: seq<Row>)
    ensures PickSum(rows, {}) == 0 && PickCount(rows, {}) == 0
  {
    if rows != [] {
      LeavesInit(rows);
      PickNothing(rows[..|rows| - 1]);
    }
  }

  lemma ZeroRealized(rows: seq<Row>)
    ensures Realized((0, 0), rows)
  {
    PickNothing(rows);
  }

  lemma SingleRealized(r: Row)
    ensures AllRealized({(0, 0), (r.weight, 1)}, [r])
  {
    ZeroRealized([r]);
    var none: Clauses := [];
    SumAppend([], r, Picked({r.leaves}));
    SumAppend(none, r.leaves, In({r.leaves}));
    assert [] + [r] == [r] && LeavesOf([r]) == none + [r.leaves];
    assert PickSum([r], {r.leaves}) == r.weight && PickCount([r], {r.leaves}) == 1;
  }

  /** Selections from rows without a common leaf set combine. */
  lemma PickBoth(a: seq<Row>, Ta: set<set<nat>>, b: seq<Row>, Tb: set<set<nat>>)
    requires forall c :: c in LeavesOf(a) ==> c !in LeavesOf(b)
    ensures var T := (Ta * Elements(LeavesOf(a))) + (Tb * Elements(LeavesOf(b)));
            && PickSum(a + b, T) == PickSum(a, Ta) + PickSum(b, Tb)
            && PickCount(a + b, T) == PickCount(a, Ta) + PickCount(b, Tb)
  {
    var T := (Ta * Elements(LeavesOf(a))) + (Tb * Elements(LeavesOf(b)));
    RowLeaves(a);
    RowLeaves(b);
    SumConcat(a, b, Picked(T));
    LeavesConcat(a, b);
    SumConcat(LeavesOf(a), LeavesOf(b), In(T));
    SumEqual(a, Picked(T), Picked(Ta));
    SumEqual(b, Picked(T), Picked(Tb));
    SumEqual(LeavesOf(a), In(T), In(Ta));
    SumEqual(LeavesOf(b), In(T), In(Tb));
  }

  lemma RowLeaves(rows: seq<Row>)
    ensures forall r :: r in rows ==> r.leaves in LeavesOf(rows)
  {
    forall r | r in rows ensures r.leaves in LeavesOf(rows) {
      var i :| 0 <= i < |rows| && rows[i] == r;
      assert LeavesOf(rows)[i] == r.leaves;
    }
  }

  lemma RealizedBoth(k: (int, int), a: seq<Row>, l: (int, int), b: seq<Row>)
    requires Realized(k, a) && Realized(l, b) && forall c :: c in LeavesOf(a) ==> c !in LeavesOf(b)
    ensures Realized(AddPairs()(k, l), a + b)
  {
    var Ta :| PickSum(a, Ta) == k.0 && PickCount(a, Ta) == k.1;
    var Tb :| PickSum(b, Tb) == l.0 && PickCount(b, Tb) == l.1;
    PickBoth(a, Ta, b, Tb);
  }

  lemma RealizedSums(xs: set<(int, int)>, a: seq<Row>, ys: set<(int, int)>, b: seq<Row>, zs: set<(int, int)>)
    requires AllRealized(xs, a) && AllRealized(ys, b) && Combined(AddPairs(), xs, ys, zs)
    requires forall c :: c in LeavesOf(a) ==> c !in LeavesOf(b)
    ensures AllRealized(zs, a + b)
  {
    hide Realized;
    forall z | z in zs ensures Realized(z, a + b) {
      var x, y :| x in xs && y in ys && z == AddPairs()(x, y);
      RealizedBoth(x, a, y, b);
    }
  }

  lemma RealizedWhole(keys: set<(int, int)>, rows: seq<Row>, blocks: seq<seq<nat>>)
    requires Blocks.IsBlocks(LeavesOf(rows), blocks) && AllRealized(keys, Flat(Blocks.PickAll(rows, blocks), |blocks|))
    ensures AllRealized(keys, rows)
  {
    var all := Flat(Blocks.PickAll(rows, blocks), |blocks|);
    forall k | k in keys ensures Realized(k, rows) {
      assert Realized(k, all);
      var T :| PickSum(all, T) == k.0 && PickCount(all, T) == k.1;
      SumBlocks(LeavesOf(rows), blocks, rows, Picked(T));
      SumBlocks(LeavesOf(rows), blocks, LeavesOf(rows), In(T));
      FlatLeavesAll(rows, blocks);
      assert PickSum(rows, T) == k.0 && PickCount(rows, T) == k.1;
    }
  }

  lemma FlatLeavesAll(rows: seq<Row>, blocks: seq<seq<nat>>)
    requires Blocks.IsBlocks(LeavesOf(rows), blocks)
    ensures LeavesOf(Flat(Blocks.PickAll(rows, blocks), |blocks|)) == Flat(Blocks.PickAll(LeavesOf(rows), blocks), |blocks|)
  {
    BlockIndicesBelow(rows, blocks);
    FlatLeaves(rows, blocks, |blocks|);
  }

  /** The leaf sets of earlier blocks and of the next one differ. */
  lemma GroupsDiffer(rows: seq<Row>, blocks: seq<seq<nat>>, k: nat)
    requires Blocks.IsBlocks(LeavesOf(rows), blocks) && k < |blocks| && Distinct(LeavesOf(rows))
    ensures var groups := Blocks.PickAll(rows, blocks);
            forall c :: c in LeavesOf(Flat(groups, k)) ==> c !in LeavesOf(groups[k])
  {
    var cls, groups, picked := LeavesOf(rows), Blocks.PickAll(rows, blocks), Blocks.PickAll(LeavesOf(rows), blocks);
    BlockIndicesBelow(rows, blocks);
    FlatLeaves(rows, blocks, k);
    PickLeaves(rows, blocks[k]);
    forall c | c in Flat(picked, k) ensures c !in picked[k] {
      InFlat(picked, k, c);
      var b :| 0 <= b < k && c in picked[b];
      GroupsShareNothing(cls, blocks, b, k, c);
    }
  }

  lemma GroupsShareNothing(cls: Clauses, blocks: seq<seq<nat>>, a: nat, b: nat, c: set<nat>)
    requires Blocks.IsBlocks(cls, blocks) && a < b < |blocks| && Distinct(cls) && c in Blocks.PickAll(cls, blocks)[a]
    ensures c !in Blocks.PickAll(cls, blocks)[b]
  {
    hide Connectivity.Linked;
    var x, y := Blocks.PickAll(cls, blocks)[a], Blocks.PickAll(cls, blocks)[b];
    var i :| 0 <= i < |x| && x[i] == c;
    assert blocks[a][i] in blocks[a];
    forall j | 0 <= j < |y| ensures y[j] != c {
      assert blocks[b][j] in blocks[b];
      assert cls[blocks[a][i]] == c && cls[blocks[b][j]] == y[j];
    }
  }

  lemma RealizedResidues(keys: set<(int, int)>, rows: seq<Row>, common: set<nat>)
    requires AllRealized(keys, Residues(rows, common))
    ensures AllRealized(keys + {(0, 0)}, rows)
  {
    var res := Residues(rows, common);
    ZeroRealized(rows);
    forall k | k in keys ensures Realized(k, rows) {
      assert Realized(k, res);
      var T :| PickSum(res, T) == k.0 && PickCount(res, T) == k.1;
      var U := set c | c in LeavesOf(rows) && c - common in T;
      RowLeaves(rows);
      forall i | 0 <= i < |rows| ensures Picked(U)(rows[i]) == Picked(T)(res[i]) && In(U)(LeavesOf(rows)[i]) == In(T)(LeavesOf(res)[i]) {
        assert rows[i].leaves == LeavesOf(rows)[i];
      }
      SumMapped(rows, res, Picked(U), Picked(T));
      SumMapped(LeavesOf(rows), LeavesOf(res), In(U), In(T));
      assert PickSum(rows, U) == k.0 && PickCount(rows, U) == k.1;
    }
  }
}
