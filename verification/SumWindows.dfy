/** How far sums of values can reach, and when the cap on listed values cannot be met. */
module SumWindows {
  import opened Sequences
  import opened SeqSums
  import opened MonotoneDnf
  import opened ClauseBlocks
  import opened Contributors
  import opened Acceptance
  import opened BlockAcceptance
  import opened CountMarginals
  import opened WeightedRows
  import opened Distributions
  import Blocks

  /** The most distinct values a distribution may list. */
  const MAX_SUPPORT := 0x10_0000

  function Loss(): Row -> int {
    (r: Row) => if r.weight < 0 then r.weight else 0
  }

  function Gain(): Row -> int {
    (r: Row) => if r.weight < 0 then 0 else r.weight
  }

  function Each(): Row -> int {
    (r: Row) => 1
  }

  /** The least sum that some of the rows can have. */
  ghost function Low(rows: seq<Row>): int {
    SumOf(rows, Loss())
  }

  ghost function High(rows: seq<Row>): int {
    SumOf(rows, Gain())
  }

  ghost function Spread(rows: seq<Row>): int {
    High(rows) - Low(rows) + 1
  }

  /** The sums fit under the cap. */
  ghost predicate Roomy(rows: seq<Row>) {
    Spread(rows) <= MAX_SUPPORT
  }

  /** How many pairs of a sum and a count there can be. */
  ghost function Area(rows: seq<Row>): int {
    Spread(rows) * (|rows| + 1)
  }

  ghost predicate RoomyPairs(rows: seq<Row>) {
    Area(rows) <= MAX_SUPPORT
  }

  ghost predicate InWindow(keys: set<int>, rows: seq<Row>) {
    forall k :: k in keys ==> Low(rows) <= k <= High(rows)
  }

  ghost predicate InBox(keys: set<(int, int)>, rows: seq<Row>) {
    forall k :: k in keys ==> Low(rows) <= k.0 <= High(rows) && 0 <= k.1 <= |rows|
  }

  // ----- Sizes -----

  lemma {:induction false} WindowSize(keys: set<int>, lo: int, hi: int)
    requires lo <= hi + 1 && forall k :: k in keys ==> lo <= k <= hi
    ensures |keys| <= hi - lo + 1
    decreases hi - lo
  {
    if lo > hi {
      forall k ensures k !in keys { if k in keys {} }
      assert keys == {};
    } else {
      WindowSize(keys - {hi}, lo, hi - 1);
    }
  }

  /** Pairs whose first entry, measured from a multiple of the second, lies in a window. */
  lemma {:induction false} BoxSize(keys: set<(int, int)>, lo: int, hi: int, base: int, n: nat)
    requires lo <= hi && forall k :: k in keys ==> lo <= k.0 - base * k.1 <= hi && 0 <= k.1 < n
    ensures |keys| <= (hi - lo + 1) * n
    decreases n
  {
    if n == 0 {
      assert keys == {};
    } else {
      var top, rest := set k | k in keys && k.1 == n - 1, set k | k in keys && k.1 < n - 1;
      var shift := base * (n - 1);
      BoxSize(rest, lo, hi, base, n - 1);
      forall k | k in top ensures lo + shift <= k.0 <= hi + shift {
        assert base * k.1 == shift;
      }
      RowSize(top, lo + shift, hi + shift, n - 1);
      assert keys == top + rest;
      OneMore(hi - lo + 1, n);
    }
  }

  lemma OneMore(a: int, n: int)
    ensures a * (n - 1) + a == a * n
  {
  }

  lemma RowSize(pairs: set<(int, int)>, lo: int, hi: int, y: int)
    requires lo <= hi && forall k :: k in pairs ==> lo <= k.0 <= hi && k.1 == y
    ensures |pairs| <= hi - lo + 1
  {
    var firsts := set k | k in pairs :: k.0;
    WindowSize(firsts, lo, hi);
    SameSize(pairs, firsts, y);
  }

  lemma {:induction false} SameSize(pairs: set<(int, int)>, firsts: set<int>, y: int)
    requires firsts == (set k | k in pairs :: k.0) && forall k :: k in pairs ==> k.1 == y
    ensures |pairs| == |firsts|
  {
    if pairs != {} {
      var k :| k in pairs;
      SameSize(pairs - {k}, firsts - {k.0}, y);
    }
  }

  // ----- Rows -----

  lemma {:induction false} ZeroWithin(rows: seq<Row>)
    ensures Low(rows) <= 0 <= High(rows)
  {
    if rows != [] { ZeroWithin(rows[..|rows| - 1]); }
  }

  lemma {:induction false} SumOfOnes(rows: seq<Row>)
    ensures SumOf(rows, Each()) == |rows|
  {
    if rows != [] { SumOfOnes(rows[..|rows| - 1]); }
  }

  lemma ReachConcat(a: seq<Row>, b: seq<Row>)
    ensures Low(a + b) == Low(a) + Low(b) && High(a + b) == High(a) + High(b)
  {
    SumConcat(a, b, Loss());
    SumConcat(a, b, Gain());
  }

  lemma ReachResidues(rows: seq<Row>, common: set<nat>)
    ensures Low(Residues(rows, common)) == Low(rows) && High(Residues(rows, common)) == High(rows)
  {
    SumMapped(Residues(rows, common), rows, Loss(), Loss());
    SumMapped(Residues(rows, common), rows, Gain(), Gain());
  }

  lemma {:induction false} PrefixReach(groups: seq<seq<Row>>, k: nat, n: nat)
    requires k <= n <= |groups|
    ensures Low(Flat(groups, n)) <= Low(Flat(groups, k)) && High(Flat(groups, k)) <= High(Flat(groups, n))
    ensures |Flat(groups, k)| <= |Flat(groups, n)|
    decreases n
  {
    hide Low;
    hide High;
    if k < n {
      PrefixReach(groups, k, n - 1);
      ReachConcat(Flat(groups, n - 1), groups[n - 1]);
      ZeroWithin(groups[n - 1]);
    }
  }

  /** No part of the rows reaches further than all of them. */
  lemma BlockReach(rows: seq<Row>, blocks: seq<seq<nat>>, k: nat)
    requires Blocks.IsBlocks(LeavesOf(rows), blocks) && k < |blocks|
    ensures var groups := Blocks.PickAll(rows, blocks);
            && 1 <= Spread(groups[k]) <= Spread(rows) && |groups[k]| <= |rows|
            && 1 <= Spread(Flat(groups, k + 1)) <= Spread(rows) && |Flat(groups, k + 1)| <= |rows|
  {
    var groups := Blocks.PickAll(rows, blocks);
    SumBlocks(LeavesOf(rows), blocks, rows, Loss());
    SumBlocks(LeavesOf(rows), blocks, rows, Gain());
    SumBlocks(LeavesOf(rows), blocks, rows, Each());
    hide Blocks.IsBlocks;
    SumOfOnes(rows);
    SumOfOnes(Flat(groups, |blocks|));
    PrefixReach(groups, k + 1, |blocks|);
    ReachConcat(Flat(groups, k), groups[k]);
    ZeroWithin(Flat(groups, k));
    ZeroWithin(groups[k]);
    ZeroWithin(Flat(groups, k + 1));
  }

  lemma AreaMonotone(a: seq<Row>, b: seq<Row>)
    requires 1 <= Spread(a) <= Spread(b) && |a| <= |b|
    ensures Area(a) <= Area(b)
  {
    ProductMonotone(Spread(a), Spread(b), |a| + 1, |b| + 1);
  }

  lemma ProductMonotone(a: int, b: int, c: int, d: int)
    requires 0 <= a <= b && 0 <= c <= d
    ensures a * c <= b * d
  {
    assert a * c <= b * c;
    assert b * c <= b * d;
  }

  // ----- Rows that are accepted -----

  /** The independence blocks of accepted rows are accepted. */
  lemma NestedBlock(rows: seq<Row>, blocks: seq<seq<nat>>, k: nat)
    requires Blocks.IsBlocks(LeavesOf(rows), blocks) && k < |blocks| && Accepts(LeavesOf(rows), Nested)
    ensures BlockAccepts(LeavesOf(Blocks.PickAll(rows, blocks)[k]), Nested)
  {
    PickLeaves(rows, blocks[k]);
    BlocksDecide(LeavesOf(rows), blocks, Nested);
    NextAccepts(Blocks.PickAll(LeavesOf(rows), blocks), k, Nested);
  }

  lemma RoomInBlock(rows: seq<Row>, blocks: seq<seq<nat>>, k: nat)
    requires Blocks.IsBlocks(LeavesOf(rows), blocks) && k < |blocks|
    ensures var groups := Blocks.PickAll(rows, blocks);
            && (Roomy(rows) ==> Roomy(groups[k]) && Roomy(Flat(groups, k + 1)))
            && (RoomyPairs(rows) ==> RoomyPairs(groups[k]) && RoomyPairs(Flat(groups, k + 1)))
  {
    var groups := Blocks.PickAll(rows, blocks);
    BlockReach(rows, blocks, k);
    hide Area;
    hide Spread;
    hide Blocks.IsBlocks;
    AreaMonotone(groups[k], rows);
    AreaMonotone(Flat(groups, k + 1), rows);
  }

  lemma WindowFits(m: map<int, real>, rows: seq<Row>)
    requires InWindow(m.Keys, rows) && Roomy(rows)
    ensures |m| <= MAX_SUPPORT
  {
    ZeroWithin(rows);
    WindowSize(m.Keys, Low(rows), High(rows));
    assert |m| == |m.Keys|;
  }

  lemma BoxFits(m: map<(int, int), real>, rows: seq<Row>)
    requires InBox(m.Keys, rows) && RoomyPairs(rows)
    ensures |m| <= MAX_SUPPORT
  {
    ZeroWithin(rows);
    BoxSize(m.Keys, Low(rows), High(rows), 0, |rows| + 1);
    assert |m| == |m.Keys|;
  }

  function PlusInt(): (int, int) -> int {
    (a: int, b: int) => a + b
  }

  function AddPairs(): ((int, int), (int, int)) -> (int, int) {
    (a: (int, int), b: (int, int)) => (a.0 + b.0, a.1 + b.1)
  }

  /** (S, N) with (s, n): the sum picks up each side's sum times the other side's count. */
  function MulPairs(): ((int, int), (int, int)) -> (int, int) {
    (a: (int, int), b: (int, int)) => (a.0 * b.1 + b.0 * a.1, a.1 * b.1)
  }

  lemma WindowSum(a: map<int, real>, x: seq<Row>, b: map<int, real>, y: seq<Row>, n: map<int, real>)
    requires InWindow(a.Keys, x) && InWindow(b.Keys, y) && Combined(PlusInt(), a.Keys, b.Keys, n.Keys) && Roomy(x + y)
    ensures InWindow(n.Keys, x + y) && |n| <= MAX_SUPPORT
  {
    ReachConcat(x, y);
    hide Low;
    hide High;
    hide Roomy;
    WindowFits(n, x + y);
  }

  lemma BoxSum(a: map<(int, int), real>, x: seq<Row>, b: map<(int, int), real>, y: seq<Row>, n: map<(int, int), real>)
    requires InBox(a.Keys, x) && InBox(b.Keys, y) && Combined(AddPairs(), a.Keys, b.Keys, n.Keys) && RoomyPairs(x + y)
    ensures InBox(n.Keys, x + y) && |n| <= MAX_SUPPORT
  {
    ReachConcat(x, y);
    hide Low;
    hide High;
    hide RoomyPairs;
    BoxFits(n, x + y);
  }

  lemma WholeWindow(keys: set<int>, rows: seq<Row>, blocks: seq<seq<nat>>)
    requires Blocks.IsBlocks(LeavesOf(rows), blocks) && InWindow(keys, Flat(Blocks.PickAll(rows, blocks), |blocks|))
    ensures InWindow(keys, rows)
  {
    SumBlocks(LeavesOf(rows), blocks, rows, Loss());
    SumBlocks(LeavesOf(rows), blocks, rows, Gain());
  }

  lemma WholeBox(keys: set<(int, int)>, rows: seq<Row>, blocks: seq<seq<nat>>)
    requires Blocks.IsBlocks(LeavesOf(rows), blocks) && InBox(keys, Flat(Blocks.PickAll(rows, blocks), |blocks|))
    ensures InBox(keys, rows)
  {
    var all := Flat(Blocks.PickAll(rows, blocks), |blocks|);
    SumBlocks(LeavesOf(rows), blocks, rows, Loss());
    SumBlocks(LeavesOf(rows), blocks, rows, Gain());
    SumBlocks(LeavesOf(rows), blocks, rows, Each());
    SumOfOnes(rows);
    SumOfOnes(all);
  }

  lemma NoWindow()
    ensures InWindow({0}, []) && InBox({(0, 0)}, [])
  {
  }

  /** One row: nothing, or its weight. */
  lemma SingleWindow(r: Row)
    ensures InWindow({0, r.weight}, [r]) && InBox({(0, 0), (r.weight, 1)}, [r])
  {
    SumAppend([], r, Loss());
    SumAppend([], r, Gain());
    assert [] + [r] == [r];
  }

  /** Rows with a shared root reach as far as what is left of them. */
  lemma ResidueReach(rows: seq<Row>, common: set<nat>)
    ensures Roomy(Residues(rows, common)) == Roomy(rows) && RoomyPairs(Residues(rows, common)) == RoomyPairs(rows)
    ensures forall keys :: InWindow(keys, Residues(rows, common)) ==> InWindow(keys + {0}, rows)
    ensures forall keys :: InBox(keys, Residues(rows, common)) ==> InBox(keys + {(0, 0)}, rows)
  {
    ReachResidues(rows, common);
    ZeroWithin(rows);
  }

  lemma NestedResidues(rows: seq<Row>, common: set<nat>)
    requires |rows| > 1 && common != {} && Support(LeavesOf(Residues(rows, common))) < Support(LeavesOf(rows))
    requires forall v :: v in common <==> forall i :: 0 <= i < |rows| ==> v in LeavesOf(rows)[i]
    ensures BlockAccepts(LeavesOf(rows), Nested) <==> Accepts(LeavesOf(Residues(rows, common)), Nested)
  {
    hide BlockAccepts;
    hide Accepts;
    ResiduesLeaves(rows, common);
    RootAccepted(LeavesOf(rows), common, Nested);
  }

  /** A block without a shared root is no nested one. */
  lemma NotNested(group: Clauses)
    requires NeedsProduct(group)
    ensures !BlockAccepts(group, Nested)
  {
  }
}
