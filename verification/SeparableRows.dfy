/** Rows whose weights are made of values of their leaves, by addition or by multiplication,
    and how that, and the room for sums, passes to the parts of a block. */
module SeparableRows {
  import opened Sequences
  import opened SeqSums
  import opened MonotoneDnf
  import opened ClauseBlocks
  import opened Contributors
  import opened SharedRoots
  import opened WeightedRows
  import opened Acceptance
  import opened BlockAcceptance
  import opened CountMarginals
  import opened SumWindows
  import Blocks

  // ----- Values of leaves -----

  /** The sum of the values of the leaves in c; a leaf without one counts nothing. */
  ghost function LeafSum(v: seq<int>, c: set<nat>): int {
    if v == [] then 0 else LeafSum(v[..|v| - 1], c) + if |v| - 1 in c then v[|v| - 1] else 0
  }

  ghost function LeafTimes(v: seq<int>, c: set<nat>): int {
    if v == [] then 1 else LeafTimes(v[..|v| - 1], c) * if |v| - 1 in c then v[|v| - 1] else 1
  }

  lemma {:induction false} LeafSumUnion(v: seq<int>, a: set<nat>, b: set<nat>)
    requires a !! b
    ensures LeafSum(v, a + b) == LeafSum(v, a) + LeafSum(v, b)
  {
    if v != [] { LeafSumUnion(v[..|v| - 1], a, b); }
  }

  lemma {:induction false} LeafTimesUnion(v: seq<int>, a: set<nat>, b: set<nat>)
    requires a !! b
    ensures LeafTimes(v, a + b) == LeafTimes(v, a) * LeafTimes(v, b)
  {
    if v != [] {
      var x, y, t := LeafTimes(v[..|v| - 1], a), LeafTimes(v[..|v| - 1], b), v[|v| - 1];
      LeafTimesUnion(v[..|v| - 1], a, b);
      if |v| - 1 in a {
        assert (x * y) * t == (x * t) * y;
      } else {
        assert (x * y) * t == x * (y * t);
      }
    }
  }

  datatype Form = Sums | Products

  /** The weight of a row with leaves c. */
  ghost function FormValue(form: Form, v: seq<int>, k: int, c: set<nat>): int {
    if form == Sums then k + LeafSum(v, c) else k * LeafTimes(v, c)
  }

  /** Every weight is a constant plus the sum, or times the product, of leaf values; weights
      made by multiplication are not zero. */
  ghost predicate Formed(rows: seq<Row>, form: Form, v: seq<int>, k: int) {
    forall r :: r in rows ==> r.weight == FormValue(form, v, k, r.leaves) && (form == Products ==> r.weight != 0)
  }

  ghost predicate HasForm(rows: seq<Row>, form: Form) {
    exists v: seq<int>, k: int :: Formed(rows, form, v, k)
  }

  /** Accepted rows without repetitions whose weights are made of leaf values. */
  ghost predicate Separable(rows: seq<Row>, form: Form) {
    Accepts(LeavesOf(rows), Any) && Distinct(LeavesOf(rows)) && HasForm(rows, form)
  }

  ghost predicate SeparableBlock(rows: seq<Row>, form: Form) {
    BlockAccepts(LeavesOf(rows), Any) && Distinct(LeavesOf(rows)) && HasForm(rows, form)
  }

  // ----- Rows inside other rows -----

  /** Each row of sub is a row of rows without the leaves of rest, and e away in weight. */
  ghost predicate Embeds(sub: seq<Row>, rows: seq<Row>, rest: set<nat>, e: int) {
    Distinct(LeavesOf(sub)) && forall i :: 0 <= i < |sub| ==> sub[i].leaves !! rest && Row(sub[i].leaves + rest, sub[i].weight + e) in rows
  }

  lemma EmbedsForm(sub: seq<Row>, rows: seq<Row>, rest: set<nat>, e: int, form: Form)
    requires Embeds(sub, rows, rest, e) && HasForm(rows, form) && (form == Products ==> e == 0)
    ensures HasForm(sub, form)
  {
    var v: seq<int>, k: int :| Formed(rows, form, v, k);
    hide LeafSum;
    hide LeafTimes;
    var k' := if form == Sums then k + LeafSum(v, rest) - e else k * LeafTimes(v, rest);
    forall r | r in sub ensures r.weight == FormValue(form, v, k', r.leaves) && (form == Products ==> r.weight != 0) {
      var i :| 0 <= i < |sub| && sub[i] == r;
      assert Row(r.leaves + rest, r.weight + e) in rows;
      WithoutRest(form, v, k, r.leaves, rest, e);
    }
    assert Formed(sub, form, v, k');
  }

  lemma WithoutRest(form: Form, v: seq<int>, k: int, c: set<nat>, rest: set<nat>, e: int)
    requires c !! rest && (form == Products ==> e == 0)
    ensures var k' := if form == Sums then k + LeafSum(v, rest) - e else k * LeafTimes(v, rest);
            FormValue(form, v, k', c) + e == FormValue(form, v, k, c + rest)
  {
    hide LeafSum;
    hide LeafTimes;
    if form == Sums {
      LeafSumUnion(v, c, rest);
    } else {
      LeafTimesUnion(v, c, rest);
      Reorder(k, LeafTimes(v, c), LeafTimes(v, rest));
    }
  }

  lemma Reorder(k: int, x: int, y: int)
    ensures (k * y) * x == k * (x * y)
  {
  }

  /** Sums of what is not negative grow with the terms. */
  lemma {:induction false} SubSum<T(!new)>(a: seq<T>, b: seq<T>, f: T -> int)
    requires multiset(a) <= multiset(b) && forall x :: f(x) >= 0
    ensures SumOf(a, f) <= SumOf(b, f) && |a| <= |b|
    decreases |a|
  {
    if a == [] {
      SumNonNegative(b, f);
    } else {
      var init, last := a[..|a| - 1], a[|a| - 1];
      assert a == init + [last];
      assert last in multiset(a);
      assert last in multiset(b);
      assert last in b;
      var j :| 0 <= j < |b| && b[j] == last;
      SumWithout(b, j, f);
      MultisetWithout(b, j);
      assert multiset(init) == multiset(a) - multiset{last};
      SubSum(init, Without(b, j), f);
    }
  }

  /** The rows that sub embeds as. */
  function Image(sub: seq<Row>, rest: set<nat>, e: int): (img: seq<Row>)
    ensures |img| == |sub| && forall i :: 0 <= i < |sub| ==> img[i] == Row(sub[i].leaves + rest, sub[i].weight + e)
  {
    seq(|sub|, i requires 0 <= i < |sub| => Row(sub[i].leaves + rest, sub[i].weight + e))
  }

  lemma ImageInside(sub: seq<Row>, rows: seq<Row>, rest: set<nat>, e: int)
    requires Embeds(sub, rows, rest, e)
    ensures multiset(Image(sub, rest, e)) <= multiset(rows)
  {
    var img := Image(sub, rest, e);
    forall i, j | 0 <= i < j < |img| ensures img[i] != img[j] {
      assert LeavesOf(sub)[i] != LeavesOf(sub)[j];
      assert (sub[i].leaves + rest) - rest == sub[i].leaves && (sub[j].leaves + rest) - rest == sub[j].leaves;
    }
    NoRepeats(img);
    forall x ensures multiset(img)[x] <= multiset(rows)[x] {
      if x in img {
        var i :| 0 <= i < |img| && img[i] == x;
        assert x in rows;
        assert x in multiset(rows);
      }
    }
  }

  function Deficit(): Row -> int {
    (r: Row) => if r.weight < 0 then -r.weight else 0
  }

  function Shortfall(base: int): Row -> int {
    (r: Row) => if r.weight < base then base - r.weight else 0
  }

  function Excess(base: int): Row -> int {
    (r: Row) => if r.weight < base then 0 else r.weight - base
  }

  /** The rows that sub embeds as reach no further than all rows. */
  lemma ImageReach(sub: seq<Row>, rows: seq<Row>, rest: set<nat>, e: int, base: int)
    requires Embeds(sub, rows, rest, e)
    ensures Low(Shift(rows, base)) <= Low(Shift(sub, base - e)) && High(Shift(sub, base - e)) <= High(Shift(rows, base)) && |sub| <= |rows|
  {
    var img := Image(sub, rest, e);
    ImageInside(sub, rows, rest, e);
    assert forall r :: Shortfall(base)(r) >= 0 && Excess(base)(r) >= 0;
    SubSum(img, rows, Shortfall(base));
    SubSum(img, rows, Excess(base));
    ShiftReach(img, base);
    ShiftReach(rows, base);
    SumMapped(Shift(img, base), Shift(sub, base - e), Loss(), Loss());
    SumMapped(Shift(img, base), Shift(sub, base - e), Gain(), Gain());
  }

  lemma ShiftReach(rows: seq<Row>, base: int)
    ensures Low(Shift(rows, base)) == -SumOf(rows, Shortfall(base)) && High(Shift(rows, base)) == SumOf(rows, Excess(base))
  {
    var far := Shift(rows, base);
    forall i | 0 <= i < |rows| ensures Shortfall(base)(rows[i]) == Deficit()(far[i]) && Excess(base)(rows[i]) == Gain()(far[i]) {
      assert far[i] == Row(rows[i].leaves, rows[i].weight - base);
    }
    SumMapped(rows, far, Shortfall(base), Deficit());
    SumMapped(rows, far, Excess(base), Gain());
    LowIs(far);
  }

  lemma LowIs(rows: seq<Row>)
    ensures Low(rows) == -SumOf(rows, Deficit())
  {
    SumTimes(rows, -1, Loss(), Deficit());
  }

  /** The sums of weights and counts fit under the cap, from wherever weights are measured. */
  ghost predicate Roomable(rows: seq<Row>) {
    exists base :: RoomyPairs(Shift(rows, base))
  }

  lemma ShiftNone(rows: seq<Row>)
    ensures Shift(rows, 0) == rows
  {
  }

  lemma RoomyRoomable(rows: seq<Row>)
    requires RoomyPairs(rows)
    ensures Roomable(rows)
  {
    ShiftNone(rows);
    assert RoomyPairs(Shift(rows, 0));
  }

  lemma EmbedsRoom(sub: seq<Row>, rows: seq<Row>, rest: set<nat>, e: int)
    requires Embeds(sub, rows, rest, e)
    ensures Roomable(rows) ==> Roomable(sub)
    ensures e == 0 && RoomyPairs(rows) ==> RoomyPairs(sub)
  {
    if base :| RoomyPairs(Shift(rows, base)) {
      EmbedsRoomAt(sub, rows, rest, e, base);
    }
    ShiftNone(rows);
    ShiftNone(sub);
    EmbedsRoomAt(sub, rows, rest, e, 0);
  }

  lemma EmbedsRoomAt(sub: seq<Row>, rows: seq<Row>, rest: set<nat>, e: int, base: int)
    requires Embeds(sub, rows, rest, e)
    ensures RoomyPairs(Shift(rows, base)) ==> RoomyPairs(Shift(sub, base - e))
  {
    ImageReach(sub, rows, rest, e, base);
    ZeroWithin(Shift(sub, base - e));
    hide Area;
    hide Low;
    hide High;
    AreaMonotone(Shift(sub, base - e), Shift(rows, base));
  }

  // ----- Blocks and shared roots -----

  lemma ShiftConcat(a: seq<Row>, b: seq<Row>, base: int)
    ensures Shift(a + b, base) == Shift(a, base) + Shift(b, base)
  {
  }

  lemma {:induction false} ShiftFlat(rows: seq<Row>, blocks: seq<seq<nat>>, base: int, k: nat)
    requires k <= |blocks| && forall b, i :: 0 <= b < |blocks| && i in blocks[b] ==> i < |rows|
    ensures Flat(Blocks.PickAll(Shift(rows, base), blocks), k) == Shift(Flat(Blocks.PickAll(rows, blocks), k), base)
  {
    if k > 0 {
      ShiftFlat(rows, blocks, base, k - 1);
      ShiftPick(rows, blocks[k - 1], base);
      ShiftConcat(Flat(Blocks.PickAll(rows, blocks), k - 1), Blocks.Pick(rows, blocks[k - 1]), base);
    }
  }

  lemma ShiftPick(rows: seq<Row>, block: seq<nat>, base: int)
    requires forall i :: i in block ==> i < |rows|
    ensures Blocks.Pick(Shift(rows, base), block) == Shift(Blocks.Pick(rows, block), base)
  {
  }

  lemma BlockRoomable(rows: seq<Row>, blocks: seq<seq<nat>>, k: nat)
    requires Blocks.IsBlocks(LeavesOf(rows), blocks) && k < |blocks| && Roomable(rows)
    ensures var groups := Blocks.PickAll(rows, blocks);
            Roomable(groups[k]) && Roomable(Flat(groups, k + 1))
  {
    hide RoomyPairs;
    hide Blocks.IsBlocks;
    hide Shift;
    hide Blocks.Pick;
    var base :| RoomyPairs(Shift(rows, base));
    BlockIndicesBelow(rows, blocks);
    RoomInBlock(Shift(rows, base), blocks, k);
    ShiftFlat(rows, blocks, base, k + 1);
    ShiftPick(rows, blocks[k], base);
  }

  lemma BlockIndicesBelow(rows: seq<Row>, blocks: seq<seq<nat>>)
    requires Blocks.IsBlocks(LeavesOf(rows), blocks)
    ensures forall b, i :: 0 <= b < |blocks| && i in blocks[b] ==> i < |rows|
  {
  }

  lemma ResiduesRoomable(rows: seq<Row>, common: set<nat>)
    requires Roomable(rows)
    ensures Roomable(Residues(rows, common))
  {
    var base :| RoomyPairs(Shift(rows, base));
    ResidueReach(Shift(rows, base), common);
    assert Residues(Shift(rows, base), common) == Shift(Residues(rows, common), base);
  }

  lemma SeparableGroup(rows: seq<Row>, blocks: seq<seq<nat>>, k: nat, form: Form)
    requires Blocks.IsBlocks(LeavesOf(rows), blocks) && k < |blocks| && Separable(rows, form)
    ensures SeparableBlock(Blocks.PickAll(rows, blocks)[k], form)
  {
    hide Accepts;
    hide BlockAccepts;
    var group := Blocks.PickAll(rows, blocks)[k];
    PickLeaves(rows, blocks[k]);
    BlocksDecide(LeavesOf(rows), blocks, Any);
    NextAccepts(Blocks.PickAll(LeavesOf(rows), blocks), k, Any);
    GroupDistinct(rows, blocks, k);
    var v: seq<int>, c: int :| Formed(rows, form, v, c);
    forall r | r in group ensures r in rows {
      var i :| 0 <= i < |group| && group[i] == r;
      assert r == rows[blocks[k][i]];
    }
    assert Formed(group, form, v, c);
  }

  lemma GroupDistinct(rows: seq<Row>, blocks: seq<seq<nat>>, k: nat)
    requires Blocks.IsBlocks(LeavesOf(rows), blocks) && k < |blocks| && Distinct(LeavesOf(rows))
    ensures Distinct(LeavesOf(Blocks.PickAll(rows, blocks)[k]))
  {
    hide Connectivity.Linked;
    var group, block := LeavesOf(Blocks.PickAll(rows, blocks)[k]), blocks[k];
    PickLeaves(rows, block);
    forall i, j | 0 <= i < j < |group| ensures group[i] != group[j] {
      assert block[i] < block[j];
      assert group[i] == LeavesOf(rows)[block[i]] && group[j] == LeavesOf(rows)[block[j]];
    }
  }

  lemma SeparableResidues(rows: seq<Row>, common: set<nat>, form: Form)
    requires |rows| > 1 && common != {} && Support(LeavesOf(Residues(rows, common))) < Support(LeavesOf(rows))
    requires forall v :: v in common <==> forall i :: 0 <= i < |rows| ==> v in LeavesOf(rows)[i]
    requires SeparableBlock(rows, form)
    ensures Separable(Residues(rows, common), form)
  {
    hide BlockAccepts;
    hide Accepts;
    var res := Residues(rows, common);
    ResiduesLeaves(rows, common);
    RootAccepted(LeavesOf(rows), common, Any);
    forall i | 0 <= i < |rows| ensures common <= LeavesOf(rows)[i] {
    }
    ResidualsDistinct(LeavesOf(rows), common);
    forall i | 0 <= i < |res| ensures res[i].leaves !! common && Row(res[i].leaves + common, res[i].weight + 0) in rows {
      assert common <= LeavesOf(rows)[i];
      assert res[i].leaves + common == rows[i].leaves;
      assert rows[i] in rows;
    }
    assert Embeds(res, rows, common, 0);
    EmbedsForm(res, rows, common, 0, form);
  }
}
