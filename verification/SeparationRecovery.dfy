/** Recovering part values from the weights of a Cartesian block along its axes: the
    weights at a reference member with one part exchanged.  */
module SeparationRecovery {
  import opened Sequences
  import opened MonotoneDnf
  import opened CrossProducts
  import opened ProductBlocks
  import opened WeightedRows
  import opened Separation

  // ----- The grid of member weights -----

  /** grid gives each member of the first k rows the weight of a row with its leaves. */
  ghost predicate IsGrid(rows: seq<Row>, k: nat, grid: map<set<nat>, int>) {
    && k <= |rows|
    && (forall i :: 0 <= i < k ==> rows[i].leaves in grid)
    && (forall c :: c in grid ==> exists i :: 0 <= i < k && rows[i] == Row(c, grid[c]))
  }

  method Grid(rows: seq<Row>) returns (grid: map<set<nat>, int>)
    ensures IsGrid(rows, |rows|, grid)
  {
    grid := map[];
    for i := 0 to |rows|
      invariant IsGrid(rows, i, grid)
    {
      grid := grid[rows[i].leaves := rows[i].weight];
    }
  }

  lemma GridExact(rows: seq<Row>, grid: map<set<nat>, int>, i: nat)
    requires IsGrid(rows, |rows|, grid) && Distinct(LeavesOf(rows)) && i < |rows|
    ensures rows[i].leaves in grid && grid[rows[i].leaves] == rows[i].weight
  {
    var c := rows[i].leaves;
    assert c in grid;
    var j :| 0 <= j < |rows| && rows[j] == Row(c, grid[c]);
    assert LeavesOf(rows)[i] == LeavesOf(rows)[j];
  }

  /** The reference member with its part of factor f exchanged for q. */
  function Moved(ref: set<nat>, factor: map<nat, nat>, f: nat, q: set<nat>): set<nat> {
    (ref - Projection(ref, factor, f)) + q
  }

  /** The weights along the axes through ref; fails on a missing member. */
  ghost predicate IsAxes(d: Decomposition, grid: map<set<nat>, int>, ref: set<nat>, table: seq<seq<int>>) {
    && Aligned(d.parts, table)
    && forall f: nat, i: nat :: f < |d.parts| && i < |d.parts[f]| ==>
         Moved(ref, d.factor, f, d.parts[f][i]) in grid && table[f][i] == grid[Moved(ref, d.factor, f, d.parts[f][i])]
  }

  ghost predicate AxisMissing(d: Decomposition, grid: map<set<nat>, int>, ref: set<nat>) {
    exists f: nat, i: nat :: f < |d.parts| && i < |d.parts[f]| && Moved(ref, d.factor, f, d.parts[f][i]) !in grid
  }

  method Axis(d: Decomposition, grid: map<set<nat>, int>, ref: set<nat>, f: nat) returns (ok: bool, row: seq<int>)
    requires f < |d.parts|
    ensures ok ==> |row| == |d.parts[f]| && forall i: nat :: i < |row| ==>
              Moved(ref, d.factor, f, d.parts[f][i]) in grid && row[i] == grid[Moved(ref, d.factor, f, d.parts[f][i])]
    ensures !ok ==> AxisMissing(d, grid, ref)
  {
    row := [];
    for i := 0 to |d.parts[f]|
      invariant |row| == i && forall j: nat :: j < i ==>
                  Moved(ref, d.factor, f, d.parts[f][j]) in grid && row[j] == grid[Moved(ref, d.factor, f, d.parts[f][j])]
    {
      var key := Moved(ref, d.factor, f, d.parts[f][i]);
      if key !in grid {
        return false, [];
      }
      row := row + [grid[key]];
    }
    ok := true;
  }

  method Axes(d: Decomposition, grid: map<set<nat>, int>, ref: set<nat>) returns (ok: bool, table: seq<seq<int>>)
    ensures ok ==> IsAxes(d, grid, ref, table)
    ensures !ok ==> AxisMissing(d, grid, ref)
  {
    table := [];
    for f := 0 to |d.parts|
      invariant |table| == f && forall g: nat :: g < f ==> |table[g]| == |d.parts[g]|
      invariant forall g: nat, i: nat :: g < f && i < |d.parts[g]| ==>
                  Moved(ref, d.factor, g, d.parts[g][i]) in grid && table[g][i] == grid[Moved(ref, d.factor, g, d.parts[g][i])]
    {
      var row;
      ok, row := Axis(d, grid, ref, f);
      if !ok {
        return false, [];
      }
      table := table + [row];
    }
    ok := true;
  }

  // ----- Additive separation -----

  /** Offsets from the reference weight, which factor 0 carries. */
  function Offsets(table: seq<seq<int>>, w0: int): (vals: seq<seq<int>>)
    ensures |vals| == |table|
    ensures forall f :: 0 <= f < |table| ==> |vals[f]| == |table[f]|
    ensures forall f, i :: 0 <= f < |table| && 0 <= i < |table[f]| ==> vals[f][i] == table[f][i] - w0 + (if f == 0 then w0 else 0)
  {
    seq(|table|, f requires 0 <= f < |table| =>
      seq(|table[f]|, i requires 0 <= i < |table[f]| => table[f][i] - w0 + (if f == 0 then w0 else 0)))
  }

  /** The value of c, part by part, from a table. */
  method AddUp(d: Decomposition, vals: seq<seq<int>>, c: set<nat>) returns (acc: int)
    ensures acc == Added(Lookup(d.parts, vals), d.factor, c, |d.parts|)
  {
    acc := 0;
    for f := 0 to |d.parts|
      invariant acc == Added(Lookup(d.parts, vals), d.factor, c, f)
    {
      acc := acc + Lookup(d.parts, vals)(f, Projection(c, d.factor, f));
    }
  }

  /** The first row whose weight is not the sum of its part values, if any. */
  method CheckAdded(rows: seq<Row>, d: Decomposition, vals: seq<seq<int>>) returns (ok: bool, ghost bad: nat)
    ensures ok ==> AddSeparates(rows, d, Lookup(d.parts, vals))
    ensures !ok ==> bad < |rows| && rows[bad].weight != Added(Lookup(d.parts, vals), d.factor, rows[bad].leaves, |d.parts|)
  {
    hide Added;
    hide Lookup;
    for m := 0 to |rows|
      invariant forall i :: 0 <= i < m ==> rows[i].weight == Added(Lookup(d.parts, vals), d.factor, rows[i].leaves, |d.parts|)
    {
      var acc := AddUp(d, vals, rows[m].leaves);
      if acc != rows[m].weight {
        return false, m;
      }
    }
    ok, bad := true, 0;
  }

  /** Part values that add up to every row's weight; refused only when there are none. */
  method RecoverAdditive(rows: seq<Row>, d: Decomposition) returns (ok: bool, partVals: seq<seq<int>>)
    requires rows != [] && IsDecomposition(LeavesOf(rows), d)
    ensures ok ==> Aligned(d.parts, partVals) && AddSeparates(rows, d, Lookup(d.parts, partVals))
    ensures !ok && Distinct(LeavesOf(rows)) ==> forall v :: !AddSeparates(rows, d, v)
  {
    hide Sizes;
    hide IsDecomposition;
    hide AddSeparates;
    hide Added;
    hide AxisMissing;
    var grid := Grid(rows);
    hide IsGrid;
    var ref, w0 := rows[0].leaves, rows[0].weight;
    var table;
    ok, table := Axes(d, grid, ref);
    if !ok {
      if Distinct(LeavesOf(rows)) { NoAxisMissing(rows, d, grid, 0); }
      return false, [];
    }
    partVals := Offsets(table, w0);
    ghost var bad;
    ok, bad := CheckAdded(rows, d, partVals);
    if !ok && Distinct(LeavesOf(rows)) {
      forall v ensures !AddSeparates(rows, d, v) {
        if AddSeparates(rows, d, v) { OffsetsAdd(rows, d, grid, table, v, bad); }
      }
    }
  }

  // ----- Why refusal is justified -----

  /** What a member of a decomposed block is made of. */
  ghost predicate Composed(c: set<nat>, d: Decomposition) {
    Projected(c, d.factor, d.parts) && Within(c, d.factor, |d.parts|)
  }

  lemma MemberComposed(contribs: Clauses, d: Decomposition, c: set<nat>)
    requires IsDecomposition(contribs, d) && c in contribs
    ensures Composed(c, d) && Numbered(d.parts, d.factor)
  {
    LeafFactors(contribs, d);
    MembersWithin(contribs);
    forall f: nat | f < |d.parts| ensures Projection(c, d.factor, f) in d.parts[f] {
      assert PartsOf(contribs, d.factor, f, d.parts[f]);
    }
  }

  lemma MovedProjection(c: set<nat>, factor: map<nat, nat>, f: nat, q: set<nat>, g: nat)
    requires InFactor(q, factor, f)
    ensures Projection(Moved(c, factor, f, q), factor, g) == if g == f then q else Projection(c, factor, g)
  {
  }

  lemma MovedInCross(d: Decomposition, c: set<nat>, f: nat, q: set<nat>)
    requires Composed(c, d) && Numbered(d.parts, d.factor) && f < |d.parts| && q in d.parts[f]
    ensures Moved(c, d.factor, f, q) in Cross(d.parts, |d.parts|)
    ensures InFactor(q, d.factor, f)
  {
    var m := Moved(c, d.factor, f, q);
    FactorLeaves(d.parts, d.factor, f);
    forall g: nat | g < |d.parts| ensures Projection(m, d.factor, g) in d.parts[g] { MovedProjection(c, d.factor, f, q, g); }
    BelowInCross(m, d.factor, d.parts, |d.parts|);
    assert Below(m, d.factor, |d.parts|) == m;
  }

  lemma NoAxisMissing(rows: seq<Row>, d: Decomposition, grid: map<set<nat>, int>, r: nat)
    requires IsDecomposition(LeavesOf(rows), d) && Distinct(LeavesOf(rows)) && IsGrid(rows, |rows|, grid) && r < |rows|
    ensures !AxisMissing(d, grid, rows[r].leaves)
  {
    var ref := rows[r].leaves;
    assert LeavesOf(rows)[r] == ref;
    forall f: nat, i: nat | f < |d.parts| && i < |d.parts[f]| ensures Moved(ref, d.factor, f, d.parts[f][i]) in grid {
      var j := MovedIsRow(rows, d, r, f, d.parts[f][i]);
    }
  }

  lemma MovedIsRow(rows: seq<Row>, d: Decomposition, r: nat, f: nat, q: set<nat>) returns (j: nat)
    requires IsDecomposition(LeavesOf(rows), d) && Distinct(LeavesOf(rows)) && r < |rows| && f < |d.parts| && q in d.parts[f]
    ensures j < |rows| && rows[j].leaves == Moved(rows[r].leaves, d.factor, f, q)
    ensures Composed(rows[r].leaves, d) && InFactor(q, d.factor, f)
  {
    var cls, all := LeavesOf(rows), Cross(d.parts, |d.parts|);
    assert cls[r] in cls;
    MemberComposed(cls, d, cls[r]);
    hide Numbered;
    hide Composed;
    MovedInCross(d, cls[r], f, q);
    ProductIff(cls, d);
    hide *;
    j := FindMember(cls, all, Moved(cls[r], d.factor, f, q));
  }

  lemma FindMember(cls: Clauses, all: Clauses, m: set<nat>) returns (j: nat)
    requires multiset(cls) == multiset(all) && m in all
    ensures j < |cls| && cls[j] == m
  {
    assert m in multiset(all);
    assert m in multiset(cls);
    assert m in cls;
    j :| 0 <= j < |cls| && cls[j] == m;
  }

  /** Exchanging one part changes an added value by the difference of the two parts. */
  lemma {:induction false} AddedMoved(v: Valuation, factor: map<nat, nat>, c: set<nat>, m: set<nat>, f: nat, q: set<nat>, k: nat)
    requires forall g: nat :: g < k ==> Projection(m, factor, g) == if g == f then q else Projection(c, factor, g)
    ensures Added(v, factor, m, k) == Added(v, factor, c, k) + (if f < k then v(f, q) - v(f, Projection(c, factor, f)) else 0)
  {
    if k > 0 { AddedMoved(v, factor, c, m, f, q, k - 1); }
  }

  /** If the weights separate at all, the offsets along the axes reproduce them. */
  lemma OffsetsAdd(rows: seq<Row>, d: Decomposition, grid: map<set<nat>, int>, table: seq<seq<int>>, v: Valuation, m: nat)
    requires rows != [] && IsDecomposition(LeavesOf(rows), d) && Distinct(LeavesOf(rows))
    requires IsGrid(rows, |rows|, grid) && IsAxes(d, grid, rows[0].leaves, table) && AddSeparates(rows, d, v) && m < |rows|
    ensures rows[m].weight == Added(Lookup(d.parts, Offsets(table, rows[0].weight)), d.factor, rows[m].leaves, |d.parts|)
  {
    hide *;
    var c := rows[m].leaves;
    WeightIs(rows, d, v, m);
    WeightIs(rows, d, v, 0);
    forall f: nat | f < |d.parts|
      ensures AxisValue(rows, d, table, v, f, Projection(c, d.factor, f))
    {
      AxisIs(rows, d, grid, table, v, f, Projection(c, d.factor, f));
    }
    OffsetsTelescope(rows, d, table, v, c, |d.parts|);
  }

  lemma WeightIs(rows: seq<Row>, d: Decomposition, v: Valuation, m: nat)
    requires IsDecomposition(LeavesOf(rows), d) && AddSeparates(rows, d, v) && m < |rows|
    ensures |d.parts| >= 2 && rows[m].weight == Added(v, d.factor, rows[m].leaves, |d.parts|)
    ensures forall f: nat {:trigger Projection(rows[m].leaves, d.factor, f)} ::
              f < |d.parts| ==> Projection(rows[m].leaves, d.factor, f) in d.parts[f]
  {
    assert LeavesOf(rows)[m] in LeavesOf(rows);
    MemberComposed(LeavesOf(rows), d, rows[m].leaves);
  }

  /** The axis entry for q is the reference weight with the reference part's value exchanged. */
  ghost predicate AxisValue(rows: seq<Row>, d: Decomposition, table: seq<seq<int>>, v: Valuation, f: nat, q: set<nat>)
    requires rows != []
  {
    Lookup(d.parts, Offsets(table, rows[0].weight))(f, q)
      == v(f, q) - v(f, Projection(rows[0].leaves, d.factor, f)) + (if f == 0 then rows[0].weight else 0)
  }

  lemma AxisAt(d: Decomposition, grid: map<set<nat>, int>, ref: set<nat>, table: seq<seq<int>>, f: nat, q: set<nat>)
    requires IsAxes(d, grid, ref, table) && f < |d.parts| && q in d.parts[f]
    ensures Moved(ref, d.factor, f, q) in grid && f < |table| && IndexOf(d.parts[f], q) < |table[f]|
    ensures table[f][IndexOf(d.parts[f], q)] == grid[Moved(ref, d.factor, f, q)]
  {
    var i := IndexOf(d.parts[f], q);
    assert i < |d.parts[f]|;
  }

  lemma AxisIs(rows: seq<Row>, d: Decomposition, grid: map<set<nat>, int>, table: seq<seq<int>>, v: Valuation, f: nat, q: set<nat>)
    requires rows != [] && IsDecomposition(LeavesOf(rows), d) && Distinct(LeavesOf(rows))
    requires IsGrid(rows, |rows|, grid) && IsAxes(d, grid, rows[0].leaves, table) && AddSeparates(rows, d, v)
    requires f < |d.parts| && q in d.parts[f]
    ensures AxisValue(rows, d, table, v, f, q)
  {
    hide IsDecomposition;
    hide AddSeparates;
    hide Added;
    hide IsGrid;
    hide IsAxes;
    var ref := rows[0].leaves;
    var j := MovedIsRow(rows, d, 0, f, q);
    WeightIs(rows, d, v, j);
    WeightIs(rows, d, v, 0);
    GridExact(rows, grid, j);
    AxisAt(d, grid, ref, table, f, q);
    forall g: nat | g < |d.parts|
      ensures Projection(rows[j].leaves, d.factor, g) == if g == f then q else Projection(ref, d.factor, g)
    {
      MovedProjection(ref, d.factor, f, q, g);
    }
    AddedMoved(v, d.factor, ref, rows[j].leaves, f, q, |d.parts|);
  }

  lemma {:induction false} OffsetsTelescope(rows: seq<Row>, d: Decomposition, table: seq<seq<int>>, v: Valuation, c: set<nat>, k: nat)
    requires rows != [] && forall f: nat :: f < k ==> AxisValue(rows, d, table, v, f, Projection(c, d.factor, f))
    ensures Added(Lookup(d.parts, Offsets(table, rows[0].weight)), d.factor, c, k)
         == Added(v, d.factor, c, k) - Added(v, d.factor, rows[0].leaves, k) + (if k == 0 then 0 else rows[0].weight)
  {
    if k > 0 {
      OffsetsTelescope(rows, d, table, v, c, k - 1);
      assert AxisValue(rows, d, table, v, k - 1, Projection(c, d.factor, k - 1));
    }
  }
}
