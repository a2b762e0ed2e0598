/** Recovering part values whose products are the weights: along the axes through a pivot,
    whose weight divides back out.  */
module MultiplicativeRecovery {
  import opened Sequences
  import opened SeqSums
  import opened MonotoneDnf
  import opened ClauseBlocks
  import opened CrossProducts
  import opened ProductBlocks
  import opened WeightedRows
  import opened Separation
  import opened SeparationRecovery
  import opened SumWindows
  import opened SeparableRows
  import opened ProductRows
  import opened SumSpans
  import opened MultiplicativeWeights
  import opened MultiplicativeKeys

  method PowerOf(x: int, k: nat) returns (ok: bool, r: int)
    ensures ok ==> r == Power(x, k)
    ensures (forall t: nat :: t <= k ==> Fits(Power(x, t))) ==> ok
  {
    r := 1;
    for t := 0 to k
      invariant r == Power(x, t)
    {
      r := r * x;
      if !Fits(r) {
        assert r == Power(x, t + 1);
        return false, 0;
      }
    }
    ok := true;
  }

  /** No partial product of the axis values of c is too large. */
  ghost predicate AllFitting(d: Decomposition, vals: seq<seq<int>>, c: set<nat>) {
    forall j: nat :: j <= |d.parts| ==> Fits(Multiplied(Lookup(d.parts, vals), d.factor, c, j))
  }

  /** The product of the axis values of the parts of c. */
  method MultiplyUp(d: Decomposition, vals: seq<seq<int>>, c: set<nat>) returns (ok: bool, prod: int)
    ensures ok ==> prod == Multiplied(Lookup(d.parts, vals), d.factor, c, |d.parts|)
    ensures AllFitting(d, vals, c) ==> ok
  {
    prod := 1;
    for f := 0 to |d.parts|
      invariant prod == Multiplied(Lookup(d.parts, vals), d.factor, c, f)
    {
      prod := prod * Lookup(d.parts, vals)(f, Projection(c, d.factor, f));
      if !Fits(prod) {
        assert prod == Multiplied(Lookup(d.parts, vals), d.factor, c, f + 1);
        return false, 0;
      }
    }
    ok := true;
  }

  method CheckMultiplied(rows: seq<Row>, d: Decomposition, vals: seq<seq<int>>, scale: int) returns (ok: bool)
    ensures ok ==> MulSeparates(rows, d, Lookup(d.parts, vals), scale)
    ensures MulSeparates(rows, d, Lookup(d.parts, vals), scale) && (forall r :: r in rows ==> AllFitting(d, vals, r.leaves)) ==> ok
  {
    hide Multiplied;
    hide Lookup;
    for m := 0 to |rows|
      invariant forall i :: 0 <= i < m ==>
                  rows[i].weight * scale == Multiplied(Lookup(d.parts, vals), d.factor, rows[i].leaves, |d.parts|)
    {
      var fits, prod := MultiplyUp(d, vals, rows[m].leaves);
      var rhs := rows[m].weight * scale;
      assert rows[m] in rows;
      if !fits || !Fits(rhs) || prod != rhs {
        return false;
      }
    }
    ok := true;
  }

  /** A block whose weights are products of leaf values, with room for its products. */
  ghost predicate Recoverable(rows: seq<Row>, d: Decomposition) {
    IsBlock(rows, d) && rows != [] && HasForm(rows, Products) && Small(rows, d)
  }

  lemma AxesOn(rows: seq<Row>, d: Decomposition, grid: map<set<nat>, int>, axes: seq<seq<int>>)
    requires rows != [] && IsGrid(rows, |rows|, grid) && IsAxes(d, grid, rows[0].leaves, axes)
    ensures OnAxes(rows, d, axes)
  {
    hide Moved;
    forall f: nat, i: nat | f < |d.parts| && i < |d.parts[f]|
      ensures Row(Moved(rows[0].leaves, d.factor, f, d.parts[f][i]), axes[f][i]) in rows
    {
      var c := Moved(rows[0].leaves, d.factor, f, d.parts[f][i]);
      var j :| 0 <= j < |rows| && rows[j] == Row(c, grid[c]);
      assert rows[j] in rows;
    }
  }

  /** The axes through the first member separate the weights, without overflow. */
  lemma RecoveredAll(rows: seq<Row>, d: Decomposition, axes: seq<seq<int>>)
    requires Recoverable(rows, d) && OnAxes(rows, d, axes)
    ensures |d.parts| >= 2 && MulSeparates(rows, d, Lookup(d.parts, axes), Power(rows[0].weight, |d.parts| - 1))
    ensures forall r :: r in rows ==> AllFitting(d, axes, r.leaves)
  {
    hide OnAxes;
    hide Multiplied;
    hide IsBlock;
    hide Power;
    hide Small;
    hide Formed;
    var v: seq<int>, k: int :| Formed(rows, Products, v, k);
    BlockParts(rows, d);
    assert Multiplies(rows, d, v, k);
    forall r | r in rows ensures AllFitting(d, axes, r.leaves) {
      forall j: nat | j <= |d.parts| ensures Fits(Multiplied(Lookup(d.parts, axes), d.factor, r.leaves, j)) {
        MultipliedFits(rows, d, v, k, axes, r, j);
      }
    }
    forall i | 0 <= i < |rows|
      ensures rows[i].weight * Power(rows[0].weight, |d.parts| - 1) == Multiplied(Lookup(d.parts, axes), d.factor, rows[i].leaves, |d.parts|)
    {
      MultipliedWhole(rows, d, v, k, axes, rows[i]);
    }
  }

  lemma RecoverableFirst(rows: seq<Row>, d: Decomposition)
    requires Recoverable(rows, d)
    ensures rows != [] && rows[0].weight != 0 && IsDecomposition(LeavesOf(rows), d) && Distinct(LeavesOf(rows))
    ensures forall t: nat :: t <= |d.parts| ==> Fits(Power(rows[0].weight, t))
  {
    hide IsDecomposition;
    hide Power;
    assert rows[0] in rows;
    forall t: nat | t <= |d.parts| ensures Fits(Power(rows[0].weight, t)) {
      PowerFits(rows, d, t);
    }
  }

  /** Axis values through a non-zero pivot whose products are the weights times a power of
      the pivot, or refusal; found when the weights are products of leaf values. */
  method RecoverMultiplicative(rows: seq<Row>, d: Decomposition) returns (ok: bool, axes: seq<seq<int>>, scale: int)
    requires |d.parts| > 0
    ensures ok ==> Aligned(d.parts, axes) && scale != 0 && MulSeparates(rows, d, Lookup(d.parts, axes), scale)
    ensures Recoverable(rows, d) ==> ok && OnAxes(rows, d, axes) && scale == Power(rows[0].weight, |d.parts| - 1)
  {
    hide Recoverable;
    hide MulSeparates;
    hide AllFitting;
    hide IsDecomposition;
    hide AxisMissing;
    hide OnAxes;
    hide Power;
    axes, scale := [], 1;
    if Recoverable(rows, d) { RecoverableFirst(rows, d); }
    var grid := Grid(rows);
    hide IsGrid;
    var piv := 0;
    while piv < |rows| && rows[piv].weight == 0
      invariant piv <= |rows| && (Recoverable(rows, d) ==> piv == 0 < |rows|)
    {
      piv := piv + 1;
    }
    if piv == |rows| {
      return false, axes, scale;
    }
    ok, axes := Axes(d, grid, rows[piv].leaves);
    if !ok {
      if Recoverable(rows, d) { NoAxisMissing(rows, d, grid, 0); }
      return;
    }
    if Recoverable(rows, d) {
      AxesOn(rows, d, grid, axes);
      RecoveredAll(rows, d, axes);
    }
    hide IsAxes;
    ok, scale := PowerOf(rows[piv].weight, |d.parts| - 1);
    if !ok {
      return;
    }
    PowerNonZero(rows[piv].weight, |d.parts| - 1);
    ok := CheckMultiplied(rows, d, axes, scale);
  }
}
