/** What a run of multiplied sums can list: after each factor, a sum of weights times a power
    of the pivot, small enough at every step. */
module MultiplicativeKeys {
  import opened Sequences
  import opened SeqSums
  import opened MonotoneDnf
  import opened Contributors
  import opened CrossProducts
  import opened ProductBlocks
  import opened WeightedRows
  import opened Separation
  import opened SeparationRecovery
  import opened BlockAcceptance
  import opened Distributions
  import opened SumWindows
  import opened SeparableRows
  import opened ProductRows
  import opened SumSpans
  import opened OneFactorBlocks
  import opened MultiplicativeWeights
  import opened Masks

  /** x times the pivot is a sum over rows times its f-th power. */
  ghost predicate Lifts(x: int, rows: seq<Row>, D: int, f: nat) {
    exists t :: x * D == t * Power(D, f) && Reaches(rows, t)
  }

  ghost predicate AllLift(keys: set<int>, rows: seq<Row>, D: int, f: nat) {
    forall x :: x in keys ==> Lifts(x, rows, D, f)
  }

  lemma LiftStart(rows: seq<Row>, d: Decomposition, v: seq<int>, k: int)
    requires Multiplies(rows, d, v, k)
    ensures AllLift({1}, Begun(d, v, k, rows[0].leaves, 0), rows[0].weight, 0)
  {
    hide Multiplies;
    MultipliesRows(rows, d, v, k);
    var ref, D := rows[0].leaves, rows[0].weight;
    RefWithin(rows, d);
    OnwardAll(ref, d.factor, |d.parts|);
    hide Weight;
    hide IsBlock;
    hide Spans;
    var a := Begun(d, v, k, ref, 0);
    assert {} + ref == ref;
    assert a == [Row({}, D)];
    SpansWeight(a, a[0]);
    OneRowBulk(a[0]);
    assert 1 * D == D * Power(D, 0) && Reaches(a, D);
  }

  lemma RefWithin(rows: seq<Row>, d: Decomposition)
    requires IsBlock(rows, d) && rows != []
    ensures Within(rows[0].leaves, d.factor, |d.parts|)
  {
    assert LeavesOf(rows)[0] in LeavesOf(rows);
    MemberComposed(LeavesOf(rows), d, rows[0].leaves);
  }

  lemma OneRowBulk(r: Row)
    ensures Bulk([r]) == Abs(r.weight)
  {
    BulkOf([r]);
    SumAppend([], r, Absolute());
    assert [] + [r] == [r];
  }

  lemma LiftOne(a: seq<Row>, b: seq<Row>, c: seq<Row>, D: int, f: nat, x: int, s: int)
    requires Pairs(a, b, c, D) && Lifts(x, a, D, f) && Reaches(b, s)
    ensures Lifts(x * s, c, D, f + 1)
  {
    hide Pairs;
    hide Reaches;
    var t :| x * D == t * Power(D, f) && Reaches(a, t);
    var u := Quotient(a, b, c, D, t, s);
    LiftArith(x, D, t, Power(D, f), s, u);
  }

  lemma LiftArith(x: int, D: int, t: int, p: int, s: int, u: int)
    requires x * D == t * p && t * s == u * D
    ensures (x * s) * D == u * (p * D)
  {
    assert (x * s) * D == (x * D) * s == (t * p) * s == (t * s) * p == (u * D) * p;
  }

  lemma LiftStep(rows: seq<Row>, d: Decomposition, v: seq<int>, k: int, axes: seq<seq<int>>, f: nat, xs: set<int>, ys: set<int>, zs: set<int>)
    requires Multiplies(rows, d, v, k) && OnAxes(rows, d, axes) && f < |d.parts| && Combined(TimesInt(), xs, ys, zs)
    requires AllLift(xs, Begun(d, v, k, rows[0].leaves, f), rows[0].weight, f) && Reachable(ys, Zip(d.parts[f], axes[f]))
    ensures AllLift(zs, Begun(d, v, k, rows[0].leaves, f + 1), rows[0].weight, f + 1)
  {
    hide Multiplies;
    hide OnAxes;
    hide Lifts;
    hide Spans;
    hide Pairs;
    MultipliesRows(rows, d, v, k);
    OnAxesAligned(rows, d, axes);
    StepPairs(rows, d, v, k, axes, f);
    hide IsBlock;
    var a, b, c := Begun(d, v, k, rows[0].leaves, f), ZipAt(d, axes, f), Begun(d, v, k, rows[0].leaves, f + 1);
    forall z | z in zs ensures Lifts(z, c, rows[0].weight, f + 1) {
      var x, s :| x in xs && s in ys && z == TimesInt()(x, s);
      LiftOne(a, b, c, rows[0].weight, f, x, s);
    }
  }

  // ----- Room -----

  /** A block whose products stay small. */
  ghost predicate Small(rows: seq<Row>, d: Decomposition) {
    Power(Bulk(rows), |d.parts| + 1) <= MAX_MAGNITUDE && 2 * Bulk(rows) + 1 <= MAX_SUPPORT && Bulk(rows) >= 1
  }

  lemma RoomySmall(rows: seq<Row>, d: Decomposition)
    requires IsBlock(rows, d) && rows != [] && NeedsProduct(LeavesOf(rows)) && RoomyPairs(rows) && rows[0].weight != 0
    ensures Small(rows, d)
  {
    hide Power;
    hide Pow2;
    BulkBounds(rows);
    RowInBulk(rows, rows[0]);
    BlockParts(rows, d);
    BlockCount(rows, d);
    TwiceFits(Bulk(rows), |rows|);
    RoomForPowers(Bulk(rows), |rows|, |d.parts|);
  }

  lemma BlockCount(rows: seq<Row>, d: Decomposition)
    requires IsBlock(rows, d) && NeedsProduct(LeavesOf(rows))
    ensures |rows| >= Pow2(|d.parts|)
  {
    forall f: nat | f < |d.parts| ensures |d.parts[f]| >= 2 {
      TwoParts(LeavesOf(rows), d, f);
    }
    ManyMembers(d.parts, |d.parts|);
  }

  lemma {:induction false} RowInBulk(rows: seq<Row>, r: Row)
    requires r in rows
    ensures Abs(r.weight) <= Bulk(rows)
  {
    var init, last := rows[..|rows| - 1], rows[|rows| - 1];
    assert rows == init + [last];
    BulkBounds(init);
    if last != r { RowInBulk(init, r); }
  }

  lemma BegunSmaller(rows: seq<Row>, d: Decomposition, v: seq<int>, k: int, f: nat)
    requires Multiplies(rows, d, v, k) && f <= |d.parts|
    ensures Bulk(Begun(d, v, k, rows[0].leaves, f)) <= Bulk(rows) && WeightsIn(Begun(d, v, k, rows[0].leaves, f), rows)
  {
    hide IsBlock;
    hide Formed;
    hide Onward;
    var sub, rest := Begun(d, v, k, rows[0].leaves, f), Onward(rows[0].leaves, d.factor, f);
    BegunEmbeds(rows, d, v, k, f);
    hide Begun;
    ImageReach(sub, rows, rest, 0, 0);
    ShiftNone(rows);
    ShiftNone(sub);
    EmbeddedWeights(sub, rows, rest);
  }

  /** t D^f / D stays within the bounds. */
  lemma LiftedFits(x: int, D: int, t: int, f: nat, w: int, n: nat)
    requires x * D == t * Power(D, f) && D != 0 && Abs(D) <= w && Abs(t) <= w && f <= n
    ensures Abs(x) <= Power(w, n + 1)
  {
    AbsTimes(x, D);
    AbsTimes(t, Power(D, f));
    PowerBound(D, w, f);
    ProductMonotone(Abs(t), w, Abs(Power(D, f)), Power(w, f));
    ProductMonotone(Abs(x), Abs(x), 1, Abs(D));
    PowerGrows(w, f + 1, n + 1);
    Swap(Power(w, f), w);
  }

  lemma LiftsFit(rows: seq<Row>, d: Decomposition, v: seq<int>, k: int, f: nat, x: int)
    requires Multiplies(rows, d, v, k) && f <= |d.parts| && Small(rows, d)
    requires Lifts(x, Begun(d, v, k, rows[0].leaves, f), rows[0].weight, f)
    ensures Fits(x)
  {
    hide Power;
    hide IsBlock;
    hide Spans;
    var a, D := Begun(d, v, k, rows[0].leaves, f), rows[0].weight;
    MultipliesRows(rows, d, v, k);
    BegunSmaller(rows, d, v, k, f);
    RowInBulk(rows, rows[0]);
    var t :| x * D == t * Power(D, f) && Reaches(a, t);
    LiftedFits(x, D, t, f, Bulk(rows), |d.parts|);
  }

  // ----- How many there are -----

  ghost function Lifted(x: int, D: int, p: int): int
    requires p != 0
  {
    (x * D) / p
  }

  lemma LiftedIs(x: int, D: int, t: int, p: int)
    requires p != 0 && x * D == t * p
    ensures Lifted(x, D, p) == t
  {
    DivideExactly(t, p);
  }

  lemma DivideExactly(s: int, scale: int)
    requires scale != 0
    ensures (s * scale) % scale == 0 && (s * scale) / scale == s
  {
    var q, r := (s * scale) / scale, (s * scale) % scale;
    assert s * scale == q * scale + r;
    assert (s - q) * scale == r;
    if s != q { NoSmallMultiple(s - q, scale); }
  }

  lemma NoSmallMultiple(k: int, scale: int)
    requires scale != 0 && k != 0
    ensures k * scale >= (if scale > 0 then scale else -scale) || k * scale < 0
  {
    if scale > 0 {
      if k > 0 { assert k * scale >= scale; } else { assert k * scale <= -scale; }
    } else {
      if k < 0 { assert k * scale >= -scale; } else { assert k * scale <= scale; }
    }
  }

  /** As many as their lifts, which lie in a window. */
  lemma {:induction false} LiftCount(keys: set<int>, D: int, p: int, ts: set<int>)
    requires D != 0 && p != 0 && ts == (set x | x in keys :: Lifted(x, D, p)) && forall x :: x in keys ==> exists t :: x * D == t * p
    ensures |keys| == |ts|
  {
    if keys != {} {
      var x := Member(keys);
      var t := Lifted(x, D, p);
      forall y | y in keys && y != x ensures Lifted(y, D, p) != t {
        LiftDiffers(x, y, D, p);
      }
      assert ts - {t} == set y | y in keys - {x} :: Lifted(y, D, p);
      LiftCount(keys - {x}, D, p, ts - {t});
    }
  }

  lemma LiftDiffers(x: int, y: int, D: int, p: int)
    requires D != 0 && p != 0 && x != y && (exists t :: x * D == t * p) && exists t :: y * D == t * p
    ensures Lifted(x, D, p) != Lifted(y, D, p)
  {
    var t :| x * D == t * p;
    var u :| y * D == u * p;
    LiftedIs(x, D, t, p);
    LiftedIs(y, D, u, p);
    if t == u { SameMultiple(x, y, D); }
  }

  lemma LiftsFew(m: map<int, real>, rows: seq<Row>, d: Decomposition, v: seq<int>, k: int, f: nat)
    requires Multiplies(rows, d, v, k) && f <= |d.parts| && Small(rows, d)
    requires AllLift(m.Keys, Begun(d, v, k, rows[0].leaves, f), rows[0].weight, f)
    ensures |m| <= MAX_SUPPORT
  {
    hide Power;
    hide IsBlock;
    hide Formed;
    hide Spans;
    var a, D := Begun(d, v, k, rows[0].leaves, f), rows[0].weight;
    MultipliesRows(rows, d, v, k);
    BegunSmaller(rows, d, v, k, f);
    hide Begun;
    hide Multiplies;
    PowerNonZero(D, f);
    var p := Power(D, f);
    var ts := set x | x in m.Keys :: Lifted(x, D, p);
    forall x | x in m.Keys ensures -Bulk(rows) <= Lifted(x, D, p) <= Bulk(rows) && exists t :: x * D == t * p {
      assert Lifts(x, a, D, f);
      var t :| x * D == t * p && Reaches(a, t);
      LiftedIs(x, D, t, p);
    }
    WindowSize(ts, -Bulk(rows), Bulk(rows));
    LiftCount(m.Keys, D, p, ts);
    assert |m| == |m.Keys|;
  }

  /** Divided by its power, what a run lists in the end is a sum of the rows' weights. */
  lemma LiftEnd(rows: seq<Row>, d: Decomposition, v: seq<int>, k: int, x: int) returns (t: int)
    requires Multiplies(rows, d, v, k) && Lifts(x, Begun(d, v, k, rows[0].leaves, |d.parts|), rows[0].weight, |d.parts|)
    ensures |d.parts| >= 2 && x == t * Power(rows[0].weight, |d.parts| - 1) && Reaches(rows, t)
  {
    hide IsBlock;
    hide Formed;
    hide Spans;
    var n, a, D := |d.parts|, Begun(d, v, k, rows[0].leaves, |d.parts|), rows[0].weight;
    MultipliesRows(rows, d, v, k);
    BlockParts(rows, d);
    BegunSmaller(rows, d, v, k, n);
    t :| x * D == t * Power(D, n) && Reaches(a, t);
    SpansMore(a, rows, t);
    Regroup(t, Power(D, n - 1), D);
    SameMultiple(x, t * Power(D, n - 1), D);
  }

  // ----- Products of axis entries -----

  lemma MemberBegins(rows: seq<Row>, d: Decomposition, r: Row, j: nat)
    requires IsBlock(rows, d) && r in rows && j <= |d.parts|
    ensures Below(r.leaves, d.factor, j) in Cross(d.parts, j)
    ensures j < |d.parts| ==> Projection(r.leaves, d.factor, j) in d.parts[j]
    ensures j == |d.parts| ==> Below(r.leaves, d.factor, j) == r.leaves
  {
    hide Cross;
    var i :| 0 <= i < |rows| && rows[i] == r;
    assert LeavesOf(rows)[i] in LeavesOf(rows);
    MemberComposed(LeavesOf(rows), d, r.leaves);
    BelowInCross(r.leaves, d.factor, d.parts, j);
  }

  /** The product over the first j parts of a member, times the pivot. */
  lemma {:induction false} MultipliedIs(rows: seq<Row>, d: Decomposition, v: seq<int>, k: int, axes: seq<seq<int>>, r: Row, j: nat)
    requires Multiplies(rows, d, v, k) && OnAxes(rows, d, axes) && r in rows && j <= |d.parts|
    ensures var ref, D := rows[0].leaves, rows[0].weight;
            Multiplied(Lookup(d.parts, axes), d.factor, r.leaves, j) * D
            == Weight(v, k, Below(r.leaves, d.factor, j) + Onward(ref, d.factor, j)) * Power(D, j)
    decreases j
  {
    hide IsBlock;
    hide Formed;
    hide Weight;
    hide OnAxes;
    hide Lookup;
    MultipliesRows(rows, d, v, k);
    var ref, D, c := rows[0].leaves, rows[0].weight, r.leaves;
    if j == 0 {
      RefWithin(rows, d);
      OnwardAll(ref, d.factor, |d.parts|);
      assert Below(c, d.factor, 0) + ref == ref;
    } else {
      MultipliedIs(rows, d, v, k, axes, r, j - 1);
      MemberBegins(rows, d, r, j - 1);
      var u, q := Below(c, d.factor, j - 1), Projection(c, d.factor, j - 1);
      BelowStep(c, d.factor, j);
      ExchangeRows(rows, d, v, k, j - 1, u, q);
      AxisLookup(rows, d, v, k, axes, j - 1, q);
      MultipliedArith(Multiplied(Lookup(d.parts, axes), d.factor, c, j - 1), D, Weight(v, k, u + Onward(ref, d.factor, j - 1)), Power(D, j - 1),
                      Weight(v, k, Moved(ref, d.factor, j - 1, q)), Weight(v, k, (u + q) + Onward(ref, d.factor, j)));
    }
  }

  lemma MultipliedArith(m: int, D: int, x: int, p: int, a: int, y: int)
    requires m * D == x * p && x * a == y * D
    ensures (m * a) * D == y * (p * D)
  {
    assert (m * a) * D == (m * D) * a == (x * p) * a == (x * a) * p == (y * D) * p;
  }

  lemma AxisLookup(rows: seq<Row>, d: Decomposition, v: seq<int>, k: int, axes: seq<seq<int>>, f: nat, q: set<nat>)
    requires Multiplies(rows, d, v, k) && OnAxes(rows, d, axes) && f < |d.parts| && q in d.parts[f]
    ensures Lookup(d.parts, axes)(f, q) == Weight(v, k, Moved(rows[0].leaves, d.factor, f, q))
  {
    hide Weight;
    hide Moved;
    OnAxesAligned(rows, d, axes);
    AxisWeight(rows, d, v, k, axes, f, IndexOf(d.parts[f], q));
  }

  /** Every partial product stays within 128 bits. */
  lemma MultipliedFits(rows: seq<Row>, d: Decomposition, v: seq<int>, k: int, axes: seq<seq<int>>, r: Row, j: nat)
    requires Multiplies(rows, d, v, k) && OnAxes(rows, d, axes) && r in rows && j <= |d.parts| && Small(rows, d)
    ensures Fits(Multiplied(Lookup(d.parts, axes), d.factor, r.leaves, j))
  {
    hide IsBlock;
    hide Formed;
    hide Weight;
    hide OnAxes;
    hide Lookup;
    hide Power;
    hide Cross;
    hide Onward;
    var u := Below(r.leaves, d.factor, j);
    MultipliesRows(rows, d, v, k);
    MultipliedIs(rows, d, v, k, axes, r, j);
    MemberBegins(rows, d, r, j);
    BegunRow(rows, d, v, k, j, u);
    var t := Row(u + Onward(rows[0].leaves, d.factor, j), Weight(v, k, u + Onward(rows[0].leaves, d.factor, j)));
    RowInBulk(rows, t);
    RowInBulk(rows, rows[0]);
    LiftedFits(Multiplied(Lookup(d.parts, axes), d.factor, r.leaves, j), rows[0].weight, t.weight, j, Bulk(rows), |d.parts|);
  }

  /** The whole product is the weight times the power that divides back out. */
  lemma MultipliedWhole(rows: seq<Row>, d: Decomposition, v: seq<int>, k: int, axes: seq<seq<int>>, r: Row)
    requires Multiplies(rows, d, v, k) && OnAxes(rows, d, axes) && r in rows
    ensures |d.parts| >= 2
    ensures Multiplied(Lookup(d.parts, axes), d.factor, r.leaves, |d.parts|) == r.weight * Power(rows[0].weight, |d.parts| - 1)
  {
    hide *;
    var n, ref, D := |d.parts|, rows[0].leaves, rows[0].weight;
    MultipliesRows(rows, d, v, k);
    BlockParts(rows, d);
    MultipliedIs(rows, d, v, k, axes, r, n);
    MemberBegins(rows, d, r, n);
    RefWithin(rows, d);
    OnwardAll(ref, d.factor, n);
    assert r.leaves + {} == r.leaves;
    MemberWeight(rows, d, v, k, r);
    PowerNext(D, n - 1);
    Regroup(r.weight, Power(D, n - 1), D);
    SameMultiple(Multiplied(Lookup(d.parts, axes), d.factor, r.leaves, n), r.weight * Power(D, n - 1), D);
  }

  lemma MemberWeight(rows: seq<Row>, d: Decomposition, v: seq<int>, k: int, r: Row)
    requires Multiplies(rows, d, v, k) && r in rows
    ensures r.weight == Weight(v, k, r.leaves)
  {
  }

  lemma PowerNext(x: int, k: nat)
    ensures Power(x, k + 1) == Power(x, k) * x
  {
  }

  lemma PowerFits(rows: seq<Row>, d: Decomposition, t: nat)
    requires rows != [] && Small(rows, d) && t <= |d.parts|
    ensures Fits(Power(rows[0].weight, t))
  {
    hide Power;
    RowInBulk(rows, rows[0]);
    PowerBound(rows[0].weight, Bulk(rows), t);
    PowerGrows(Bulk(rows), t, |d.parts| + 1);
  }
}
