/** HAVING SUM(...) op C and AVG(...) op C, the empty group excluded. */
module SumHaving {
  import opened Worlds
  import opened Probability
  import opened RandomValues
  import opened Distributions
  import opened Sequences
  import opened SeqSums
  import opened MonotoneDnf
  import opened Contributors
  import opened Comparisons
  import opened WeightedRows
  import opened AllAbsent
  import opened Acceptance
  import opened SumWindows
  import opened JointMarginals
  import opened SeparableRows
  import opened SumMarginals

  datatype Aggregate = SUM | AVG

  predicate SatisfiesReal(op: Comparison, a: real, c: real) {
    match op
    case EQ => a == c
    case NE => a != c
    case LE => a <= c
    case LT => a < c
    case GE => a >= c
    case GT => a > c
  }

  /** The sum, or the average, of a non-empty group compares as asked. */
  ghost predicate GroupHolds(agg: Aggregate, op: Comparison, c: int, s: int, n: nat) {
    n > 0 && if agg == SUM then Satisfies(op, s, c) else SatisfiesReal(op, s as real / n as real, c as real)
  }

  ghost function AggHolds(rows: seq<Row>, agg: Aggregate, op: Comparison, c: int): Event {
    w => GroupHolds(agg, op, c, Sum(rows, w), Count(LeavesOf(rows), w))
  }

  /** Averages compare with c as sums of differences from c compare with zero. */
  lemma AverageShift(op: Comparison, s: int, n: nat, c: int)
    requires n > 0
    ensures SatisfiesReal(op, s as real / n as real, c as real) == Satisfies(op, s - c * n, 0)
  {
    var x, y := s as real / n as real, n as real;
    assert x * y == s as real;
    assert (c * n) as real == c as real * y;
    Scale(x, c as real, y);
    assert s as real - (c * n) as real == (s - c * n) as real;
  }

  lemma Scale(x: real, c: real, y: real)
    requires y > 0.0
    ensures (x < c) == (x * y < c * y) && (x == c) == (x * y == c * y)
  {
    if x < c { assert (c - x) * y > 0.0; }
    if x > c { assert (x - c) * y > 0.0; }
  }

  lemma {:induction false} ShiftSum(rows: seq<Row>, base: int, w: World)
    ensures Sum(Shift(rows, base), w) == Sum(rows, w) - base * Count(LeavesOf(rows), w)
  {
    if rows != [] {
      var init, r := rows[..|rows| - 1], rows[|rows| - 1];
      ShiftSum(init, base, w);
      assert Shift(rows, base)[..|rows| - 1] == Shift(init, base);
      assert LeavesOf(rows)[..|rows| - 1] == LeavesOf(init);
    }
  }

  lemma {:induction false} EmptySum(rows: seq<Row>, w: World)
    requires Count(LeavesOf(rows), w) == 0
    ensures Sum(rows, w) == 0
  {
    if rows != [] {
      var init := rows[..|rows| - 1];
      assert LeavesOf(rows)[..|rows| - 1] == LeavesOf(init);
      EmptySum(init, w);
    }
  }

  function Test(op: Comparison, threshold: int): int -> bool {
    (s: int) => Satisfies(op, s, threshold)
  }

  ghost function Nonempty(rows: seq<Row>, test: int -> bool): Event {
    w => Count(LeavesOf(rows), w) > 0 && test(Sum(rows, w))
  }

  /** The empty group sums to zero: its mass leaves exactly when zero passes the test. */
  lemma WithoutEmpty(p: seq<real>, rows: seq<Row>, test: int -> bool)
    requires Unit(p)
    ensures P(p, Nonempty(rows, test)) == P(p, Passes(SumRv(rows), test)) - (if test(0) then Absent(p, LeavesOf(rows)) else 0.0)
  {
    var none: Event := w => !DnfTrue(LeavesOf(rows), w);
    hide P;
    forall w ensures none(w) == (Count(LeavesOf(rows), w) == 0) { CountPositive(LeavesOf(rows), w); }
    forall w | Count(LeavesOf(rows), w) == 0 ensures Sum(rows, w) == 0 { EmptySum(rows, w); }
    hide Count;
    hide Sum;
    if test(0) {
      SplitEvent(p, none, Nonempty(rows, test), Passes(SumRv(rows), test));
      ComplementEvent(p, Satisfied(LeavesOf(rows)), none);
    } else {
      SameEvent(p, Nonempty(rows, test), Passes(SumRv(rows), test));
    }
  }

  lemma ShiftedHolds(p: seq<real>, rows: seq<Row>, agg: Aggregate, op: Comparison, c: int)
    requires Unit(p)
    ensures var base, threshold := if agg == AVG then c else 0, if agg == AVG then 0 else c;
            P(p, Nonempty(Shift(rows, base), Test(op, threshold))) == P(p, AggHolds(rows, agg, op, c))
  {
    var base, threshold := if agg == AVG then c else 0, if agg == AVG then 0 else c;
    var shifted := Shift(rows, base);
    hide P;
    forall w ensures Nonempty(shifted, Test(op, threshold))(w) == AggHolds(rows, agg, op, c)(w) {
      ShiftSum(rows, base, w);
      var n := Count(LeavesOf(rows), w);
      if n > 0 { AverageShift(op, Sum(rows, w), n, c); }
    }
    SameEvent(p, Nonempty(shifted, Test(op, threshold)), AggHolds(rows, agg, op, c));
  }

  /** How far below and above zero the sum can reach. */
  method Range(rows: seq<Row>) returns (lo: int, hi: int)
    ensures lo == Low(rows) && hi == High(rows)
    ensures forall w :: lo <= Sum(rows, w) <= hi
  {
    lo, hi := 0, 0;
    for i := 0 to |rows|
      invariant lo == Low(rows[..i]) && hi == High(rows[..i])
    {
      assert rows[..i + 1] == rows[..i] + [rows[i]];
      SumAppend(rows[..i], rows[i], Loss());
      SumAppend(rows[..i], rows[i], Gain());
      if rows[i].weight < 0 {
        lo := lo + rows[i].weight;
      } else {
        hi := hi + rows[i].weight;
      }
    }
    assert rows[..|rows|] == rows;
    forall w ensures lo <= Sum(rows, w) <= hi { SumWithin(rows, w); }
  }

  lemma {:induction false} SumWithin(rows: seq<Row>, w: World)
    ensures Low(rows) <= Sum(rows, w) <= High(rows)
  {
    if rows != [] { SumWithin(rows[..|rows| - 1], w); }
  }

  /** Measuring weights from the threshold keeps them sums of leaf values. */
  lemma ShiftedSeparable(rows: seq<Row>, base: int, form: Form)
    requires Separable(rows, form) && (form == Products ==> base == 0)
    ensures Separable(Shift(rows, base), form)
  {
    hide Accepts;
    hide LeafSum;
    hide LeafTimes;
    ShiftNone(rows);
    if form == Sums {
      var v: seq<int>, k: int :| Formed(rows, form, v, k);
      var far := Shift(rows, base);
      forall r | r in far ensures r.weight == FormValue(form, v, k - base, r.leaves) {
        var i :| 0 <= i < |far| && far[i] == r;
        assert rows[i] in rows;
      }
      assert Formed(far, form, v, k - base);
    }
  }

  lemma SeparableAccepts(rows: seq<Row>)
    requires Separable(rows, Sums) || Separable(rows, Products)
    ensures Accepts(LeavesOf(rows), Any)
  {
    hide Accepts;
  }

  lemma RoomyRange(rows: seq<Row>)
    requires RoomyPairs(rows)
    ensures Roomy(rows)
  {
    ZeroWithin(rows);
    ProductMonotone(SumWindows.Spread(rows), SumWindows.Spread(rows), 1, |rows| + 1);
  }

  lemma ReadyFromThreshold(rows: seq<Row>, agg: Aggregate, base: int)
    requires agg == SUM ==> base == 0
    ensures var far := Shift(rows, base);
            Separable(rows, Sums) && RoomyPairs(far) ==> Separable(far, Sums) && Roomy(far) && Accepts(LeavesOf(rows), Any)
    ensures agg == SUM && Separable(rows, Products) && RoomyPairs(rows) ==>
              Shift(rows, base) == rows && Roomy(rows) && Accepts(LeavesOf(rows), Any)
    ensures Accepts(LeavesOf(rows), Nested) ==> Accepts(LeavesOf(rows), Any)
  {
    hide Accepts;
    hide Separable;
    hide RoomyPairs;
    hide Roomy;
    ShiftNone(rows);
    if Separable(rows, Sums) {
      ShiftedSeparable(rows, base, Sums);
      SeparableAccepts(rows);
    }
    if Separable(rows, Products) { SeparableAccepts(rows); }
    if RoomyPairs(Shift(rows, base)) { RoomyRange(Shift(rows, base)); }
    if Accepts(LeavesOf(rows), Nested) { AcceptsMore(LeavesOf(rows), Nested, Any); }
  }

  lemma RangeFits(rows: seq<Row>)
    ensures Roomy(rows) <==> High(rows) - Low(rows) + 1 <= MAX_SUPPORT
  {
  }

  /** The probability that a non-empty group satisfies the predicate, or refusal. */
  method HavingSum(p: seq<real>, rows: seq<Row>, agg: Aggregate, op: Comparison, c: int) returns (pr: real, ok: bool)
    requires LeavesOk(p, LeavesOf(rows))
    ensures ok && Distinct(LeavesOf(rows)) ==> pr == P(p, AggHolds(rows, agg, op, c))
    ensures Accepts(LeavesOf(rows), Nested) && Roomy(Shift(rows, if agg == AVG then c else 0)) ==> ok
    ensures Separable(rows, Sums) && RoomyPairs(Shift(rows, if agg == AVG then c else 0)) ==> ok
    ensures agg == SUM && Separable(rows, Products) && RoomyPairs(rows) ==> ok
  {
    var base, threshold := if agg == AVG then c else 0, if agg == AVG then 0 else c;
    var shifted := Shift(rows, base);
    ghost var exact := Distinct(LeavesOf(rows));
    hide Accepts;
    hide Separable;
    hide RoomyPairs;
    hide Roomy;
    ReadyFromThreshold(rows, agg, base);
    ShiftedHolds(p, rows, agg, op, c);
    WithoutEmpty(p, shifted, Test(op, threshold));
    hide P;
    hide IsDist;
    hide AggHolds;
    hide Nonempty;
    hide Absent;
    pr := 0.0;
    RangeFits(shifted);
    var lo, hi := Range(shifted);
    if hi - lo + 1 > MAX_SUPPORT {
      return pr, false;
    }
    var dist;
    dist, ok := SumPmf(p, shifted);
    if !ok {
      return;
    }
    pr := SumWhere(Test(op, threshold), dist, p, SumRv(shifted), exact);
    if Satisfies(op, 0, threshold) {
      var empty;
      empty, ok := PAllAbsent(p, LeavesOf(rows));
      pr := pr - empty;
    }
  }
}
