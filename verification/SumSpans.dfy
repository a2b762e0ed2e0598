/** What sums of weights can be: no larger than all weights together, and divisible by what
    divides every weight. */
module SumSpans {
  import opened Sequences
  import opened SeqSums
  import opened MonotoneDnf
  import opened Contributors
  import opened WeightedRows
  import opened Distributions
  import opened SumWindows
  import opened SeparableRows
  import opened PickedRows
  import Blocks

  // ----- Divisors -----

  ghost predicate Divides(m: int, x: int) {
    exists q :: x == m * q
  }

  lemma DividesSum(m: int, a: int, b: int)
    requires Divides(m, a) && Divides(m, b)
    ensures Divides(m, a + b)
  {
    var p :| a == m * p;
    var q :| b == m * q;
    assert a + b == m * (p + q);
  }

  lemma DividesTimes(m: int, a: int, n: int)
    requires Divides(m, a)
    ensures Divides(m, a * n)
  {
    var q :| a == m * q;
    assert a * n == m * (q * n);
  }

  lemma DividesZero(m: int)
    ensures Divides(m, 0)
  {
    assert 0 == m * 0;
  }

  /** m divides y times every weight. */
  ghost predicate DividesAll(m: int, y: int, rows: seq<Row>) {
    forall r :: r in rows ==> Divides(m, y * r.weight)
  }

  /** What divides every weight, after any scaling, divides s. */
  ghost predicate Spans(rows: seq<Row>, s: int) {
    forall m: int, y: int :: DividesAll(m, y, rows) ==> Divides(m, y * s)
  }

  lemma SpansZero(rows: seq<Row>)
    ensures Spans(rows, 0)
  {
    forall m: int, y: int ensures Divides(m, y * 0) { DividesZero(m); }
  }

  lemma SpansSum(rows: seq<Row>, s: int, t: int)
    requires Spans(rows, s) && Spans(rows, t)
    ensures Spans(rows, s + t)
  {
    hide Divides;
    forall m: int, y: int | DividesAll(m, y, rows) ensures Divides(m, y * (s + t)) {
      DividesSum(m, y * s, y * t);
      Spread(y, s, t);
    }
  }

  lemma Spread(y: int, s: int, t: int)
    ensures y * (s + t) == y * s + y * t
  {
  }

  lemma SpansTimes(rows: seq<Row>, s: int, n: int)
    requires Spans(rows, s)
    ensures Spans(rows, s * n)
  {
    hide Divides;
    forall m: int, y: int | DividesAll(m, y, rows) ensures Divides(m, y * (s * n)) {
      DividesTimes(m, y * s, n);
      Regroup(y, s, n);
    }
  }

  lemma Regroup(a: int, b: int, c: int)
    ensures (a * b) * c == a * (b * c)
  {
  }

  /** Every weight of a is one of b's. */
  ghost predicate WeightsIn(a: seq<Row>, b: seq<Row>) {
    forall r :: r in a ==> exists t :: t in b && t.weight == r.weight
  }

  lemma SpansMore(a: seq<Row>, b: seq<Row>, s: int)
    requires Spans(a, s) && WeightsIn(a, b)
    ensures Spans(b, s)
  {
    hide Divides;
    forall m: int, y: int | DividesAll(m, y, b) ensures Divides(m, y * s) {
      assert DividesAll(m, y, a);
    }
  }

  lemma SpansWeight(rows: seq<Row>, r: Row)
    requires r in rows
    ensures Spans(rows, r.weight)
  {
    hide Divides;
  }

  // ----- The keys of a distribution of sums -----

  function Abs(x: int): (r: nat)
    ensures r == x || r == -x
  {
    if x < 0 then -x else x
  }

  /** The absolute weights together. */
  ghost function Bulk(rows: seq<Row>): int {
    High(rows) - Low(rows)
  }

  ghost predicate Reachable(keys: set<int>, rows: seq<Row>) {
    forall k :: k in keys ==> -Bulk(rows) <= k <= Bulk(rows) && Spans(rows, k)
  }

  lemma BulkBounds(rows: seq<Row>)
    ensures Bulk(rows) >= 0 && Low(rows) >= -Bulk(rows) && High(rows) <= Bulk(rows)
  {
    ZeroWithin(rows);
  }

  lemma ReachableFits(m: map<int, real>, rows: seq<Row>)
    requires Reachable(m.Keys, rows) && RoomyPairs(rows)
    ensures |m| <= MAX_SUPPORT
  {
    BulkBounds(rows);
    var w, n := Bulk(rows), |rows|;
    WindowSize(m.Keys, -w, w);
    assert |m| == |m.Keys|;
    if n == 0 {
      assert w == 0;
    } else {
      TwiceFits(w, n);
    }
  }

  lemma TwiceFits(w: int, n: int)
    requires w >= 0 && n >= 1
    ensures 2 * w + 1 <= (w + 1) * (n + 1)
  {
    assert (w + 1) * (n + 1) >= (w + 1) * 2;
  }

  lemma NothingReachable()
    ensures Reachable({0}, [])
  {
    SpansZero([]);
  }

  lemma SingleReachable(r: Row)
    ensures Reachable({0, r.weight}, [r])
  {
    SpansZero([r]);
    SpansWeight([r], r);
    hide Spans;
    SumAppend([], r, Loss());
    SumAppend([], r, Gain());
    assert [] + [r] == [r];
  }

  lemma WithinConcat(a: seq<Row>, b: seq<Row>)
    ensures WeightsIn(a, a + b) && WeightsIn(b, a + b)
  {
    forall r | r in a + b ensures exists t :: t in a + b && t.weight == r.weight {
    }
    assert forall r :: r in a ==> r in a + b;
    assert forall r :: r in b ==> r in a + b;
  }

  lemma ReachableSums(xs: set<int>, a: seq<Row>, ys: set<int>, b: seq<Row>, zs: set<int>)
    requires Reachable(xs, a) && Reachable(ys, b) && Combined(PlusInt(), xs, ys, zs)
    ensures Reachable(zs, a + b)
  {
    hide Spans;
    hide Low;
    hide High;
    ReachConcat(a, b);
    WithinConcat(a, b);
    forall z | z in zs ensures -Bulk(a + b) <= z <= Bulk(a + b) && Spans(a + b, z) {
      var x, y :| x in xs && y in ys && z == PlusInt()(x, y);
      SpansMore(a, a + b, x);
      SpansMore(b, a + b, y);
      SpansSum(a + b, x, y);
    }
  }

  lemma ReachableWhole(keys: set<int>, rows: seq<Row>, blocks: seq<seq<nat>>)
    requires Blocks.IsBlocks(LeavesOf(rows), blocks) && Reachable(keys, Flat(Blocks.PickAll(rows, blocks), |blocks|))
    ensures Reachable(keys, rows)
  {
    hide Blocks.IsBlocks;
    hide Spans;
    var all := Flat(Blocks.PickAll(rows, blocks), |blocks|);
    SumBlocks(LeavesOf(rows), blocks, rows, Loss());
    SumBlocks(LeavesOf(rows), blocks, rows, Gain());
    BlockIndicesBelow(rows, blocks);
    FlatRows(rows, blocks);
    forall k | k in keys ensures Spans(rows, k) { SpansMore(all, rows, k); }
  }

  lemma FlatRows(rows: seq<Row>, blocks: seq<seq<nat>>)
    requires forall b, i :: 0 <= b < |blocks| && i in blocks[b] ==> i < |rows|
    ensures forall r :: r in Flat(Blocks.PickAll(rows, blocks), |blocks|) ==> r in rows
  {
    var groups := Blocks.PickAll(rows, blocks);
    forall r | r in Flat(groups, |blocks|) ensures r in rows {
      InFlat(groups, |blocks|, r);
      var b :| 0 <= b < |blocks| && r in groups[b];
      var i :| 0 <= i < |groups[b]| && groups[b][i] == r;
      assert blocks[b][i] in blocks[b];
      assert r == rows[blocks[b][i]];
    }
  }

  lemma ReachableResidues(keys: set<int>, rows: seq<Row>, common: set<nat>)
    requires Reachable(keys, Residues(rows, common))
    ensures Reachable(keys + {0}, rows)
  {
    var res := Residues(rows, common);
    ReachResidues(rows, common);
    BulkBounds(rows);
    SpansZero(rows);
    forall r | r in res ensures exists t :: t in rows && t.weight == r.weight {
      var i :| 0 <= i < |res| && res[i] == r;
      assert rows[i] in rows;
    }
    hide Spans;
    forall k | k in keys ensures Spans(rows, k) { SpansMore(res, rows, k); }
  }

  // ----- Selections -----

  lemma {:induction false} PickSpans(rows: seq<Row>, T: set<set<nat>>)
    ensures Spans(rows, PickSum(rows, T))
  {
    hide Spans;
    hide PickSum;
    if rows == [] {
      PickEmpty(T);
      SpansZero(rows);
    } else {
      var init, r := rows[..|rows| - 1], rows[|rows| - 1];
      PickLast(rows, T);
      PickSpans(init, T);
      InitWithin(rows);
      SpansMore(init, rows, PickSum(init, T));
      SpansWeight(rows, r);
      SpansSum(rows, PickSum(init, T), r.weight);
    }
  }

  lemma PickEmpty(T: set<set<nat>>)
    ensures PickSum([], T) == 0
  {
  }

  lemma PickLast(rows: seq<Row>, T: set<set<nat>>)
    requires rows != []
    ensures var init, r := rows[..|rows| - 1], rows[|rows| - 1];
            PickSum(rows, T) == PickSum(init, T) + if r.leaves in T then r.weight else 0
  {
  }

  lemma InitWithin(rows: seq<Row>)
    requires rows != []
    ensures WeightsIn(rows[..|rows| - 1], rows)
  {
    var init := rows[..|rows| - 1];
    forall r | r in init ensures exists t :: t in rows && t.weight == r.weight {
      var i :| 0 <= i < |init| && init[i] == r;
      assert rows[i] == r && rows[i] in rows;
    }
  }

  lemma FirstsReachable(keys: set<(int, int)>, rows: seq<Row>, firsts: set<int>)
    requires AllRealized(keys, rows) && forall s :: s in firsts ==> exists k :: k in keys && k.0 == s
    ensures Reachable(firsts, rows)
  {
    hide Spans;
    BulkBounds(rows);
    ShiftNone(rows);
    forall s | s in firsts ensures -Bulk(rows) <= s <= Bulk(rows) && Spans(rows, s) {
      var k :| k in keys && k.0 == s;
      assert Realized(k, rows);
      var T :| PickSum(rows, T) == k.0 && PickCount(rows, T) == k.1;
      PickWithin(rows, T, 0);
      PickSpans(rows, T);
    }
  }
}
