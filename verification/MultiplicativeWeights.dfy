/** Weights that are products of leaf values: products along the axes through a member, how
    large they get, and that the weight of that member divides them. */
module MultiplicativeWeights {
  import opened Sequences
  import opened SeqSums
  import opened MonotoneDnf
  import opened ClauseBlocks
  import opened CrossProducts
  import opened ProductBlocks
  import opened WeightedRows
  import opened Separation
  import opened SeparationRecovery
  import opened Acceptance
  import opened BlockAcceptance
  import opened SumWindows
  import opened SeparableRows
  import opened ProductRows
  import opened SumSpans
  import opened Masks

  // ----- Magnitudes -----

  /** The magnitude past which a 128-bit product is given up. */
  const MAX_MAGNITUDE := 0x100_0000_0000_0000_0000_0000_0000_0000

  predicate Fits(x: int) {
    -MAX_MAGNITUDE <= x <= MAX_MAGNITUDE
  }

  ghost function Power(x: int, k: nat): int {
    if k == 0 then 1 else Power(x, k - 1) * x
  }

  lemma PowerNonZero(x: int, k: nat)
    requires x != 0
    ensures Power(x, k) != 0
  {
    if k > 0 {
      PowerNonZero(x, k - 1);
      NonZeroProduct(Power(x, k - 1), x);
    }
  }

  lemma NonZeroProduct(a: int, b: int)
    requires a != 0 && b != 0
    ensures a * b != 0
  {
  }

  lemma {:induction false} PowerBound(x: int, w: int, k: nat)
    requires 0 <= Abs(x) <= w
    ensures Abs(Power(x, k)) <= Power(w, k)
  {
    if k > 0 {
      PowerBound(x, w, k - 1);
      AbsTimes(Power(x, k - 1), x);
      ProductMonotone(Abs(Power(x, k - 1)), Power(w, k - 1), Abs(x), w);
    }
  }

  lemma AbsTimes(a: int, b: int)
    ensures Abs(a * b) == Abs(a) * Abs(b)
  {
    if a >= 0 && b >= 0 {
      assert a * b >= 0;
    } else if a < 0 && b < 0 {
      assert a * b == (-a) * (-b) >= 0;
    } else if a < 0 {
      assert a * b == -((-a) * b);
      assert (-a) * b >= 0;
    } else {
      assert a * b == -(a * (-b));
      assert a * (-b) >= 0;
    }
  }

  lemma {:induction false} PowerGrows(w: int, j: nat, k: nat)
    requires w >= 1 && j <= k
    ensures 1 <= Power(w, j) <= Power(w, k)
    decreases k
  {
    if k > 0 {
      PowerGrows(w, if j < k then j else k - 1, k - 1);
      ProductMonotone(Power(w, k - 1), Power(w, k - 1), 1, w);
    }
  }

  lemma {:induction false} PowerMonotone(a: int, b: int, k: nat)
    requires 0 <= a <= b
    ensures 0 <= Power(a, k) <= Power(b, k)
  {
    if k > 0 {
      PowerMonotone(a, b, k - 1);
      ProductMonotone(Power(a, k - 1), Power(b, k - 1), a, b);
    }
  }

  lemma {:induction false} Pow2Sum(j: nat, k: nat)
    ensures Pow2(j + k) == Pow2(j) * Pow2(k)
  {
    if k > 0 {
      Pow2Sum(j, k - 1);
      assert Pow2(j) * (2 * Pow2(k - 1)) == 2 * (Pow2(j) * Pow2(k - 1));
    }
  }

  lemma {:induction false} PowerOfPow2(j: nat, k: nat)
    ensures Power(Pow2(j), k) == Pow2(j * k)
  {
    if k > 0 {
      PowerOfPow2(j, k - 1);
      Pow2Sum(j * (k - 1), j);
      assert j * (k - 1) + j == j * k;
    }
  }

  lemma {:induction false} Pow2Grows(j: nat, k: nat)
    requires j <= k
    ensures 1 <= Pow2(j) <= Pow2(k)
    decreases k
  {
    if j < k { Pow2Grows(j, k - 1); }
  }

  lemma Pow2Sizes()
    ensures Pow2(20) == MAX_SUPPORT && Pow2(120) == MAX_MAGNITUDE
  {
    TenBits();
    hide Pow2;
    Pow2Sum(10, 10);
    Pow2Sum(20, 20);
    assert Pow2(40) == 0x100_0000_0000;
    Pow2Sum(40, 40);
    assert Pow2(80) == 0x1_0000_0000_0000_0000_0000;
    Pow2Sum(80, 40);
  }

  lemma TenBits()
    ensures Pow2(10) == 1024
  {
    assert Pow2(5) == 32;
  }

  /** A block with room has few factors, and small weights. */
  lemma RoomForFactors(w: int, n: nat, k: nat)
    requires w >= 0 && (w + 1) * (n + 1) <= MAX_SUPPORT && n >= Pow2(k)
    ensures k <= 20 && w <= Pow2(20 - k)
  {
    Pow2Sizes();
    hide Pow2;
    ProductMonotone(1, w + 1, n + 1, n + 1);
    if k > 20 {
      Pow2Grows(20, k);
    } else {
      Pow2Sum(k, 20 - k);
      ProductMonotone(w, w + 1, Pow2(k), n + 1);
      Pow2Grows(0, k);
      Cancel(w, Pow2(20 - k), Pow2(k));
    }
  }

  /** So its products stay within 128 bits. */
  lemma RoomForPowers(w: int, n: nat, k: nat)
    requires w >= 0 && (w + 1) * (n + 1) <= MAX_SUPPORT && n >= Pow2(k)
    ensures Power(w, k + 1) <= MAX_MAGNITUDE
  {
    hide Pow2;
    hide Power;
    RoomForFactors(w, n, k);
    Pow2Sizes();
    PowerMonotone(w, Pow2(20 - k), k + 1);
    PowerOfPow2(20 - k, k + 1);
    SquareBound(20 - k, k + 1);
    Pow2Grows((20 - k) * (k + 1), 120);
  }

  lemma Cancel(a: int, b: int, c: int)
    requires a * c <= b * c && c >= 1
    ensures a <= b
  {
    if a > b { ProductMonotone(1, a - b, c, c); }
  }

  lemma SquareBound(a: nat, b: nat)
    requires a + b == 21
    ensures a * b <= 120
  {
    assert (a - b) * (a - b) >= 0;
    assert 4 * (a * b) == (a + b) * (a + b) - (a - b) * (a - b);
  }

  // ----- Blocks have at least two parts to a factor -----

  lemma TwoParts(contribs: Clauses, d: Decomposition, f: nat)
    requires NeedsProduct(contribs) && IsDecomposition(contribs, d) && f < |d.parts|
    ensures |d.parts[f]| >= 2
  {
    hide IsDecomposition;
    hide Projection;
    hide Common;
    hide Leaves;
    hide Elements;
    PartsMet(contribs, d, f);
    var c, qs := contribs[0], d.parts[f];
    assert c in contribs;
    var q := Projection(c, d.factor, f);
    if |qs| < 2 {
      assert qs == [q];
      var l :| l in q;
      forall x | x in contribs ensures l in x {
        assert Projection(x, d.factor, f) in qs;
        InProjection(x, d.factor, f, l);
      }
      InCommon(contribs, l);
    }
  }

  lemma PartsMet(contribs: Clauses, d: Decomposition, f: nat)
    requires IsDecomposition(contribs, d) && f < |d.parts|
    ensures forall c {:trigger Projection(c, d.factor, f)} :: c in contribs ==>
              Projection(c, d.factor, f) in d.parts[f] && Projection(c, d.factor, f) != {}
  {
    assert PartsOf(contribs, d.factor, f, d.parts[f]);
  }

  lemma InProjection(x: set<nat>, factor: map<nat, nat>, f: nat, l: nat)
    requires l in Projection(x, factor, f)
    ensures l in x
  {
  }

  lemma InCommon(contribs: Clauses, l: nat)
    requires contribs != [] && forall x :: x in contribs ==> l in x
    ensures l in Common(Elements(contribs))
  {
    assert contribs[0] in Elements(contribs);
    assert l in Leaves(Elements(contribs));
  }

  lemma {:induction false} ManyMembers(parts: seq<Clauses>, k: nat)
    requires k <= |parts| && forall f: nat :: f < k ==> |parts[f]| >= 2
    ensures Sizes(parts, k) >= Pow2(k)
  {
    if k > 0 {
      ManyMembers(parts, k - 1);
      ProductMonotone(Pow2(k - 1), Sizes(parts, k - 1), 2, |parts[k - 1]|);
    }
  }

  // ----- Exchanging parts -----

  ghost function Weight(v: seq<int>, k: int, c: set<nat>): int {
    FormValue(Products, v, k, c)
  }

  /** Exchanging parts between members keeps the product of their weights. */
  lemma Exchange(v: seq<int>, k: int, b: set<nat>, q: set<nat>, e: set<nat>, r: set<nat>, R: set<nat>)
    requires b !! r && b !! q && (b + r) !! R && (b + q) !! R && e !! R && (e + R) !! q && e !! r && (e + r) !! R
    ensures Weight(v, k, b + r + R) * Weight(v, k, e + R + q) == Weight(v, k, b + q + R) * Weight(v, k, e + r + R)
  {
    hide LeafTimes;
    LeafTimesUnion(v, b + r, R);
    LeafTimesUnion(v, b, r);
    LeafTimesUnion(v, e + R, q);
    LeafTimesUnion(v, e, R);
    LeafTimesUnion(v, b + q, R);
    LeafTimesUnion(v, b, q);
    LeafTimesUnion(v, e + r, R);
    LeafTimesUnion(v, e, r);
    SameFactors(k, LeafTimes(v, b), LeafTimes(v, q), LeafTimes(v, e), LeafTimes(v, r), LeafTimes(v, R));
  }

  lemma SameFactors(k: int, b: int, q: int, e: int, r: int, s: int)
    ensures (k * ((b * r) * s)) * (k * ((e * s) * q)) == (k * ((b * q) * s)) * (k * ((e * r) * s))
  {
  }

  lemma ExchangeAt(v: seq<int>, k: int, d: Decomposition, ref: set<nat>, f: nat, u: set<nat>, q: set<nat>)
    requires Begins(u, d, f) && InFactor(q, d.factor, f) && Within(ref, d.factor, |d.parts|)
    ensures Weight(v, k, u + Onward(ref, d.factor, f)) * Weight(v, k, Moved(ref, d.factor, f, q))
         == Weight(v, k, (u + q) + Onward(ref, d.factor, f + 1)) * Weight(v, k, ref)
  {
    var e, r, R := Below(ref, d.factor, f), Projection(ref, d.factor, f), Onward(ref, d.factor, f + 1);
    assert u + Onward(ref, d.factor, f) == u + r + R;
    assert Moved(ref, d.factor, f, q) == e + R + q;
    assert ref == e + r + R;
    hide Weight;
    Exchange(v, k, u, q, e, r, R);
  }

  // ----- Members with the parts of a pivot -----

  /** A block whose weights are products of leaf values. */
  ghost predicate Multiplies(rows: seq<Row>, d: Decomposition, v: seq<int>, k: int) {
    IsBlock(rows, d) && rows != [] && Formed(rows, Products, v, k)
  }

  /** The products of the first f factors, with the weights of the members they begin. */
  ghost function Begun(d: Decomposition, v: seq<int>, k: int, ref: set<nat>, f: nat): (rows: seq<Row>)
    requires f <= |d.parts|
    ensures LeavesOf(rows) == Cross(d.parts, f)
    ensures |rows| == |Cross(d.parts, f)| && forall i :: 0 <= i < |rows| ==>
              rows[i] == Row(Cross(d.parts, f)[i], Weight(v, k, Cross(d.parts, f)[i] + Onward(ref, d.factor, f)))
  {
    var us := Cross(d.parts, f);
    seq(|us|, i requires 0 <= i < |us| => Row(us[i], Weight(v, k, us[i] + Onward(ref, d.factor, f))))
  }

  lemma BegunEmbeds(rows: seq<Row>, d: Decomposition, v: seq<int>, k: int, f: nat)
    requires Multiplies(rows, d, v, k) && f <= |d.parts|
    ensures Embeds(Begun(d, v, k, rows[0].leaves, f), rows, Onward(rows[0].leaves, d.factor, f), 0)
  {
    hide Cross;
    hide Weight;
    var ref, us := rows[0].leaves, Cross(d.parts, f);
    var sub, rest := Begun(d, v, k, ref, f), Onward(ref, d.factor, f);
    BlockParts(rows, d);
    CrossDistinct(d.parts, f);
    forall i | 0 <= i < |sub| ensures sub[i].leaves !! rest && Row(sub[i].leaves + rest, sub[i].weight + 0) in rows {
      BegunRow(rows, d, v, k, f, us[i]);
    }
  }

  lemma BegunRow(rows: seq<Row>, d: Decomposition, v: seq<int>, k: int, f: nat, u: set<nat>)
    requires Multiplies(rows, d, v, k) && f <= |d.parts| && u in Cross(d.parts, f)
    ensures var rest := Onward(rows[0].leaves, d.factor, f); u !! rest && Row(u + rest, Weight(v, k, u + rest)) in rows
  {
    hide IsDecomposition;
    hide Cross;
    var j := CompletedIsRow(rows, d, 0, f, u);
    CompletedProjection(u, rows[0].leaves, d, f, 0);
    assert rows[j] in rows;
  }

  /** Each entry of the axes is the weight of the first member with one part exchanged. */
  ghost predicate OnAxes(rows: seq<Row>, d: Decomposition, axes: seq<seq<int>>)
    requires rows != []
  {
    Aligned(d.parts, axes) && forall f: nat, i: nat :: f < |d.parts| && i < |d.parts[f]| ==>
      Row(Moved(rows[0].leaves, d.factor, f, d.parts[f][i]), axes[f][i]) in rows
  }

  lemma AxisEmbeds(rows: seq<Row>, d: Decomposition, axes: seq<seq<int>>, f: nat)
    requires IsBlock(rows, d) && rows != [] && OnAxes(rows, d, axes) && f < |d.parts|
    ensures Embeds(Zip(d.parts[f], axes[f]), rows, rows[0].leaves - Projection(rows[0].leaves, d.factor, f), 0)
  {
    hide IsBlock;
    hide IsDecomposition;
    hide Projection;
    hide Moved;
    var ref, sub := rows[0].leaves, Zip(d.parts[f], axes[f]);
    var rest := ref - Projection(ref, d.factor, f);
    BlockParts(rows, d);
    forall i | 0 <= i < |sub| ensures sub[i].leaves !! rest && Row(sub[i].leaves + rest, sub[i].weight + 0) in rows {
      AxisEntry(rows, d, f, d.parts[f][i]);
    }
  }

  lemma AxisEntry(rows: seq<Row>, d: Decomposition, f: nat, q: set<nat>)
    requires IsBlock(rows, d) && rows != [] && f < |d.parts| && q in d.parts[f]
    ensures var ref := rows[0].leaves;
            var rest := ref - Projection(ref, d.factor, f);
            q !! rest && Moved(ref, d.factor, f, q) == q + rest && InFactor(q, d.factor, f) && Within(ref, d.factor, |d.parts|)
  {
    hide IsBlock;
    hide IsDecomposition;
    hide Projected;
    BlockParts(rows, d);
    var j := MovedIsRow(rows, d, 0, f, q);
    MovedAway(rows[0].leaves, d.factor, f, q);
  }

  lemma MovedAway(ref: set<nat>, factor: map<nat, nat>, f: nat, q: set<nat>)
    requires InFactor(q, factor, f)
    ensures q !! ref - Projection(ref, factor, f) && Moved(ref, factor, f, q) == q + (ref - Projection(ref, factor, f))
  {
  }

  // ----- Dividing by the pivot -----

  /** The products of a weight of a and one of b are the weights of c, times D. */
  ghost predicate Pairs(a: seq<Row>, b: seq<Row>, c: seq<Row>, D: int) {
    && D != 0 && Bulk(a) * Bulk(b) == Bulk(c) * Abs(D)
    && forall r, s :: r in a && s in b ==> Paired(r.weight * s.weight, c, D)
  }

  ghost predicate Paired(x: int, c: seq<Row>, D: int) {
    exists t :: t in c && x == t.weight * D
  }

  ghost predicate Reaches(rows: seq<Row>, s: int) {
    -Bulk(rows) <= s <= Bulk(rows) && Spans(rows, s)
  }

  /** What divides, scaled, all products of weights divides that of two spanned sums. */
  lemma SpansPair(a: seq<Row>, b: seq<Row>, t: int, s: int, m: int, y: int)
    requires Spans(a, t) && Spans(b, s) && forall r, q :: r in a && q in b ==> Divides(m, y * (r.weight * q.weight))
    ensures Divides(m, y * (t * s))
  {
    hide Divides;
    forall r | r in a ensures Divides(m, (y * s) * r.weight) {
      forall q | q in b ensures Divides(m, (y * r.weight) * q.weight) {
        Regroup(y, r.weight, q.weight);
      }
      assert DividesAll(m, y * r.weight, b);
      Rotate(y, r.weight, s);
    }
    assert DividesAll(m, y * s, a);
    Rotate2(y, s, t);
  }

  lemma Rotate(y: int, a: int, b: int)
    ensures (y * a) * b == (y * b) * a
  {
  }

  lemma Rotate2(y: int, a: int, b: int)
    ensures (y * a) * b == y * (b * a)
  {
  }

  /** The product of sums over a and b is, divided by D, a sum over c. */
  lemma Quotient(a: seq<Row>, b: seq<Row>, c: seq<Row>, D: int, t: int, s: int) returns (u: int)
    requires Pairs(a, b, c, D) && Reaches(a, t) && Reaches(b, s)
    ensures t * s == u * D && Reaches(c, u)
  {
    hide Spans;
    hide Divides;
    hide Bulk;
    hide Paired;
    forall r, q | r in a && q in b ensures Divides(D, 1 * (r.weight * q.weight)) {
      PairedDivides(r.weight * q.weight, c, D);
    }
    SpansPair(a, b, t, s, D, 1);
    u := Divided(D, t * s);
    QuotientBound(Bulk(a), Bulk(b), Bulk(c), D, t, s, u);
    QuotientSpans(a, b, c, D, t, s, u);
  }

  lemma PairedDivides(x: int, c: seq<Row>, D: int)
    requires Paired(x, c, D)
    ensures Divides(D, 1 * x)
  {
    var t :| t in c && x == t.weight * D;
    assert 1 * x == D * t.weight;
  }

  lemma Divided(D: int, x: int) returns (u: int)
    requires Divides(D, 1 * x)
    ensures x == D * u
  {
    u :| 1 * x == D * u;
  }

  lemma QuotientBound(A: int, B: int, C: int, D: int, t: int, s: int, u: int)
    requires D != 0 && A * B == C * Abs(D) && -A <= t <= A && -B <= s <= B && t * s == D * u
    ensures -C <= u <= C
  {
    AbsTimes(t, s);
    AbsTimes(D, u);
    Swap(Abs(D), Abs(u));
    Bounded(Abs(t), A, Abs(s), B, Abs(u), C, Abs(D));
  }

  lemma Bounded(t: nat, A: int, s: nat, B: int, u: nat, C: int, D: nat)
    requires t <= A && s <= B && D > 0 && t * s == u * D && A * B == C * D
    ensures u <= C
  {
    ProductMonotone(t, A, s, B);
    Cancel(u, C, D);
  }

  lemma QuotientSpans(a: seq<Row>, b: seq<Row>, c: seq<Row>, D: int, t: int, s: int, u: int)
    requires Pairs(a, b, c, D) && Spans(a, t) && Spans(b, s) && t * s == D * u
    ensures Spans(c, u)
  {
    hide Divides;
    forall m: int, y: int | DividesAll(m, y, c) ensures Divides(m, y * u) {
      forall r, q | r in a && q in b ensures Divides(m * D, y * (r.weight * q.weight)) {
        assert Paired(r.weight * q.weight, c, D);
        var x :| x in c && r.weight * q.weight == x.weight * D;
        ScaledDivides(m, y, x.weight, D);
      }
      SpansPair(a, b, t, s, m * D, y);
      UnscaledDivides(m, y, u, D);
    }
  }

  lemma ScaledDivides(m: int, y: int, x: int, D: int)
    requires Divides(m, y * x)
    ensures Divides(m * D, y * (x * D))
  {
    var q :| y * x == m * q;
    ScaledEqual(y, x, m, q, D);
  }

  lemma ScaledEqual(y: int, x: int, m: int, q: int, D: int)
    requires y * x == m * q
    ensures y * (x * D) == (m * D) * q
  {
    Regroup(y, x, D);
    Rotate(m, D, q);
  }

  lemma UnscaledDivides(m: int, y: int, u: int, D: int)
    requires D != 0 && Divides(m * D, y * (D * u))
    ensures Divides(m, y * u)
  {
    var q :| y * (D * u) == (m * D) * q;
    Rotate2(y, u, D);
    Rotate(m, D, q);
    SameMultiple(y * u, m * q, D);
  }

  lemma SameMultiple(a: int, b: int, D: int)
    requires D != 0 && a * D == b * D
    ensures a == b
  {
    assert (a - b) * D == 0;
    if a != b { NonZeroProduct(a - b, D); }
  }

  // ----- One factor more -----

  function Absolute(): Row -> int {
    (r: Row) => Abs(r.weight)
  }

  lemma BulkOf(rows: seq<Row>)
    ensures Bulk(rows) == SumOf(rows, Absolute())
  {
    SumTimes(rows, -1, Loss(), Deficit());
    SumPlus(rows, Gain(), Deficit(), Absolute());
  }

  function AbsValue(h: Value): Value {
    c => Abs(h(c))
  }

  ghost function WeightOf(v: seq<int>, k: int, rest: set<nat>): Value {
    c => Weight(v, k, c + rest)
  }

  lemma BegunBulk(d: Decomposition, v: seq<int>, k: int, ref: set<nat>, f: nat)
    requires f <= |d.parts|
    ensures Bulk(Begun(d, v, k, ref, f)) == SumOf(Cross(d.parts, f), AbsValue(WeightOf(v, k, Onward(ref, d.factor, f))))
  {
    hide Weight;
    var rows := Begun(d, v, k, ref, f);
    BulkOf(rows);
    SumMapped(rows, Cross(d.parts, f), Absolute(), AbsValue(WeightOf(v, k, Onward(ref, d.factor, f))));
  }

  lemma AxisWeight(rows: seq<Row>, d: Decomposition, v: seq<int>, k: int, axes: seq<seq<int>>, f: nat, i: nat)
    requires Multiplies(rows, d, v, k) && OnAxes(rows, d, axes) && f < |d.parts| && i < |d.parts[f]|
    ensures axes[f][i] == Weight(v, k, Moved(rows[0].leaves, d.factor, f, d.parts[f][i]))
    ensures rows[0].weight == Weight(v, k, rows[0].leaves) && rows[0].weight != 0
  {
    hide IsBlock;
    assert rows[0] in rows;
    assert Row(Moved(rows[0].leaves, d.factor, f, d.parts[f][i]), axes[f][i]) in rows;
  }

  ghost function AxisValueOf(d: Decomposition, v: seq<int>, k: int, ref: set<nat>, f: nat): Value {
    q => Weight(v, k, Moved(ref, d.factor, f, q))
  }

  lemma AxisBulk(rows: seq<Row>, d: Decomposition, v: seq<int>, k: int, axes: seq<seq<int>>, f: nat)
    requires Multiplies(rows, d, v, k) && OnAxes(rows, d, axes) && f < |d.parts|
    ensures Bulk(Zip(d.parts[f], axes[f])) == SumOf(d.parts[f], AbsValue(AxisValueOf(d, v, k, rows[0].leaves, f)))
  {
    hide IsBlock;
    hide Formed;
    hide Weight;
    hide Moved;
    var part := Zip(d.parts[f], axes[f]);
    BulkOf(part);
    forall i | 0 <= i < |part| ensures Absolute()(part[i]) == AbsValue(AxisValueOf(d, v, k, rows[0].leaves, f))(d.parts[f][i]) {
      AxisWeight(rows, d, v, k, axes, f, i);
    }
    SumMapped(part, d.parts[f], Absolute(), AbsValue(AxisValueOf(d, v, k, rows[0].leaves, f)));
  }

  lemma OnwardAll(ref: set<nat>, factor: map<nat, nat>, n: nat)
    requires Within(ref, factor, n)
    ensures Onward(ref, factor, 0) == ref && Onward(ref, factor, n) == {}
  {
  }

  ghost function Shared(v: seq<int>, k: int, rest: set<nat>, D: int): Value {
    c => Abs(D) * AbsValue(WeightOf(v, k, rest))(c)
  }

  /** The products of a begun weight and one along the axis are the next begun weights. */
  lemma StepPairs(rows: seq<Row>, d: Decomposition, v: seq<int>, k: int, axes: seq<seq<int>>, f: nat)
    requires Multiplies(rows, d, v, k) && OnAxes(rows, d, axes) && f < |d.parts|
    ensures Pairs(Begun(d, v, k, rows[0].leaves, f), Zip(d.parts[f], axes[f]), Begun(d, v, k, rows[0].leaves, f + 1), rows[0].weight)
  {
    hide Multiplies;
    hide OnAxes;
    hide Bulk;
    hide Paired;
    hide Weight;
    MultipliesRows(rows, d, v, k);
    OnAxesAligned(rows, d, axes);
    var ref, D := rows[0].leaves, rows[0].weight;
    var a, b, c := Begun(d, v, k, ref, f), Zip(d.parts[f], axes[f]), Begun(d, v, k, ref, f + 1);
    forall r, s | r in a && s in b ensures Paired(r.weight * s.weight, c, D) {
      PairedRows(rows, d, v, k, axes, f, r, s);
    }
    StepBulk(rows, d, v, k, axes, f);
  }

  lemma MultipliesRows(rows: seq<Row>, d: Decomposition, v: seq<int>, k: int)
    requires Multiplies(rows, d, v, k)
    ensures rows != [] && IsBlock(rows, d) && rows[0].weight == Weight(v, k, rows[0].leaves) != 0
  {
    assert rows[0] in rows;
  }

  lemma OnAxesAligned(rows: seq<Row>, d: Decomposition, axes: seq<seq<int>>)
    requires rows != [] && OnAxes(rows, d, axes)
    ensures Aligned(d.parts, axes)
  {
  }

  /** The weights of the members that u begins, and q after it. */
  lemma ExchangeRows(rows: seq<Row>, d: Decomposition, v: seq<int>, k: int, f: nat, u: set<nat>, q: set<nat>)
    requires Multiplies(rows, d, v, k) && f < |d.parts| && u in Cross(d.parts, f) && q in d.parts[f]
    ensures var ref := rows[0].leaves;
            Weight(v, k, u + Onward(ref, d.factor, f)) * Weight(v, k, Moved(ref, d.factor, f, q))
            == Weight(v, k, (u + q) + Onward(ref, d.factor, f + 1)) * rows[0].weight
  {
    hide IsBlock;
    hide Weight;
    hide Cross;
    MultipliesRows(rows, d, v, k);
    BlockParts(rows, d);
    CrossBegins(LeavesOf(rows), d, f, u);
    AxisEntry(rows, d, f, q);
    ExchangeAt(v, k, d, rows[0].leaves, f, u, q);
  }

  lemma PairedRows(rows: seq<Row>, d: Decomposition, v: seq<int>, k: int, axes: seq<seq<int>>, f: nat, r: Row, s: Row)
    requires Multiplies(rows, d, v, k) && OnAxes(rows, d, axes) && f < |d.parts|
    requires r in Begun(d, v, k, rows[0].leaves, f) && s in Zip(d.parts[f], axes[f])
    ensures Paired(r.weight * s.weight, Begun(d, v, k, rows[0].leaves, f + 1), rows[0].weight)
  {
    hide *;
    MultipliesRows(rows, d, v, k);
    OnAxesAligned(rows, d, axes);
    var us, qs := Cross(d.parts, f), d.parts[f];
    var a, b := Begun(d, v, k, rows[0].leaves, f), ZipAt(d, axes, f);
    var i :| 0 <= i < |a| && a[i] == r;
    var j :| 0 <= j < |b| && b[j] == s;
    AxisWeight(rows, d, v, k, axes, f, j);
    ExchangeRows(rows, d, v, k, f, us[i], qs[j]);
    NextBegun(d, v, k, rows[0].leaves, f, us[i], qs[j]);
    PairedBy(Begun(d, v, k, rows[0].leaves, f + 1), us[i] + qs[j], Weight(v, k, (us[i] + qs[j]) + Onward(rows[0].leaves, d.factor, f + 1)), rows[0].weight);
  }

  function ZipAt(d: Decomposition, axes: seq<seq<int>>, f: nat): (rows: seq<Row>)
    requires Aligned(d.parts, axes) && f < |d.parts|
    ensures rows == Zip(d.parts[f], axes[f])
  {
    Zip(d.parts[f], axes[f])
  }

  lemma PairedBy(c: seq<Row>, u: set<nat>, x: int, D: int)
    requires Row(u, x) in c
    ensures Paired(x * D, c, D)
  {
    assert Row(u, x).weight == x;
  }

  lemma CrossNext(parts: seq<Clauses>, f: nat)
    requires f < |parts|
    ensures Cross(parts, f + 1) == Joins(Cross(parts, f), parts[f])
  {
  }

  lemma NextBegun(d: Decomposition, v: seq<int>, k: int, ref: set<nat>, f: nat, u: set<nat>, q: set<nat>)
    requires f < |d.parts| && u in Cross(d.parts, f) && q in d.parts[f]
    ensures Row(u + q, Weight(v, k, (u + q) + Onward(ref, d.factor, f + 1))) in Begun(d, v, k, ref, f + 1)
  {
    hide Weight;
    hide Cross;
    hide Joins;
    CrossNext(d.parts, f);
    JoinedIn(Cross(d.parts, f), d.parts[f], u, q);
    var all, c := Cross(d.parts, f + 1), Begun(d, v, k, ref, f + 1);
    var l :| 0 <= l < |all| && all[l] == u + q;
    assert c[l] in c;
  }

  lemma StepBulk(rows: seq<Row>, d: Decomposition, v: seq<int>, k: int, axes: seq<seq<int>>, f: nat)
    requires Multiplies(rows, d, v, k) && OnAxes(rows, d, axes) && f < |d.parts|
    ensures Aligned(d.parts, axes)
    ensures Bulk(Begun(d, v, k, rows[0].leaves, f)) * Bulk(Zip(d.parts[f], axes[f]))
         == Bulk(Begun(d, v, k, rows[0].leaves, f + 1)) * Abs(rows[0].weight)
  {
    hide *;
    MultipliesRows(rows, d, v, k);
    OnAxesAligned(rows, d, axes);
    var ref, us, qs, D := rows[0].leaves, Cross(d.parts, f), d.parts[f], rows[0].weight;
    var G, H := AbsValue(WeightOf(v, k, Onward(ref, d.factor, f))), AbsValue(AxisValueOf(d, v, k, ref, f));
    var X := AbsValue(WeightOf(v, k, Onward(ref, d.factor, f + 1)));
    var F := Shared(v, k, Onward(ref, d.factor, f + 1), D);
    forall u, q | u in us && q in qs ensures F(u + q) == G(u) * H(q) {
      SharedAt(rows, d, v, k, f, u, q);
    }
    BegunBulk(d, v, k, ref, f);
    AxisBulk(rows, d, v, k, axes, f);
    BegunBulk(d, v, k, ref, f + 1);
    CrossNext(d.parts, f);
    JoinProduct(us, qs, F, G, H);
    SharedSum(Joins(us, qs), v, k, Onward(ref, d.factor, f + 1), D);
  }

  lemma SharedAt(rows: seq<Row>, d: Decomposition, v: seq<int>, k: int, f: nat, u: set<nat>, q: set<nat>)
    requires Multiplies(rows, d, v, k) && f < |d.parts| && u in Cross(d.parts, f) && q in d.parts[f]
    ensures rows != []
    ensures var ref := rows[0].leaves;
            Shared(v, k, Onward(ref, d.factor, f + 1), rows[0].weight)(u + q)
            == AbsValue(WeightOf(v, k, Onward(ref, d.factor, f)))(u) * AbsValue(AxisValueOf(d, v, k, ref, f))(q)
  {
    hide *;
    MultipliesRows(rows, d, v, k);
    var ref, D := rows[0].leaves, rows[0].weight;
    ExchangeRows(rows, d, v, k, f, u, q);
    AbsTimes(Weight(v, k, u + Onward(ref, d.factor, f)), Weight(v, k, Moved(ref, d.factor, f, q)));
    AbsTimes(Weight(v, k, (u + q) + Onward(ref, d.factor, f + 1)), D);
    SharedIs(v, k, Onward(ref, d.factor, f + 1), D, u + q);
    WeightAt(v, k, Onward(ref, d.factor, f), u);
    AxisAbsAt(d, v, k, ref, f, q);
  }

  lemma SharedIs(v: seq<int>, k: int, rest: set<nat>, D: int, c: set<nat>)
    ensures Shared(v, k, rest, D)(c) == Abs(Weight(v, k, c + rest)) * Abs(D)
  {
    var x, y := Abs(D), AbsValue(WeightOf(v, k, rest))(c);
    WeightAt(v, k, rest, c);
    assert Shared(v, k, rest, D)(c) == x * y;
    Swap(x, y);
  }

  lemma WeightAt(v: seq<int>, k: int, rest: set<nat>, c: set<nat>)
    ensures AbsValue(WeightOf(v, k, rest))(c) == Abs(Weight(v, k, c + rest))
  {
  }

  lemma AxisAbsAt(d: Decomposition, v: seq<int>, k: int, ref: set<nat>, f: nat, q: set<nat>)
    ensures AbsValue(AxisValueOf(d, v, k, ref, f))(q) == Abs(Weight(v, k, Moved(ref, d.factor, f, q)))
  {
  }

  lemma SharedSum(cls: Clauses, v: seq<int>, k: int, rest: set<nat>, D: int)
    ensures SumOf(cls, Shared(v, k, rest, D)) == SumOf(cls, AbsValue(WeightOf(v, k, rest))) * Abs(D)
  {
    SumTimes(cls, Abs(D), AbsValue(WeightOf(v, k, rest)), Shared(v, k, rest, D));
  }
}
