/** Product blocks whose weights depend on a single factor. */
module OneFactorBlocks {
  import opened Worlds
  import opened Probability
  import opened RandomValues
  import opened Distributions
  import opened Sequences
  import opened SeqSums
  import opened MonotoneDnf
  import opened ClauseBlocks
  import opened Contributors
  import opened WeightedRows
  import opened CrossProducts
  import opened ProductBlocks
  import opened Separation
  import opened SeparationRecovery
  import opened SumWindows
  import opened Acceptance
  import opened SeparableRows
  import opened ProductRows
  import opened SumSpans
  import opened BlockAcceptance

  function TimesInt(): (int, int) -> int {
    (a: int, b: int) => a * b
  }

  // ----- A value that depends on one factor alone -----

  /** Every row's weight is the value of its part of factor f. */
  ghost predicate DependsOn(rows: seq<Row>, d: Decomposition, f: nat, vals: map<set<nat>, int>) {
    forall i :: 0 <= i < |rows| ==>
      Projection(rows[i].leaves, d.factor, f) in vals && rows[i].weight == vals[Projection(rows[i].leaves, d.factor, f)]
  }

  /** Two rows share their part of factor f but not their weight. */
  ghost predicate Conflict(rows: seq<Row>, d: Decomposition, f: nat) {
    exists i, j :: 0 <= i < |rows| && 0 <= j < |rows| && rows[i].weight != rows[j].weight
      && Projection(rows[i].leaves, d.factor, f) == Projection(rows[j].leaves, d.factor, f)
  }

  /** vals lists, for the first k rows, the common weight of the rows with each part. */
  ghost predicate Tabled(rows: seq<Row>, d: Decomposition, f: nat, k: nat, vals: map<set<nat>, int>) {
    && k <= |rows|
    && (forall i :: 0 <= i < k ==>
          Projection(rows[i].leaves, d.factor, f) in vals && rows[i].weight == vals[Projection(rows[i].leaves, d.factor, f)])
    && (forall q :: q in vals ==> exists i :: 0 <= i < k && Projection(rows[i].leaves, d.factor, f) == q && rows[i].weight == vals[q])
  }

  /** The value of each part of factor f, if the weights depend on that factor alone. */
  method PartValues(rows: seq<Row>, d: Decomposition, f: nat) returns (ok: bool, vals: map<set<nat>, int>)
    ensures ok ==> DependsOn(rows, d, f, vals)
    ensures !ok ==> Conflict(rows, d, f)
  {
    vals := map[];
    for k := 0 to |rows|
      invariant Tabled(rows, d, f, k, vals)
    {
      var q := Projection(rows[k].leaves, d.factor, f);
      if q !in vals {
        vals := vals[q := rows[k].weight];
      } else if vals[q] != rows[k].weight {
        return false, map[];
      }
    }
    ok := true;
  }

  /** A factor that alone determines the weights; not found only when every factor conflicts. */
  method SingleFactor(rows: seq<Row>, d: Decomposition) returns (found: bool, chosen: nat, vals: map<set<nat>, int>)
    ensures found ==> chosen < |d.parts| && DependsOn(rows, d, chosen, vals)
    ensures !found ==> forall f: nat :: f < |d.parts| ==> Conflict(rows, d, f)
  {
    for f := 0 to |d.parts|
      invariant forall g: nat :: g < f ==> Conflict(rows, d, g)
    {
      var ok;
      ok, vals := PartValues(rows, d, f);
      if ok {
        return true, f, vals;
      }
    }
    return false, 0, map[];
  }

  /** The chosen factor's values, and one for every part of the others. */
  function Only(chosen: nat, vals: map<set<nat>, int>): Valuation {
    (f: nat, q: set<nat>) => if f != chosen then 1 else if q in vals then vals[q] else 0
  }

  lemma {:induction false} OnlyMultiplied(factor: map<nat, nat>, c: set<nat>, chosen: nat, vals: map<set<nat>, int>, k: nat)
    ensures Multiplied(Only(chosen, vals), factor, c, k)
         == if k <= chosen then 1 else Only(chosen, vals)(chosen, Projection(c, factor, chosen))
    decreases k
  {
    if k > 0 { OnlyMultiplied(factor, c, chosen, vals, k - 1); }
  }

  lemma OnlySeparates(rows: seq<Row>, d: Decomposition, chosen: nat, vals: map<set<nat>, int>)
    requires DependsOn(rows, d, chosen, vals) && chosen < |d.parts|
    ensures MulSeparates(rows, d, Only(chosen, vals), 1)
  {
    forall i | 0 <= i < |rows|
      ensures rows[i].weight * 1 == Multiplied(Only(chosen, vals), d.factor, rows[i].leaves, |d.parts|)
    {
      OnlyMultiplied(d.factor, rows[i].leaves, chosen, vals, |d.parts|);
    }
  }

  /** The factors other than the chosen one. */
  function Others(parts: seq<Clauses>, chosen: nat): (s: seq<Clauses>)
    requires chosen < |parts|
    ensures |s| == |parts| - 1
    ensures forall f: nat :: f < chosen ==> s[f] == parts[f]
    ensures forall f: nat :: chosen < f < |parts| ==> s[f - 1] == parts[f]
  {
    parts[..chosen] + parts[chosen + 1..]
  }

  /** The sum of a block whose value depends on one factor: that factor's sum times the
      product of the counts of the others. */
  lemma {:induction false} OnlySum(contribs: Clauses, d: Decomposition, chosen: nat, vals: map<set<nat>, int>, k: nat, w: World)
    requires IsDecomposition(contribs, d) && chosen < |d.parts| && k <= |d.parts|
    ensures MultipliedSum(d, Only(chosen, vals), k, w)
         == (if k <= chosen then Count(Cross(Others(d.parts, chosen), k), w)
             else ValueSum(d.parts[chosen], PartValue(Only(chosen, vals), chosen), w) * Count(Cross(Others(d.parts, chosen), k - 1), w))
    decreases k
  {
    hide IsDecomposition;
    hide MultipliedSum;
    hide ValueSum;
    hide Count;
    var v, others := Only(chosen, vals), Others(d.parts, chosen);
    if k == 0 {
      FoldStart(d, v, w);
      CountNothing(w);
    } else {
      OnlySum(contribs, d, chosen, vals, k - 1, w);
      FoldStep(contribs, d, v, k - 1, w);
      if k - 1 != chosen {
        OneIsCount(d.parts[k - 1], PartValue(v, k - 1), w);
        var j := if k - 1 < chosen then k - 1 else k - 2;
        CountJoins(Cross(others, j), others[j], w);
        Regroup(ValueSum(d.parts[chosen], PartValue(v, chosen), w), Count(Cross(others, j), w), Count(others[j], w));
      } else {
        Swap(Count(Cross(others, chosen), w), ValueSum(d.parts[chosen], PartValue(v, chosen), w));
      }
    }
  }

  lemma OneIsCount(qs: Clauses, h: Value, w: World)
    requires forall q :: h(q) == 1
    ensures ValueSum(qs, h, w) == Count(qs, w)
  {
    SumEqual(qs, Valued(h, w), Here(w));
  }

  /** Rows of parts with their values sum to the values of the present parts. */
  lemma ZipValues(qs: Clauses, vals: seq<int>, h: Value, w: World)
    requires |qs| == |vals| && forall i :: 0 <= i < |qs| ==> vals[i] == h(qs[i])
    ensures Sum(Zip(qs, vals), w) == ValueSum(qs, h, w)
  {
    SumMapped(Zip(qs, vals), qs, Worth(w), Valued(h, w));
  }

  method ValuesOf(qs: Clauses, chosen: nat, vals: map<set<nat>, int>) returns (s: seq<int>)
    ensures |s| == |qs| && forall i :: 0 <= i < |qs| ==> s[i] == PartValue(Only(chosen, vals), chosen)(qs[i])
  {
    s := [];
    for i := 0 to |qs|
      invariant |s| == i && forall j :: 0 <= j < i ==> s[j] == PartValue(Only(chosen, vals), chosen)(qs[j])
    {
      s := s + [Only(chosen, vals)(chosen, qs[i])];
    }
  }

  lemma OthersApart(parts: seq<Clauses>, chosen: nat)
    requires PairwiseApart(parts) && chosen < |parts|
    ensures var others := Others(parts, chosen); PairwiseApart(others) && Support(Flat(others, |others|)) !! Support(parts[chosen])
  {
    var others := Others(parts, chosen);
    forall a, b | 0 <= a < b < |others| ensures Support(others[a]) !! Support(others[b]) {
      assert Support(parts[if a < chosen then a else a + 1]) !! Support(parts[if b < chosen then b else b + 1]);
    }
    FlatSupport(others, |others|);
    forall v | v in Support(Flat(others, |others|)) ensures v !in Support(parts[chosen]) {
      var b :| 0 <= b < |others| && v in Support(others[b]);
      assert Support(parts[if b < chosen then b else b + 1]) !! Support(parts[chosen]);
    }
  }

  lemma OneFactorAt(rows: seq<Row>, d: Decomposition, chosen: nat, vals: map<set<nat>, int>, values: seq<int>, w: World)
    requires IsBlock(rows, d) && chosen < |d.parts| && DependsOn(rows, d, chosen, vals) && |values| == |d.parts[chosen]|
    requires forall i :: 0 <= i < |values| ==> values[i] == PartValue(Only(chosen, vals), chosen)(d.parts[chosen][i])
    ensures Sum(rows, w) == Sum(Zip(d.parts[chosen], values), w) * Count(Cross(Others(d.parts, chosen), |d.parts| - 1), w)
  {
    hide Sizes;
    OnlySeparates(rows, d, chosen, vals);
    BlockMultiplied(rows, d, Only(chosen, vals), 1, w);
    OnlySum(LeavesOf(rows), d, chosen, vals, |d.parts|, w);
    ZipValues(d.parts[chosen], values, PartValue(Only(chosen, vals), chosen), w);
  }

  // ----- How far such sums reach -----

  /** The rows with their weights made positive. */
  function Positive(rows: seq<Row>): (r: seq<Row>)
    ensures |r| == |rows| && LeavesOf(r) == LeavesOf(rows)
    ensures forall i :: 0 <= i < |rows| ==> r[i] == Row(rows[i].leaves, Abs(rows[i].weight))
  {
    seq(|rows|, i requires 0 <= i < |rows| => Row(rows[i].leaves, Abs(rows[i].weight)))
  }

  /** A world in which the first n variables are true. */
  function AllOn(n: nat): (w: World)
    ensures |w| == n && forall v: nat :: v < n ==> True(w, v)
  {
    seq(n, _ => 1)
  }

  lemma {:induction false} BulkIsSum(rows: seq<Row>, n: nat)
    requires forall i, l :: 0 <= i < |rows| && l in rows[i].leaves ==> l < n
    ensures Sum(Positive(rows), AllOn(n)) == Bulk(rows)
  {
    if rows != [] {
      var init, r := rows[..|rows| - 1], rows[|rows| - 1];
      assert Positive(rows)[..|rows| - 1] == Positive(init);
      BulkIsSum(init, n);
      assert AllTrue(AllOn(n), r.leaves);
    }
  }

  lemma {:induction false} AllCounted(cls: Clauses, n: nat)
    requires forall c, l :: c in cls && l in c ==> l < n
    ensures Count(cls, AllOn(n)) == |cls|
  {
    if cls != [] {
      var init, c := cls[..|cls| - 1], cls[|cls| - 1];
      assert cls == init + [c];
      AllCounted(init, n);
      SumAppend(init, c, Here(AllOn(n)));
      assert AllTrue(AllOn(n), c);
    }
  }

  function PositiveValues(vals: map<set<nat>, int>): (m: map<set<nat>, int>)
    ensures m.Keys == vals.Keys && forall q :: q in vals ==> m[q] == Abs(vals[q])
  {
    map q | q in vals :: Abs(vals[q])
  }

  /** The values given are those of the chosen parts. */
  ghost predicate Gives(d: Decomposition, chosen: nat, vals: map<set<nat>, int>, values: seq<int>) {
    && chosen < |d.parts| && |values| == |d.parts[chosen]|
    && forall i :: 0 <= i < |values| ==> values[i] == PartValue(Only(chosen, vals), chosen)(d.parts[chosen][i])
  }

  function PositiveSeq(values: seq<int>): (s: seq<int>)
    ensures |s| == |values| && forall i :: 0 <= i < |values| ==> s[i] == Abs(values[i])
  {
    seq(|values|, i requires 0 <= i < |values| => Abs(values[i]))
  }

  lemma PositiveBlock(rows: seq<Row>, d: Decomposition, chosen: nat, vals: map<set<nat>, int>, values: seq<int>)
    requires IsBlock(rows, d) && DependsOn(rows, d, chosen, vals) && Gives(d, chosen, vals, values)
    ensures IsBlock(Positive(rows), d) && DependsOn(Positive(rows), d, chosen, PositiveValues(vals))
    ensures Gives(d, chosen, PositiveValues(vals), PositiveSeq(values))
    ensures Zip(d.parts[chosen], PositiveSeq(values)) == Positive(Zip(d.parts[chosen], values))
  {
    hide IsDecomposition;
  }

  /** All weights together are those of the chosen factor, once for every combination of
      the others. */
  lemma OneFactorBulk(rows: seq<Row>, d: Decomposition, chosen: nat, vals: map<set<nat>, int>, values: seq<int>, n: nat)
    requires IsBlock(rows, d) && DependsOn(rows, d, chosen, vals) && Gives(d, chosen, vals, values)
    requires forall l :: l in Support(LeavesOf(rows)) ==> l < n
    ensures Bulk(rows) == Bulk(Zip(d.parts[chosen], values)) * |Cross(Others(d.parts, chosen), |d.parts| - 1)|
  {
    hide Only;
    hide DependsOn;
    hide IsBlock;
    hide Bulk;
    hide Sum;
    hide Count;
    hide AllOn;
    PositiveBlock(rows, d, chosen, vals, values);
    LeavesBounded(rows, d, chosen, values, n);
    BulkIsSum(rows, n);
    BulkIsSum(Zip(d.parts[chosen], values), n);
    AllCounted(Cross(Others(d.parts, chosen), |d.parts| - 1), n);
    OneFactorAt(Positive(rows), d, chosen, PositiveValues(vals), PositiveSeq(values), AllOn(n));
  }

  lemma LeavesBounded(rows: seq<Row>, d: Decomposition, chosen: nat, values: seq<int>, n: nat)
    requires IsBlock(rows, d) && chosen < |d.parts| && |values| == |d.parts[chosen]| && forall l :: l in Support(LeavesOf(rows)) ==> l < n
    ensures forall i, l :: 0 <= i < |rows| && l in rows[i].leaves ==> l < n
    ensures forall i, l :: 0 <= i < |values| && l in Zip(d.parts[chosen], values)[i].leaves ==> l < n
    ensures |d.parts| >= 1 && forall c, l :: c in Cross(Others(d.parts, chosen), |d.parts| - 1) && l in c ==> l < n
  {
    hide Sizes;
    hide IsDecomposition;
    hide Support;
    hide Cross;
    var others, cls := Others(d.parts, chosen), LeavesOf(rows);
    FactorsApart(cls, d);
    DecomposedParts(rows, d);
    RowsBounded(rows, n);
    assert forall l :: l in Support(d.parts[chosen]) ==> l in Support(cls);
    RowsBounded(Zip(d.parts[chosen], values), n);
    CrossWithin(others, |others|);
    FlatSupport(others, |others|);
    forall c, l | c in Cross(others, |others|) && l in c ensures l < n {
      assert l in Support(Flat(others, |others|));
      var b :| 0 <= b < |others| && l in Support(others[b]);
      assert Support(d.parts[if b < chosen then b else b + 1]) <= Support(cls);
    }
  }

  lemma DecomposedParts(rows: seq<Row>, d: Decomposition)
    requires IsDecomposition(LeavesOf(rows), d)
    ensures |d.parts| >= 2
  {
  }

  lemma RowsBounded(rows: seq<Row>, n: nat)
    requires forall l :: l in Support(LeavesOf(rows)) ==> l < n
    ensures forall i, l :: 0 <= i < |rows| && l in rows[i].leaves ==> l < n
  {
    forall i, l | 0 <= i < |rows| && l in rows[i].leaves ensures l < n {
      var cls := LeavesOf(rows);
      assert l in cls[i];
      assert l in Support(cls);
    }
  }

  // ----- Its keys -----

  /** The products of a factor's sums and the counts of the others are reachable. */
  lemma OneFactorKeys(rows: seq<Row>, d: Decomposition, chosen: nat, vals: map<set<nat>, int>, values: seq<int>, n: nat,
                      xs: set<int>, cs: set<int>, zs: set<int>)
    requires IsBlock(rows, d) && rows != [] && DependsOn(rows, d, chosen, vals) && Gives(d, chosen, vals, values)
    requires forall l :: l in Support(LeavesOf(rows)) ==> l < n
    requires Reachable(xs, Zip(d.parts[chosen], values)) && Combined(TimesInt(), xs, cs, zs)
    requires forall c :: c in cs ==> 0 <= c <= |Cross(Others(d.parts, chosen), |d.parts| - 1)|
    ensures Reachable(zs, rows)
  {
    var part, m := Zip(d.parts[chosen], values), |Cross(Others(d.parts, chosen), |d.parts| - 1)|;
    OneFactorBulk(rows, d, chosen, vals, values, n);
    ValuesAreWeights(rows, d, chosen, vals, values);
    BulkBounds(part);
    hide IsBlock;
    hide DependsOn;
    hide Gives;
    hide Spans;
    hide Bulk;
    forall z | z in zs ensures -Bulk(rows) <= z <= Bulk(rows) && Spans(rows, z) {
      var x, c :| x in xs && c in cs && z == TimesInt()(x, c);
      BoundedProduct(x, Bulk(part), c, m);
      SpansMore(part, rows, x);
      SpansTimes(rows, x, c);
    }
  }

  lemma BoundedProduct(x: int, w: int, c: int, m: int)
    requires -w <= x <= w && 0 <= c <= m
    ensures -(w * m) <= x * c <= w * m
  {
    assert x * c <= w * c <= w * m;
    assert x * c >= -w * c >= -w * m;
  }

  lemma ChosenEmbeds(rows: seq<Row>, d: Decomposition, chosen: nat, vals: map<set<nat>, int>, values: seq<int>)
    requires IsBlock(rows, d) && rows != [] && DependsOn(rows, d, chosen, vals) && Gives(d, chosen, vals, values)
    ensures exists rest :: Embeds(Zip(d.parts[chosen], values), rows, rest, 0)
  {
    var ref, sub := rows[0].leaves, Zip(d.parts[chosen], values);
    var rest := ref - Projection(ref, d.factor, chosen);
    BlockParts(rows, d);
    forall i | 0 <= i < |sub| ensures sub[i].leaves !! rest && Row(sub[i].leaves + rest, sub[i].weight + 0) in rows {
      ChosenRow(rows, d, chosen, vals, d.parts[chosen][i]);
    }
    assert Embeds(sub, rows, rest, 0);
  }

  lemma ChosenRow(rows: seq<Row>, d: Decomposition, chosen: nat, vals: map<set<nat>, int>, q: set<nat>)
    requires IsBlock(rows, d) && rows != [] && DependsOn(rows, d, chosen, vals) && chosen < |d.parts| && q in d.parts[chosen]
    ensures var ref := rows[0].leaves;
            var rest := ref - Projection(ref, d.factor, chosen);
            q !! rest && Row(q + rest, PartValue(Only(chosen, vals), chosen)(q)) in rows
  {
    hide IsDecomposition;
    var ref := rows[0].leaves;
    var j := MovedIsRow(rows, d, 0, chosen, q);
    MovedProjection(ref, d.factor, chosen, q, chosen);
    assert rows[j] in rows;
    assert rows[j].leaves == q + (ref - Projection(ref, d.factor, chosen));
  }

  lemma ValuesAreWeights(rows: seq<Row>, d: Decomposition, chosen: nat, vals: map<set<nat>, int>, values: seq<int>)
    requires IsBlock(rows, d) && rows != [] && DependsOn(rows, d, chosen, vals) && Gives(d, chosen, vals, values)
    ensures WeightsIn(Zip(d.parts[chosen], values), rows)
  {
    hide IsBlock;
    hide DependsOn;
    ChosenEmbeds(rows, d, chosen, vals, values);
    var sub := Zip(d.parts[chosen], values);
    var rest :| Embeds(sub, rows, rest, 0);
    EmbeddedWeights(sub, rows, rest);
  }

  lemma EmbeddedWeights(sub: seq<Row>, rows: seq<Row>, rest: set<nat>)
    requires Embeds(sub, rows, rest, 0)
    ensures WeightsIn(sub, rows)
  {
    forall r | r in sub ensures exists t :: t in rows && t.weight == r.weight {
      var i :| 0 <= i < |sub| && sub[i] == r;
      assert Row(r.leaves + rest, r.weight + 0) in rows;
    }
  }

  // ----- Weights that separate both ways -----

  lemma {:induction false} DifferentTerm(u: Valuation, factor: map<nat, nat>, c: set<nat>, e: set<nat>, k: nat) returns (f: nat)
    requires Added(u, factor, c, k) != Added(u, factor, e, k)
    ensures f < k && u(f, Projection(c, factor, f)) != u(f, Projection(e, factor, f))
  {
    if u(k - 1, Projection(c, factor, k - 1)) != u(k - 1, Projection(e, factor, k - 1)) {
      f := k - 1;
    } else {
      f := DifferentTerm(u, factor, c, e, k - 1);
    }
  }

  /** Where factor f conflicts, the value of another factor's parts varies. */
  lemma OtherVaries(rows: seq<Row>, d: Decomposition, u: Valuation, f: nat) returns (g: nat, r1: set<nat>, r2: set<nat>)
    requires IsBlock(rows, d) && AddSeparates(rows, d, u) && Conflict(rows, d, f)
    ensures g < |d.parts| && g != f && r1 in d.parts[g] && r2 in d.parts[g] && u(g, r1) != u(g, r2)
  {
    hide IsDecomposition;
    var i, j :| 0 <= i < |rows| && 0 <= j < |rows| && rows[i].weight != rows[j].weight
      && Projection(rows[i].leaves, d.factor, f) == Projection(rows[j].leaves, d.factor, f);
    WeightIs(rows, d, u, i);
    WeightIs(rows, d, u, j);
    g := DifferentTerm(u, d.factor, rows[i].leaves, rows[j].leaves, |d.parts|);
    r1, r2 := Projection(rows[i].leaves, d.factor, g), Projection(rows[j].leaves, d.factor, g);
  }

  /** What the first member keeps when its parts of two factors are exchanged. */
  ghost function Rest(rows: seq<Row>, d: Decomposition, f: nat, g: nat): set<nat>
    requires rows != []
  {
    var ref := rows[0].leaves;
    ref - Projection(ref, d.factor, f) - Projection(ref, d.factor, g)
  }

  lemma TwoExchanged(rows: seq<Row>, d: Decomposition, u: Valuation, f: nat, q: set<nat>, g: nat, r: set<nat>) returns (j: nat)
    requires IsBlock(rows, d) && rows != [] && AddSeparates(rows, d, u)
    requires f < |d.parts| && g < |d.parts| && f != g && q in d.parts[f] && r in d.parts[g]
    ensures j < |rows| && rows[j].leaves == Rest(rows, d, f, g) + q + r && Rest(rows, d, f, g) !! q && (Rest(rows, d, f, g) + q) !! r
    ensures rows[j].weight == rows[0].weight + u(f, q) - u(f, Projection(rows[0].leaves, d.factor, f))
                              + u(g, r) - u(g, Projection(rows[0].leaves, d.factor, g))
  {
    hide IsDecomposition;
    hide Added;
    var ref := rows[0].leaves;
    var i := MovedIsRow(rows, d, 0, f, q);
    var c := rows[i].leaves;
    j := MovedIsRow(rows, d, i, g, r);
    forall h: nat ensures Projection(c, d.factor, h) == if h == f then q else Projection(ref, d.factor, h) {
      MovedProjection(ref, d.factor, f, q, h);
    }
    forall h: nat ensures Projection(rows[j].leaves, d.factor, h) == if h == g then r else Projection(c, d.factor, h) {
      MovedProjection(c, d.factor, g, r, h);
    }
    AddedMoved(u, d.factor, ref, c, f, q, |d.parts|);
    AddedMoved(u, d.factor, c, rows[j].leaves, g, r, |d.parts|);
    SeparatedAt(rows, d, u, 0);
    SeparatedAt(rows, d, u, j);
  }

  lemma SeparatedAt(rows: seq<Row>, d: Decomposition, u: Valuation, i: nat)
    requires AddSeparates(rows, d, u) && i < |rows|
    ensures rows[i].weight == Added(u, d.factor, rows[i].leaves, |d.parts|)
  {
  }

  lemma ProductWeight(rows: seq<Row>, v: seq<int>, k: int, j: nat, rest: set<nat>, q: set<nat>, r: set<nat>)
    requires Formed(rows, Products, v, k) && j < |rows| && rows[j].leaves == rest + q + r && rest !! q && (rest + q) !! r
    ensures rows[j].weight == k * ((LeafTimes(v, rest) * LeafTimes(v, q)) * LeafTimes(v, r))
  {
    hide LeafTimes;
    assert rows[j] in rows;
    LeafTimesUnion(v, rest + q, r);
    LeafTimesUnion(v, rest, q);
  }

  /** Of four members that differ in two factors, both pairs across multiply to the same. */
  lemma Rectangle(rows: seq<Row>, d: Decomposition, u: Valuation, v: seq<int>, k: int,
                  f: nat, q1: set<nat>, q2: set<nat>, g: nat, r1: set<nat>, r2: set<nat>) returns (p: int)
    requires IsBlock(rows, d) && rows != [] && AddSeparates(rows, d, u) && Formed(rows, Products, v, k)
    requires f < |d.parts| && g < |d.parts| && f != g && q1 in d.parts[f] && q2 in d.parts[f] && r1 in d.parts[g] && r2 in d.parts[g]
    ensures var a, b := u(f, q2) - u(f, q1), u(g, r2) - u(g, r1); p * (p + a + b) == (p + b) * (p + a)
  {
    hide *;
    var rest := Rest(rows, d, f, g);
    var j11 := TwoExchanged(rows, d, u, f, q1, g, r1);
    var j12 := TwoExchanged(rows, d, u, f, q1, g, r2);
    var j21 := TwoExchanged(rows, d, u, f, q2, g, r1);
    var j22 := TwoExchanged(rows, d, u, f, q2, g, r2);
    ProductWeight(rows, v, k, j11, rest, q1, r1);
    ProductWeight(rows, v, k, j12, rest, q1, r2);
    ProductWeight(rows, v, k, j21, rest, q2, r1);
    ProductWeight(rows, v, k, j22, rest, q2, r2);
    p := rows[j11].weight;
    AcrossEqual(k, LeafTimes(v, rest), LeafTimes(v, q1), LeafTimes(v, q2), LeafTimes(v, r1), LeafTimes(v, r2),
                  p, rows[j12].weight, rows[j21].weight, rows[j22].weight);
    FourCorners(p, rows[j12].weight, rows[j21].weight, rows[j22].weight, u(f, q2) - u(f, q1), u(g, r2) - u(g, r1));
  }

  lemma AcrossEqual(k: int, s: int, a: int, b: int, x: int, y: int, w11: int, w12: int, w21: int, w22: int)
    requires w11 == k * ((s * a) * x) && w12 == k * ((s * a) * y) && w21 == k * ((s * b) * x) && w22 == k * ((s * b) * y)
    ensures w11 * w22 == w12 * w21
  {
    Crosswise(k, s, a, b, x, y);
  }

  lemma FourCorners(p: int, w12: int, w21: int, w22: int, a: int, b: int)
    requires w12 == p + b && w21 == p + a && w22 == p + a + b && p * w22 == w12 * w21
    ensures p * (p + a + b) == (p + b) * (p + a)
  {
  }

  /** Weights that are sums and products alike depend on one factor. */
  lemma NotBothWays(rows: seq<Row>, d: Decomposition, u: Valuation)
    requires IsBlock(rows, d) && rows != [] && AddSeparates(rows, d, u) && HasForm(rows, Products)
    ensures exists f: nat :: f < |d.parts| && !Conflict(rows, d, f)
  {
    var v: seq<int>, k: int :| Formed(rows, Products, v, k);
    NotBothForms(rows, d, u, v, k);
  }

  lemma NotBothForms(rows: seq<Row>, d: Decomposition, u: Valuation, v: seq<int>, k: int)
    requires IsBlock(rows, d) && rows != [] && AddSeparates(rows, d, u) && Formed(rows, Products, v, k)
    ensures exists f: nat :: f < |d.parts| && !Conflict(rows, d, f)
  {
    hide *;
    BlockParts(rows, d);
    if Conflict(rows, d, 0) {
      var f, q1, q2 := OtherVaries(rows, d, u, 0);
      if Conflict(rows, d, f) {
        var g, r1, r2 := OtherVaries(rows, d, u, f);
        var p := Rectangle(rows, d, u, v, k, f, q1, q2, g, r1, r2);
        NoRectangle(p, u(f, q2) - u(f, q1), u(g, r2) - u(g, r1));
      }
    }
  }

  lemma Crosswise(k: int, s: int, a: int, b: int, x: int, y: int)
    ensures (k * ((s * a) * x)) * (k * ((s * b) * y)) == (k * ((s * a) * y)) * (k * ((s * b) * x))
  {
  }

  lemma NoRectangle(p: int, a: int, b: int)
    requires a != 0 && b != 0
    ensures p * (p + a + b) != (p + b) * (p + a)
  {
    assert (p + b) * (p + a) == p * (p + a + b) + a * b;
    if a > 0 && b > 0 {
      assert a * b > 0;
    } else if a < 0 && b < 0 {
      assert a * b == (-a) * (-b) > 0;
    } else if a > 0 {
      assert a * b == -(a * (-b)) < 0;
    } else {
      assert a * b == -((-a) * b) < 0;
    }
  }

  // ----- A decomposed block is one independence block -----

  /** Any two members of a product are coupled by a third. */
  lemma MembersCoupled(rows: seq<Row>, d: Decomposition, i: nat, j: nat)
    requires IsBlock(rows, d) && i < |rows| && j < |rows|
    ensures Coupled(Elements(LeavesOf(rows)), LeavesOf(rows)[i], LeavesOf(rows)[j])
  {
    hide IsDecomposition;
    hide Projection;
    hide Projected;
    hide Within;
    var cls := LeavesOf(rows);
    var c, e := cls[i], cls[j];
    BlockParts(rows, d);
    MemberParts(rows, d, i, 0);
    MemberParts(rows, d, j, 1);
    var q := Projection(c, d.factor, 0);
    var k := MovedIsRow(rows, d, j, 0, q);
    MixedMember(d.factor, c, e);
    ChainOfThree(cls, c, cls[k], e);
  }

  lemma MemberParts(rows: seq<Row>, d: Decomposition, i: nat, f: nat)
    requires IsDecomposition(LeavesOf(rows), d) && i < |rows| && f < |d.parts|
    ensures Projection(LeavesOf(rows)[i], d.factor, f) in d.parts[f] && Projection(LeavesOf(rows)[i], d.factor, f) != {}
    ensures LeavesOf(rows)[i] in LeavesOf(rows)
  {
    hide Sizes;
    assert LeavesOf(rows)[i] in LeavesOf(rows);
    MemberComposed(LeavesOf(rows), d, LeavesOf(rows)[i]);
  }

  /** With the first part of c and the other parts of e, it has leaves of both. */
  lemma MixedMember(factor: map<nat, nat>, c: set<nat>, e: set<nat>)
    requires Projection(c, factor, 0) != {} && Projection(e, factor, 1) != {}
    ensures !(c !! Moved(e, factor, 0, Projection(c, factor, 0))) && !(Moved(e, factor, 0, Projection(c, factor, 0)) !! e)
  {
    var q := Projection(c, factor, 0);
    var l :| l in q;
    assert l in c && l in Moved(e, factor, 0, q);
    var h :| h in Projection(e, factor, 1);
    assert h in e && h in Moved(e, factor, 0, q);
  }

  lemma ChainOfThree(cls: Clauses, c: set<nat>, m: set<nat>, e: set<nat>)
    requires c in cls && m in cls && e in cls && !(c !! m) && !(m !! e)
    ensures Coupled(Elements(cls), c, e)
  {
    var path := [c, m, e];
    assert IsClauseChain(Elements(cls), path) && path[0] == c && path[|path| - 1] == e;
  }

  lemma {:induction false} AllCoupled(s: Clauses, cs: set<set<nat>>, c: set<nat>)
    requires forall x :: x in s ==> Coupled(cs, c, x)
    ensures CoupledIn(s, cs, c) == s
  {
    hide Coupled;
    if s != [] {
      var init := s[..|s| - 1];
      assert s == init + [s[|s| - 1]];
      AllCoupled(init, cs, c);
    }
  }

  /** So it is accepted as a whole when it is accepted as a block. */
  lemma ProductAccepts(rows: seq<Row>, d: Decomposition)
    requires IsBlock(rows, d) && BlockAccepts(LeavesOf(rows), Any)
    ensures Accepts(LeavesOf(rows), Any)
  {
    hide BlockAccepts;
    hide IsBlock;
    hide Coupled;
    var cls := LeavesOf(rows);
    forall c | c in cls ensures Support(BlockOf(cls, c)) <= Support(cls) && BlockAccepts(BlockOf(cls, c), Any) {
      var i :| 0 <= i < |cls| && cls[i] == c;
      MemberNonempty(rows, d, i);
      forall x | x in cls ensures Coupled(Elements(cls), c, x) {
        var j :| 0 <= j < |cls| && cls[j] == x;
        MembersCoupled(rows, d, i, j);
      }
      AllCoupled(cls, Elements(cls), c);
    }
  }

  lemma MemberNonempty(rows: seq<Row>, d: Decomposition, i: nat)
    requires IsBlock(rows, d) && i < |rows|
    ensures LeavesOf(rows)[i] != {}
  {
    hide Sizes;
    assert LeavesOf(rows)[i] in LeavesOf(rows);
    assert Projection(LeavesOf(rows)[i], d.factor, 0) != {};
  }

  // ----- Blocks that are made of leaf values -----

  /** A decomposed block with weights made of leaf values, accepted factors, and room. */
  ghost predicate Makeable(rows: seq<Row>, d: Decomposition) {
    && IsBlock(rows, d) && rows != [] && (HasForm(rows, Sums) || HasForm(rows, Products)) && RoomyPairs(rows)
    && forall f: nat :: f < |d.parts| ==> Accepts(d.parts[f], Any)
  }

  /** Rows inside the block over one of its factors can be summed like it. */
  lemma InsideMakeable(rows: seq<Row>, d: Decomposition, f: nat, part: seq<Row>, rest: set<nat>)
    requires Makeable(rows, d) && f < |d.parts| && LeavesOf(part) == d.parts[f] && Embeds(part, rows, rest, 0)
    ensures (Separable(part, Sums) || Separable(part, Products)) && RoomyPairs(part)
  {
    hide IsBlock;
    hide HasForm;
    hide Accepts;
    hide RoomyPairs;
    hide Roomable;
    EmbeddedDistinct(part, rows, rest);
    hide Embeds;
    if HasForm(rows, Sums) { EmbedsForm(part, rows, rest, 0, Sums); }
    if HasForm(rows, Products) { EmbedsForm(part, rows, rest, 0, Products); }
    EmbedsRoom(part, rows, rest, 0);
  }

  lemma EmbeddedDistinct(part: seq<Row>, rows: seq<Row>, rest: set<nat>)
    requires Embeds(part, rows, rest, 0)
    ensures Distinct(LeavesOf(part))
  {
  }

  lemma ChosenReady(rows: seq<Row>, d: Decomposition, chosen: nat, vals: map<set<nat>, int>, values: seq<int>)
    requires Makeable(rows, d) && DependsOn(rows, d, chosen, vals) && Gives(d, chosen, vals, values)
    ensures var part := Zip(d.parts[chosen], values);
            (Separable(part, Sums) || Separable(part, Products)) && RoomyPairs(part)
  {
    hide IsBlock;
    hide HasForm;
    hide Accepts;
    hide RoomyPairs;
    hide DependsOn;
    hide Embeds;
    ChosenEmbeds(rows, d, chosen, vals, values);
    var rest :| Embeds(Zip(d.parts[chosen], values), rows, rest, 0);
    InsideMakeable(rows, d, chosen, Zip(d.parts[chosen], values), rest);
  }
}
