/** MIN and MAX in closed form over contributors that share no leaf: products of absence
    probabilities, equal to what the general recursion computes.  */
module MinMaxClosedForm {
  import opened Reals
  import opened Worlds
  import opened Probability
  import opened MonotoneDnf
  import opened Sequences
  import opened Contributors
  import opened Comparisons
  import opened ExtremeValues
  import opened AllAbsent
  import opened MinMaxHaving
  import opened CountHaving

  /** The product of the absence probabilities of the first k contributors that pass. */
  ghost function Product(q: seq<real>, vals: seq<int>, test: Test, k: nat): real
    requires k <= |q| == |vals|
  {
    if k == 0 then 1.0
    else if test(vals[k - 1]) then Mul(Product(q, vals, test, k - 1), 1.0 - q[k - 1])
    else Product(q, vals, test, k - 1)
  }

  method QProd(q: seq<real>, vals: seq<int>, test: Test) returns (r: real)
    requires |q| == |vals|
    ensures r == Product(q, vals, test, |q|)
  {
    r := 1.0;
    for i := 0 to |q|
      invariant r == Product(q, vals, test, i)
    {
      if test(vals[i]) {
        r := Mul(r, 1.0 - q[i]);
      }
    }
  }

  function Complementary(test: Test): Test {
    v => !test(v)
  }

  function EqualTest(c: int): Test {
    v => v == c
  }

  /** Products over tests that exclude each other multiply to the product over either. */
  lemma {:induction false} ProductSplit(q: seq<real>, vals: seq<int>, a: Test, b: Test, either: Test, k: nat)
    requires k <= |q| == |vals| && forall v :: either(v) == (a(v) || b(v)) && !(a(v) && b(v))
    ensures Product(q, vals, either, k) == Mul(Product(q, vals, a, k), Product(q, vals, b, k))
  {
    hide Mul;
    if k == 0 {
      MulOne(1.0);
    } else {
      ProductSplit(q, vals, a, b, either, k - 1);
      var x, y, z := Product(q, vals, a, k - 1), Product(q, vals, b, k - 1), 1.0 - q[k - 1];
      MulMove(x, y, z);
      MulMove(x, z, y);
      MulComm(y, z);
    }
  }

  /** The closed form of Pr(agg op c), empty group excluded. */
  ghost function Closed(q: seq<real>, vals: seq<int>, agg: Extreme, op: Comparison, c: int): real
    requires |q| == |vals|
  {
    var all, past, reach := Product(q, vals, Any(), |q|), Product(q, vals, PastTest(agg, c), |q|), Product(q, vals, ReachTest(agg, c), |q|);
    var equal := Mul(past, 1.0 - Product(q, vals, EqualTest(c), |q|));
    match Facing(agg, op)
    case GE => 1.0 - reach
    case GT => 1.0 - past
    case LE => Mul(past, 1.0 - Product(q, vals, Complementary(PastTest(agg, c)), |q|))
    case LT => Mul(reach, 1.0 - Product(q, vals, Complementary(ReachTest(agg, c)), |q|))
    case EQ => equal
    case NE => (1.0 - all) - equal
  }

  method CdfForOperator(q: seq<real>, vals: seq<int>, agg: Extreme, op: Comparison, c: int) returns (r: real)
    requires |q| == |vals|
    ensures r == Closed(q, vals, agg, op, c)
  {
    hide Product;
    hide Mul;
    var facing := Facing(agg, op);
    var past := QProd(q, vals, PastTest(agg, c));
    var reach := QProd(q, vals, ReachTest(agg, c));
    if facing == GE {
      return 1.0 - reach;
    }
    if facing == GT {
      return 1.0 - past;
    }
    if facing == LE {
      var rest := QProd(q, vals, Complementary(PastTest(agg, c)));
      return Mul(past, 1.0 - rest);
    }
    if facing == LT {
      var rest := QProd(q, vals, Complementary(ReachTest(agg, c)));
      return Mul(reach, 1.0 - rest);
    }
    var same := QProd(q, vals, EqualTest(c));
    var equal := Mul(past, 1.0 - same);
    if facing == EQ {
      return equal;
    }
    var all := QProd(q, vals, Any());
    r := (1.0 - all) - equal;
  }

  lemma OneLess(x: real, y: real)
    ensures Mul(x, 1.0 - y) == x - Mul(x, y)
  {
  }

  /** All six closed forms are differences of absence probabilities. */
  lemma ClosedIsCombined(q: seq<real>, vals: seq<int>, agg: Extreme, op: Comparison, c: int)
    requires |q| == |vals|
    ensures Closed(q, vals, agg, op, c)
         == Combined(Facing(agg, op), Product(q, vals, Any(), |q|), Product(q, vals, PastTest(agg, c), |q|),
                     Product(q, vals, ReachTest(agg, c), |q|))
  {
    var n := |q|;
    var pastTest, reachTest := PastTest(agg, c), ReachTest(agg, c);
    ProductSplit(q, vals, pastTest, Complementary(pastTest), Any(), n);
    ProductSplit(q, vals, reachTest, Complementary(reachTest), Any(), n);
    ProductSplit(q, vals, pastTest, EqualTest(c), reachTest, n);
    hide Product;
    hide Mul;
    OneLess(Product(q, vals, pastTest, n), Product(q, vals, Complementary(pastTest), n));
    OneLess(Product(q, vals, reachTest, n), Product(q, vals, Complementary(reachTest), n));
    OneLess(Product(q, vals, pastTest, n), Product(q, vals, EqualTest(c), n));
  }

  /** The product over leaf-disjoint contributors is the probability that none is present. */
  lemma {:induction false} ProductAbsent(p: seq<real>, g: Group, q: seq<real>, test: Test, k: nat)
    requires GroupOk(p, g) && Independent(p, g.leaves, q) && k <= |q|
    ensures Product(q, g.vals, test, k) == Absent(p, Passing(g, test, k))
  {
    if k == 0 {
      AbsentNothing(p);
    } else {
      ProductAbsent(p, g, q, test, k - 1);
      if test(g.vals[k - 1]) {
        var sub, c := Passing(g, test, k - 1), g.leaves[k - 1];
        AbsentSingle(p, c);
        PassingApart(g, test, k - 1);
        SingleSupport(c);
        hide Mul;
        hide DnfPr;
        IndependentMul(p, sub, [c]);
      }
    }
  }

  lemma IndependentMul(p: seq<real>, a: Clauses, b: Clauses)
    requires Unit(p) && Support(a) !! Support(b)
    ensures Absent(p, a + b) == Mul(Absent(p, a), Absent(p, b))
  {
    DnfIndependent(p, a, b);
  }

  lemma SingleSupport(c: set<nat>)
    ensures Support([c]) == c
  {
    assert [c][0] == c;
  }

  lemma PassingApart(g: Group, test: Test, k: nat)
    requires k < |g.leaves| == |g.vals| && LeafDisjoint(g.leaves)
    ensures Support(Passing(g, test, k)) !! g.leaves[k]
  {
    var sub := Passing(g, test, k);
    forall v | v in Support(sub) ensures v !in g.leaves[k] {
      var i :| 0 <= i < |sub| && v in sub[i];
      assert sub[i] in sub;
      InPassing(g, test, k, sub[i]);
    }
  }

  /** Without blocks, on contributors that share no leaf, the closed form is exact. */
  lemma ClosedFormMass(p: seq<real>, g: Group, q: seq<real>, agg: Extreme, op: Comparison, c: int)
    requires GroupOk(p, g) && g.blocks == [] && Independent(p, g.leaves, q)
    ensures Closed(q, g.vals, agg, op, c) == Pr(GroupSpace(p, g), AggHolds(g, |p|, agg, op, c))
  {
    forall test ensures Product(q, g.vals, test, |q|) == Pr(GroupSpace(p, g), NoneWhere(g, |p|, test)) {
      ProductAbsent(p, g, q, test, |q|);
      NoneOfLeavesPr(p, g, test);
    }
    hide Pr;
    hide Product;
    hide Closed;
    ClosedIsCombined(q, g.vals, agg, op, c);
    AggPr(p, g, agg, op, c);
  }
}
