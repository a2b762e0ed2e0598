/** HAVING COUNT(...) op C: read off a count distribution, or computed in closed form for
    contributors that share no leaf.  The two answers agree.  */
module CountHaving {
  import opened Reals
  import opened Worlds
  import opened Probability
  import opened RandomValues
  import opened Sequences
  import opened SeqSums
  import opened MonotoneDnf
  import opened ClauseBlocks
  import opened Contributors
  import opened Comparisons
  import opened PoissonBinomial

  /** The count compares as asked; the empty group only qualifies for a scalar aggregate. */
  predicate Qualifies(n: nat, op: Comparison, C: int, scalar: bool) {
    (scalar || n >= 1) && Satisfies(op, n, C)
  }

  function CountHolds(X: World -> nat, op: Comparison, C: int, scalar: bool): Event {
    w => Qualifies(X(w), op, C, scalar)
  }

  // ----- Tail sums over a count vector -----

  /** The event restricted to counts from lo to below c. */
  ghost function Upto(X: World -> nat, op: Comparison, C: int, lo: nat, c: nat): Event {
    w => lo <= X(w) < c && Satisfies(op, X(w), C)
  }

  /** The sum of the entries, from lo on, whose index satisfies the comparison. */
  ghost function Selected(pmf: seq<real>, op: Comparison, C: int, lo: nat, c: nat): real
    requires lo <= c <= |pmf| || c <= lo
  {
    if c <= lo then 0.0
    else Selected(pmf, op, C, lo, c - 1) + (if Satisfies(op, c - 1, C) then pmf[c - 1] else 0.0)
  }

  lemma {:induction false} SelectedMass(p: seq<real>, pmf: seq<real>, X: World -> nat, op: Comparison, C: int, lo: nat, c: nat)
    requires Unit(p) && IsPmf(p, pmf, X) && (c <= |pmf| || c <= lo)
    ensures Selected(pmf, op, C, lo, c) == P(p, Upto(X, op, C, lo, c))
    decreases c
  {
    hide P;
    if c <= lo {
      NoEvent(p, Upto(X, op, C, lo, c));
    } else {
      SelectedMass(p, pmf, X, op, C, lo, c - 1);
      if Satisfies(op, c - 1, C) {
        SplitEvent(p, Upto(X, op, C, lo, c - 1), Is<nat>(X, c - 1), Upto(X, op, C, lo, c));
      } else {
        SameEvent(p, Upto(X, op, C, lo, c - 1), Upto(X, op, C, lo, c));
      }
    }
  }

  method PrFromPmf(pmf: seq<real>, op: Comparison, C: int, scalar: bool) returns (pr: real)
    ensures pr == Selected(pmf, op, C, if scalar then 0 else 1, |pmf|)
    ensures forall p, X :: Unit(p) && IsPmf(p, pmf, X) ==> pr == P(p, CountHolds(X, op, C, scalar))
  {
    pr := 0.0;
    var lo := if scalar then 0 else 1;
    var c := lo;
    while c < |pmf|
      invariant lo <= c && (c <= |pmf| || c == lo)
      invariant pr == Selected(pmf, op, C, lo, c)
    {
      if Satisfies(op, c, C) {
        pr := pr + pmf[c];
      }
      c := c + 1;
    }
    assert |pmf| < lo ==> Selected(pmf, op, C, lo, c) == Selected(pmf, op, C, lo, |pmf|);
    forall p, X | Unit(p) && IsPmf(p, pmf, X) ensures pr == P(p, CountHolds(X, op, C, scalar)) {
      SelectedHolds(p, pmf, X, op, C, scalar);
    }
  }

  /** Counts from lo on that satisfy the comparison: the HAVING predicate. */
  lemma SelectedHolds(p: seq<real>, pmf: seq<real>, X: World -> nat, op: Comparison, C: int, scalar: bool)
    requires Unit(p) && IsPmf(p, pmf, X)
    ensures Selected(pmf, op, C, if scalar then 0 else 1, |pmf|) == P(p, CountHolds(X, op, C, scalar))
  {
    var lo := if scalar then 0 else 1;
    SelectedMass(p, pmf, X, op, C, lo, |pmf|);
    hide P;
    forall w ensures Upto(X, op, C, lo, |pmf|)(w) == CountHolds(X, op, C, scalar)(w) {
      assert X(w) < |pmf|;
    }
    SameEvent(p, Upto(X, op, C, lo, |pmf|), CountHolds(X, op, C, scalar));
  }

  // ----- Contributors that share no leaf -----

  /** Contributors over disjoint leaves, with their probabilities. */
  ghost predicate Independent(p: seq<real>, contribs: Clauses, q: seq<real>) {
    && LeavesOk(p, contribs) && |q| == |contribs|
    && LeafDisjoint(contribs)
    && (forall i :: 0 <= i < |contribs| ==> q[i] == P(p, Present(contribs[i])))
  }

  function There(c: set<nat>): World -> bool {
    w => AllTrue(w, c)
  }

  lemma FreshSupport(contribs: Clauses, i: nat)
    requires i < |contribs| && LeafDisjoint(contribs)
    ensures Support(contribs[..i]) !! contribs[i]
  {
    forall v | v in Support(contribs[..i]) ensures v !in contribs[i] {
      var k :| 0 <= k < i && v in contribs[..i][k];
      assert contribs[k] !! contribs[i];
    }
  }

  ghost function MassBefore(p: seq<real>, X: World -> nat, j: nat): real {
    if j == 0 then 0.0 else Mass<nat>(p, X, j - 1)
  }

  /** One more independent event: stay at j without it, or reach j with it. */
  lemma GrowMass(p: seq<real>, X: World -> nat, vs: set<nat>, c: set<nat>, Y: World -> nat, j: nat)
    requires Unit(p) && Reads(X, vs) && vs !! c
    requires forall w :: Y(w) == X(w) + (if AllTrue(w, c) then 1 else 0)
    ensures Mass(p, Y, j) == Roll(Mass(p, X, j), MassBefore(p, X, j), P(p, Present(c)))
  {
    assert Reads(There(c), c);
    var without: Event := w => X(w) == j && !AllTrue(w, c);
    var with: Event := w => X(w) == j - 1 && AllTrue(w, c);
    hide P;
    hide Reads;
    hide Mul;
    hide Roll;
    SplitEvent(p, without, with, Is(Y, j));
    JointMul<nat, bool>(p, X, vs, There(c), c, j, false, without);
    SameEvent(p, Present(c), Is(There(c), true));
    ComplementEvent(p, Present(c), Is(There(c), false));
    if j > 0 {
      JointMul<nat, bool>(p, X, vs, There(c), c, j - 1, true, with);
    } else {
      NoEvent(p, with);
      MulZero(P(p, Present(c)));
    }
    RollIs(Mass(p, X, j), MassBefore(p, X, j), P(p, Present(c)));
  }

  lemma MassStep(p: seq<real>, contribs: Clauses, q: seq<real>, i: nat, j: nat)
    requires Independent(p, contribs, q) && i < |contribs|
    ensures Mass(p, CountOf(contribs[..i + 1]), j)
         == Roll(Mass(p, CountOf(contribs[..i]), j), MassBefore(p, CountOf(contribs[..i]), j), q[i])
  {
    var X, Y, c := CountOf(contribs[..i]), CountOf(contribs[..i + 1]), contribs[i];
    assert contribs[..i + 1] == contribs[..i] + [c];
    forall w ensures Y(w) == X(w) + (if AllTrue(w, c) then 1 else 0) { SumAppend(contribs[..i], c, Here(w)); }
    CountReads(contribs[..i]);
    FreshSupport(contribs, i);
    hide Roll;
    GrowMass(p, X, Support(contribs[..i]), c, Y, j);
  }

  lemma JointMul<S(!new), T(!new)>(p: seq<real>, X: World -> S, vs: set<nat>, Y: World -> T, us: set<nat>, a: S, b: T, e: Event)
    requires Unit(p) && Reads(X, vs) && Reads(Y, us) && vs !! us
    requires forall w :: e(w) == (X(w) == a && Y(w) == b)
    ensures P(p, e) == Mul(Mass(p, X, a), Mass(p, Y, b))
  {
    hide P;
    hide Reads;
    JointMass(p, X, vs, Y, us, a, b, e);
  }

  lemma RollIs(stay: real, move: real, x: real)
    ensures Roll(stay, move, x) == Mul(stay, 1.0 - x) + Mul(move, x)
  {
  }

  /** The recurrence computes the distribution of the count. */
  lemma {:induction false} TrialsMass(p: seq<real>, contribs: Clauses, q: seq<real>, i: nat, j: nat)
    requires Independent(p, contribs, q) && i <= |contribs|
    ensures Trials(q, i, j) == Mass(p, CountOf(contribs[..i]), j)
  {
    hide P;
    hide Roll;
    if i == 0 {
      EmptyCount(p, contribs, j);
    } else {
      MassStep(p, contribs, q, i - 1, j);
      TrialsMass(p, contribs, q, i - 1, j);
      if j > 0 { TrialsMass(p, contribs, q, i - 1, j - 1); }
    }
  }

  lemma EmptyCount(p: seq<real>, contribs: Clauses, j: nat)
    requires Unit(p)
    ensures Mass(p, CountOf(contribs[..0]), j) == if j == 0 then 1.0 else 0.0
  {
    var X := CountOf(contribs[..0]);
    hide P;
    if j == 0 { SureEvent(p, Is(X, j)); } else { NoEvent(p, Is(X, j)); }
  }

  function Under(X: World -> nat, c: nat): Event {
    w => X(w) < c
  }

  lemma {:induction false} FewerMass(p: seq<real>, contribs: Clauses, q: seq<real>, c: nat)
    requires Independent(p, contribs, q)
    ensures Fewer(q, |q|, c) == P(p, Under(CountOf(contribs), c))
  {
    hide P;
    hide Roll;
    var X := CountOf(contribs);
    if c == 0 {
      NoEvent(p, Under(X, 0));
    } else {
      FewerMass(p, contribs, q, c - 1);
      TrialsMass(p, contribs, q, |contribs|, c - 1);
      assert contribs[..|contribs|] == contribs;
      SplitEvent(p, Under(X, c - 1), Is<nat>(X, c - 1), Under(X, c));
    }
  }

  /** The closed-form value, empty group excluded. */
  ghost function Grouped(q: seq<real>, op: Comparison, C: int): real {
    match op
    case GE => 1.0 - Fewer(q, |q|, Clip(if C > 1 then C else 1))
    case GT => 1.0 - Fewer(q, |q|, Clip(if C + 1 > 1 then C + 1 else 1))
    case LE => if C < 1 then 0.0 else Fewer(q, |q|, Clip(C + 1)) - Fewer(q, |q|, 1)
    case LT => if C - 1 < 1 then 0.0 else Fewer(q, |q|, Clip(C)) - Fewer(q, |q|, 1)
    case EQ => if C < 1 then 0.0 else Trials(q, |q|, C)
    case NE => 1.0 - Fewer(q, |q|, 1) - (if C < 1 then 0.0 else Trials(q, |q|, C))
  }

  lemma GroupedMass(p: seq<real>, contribs: Clauses, q: seq<real>, op: Comparison, C: int)
    requires Independent(p, contribs, q)
    ensures Grouped(q, op, C) == P(p, CountHolds(CountOf(contribs), op, C, false))
  {
    var X := CountOf(contribs);
    var e := CountHolds(X, op, C, false);
    hide P;
    hide Independent;
    hide Trials;
    hide Fewer;
    var t := if op == GE || op == LT then Clip(C) else Clip(C + 1);
    FewerMass(p, contribs, q, if t > 1 then t else 1);
    FewerMass(p, contribs, q, 1);
    if C >= 0 {
      TrialsMass(p, contribs, q, |contribs|, C);
      assert contribs[..|contribs|] == contribs;
    }
    UnitOf(p, contribs, q);
    assert forall w :: e(w) == Qualifies(X(w), op, C, false);
    if op == GE || op == GT {
      ComplementEvent(p, Under(X, if t > 1 then t else 1), e);
    } else if op == LE || op == LT {
      if t <= 1 {
        NoEvent(p, e);
      } else {
        SplitEvent(p, Under(X, 1), e, Under(X, t));
      }
    } else if op == EQ {
      if C < 1 { NoEvent(p, e); } else { SameEvent(p, Is<nat>(X, C), e); }
    } else {
      assert op == NE;
      ComplementEvent(p, Under(X, 1), AtLeast(X, 1));
      if C < 1 { SameEvent(p, AtLeast(X, 1), e); } else { SplitEvent(p, Is<nat>(X, C), e, AtLeast(X, 1)); }
    }
  }

  lemma UnitOf(p: seq<real>, contribs: Clauses, q: seq<real>)
    requires Independent(p, contribs, q)
    ensures Unit(p) && |q| == |contribs|
  {
  }

  /** The closed-form value; the empty group is added back for a scalar aggregate. */
  ghost function ClosedForm(q: seq<real>, op: Comparison, C: int, scalar: bool): real {
    Grouped(q, op, C) + (if scalar && Satisfies(op, 0, C) then Trials(q, |q|, 0) else 0.0)
  }

  method CdfForOperator(q: seq<real>, op: Comparison, C: int, scalar: bool) returns (r: real)
    ensures r == ClosedForm(q, op, C, scalar)
  {
    var n := |q|;
    hide Fewer;
    hide Trials;
    var zero := ProbZero(q);
    FewerOne(q);
    if op == GE {
      r := ProbAtLeast(q, if C > 1 then C else 1);
    } else if op == GT {
      r := ProbAtLeast(q, if C + 1 > 1 then C + 1 else 1);
    } else if op == LE || op == LT {
      var c := if op == LE then C else C - 1;
      var t := if c < n then c else n;
      if c >= 0 { FewerClipped(q, c); }
      if t < 1 {
        r := 0.0;
      } else {
        r := ProbAtMost(q, t);
        r := r - zero;
      }
    } else {
      if C > n { NoMoreThanTrials(q, n, C); }
      var eq := 0.0;
      if 1 <= C <= n {
        eq := ProbEqual(q, C);
      }
      r := if op == EQ then eq else 1.0 - zero - eq;
    }
    if scalar && Satisfies(op, 0, C) {
      r := r + zero;
    }
  }

  lemma FewerOne(q: seq<real>)
    ensures Fewer(q, |q|, 1) == Trials(q, |q|, 0)
  {
    assert Fewer(q, |q|, 0) == 0.0;
  }

  /** Asking for at most c of n trials is asking for at most min(c, n). */
  lemma FewerClipped(q: seq<real>, c: int)
    requires c >= 0
    ensures Fewer(q, |q|, c + 1) == Fewer(q, |q|, (if c < |q| then c else |q|) + 1)
  {
    if c >= |q| {
      FewerBeyond(q, c + 1);
      FewerBeyond(q, |q| + 1);
    }
  }

  /** On contributors that share no leaf the closed form is the probability of the predicate. */
  lemma ClosedFormMass(p: seq<real>, contribs: Clauses, q: seq<real>, op: Comparison, C: int, scalar: bool)
    requires Independent(p, contribs, q)
    ensures ClosedForm(q, op, C, scalar) == P(p, CountHolds(CountOf(contribs), op, C, scalar))
  {
    var X := CountOf(contribs);
    hide P;
    hide Independent;
    hide Grouped;
    GroupedMass(p, contribs, q, op, C);
    UnitOf(p, contribs, q);
    TrialsMass(p, contribs, q, |contribs|, 0);
    assert contribs[..|contribs|] == contribs;
    var grouped, e := CountHolds(X, op, C, false), CountHolds(X, op, C, scalar);
    forall w ensures e(w) == (grouped(w) || (scalar && Satisfies(op, 0, C) && X(w) == 0)) {
      assert e(w) == Qualifies(X(w), op, C, scalar) && grouped(w) == Qualifies(X(w), op, C, false);
    }
    if scalar && Satisfies(op, 0, C) {
      forall w ensures !(grouped(w) && X(w) == 0) { assert grouped(w) == Qualifies(X(w), op, C, false); }
      SplitEvent(p, grouped, Is<nat>(X, 0), e);
    } else {
      SameEvent(p, grouped, e);
    }
  }

  /** Where both apply, the closed form and the recursive count distribution agree. */
  lemma FlatAgrees(p: seq<real>, contribs: Clauses, q: seq<real>, pmf: seq<real>, op: Comparison, C: int, scalar: bool)
    requires Independent(p, contribs, q) && IsPmf(p, pmf, CountOf(contribs))
    ensures ClosedForm(q, op, C, scalar) == Selected(pmf, op, C, if scalar then 0 else 1, |pmf|)
  {
    var lo := if scalar then 0 else 1;
    hide P;
    hide ClosedForm;
    UnitOf(p, contribs, q);
    ClosedFormMass(p, contribs, q, op, C, scalar);
    SelectedMass(p, pmf, CountOf(contribs), op, C, lo, |pmf|);
    SelectedHolds(p, pmf, CountOf(contribs), op, C, scalar);
  }
}
