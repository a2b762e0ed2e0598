/** HAVING MIN(...) op C and MAX(...) op C over independent contributors and blocks of
    mutually exclusive alternatives, the empty group excluded.  */
module MinMaxHaving {
  import opened Reals
  import opened Worlds
  import opened Probability
  import opened Categorical
  import opened Sequences
  import opened MonotoneDnf
  import opened Contributors
  import opened Comparisons
  import opened ExtremeValues
  import opened AllAbsent
  import Acceptance

  // ----- The probability that nothing passes a test -----

  lemma NoneOfLeavesPr(p: seq<real>, g: Group, test: Test)
    requires GroupOk(p, g)
    ensures Pr(GroupSpace(p, g), NoneTo(g, |p|, 0, test)) == Absent(p, Passing(g, test, |g.leaves|))
  {
    var d, more, e, sub := Bern(p), ChoiceSpace(g.blocks), NoneTo(g, |p|, 0, test), Passing(g, test, |g.leaves|);
    GroupProb(p, g);
    PassingLeaves(p, g, test);
    NoneOfLeavesDecided(p, g, test);
    DnfReads(sub);
    forall w ensures e(w) == !Satisfied(sub)(w) { NoneOfLeaves(g, |p|, test, w); }
    forall u | Possible(d + more, u) ensures e(u) == e(u[..|d|]) {
      forall v | v in Support(sub) ensures True(u, v) == True(u[..|d|], v) {}
      assert Satisfied(sub)(u) == Satisfied(sub)(u[..|d|]);
    }
    hide Pr;
    hide NoneTo;
    hide DecidedBy;
    ExtendPr(d, more, e, FirstVars(|p|));
    PrNot(d, Satisfied(sub), e);
  }

  /** The weight left to a block that must not choose a passing alternative. */
  function Spared(blk: Block, test: Test): real {
    1.0 - Weight(blk, test, |blk|)
  }

  lemma NoneStepPr(p: seq<real>, g: Group, test: Test, k: nat)
    requires GroupOk(p, g) && k < |g.blocks|
    ensures Pr(GroupSpace(p, g), NoneTo(g, |p|, k + 1, test))
         == Mul(Pr(GroupSpace(p, g), NoneTo(g, |p|, k, test)), Spared(g.blocks[k], test))
  {
    hide Pr;
    hide NoneTo;
    hide Picked;
    hide DecidedBy;
    hide Mul;
    var d, x, blk := GroupSpace(p, g), |p| + k, g.blocks[k];
    var before, pick := NoneTo(g, |p|, k, test), Picked(blk, x, test, |blk|);
    GroupProb(p, g);
    NoneToDecided(p, g, test, k);
    PickedDecided(d, blk, x, test, |blk|);
    assert d[x] == Choices(blk);
    PickedPr(d, blk, x, test, |blk|);
    DecidedAnd(d, pick, pick, {x});
    forall w ensures NoneTo(g, |p|, k + 1, test)(w) == (before(w) && !pick(w)) { NoneToStep(g, |p|, k, test, w); }
    PrNot(d, pick, Not(pick));
    PrIndepMul(d, before, FirstVars(x), Not(pick), {x}, NoneTo(g, |p|, k + 1, test));
  }

  lemma {:induction false} WeightMono(blk: Block, test: Test, k: nat)
    requires k <= |blk| && forall j :: 0 <= j < |blk| ==> blk[j].prob >= 0.0
    ensures 0.0 <= Weight(blk, test, k) <= Weight(blk, Any(), k)
  {
    if k > 0 { WeightMono(blk, test, k - 1); }
  }

  lemma BlockWeight(p: seq<real>, g: Group, b: nat, test: Test)
    requires GroupOk(p, g) && b < |g.blocks|
    ensures Weight(g.blocks[b], test, |g.blocks[b]|) <= 1.0
  {
    assert BlockOk(g.blocks[b]);
    WeightMono(g.blocks[b], test, |g.blocks[b]|);
  }

  method SubGroup(g: Group, test: Test) returns (sub: Clauses)
    requires |g.leaves| == |g.vals|
    ensures sub == Passing(g, test, |g.leaves|)
  {
    sub := [];
    for i := 0 to |g.leaves|
      invariant sub == Passing(g, test, i)
    {
      if test(g.vals[i]) {
        sub := sub + [g.leaves[i]];
      }
    }
  }

  method PassingWeight(blk: Block, test: Test) returns (s: real)
    ensures s == Weight(blk, test, |blk|)
  {
    s := 0.0;
    for j := 0 to |blk|
      invariant s == Weight(blk, test, j)
    {
      if test(blk[j].value) {
        s := s + blk[j].prob;
      }
    }
  }

  /** r is the probability that nothing passing comes from the leaves or the first k blocks. */
  ghost predicate ExactTo(p: seq<real>, g: Group, test: Test, k: nat, r: real) {
    k <= |g.blocks| && r == Pr(GroupSpace(p, g), NoneTo(g, |p|, k, test))
  }

  /** What a clamped block weight leaves. */
  function Left(s: real): real {
    1.0 - (if s > 1.0 then 1.0 else s)
  }

  lemma ExactStep(p: seq<real>, g: Group, test: Test, k: nat, r: real)
    requires GroupOk(p, g) && k < |g.blocks| && ExactTo(p, g, test, k, r)
    ensures ExactTo(p, g, test, k + 1, Mul(r, Left(Weight(g.blocks[k], test, |g.blocks[k]|))))
  {
    BlockWeight(p, g, k, test);
    hide Pr;
    hide Mul;
    NoneStepPr(p, g, test, k);
  }

  lemma ExactStart(p: seq<real>, g: Group, test: Test, r: real)
    requires GroupOk(p, g) && r == Absent(p, Passing(g, test, |g.leaves|))
    ensures ExactTo(p, g, test, 0, r)
  {
    hide Pr;
    hide Absent;
    NoneOfLeavesPr(p, g, test);
  }

  /** The contributors that pass are ones the recursion accepts. */
  ghost predicate PassingAccepted(g: Group, test: Test)
    requires |g.leaves| == |g.vals|
  {
    Acceptance.Accepts(Passing(g, test, |g.leaves|), Acceptance.Any)
  }

  /** The leaf contributors that pass, through the recursion over shared leaves. */
  method LeavesAbsent(p: seq<real>, g: Group, test: Test) returns (r: real, ok: bool)
    requires GroupOk(p, g) && |g.leaves| == |g.vals|
    ensures ok <==> PassingAccepted(g, test)
    ensures ok && Distinct(g.leaves) ==> ExactTo(p, g, test, 0, r)
    ensures LeafDisjoint(g.leaves) ==> ok
  {
    var sub := SubGroup(g, test);
    PassingLeaves(p, g, test);
    hide Passing;
    if Distinct(g.leaves) { PassingDistinct(g, test, |g.leaves|); }
    if LeafDisjoint(g.leaves) { PassingDisjoint(g, test, |g.leaves|); }
    hide LeafDisjoint;
    hide Distinct;
    hide Absent;
    hide Acceptance.Accepts;
    r, ok := PAllAbsent(p, sub);
    if ok && Distinct(g.leaves) { ExactStart(p, g, test, r); }
  }

  /** The probability that no present contributor has a value passing the test. */
  method PAbsentWhere(p: seq<real>, g: Group, test: Test) returns (r: real, ok: bool)
    requires GroupOk(p, g) && |g.leaves| == |g.vals|
    ensures ok <==> PassingAccepted(g, test)
    ensures ok && Distinct(g.leaves) ==> ExactTo(p, g, test, |g.blocks|, r)
    ensures LeafDisjoint(g.leaves) ==> ok
  {
    hide *;
    r, ok := LeavesAbsent(p, g, test);
    for b := 0 to |g.blocks|
      invariant ok && Distinct(g.leaves) ==> ExactTo(p, g, test, b, r)
    {
      var s := PassingWeight(g.blocks[b], test);
      if ok && Distinct(g.leaves) { ExactStep(p, g, test, b, r); }
      r := Mul(r, Left(s));
    }
  }

  lemma {:induction false} PassingDisjoint(g: Group, test: Test, k: nat)
    requires k <= |g.leaves| == |g.vals| && LeafDisjoint(g.leaves)
    ensures LeafDisjoint(Passing(g, test, k))
  {
    if k > 0 {
      PassingDisjoint(g, test, k - 1);
      var init := Passing(g, test, k - 1);
      forall i | 0 <= i < |init| ensures init[i] !! g.leaves[k - 1] {
        InPassing(g, test, k - 1, init[i]);
        assert init[i] in init;
      }
    }
  }

  // ----- The greatest and the least value -----

  datatype Extreme = MIN | MAX

  /** a lies beyond c, in the direction the aggregate looks. */
  predicate Beyond(agg: Extreme, a: int, c: int) {
    if agg == MAX then a > c else a < c
  }

  function PastTest(agg: Extreme, c: int): Test {
    v => Beyond(agg, v, c)
  }

  function ReachTest(agg: Extreme, c: int): Test {
    v => v == c || Beyond(agg, v, c)
  }

  ghost predicate IsExtreme(agg: Extreme, s: set<int>, v: int) {
    v in s && forall u :: u in s ==> !Beyond(agg, u, v)
  }

  lemma {:induction false} ExtremeExists(agg: Extreme, s: set<int>)
    requires s != {}
    ensures exists v :: IsExtreme(agg, s, v)
  {
    var x := Member(s);
    var rest := s - {x};
    if rest == {} {
      assert s == {x};
      assert IsExtreme(agg, s, x);
    } else {
      ExtremeExists(agg, rest);
      var v :| IsExtreme(agg, rest, v);
      assert forall u :: u in s ==> u == x || u in rest;
      var most := if Beyond(agg, x, v) then x else v;
      assert IsExtreme(agg, s, most);
    }
  }

  /** The greatest or least present value compares as asked; false for the empty group. */
  ghost predicate ExtremeHolds(agg: Extreme, op: Comparison, s: set<int>, c: int) {
    exists v :: IsExtreme(agg, s, v) && Satisfies(op, v, c)
  }

  ghost function AggHolds(g: Group, n: nat, agg: Extreme, op: Comparison, c: int): Event {
    w => ExtremeHolds(agg, op, Values(g, n, w), c)
  }

  /** Operators as seen from the direction of the aggregate. */
  function Facing(agg: Extreme, op: Comparison): Comparison {
    if agg == MAX then op
    else if op == LE then GE
    else if op == LT then GT
    else if op == GE then LE
    else if op == GT then LT
    else op
  }

  /** A comparison decided by which values are absent: all of them, those past the bound,
      or those that reach it. */
  predicate ByAbsence(op: Comparison, none: bool, past: bool, reach: bool) {
    match op
    case GE => !reach
    case GT => !past
    case LE => past && !none
    case LT => reach && !none
    case EQ => past && !reach
    case NE => !none && !(past && !reach)
  }

  /** Every comparison of the extreme value, by which values are absent. */
  lemma ExtremeCases(agg: Extreme, op: Comparison, s: set<int>, c: int)
    ensures ExtremeHolds(agg, op, s, c)
         == ByAbsence(Facing(agg, op), NoneOf(s, Any()), NoneOf(s, PastTest(agg, c)), NoneOf(s, ReachTest(agg, c)))
  {
    if s == {} {
      assert NoneOf(s, Any());
    } else {
      ExtremeExists(agg, s);
      var v :| IsExtreme(agg, s, v);
      ExtremeUnique(agg, op, s, c, v);
      SomeOf(s, Any(), v);
      NoneIs(agg, s, c, v);
    }
  }

  lemma ExtremeUnique(agg: Extreme, op: Comparison, s: set<int>, c: int, v: int)
    requires IsExtreme(agg, s, v)
    ensures ExtremeHolds(agg, op, s, c) == Satisfies(op, v, c)
  {
  }

  lemma NoneIs(agg: Extreme, s: set<int>, c: int, v: int)
    requires IsExtreme(agg, s, v)
    ensures NoneOf(s, PastTest(agg, c)) == !Beyond(agg, v, c)
    ensures NoneOf(s, ReachTest(agg, c)) == !(v == c || Beyond(agg, v, c))
  {
    if Beyond(agg, v, c) { SomeOf(s, PastTest(agg, c), v); }
    if v == c || Beyond(agg, v, c) { SomeOf(s, ReachTest(agg, c), v); }
  }

  /** One minus, and differences of, probabilities of absence. */
  ghost function Combined(op: Comparison, none: real, past: real, reach: real): real {
    match op
    case GE => 1.0 - reach
    case GT => 1.0 - past
    case LE => past - none
    case LT => reach - none
    case EQ => past - reach
    case NE => (1.0 - none) - (past - reach)
  }

  lemma AggPr(p: seq<real>, g: Group, agg: Extreme, op: Comparison, c: int)
    requires GroupOk(p, g)
    ensures Pr(GroupSpace(p, g), AggHolds(g, |p|, agg, op, c))
         == Combined(Facing(agg, op), Pr(GroupSpace(p, g), NoneWhere(g, |p|, Any())),
                     Pr(GroupSpace(p, g), NoneWhere(g, |p|, PastTest(agg, c))),
                     Pr(GroupSpace(p, g), NoneWhere(g, |p|, ReachTest(agg, c))))
  {
    var d, n := GroupSpace(p, g), |p|;
    var e, none, past, reach := AggHolds(g, n, agg, op, c), NoneWhere(g, n, Any()),
                                NoneWhere(g, n, PastTest(agg, c)), NoneWhere(g, n, ReachTest(agg, c));
    GroupProb(p, g);
    forall w ensures e(w) == ByAbsence(Facing(agg, op), none(w), past(w), reach(w))
    {
      ExtremeCases(agg, op, Values(g, n, w), c);
    }
    forall w ensures (none(w) ==> reach(w)) && (reach(w) ==> past(w)) { Nested(agg, Values(g, n, w), c); }
    CombinedPr(d, Facing(agg, op), e, none, past, reach);
  }

  lemma Nested(agg: Extreme, s: set<int>, c: int)
    ensures NoneOf(s, Any()) ==> NoneOf(s, ReachTest(agg, c))
    ensures NoneOf(s, ReachTest(agg, c)) ==> NoneOf(s, PastTest(agg, c))
  {
    if !NoneOf(s, ReachTest(agg, c)) {
      var v :| v in s && ReachTest(agg, c)(v);
      SomeOf(s, Any(), v);
    }
    if !NoneOf(s, PastTest(agg, c)) {
      var v :| v in s && PastTest(agg, c)(v);
      SomeOf(s, ReachTest(agg, c), v);
    }
  }

  lemma CombinedPr(d: Space, op: Comparison, e: Event, none: Event, past: Event, reach: Event)
    requires Prob(d)
    requires forall w :: (none(w) ==> reach(w)) && (reach(w) ==> past(w))
    requires forall w :: e(w) == ByAbsence(op, none(w), past(w), reach(w))
    ensures Pr(d, e) == Combined(op, Pr(d, none), Pr(d, past), Pr(d, reach))
  {
    hide Pr;
    if op == GE {
      PrNot(d, reach, e);
    } else if op == GT {
      PrNot(d, past, e);
    } else if op == LE {
      PrSplit(d, none, e, past);
    } else if op == LT {
      PrSplit(d, none, e, reach);
    } else {
      var eq := And(past, Not(reach));
      PrSplit(d, reach, eq, past);
      if op == EQ {
        PrSame(d, e, eq);
      } else {
        assert op == NE;
        PrNot(d, none, Not(none));
        PrSplit(d, e, eq, Not(none));
      }
    }
  }

  /** The recursion accepts every set of contributors that the comparison asks about. */
  ghost predicate Answerable(g: Group, agg: Extreme, op: Comparison, c: int)
    requires |g.leaves| == |g.vals|
  {
    var facing := Facing(agg, op);
    && PassingAccepted(g, Any())
    && (facing in {GT, LE, EQ, NE} ==> PassingAccepted(g, PastTest(agg, c)))
    && (facing in {GE, LT, EQ, NE} ==> PassingAccepted(g, ReachTest(agg, c)))
  }

  /** HAVING MIN/MAX: each operator is a few absence probabilities. */
  method MinMaxProb(p: seq<real>, g: Group, agg: Extreme, op: Comparison, c: int) returns (pr: real, ok: bool)
    requires GroupOk(p, g) && |g.leaves| == |g.vals|
    ensures ok <==> Answerable(g, agg, op, c)
    ensures ok && Distinct(g.leaves) ==> pr == Pr(GroupSpace(p, g), AggHolds(g, |p|, agg, op, c))
    ensures LeafDisjoint(g.leaves) ==> ok
  {
    AggPr(p, g, agg, op, c);
    hide Pr;
    hide NoneWhere;
    hide AggHolds;
    hide GroupOk;
    hide PassingAccepted;
    var allAbsent, past, reach;
    allAbsent, ok := PAbsentWhere(p, g, Any());
    pr := 0.0;
    var facing := Facing(agg, op);
    var okPast, okReach := true, true;
    if facing == GE {
      reach, okReach := PAbsentWhere(p, g, ReachTest(agg, c));
      pr := 1.0 - reach;
    } else if facing == GT {
      past, okPast := PAbsentWhere(p, g, PastTest(agg, c));
      pr := 1.0 - past;
    } else if facing == LE {
      past, okPast := PAbsentWhere(p, g, PastTest(agg, c));
      pr := past - allAbsent;
    } else if facing == LT {
      reach, okReach := PAbsentWhere(p, g, ReachTest(agg, c));
      pr := reach - allAbsent;
    } else {
      past, okPast := PAbsentWhere(p, g, PastTest(agg, c));
      reach, okReach := PAbsentWhere(p, g, ReachTest(agg, c));
      pr := if facing == EQ then past - reach else (1.0 - allAbsent) - (past - reach);
    }
    ok := ok && okPast && okReach;
  }
}
