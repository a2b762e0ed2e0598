/** The anytime d-tree on AND / OR / NOT / IN circuits: refine a probability interval by
    independent components and Shannon expansion, memoising exact subproblems.  */
module CircuitDTree {
  import opened Outcomes
  import opened Reals
  import opened Worlds
  import opened Probability
  import opened BooleanCircuit
  import opened CircuitCones
  import opened CircuitGroups
  import opened Intervals
  import Blocks
  import Sequences
  import opened Frequency
  import KeyText
  import Sorting

  // ----- What a memo entry means -----

  /** A subproblem: an operator over supported gates, under an assignment of variables. */
  ghost predicate Problem(c: Circuit, gs: seq<nat>, A: map<nat, bool>) {
    AllSupported(c, gs) && Assigns(c, A)
  }

  ghost function KeyOf(c: Circuit, op: Op, gs: seq<nat>, A: map<nat, bool>): string
    requires Problem(c, gs, A)
  {
    KeyText.Key(op.Disj?, gs, FootprintOf(c, gs), A, |c.kind|)
  }

  ghost predicate EntryFor(c: Circuit, key: string, x: real, op: Op, gs: seq<nat>, A: map<nat, bool>) {
    Problem(c, gs, A) && key == KeyOf(c, op, gs, A) && x == GroupPr(c, A, op, gs)
  }

  /** The entry is the exact probability of some subproblem with that key. */
  ghost predicate SoundEntry(c: Circuit, key: string, x: real) {
    exists op, gs, A :: EntryFor(c, key, x, op, gs, A)
  }

  /** A hit answers the problem asked, whichever problem wrote it. */
  lemma MemoHit(c: Circuit, op: Op, gs: seq<nat>, A: map<nat, bool>, x: real)
    requires Problem(c, gs, A) && SoundEntry(c, KeyOf(c, op, gs, A), x)
    ensures x == GroupPr(c, A, op, gs)
  {
    var op', gs', A' :| EntryFor(c, KeyOf(c, op, gs, A), x, op', gs', A');
    hide GroupPr;
    hide KeyText.Key;
    KeyText.KeyInjective(op.Disj?, gs, FootprintOf(c, gs), A, op'.Disj?, gs', FootprintOf(c, gs'), A', |c.kind|);
    FootprintInRange(c, gs);
    GroupRestrict(c, A, A', op, gs);
  }

  lemma {:induction false} FootprintGates(c: Circuit, g: nat)
    requires IsGate(c, g)
    ensures forall v :: v in Footprint(c, g) ==> v < |c.kind| && c.kind[v].InGate? && 0.0 < c.prob[v] < 1.0
    decreases c.rank[g]
  {
    if c.kind[g].AndGate? || c.kind[g].OrGate? || c.kind[g].NotGate? {
      forall k | 0 <= k < |c.wires[g]|
        ensures forall v :: v in Footprint(c, c.wires[g][k]) ==> v < |c.kind| && c.kind[v].InGate? && 0.0 < c.prob[v] < 1.0
      {
        FootprintGates(c, c.wires[g][k]);
      }
    }
  }

  lemma FootprintInRange(c: Circuit, gs: seq<nat>)
    requires AreGates(c, gs)
    ensures forall v :: v in FootprintOf(c, gs) ==> v < |c.kind| && c.kind[v].InGate? && 0.0 < c.prob[v] < 1.0
  {
    forall g | g in gs
      ensures forall v :: v in Footprint(c, g) ==> v < |c.kind| && c.kind[v].InGate? && 0.0 < c.prob[v] < 1.0
    {
      FootprintGates(c, g);
    }
  }

  lemma SubSupported(c: Circuit, xs: seq<nat>, ys: seq<nat>)
    requires AllSupported(c, ys) && forall k :: 0 <= k < |xs| ==> xs[k] in ys
    ensures AllSupported(c, xs) && forall g :: g in xs ==> g in ys
  {
    forall g | g in xs ensures g in ys {
      var k :| 0 <= k < |xs| && xs[k] == g;
    }
  }

  lemma ComponentGates(c: Circuit, A: map<nat, bool>, live: seq<nat>, comps: seq<seq<nat>>, b: nat)
    requires Problem(c, live, A) && AreComponents(c, live, A, comps) && b < |comps|
    ensures Problem(c, comps[b], A) && forall g :: g in comps[b] ==> g in live
  {
    forall k | 0 <= k < |comps[b]| ensures comps[b][k] in live { assert comps[b][k] in comps[b]; }
    SubSupported(c, comps[b], live);
  }

  // ----- Single gates -----

  lemma InputPr(c: Circuit, g: nat, A: map<nat, bool>)
    requires IsGate(c, g) && c.kind[g].InGate?
    ensures GatePr(c, A, g) == if g in A then (if A[g] then 1.0 else 0.0) else c.prob[g]
  {
    var p := Given(c.prob, A);
    Marginal(p, g);
    LeftProb(c, A);
    hide Pr;
    PrSame(Left(c, A), Holds(c, g), w => True(w, g));
  }

  lemma NegatedPr(c: Circuit, g: nat, A: map<nat, bool>)
    requires IsGate(c, g) && c.kind[g].NotGate?
    ensures GatePr(c, A, g) == 1.0 - GatePr(c, A, c.wires[g][0])
  {
    LeftProb(c, A);
    assert forall w :: Holds(c, g)(w) == !Holds(c, c.wires[g][0])(w);
    hide Pr;
    PrNot(Left(c, A), Holds(c, c.wires[g][0]), Holds(c, g));
  }

  lemma DeterminedPr(c: Circuit, g: nat, A: map<nat, bool>)
    requires IsGate(c, g) && Supported(c, g) && Assigns(c, A) && Footprint(c, g) <= A.Keys
    ensures GatePr(c, A, g) == if EvalDet(c, g, A) then 1.0 else 0.0
  {
    LeftProb(c, A);
    forall w | Possible(Left(c, A), w) ensures Holds(c, g)(w) == EvalDet(c, g, A) {
      EvalDetCorrect(c, g, A, w);
    }
    hide Pr;
    PrSure(Left(c, A), Holds(c, g));
  }

  lemma WiresSupported(c: Circuit, g: nat)
    requires IsGate(c, g) && Supported(c, g) && !c.kind[g].InGate?
    ensures AllSupported(c, c.wires[g]) && forall h :: h in c.wires[g] ==> c.rank[h] < c.rank[g]
  {
    WiresAreGates(c, g);
    forall h | h in c.wires[g] ensures Supported(c, h) {
      var k :| 0 <= k < |c.wires[g]| && c.wires[g][k] == h;
    }
  }

  // ----- Children that are still open -----

  /** live are the children not fixed by A; dropping the others does not change the group. */
  ghost predicate LiveOf(c: Circuit, op: Op, children: seq<nat>, A: map<nat, bool>, live: seq<nat>) {
    && Problem(c, children, A) && AllSupported(c, live) && |live| <= |children|
    && (forall g :: g in live ==> g in children && Free(c, g, A) != {})
    && (forall w :: Possible(Left(c, A), w) ==> GroupEval(c, op, children, w) == GroupEval(c, op, live, w))
  }

  lemma LivePr(c: Circuit, op: Op, children: seq<nat>, A: map<nat, bool>, live: seq<nat>)
    requires LiveOf(c, op, children, A, live)
    ensures GroupPr(c, A, op, children) == GroupPr(c, A, op, live)
    ensures FreeOf(c, live, A) <= FreeOf(c, children, A)
    ensures |FreeOf(c, live, A)| <= |FreeOf(c, children, A)|
  {
    LeftProb(c, A);
    Sequences.SubsetSize(FreeOf(c, live, A), FreeOf(c, children, A));
    hide Pr;
    PrSame(Left(c, A), GroupHolds(c, op, children), GroupHolds(c, op, live));
  }

  lemma EmptyLive(c: Circuit, op: Op, A: map<nat, bool>)
    requires Assigns(c, A)
    ensures LiveOf(c, op, [], A, [])
  {
  }

  lemma GroupAppend(c: Circuit, op: Op, xs: seq<nat>, g: nat, w: World)
    requires AreGates(c, xs) && IsGate(c, g)
    ensures AreGates(c, xs + [g])
    ensures GroupEval(c, op, xs + [g], w) ==
            if op.Conj? then GroupEval(c, op, xs, w) && Eval(c, g, w) else GroupEval(c, op, xs, w) || Eval(c, g, w)
  {
    assert g in xs + [g] && forall h :: h in xs ==> h in xs + [g];
  }

  lemma AbsorbedPr(c: Circuit, op: Op, children: seq<nat>, g: nat, A: map<nat, bool>)
    requires Problem(c, children, A) && g in children && Footprint(c, g) <= A.Keys && EvalDet(c, g, A) == op.Disj?
    ensures GroupPr(c, A, op, children) == if op.Conj? then 0.0 else 1.0
  {
    LeftProb(c, A);
    forall w | Possible(Left(c, A), w) ensures GroupHolds(c, op, children)(w) == op.Disj? {
      EvalDetCorrect(c, g, A, w);
    }
    hide Pr;
    PrSure(Left(c, A), GroupHolds(c, op, children));
  }

  lemma DropStep(c: Circuit, op: Op, xs: seq<nat>, g: nat, A: map<nat, bool>, live: seq<nat>)
    requires LiveOf(c, op, xs, A, live)
    requires IsGate(c, g) && Supported(c, g) && Footprint(c, g) <= A.Keys && EvalDet(c, g, A) == op.Conj?
    ensures LiveOf(c, op, xs + [g], A, live)
  {
    forall w | Possible(Left(c, A), w) ensures GroupEval(c, op, xs + [g], w) == GroupEval(c, op, live, w) {
      EvalDetCorrect(c, g, A, w);
      GroupAppend(c, op, xs, g, w);
    }
  }

  lemma KeepStep(c: Circuit, op: Op, xs: seq<nat>, g: nat, A: map<nat, bool>, live: seq<nat>)
    requires LiveOf(c, op, xs, A, live)
    requires IsGate(c, g) && Supported(c, g) && !(Footprint(c, g) <= A.Keys)
    ensures LiveOf(c, op, xs + [g], A, live + [g])
  {
    forall w | Possible(Left(c, A), w) ensures GroupEval(c, op, xs + [g], w) == GroupEval(c, op, live + [g], w) {
      GroupAppend(c, op, xs, g, w);
      GroupAppend(c, op, live, g, w);
    }
    assert Free(c, g, A) != {};
  }

  function Ascending(): (nat, nat) -> bool {
    (x: nat, y: nat) => x <= y
  }

  lemma SortLive(c: Circuit, op: Op, children: seq<nat>, A: map<nat, bool>, live: seq<nat>)
    requires LiveOf(c, op, children, A, live)
    ensures LiveOf(c, op, children, A, Sorting.Sort(Ascending(), live))
  {
    var s := Sorting.Sort(Ascending(), live);
    Sorting.SameMembers(s, live);
  }

  /** The variables of one child are among those of the gate. */
  lemma FreeShrinks(c: Circuit, h: nat, g: nat, A: map<nat, bool>)
    requires IsGate(c, g) && Supported(c, g) && c.kind[g].NotGate? && h == c.wires[g][0]
    ensures IsGate(c, h) && Supported(c, h) && c.rank[h] < c.rank[g]
    ensures |Free(c, h, A)| <= |Free(c, g, A)|
  {
    Sequences.SubsetSize(Free(c, h, A), Free(c, g, A));
  }

  lemma FreeOfOne(c: Circuit, g: nat, gs: seq<nat>, A: map<nat, bool>)
    requires AreGates(c, gs) && g in gs
    ensures Free(c, g, A) <= FreeOf(c, gs, A) && |Free(c, g, A)| <= |FreeOf(c, gs, A)|
  {
    Sequences.SubsetSize(Free(c, g, A), FreeOf(c, gs, A));
  }

  lemma SingleLive(c: Circuit, op: Op, live: seq<nat>, A: map<nat, bool>)
    requires Problem(c, live, A) && |live| == 1
    ensures IsGate(c, live[0]) && Supported(c, live[0]) && Assigns(c, A) && live[0] in live
    ensures GroupPr(c, A, op, live) == GatePr(c, A, live[0])
    ensures |Free(c, live[0], A)| <= |FreeOf(c, live, A)|
  {
    hide GroupPr;
    assert live == [live[0]] && live[0] in live;
    SingleGroup(c, A, op, live[0]);
    FreeOfOne(c, live[0], live, A);
  }

  lemma FreeNonEmpty(c: Circuit, live: seq<nat>, A: map<nat, bool>)
    requires Problem(c, live, A) && live != [] && forall g :: g in live ==> Free(c, g, A) != {}
    ensures FreeOf(c, live, A) != {}
  {
    assert live[0] in live;
    var v :| v in Free(c, live[0], A);
    assert v in FreeOf(c, live, A);
  }

  lemma FreeOfSub(c: Circuit, xs: seq<nat>, ys: seq<nat>, A: map<nat, bool>)
    requires AreGates(c, ys) && forall g :: g in xs ==> g in ys
    ensures |FreeOf(c, xs, A)| <= |FreeOf(c, ys, A)|
  {
    Sequences.SubsetSize(FreeOf(c, xs, A), FreeOf(c, ys, A));
  }

  lemma AssignFree(c: Circuit, gs: seq<nat>, A: map<nat, bool>, x: nat, b: bool)
    requires Problem(c, gs, A) && x in FreeOf(c, gs, A)
    ensures IsGate(c, x) && 0.0 <= c.prob[x] <= 1.0 && x !in A && Problem(c, gs, A[x := b])
  {
    FootprintInRange(c, gs);
    hide FootprintOf;
    hide AllSupported;
    assert Assigns(c, A[x := b]);
  }

  lemma FreeOfAssigned(c: Circuit, gs: seq<nat>, A: map<nat, bool>, x: nat, b: bool)
    requires Problem(c, gs, A) && x in FreeOf(c, gs, A)
    ensures |FreeOf(c, gs, A[x := b])| < |FreeOf(c, gs, A)|
  {
    assert FreeOf(c, gs, A[x := b]) == FreeOf(c, gs, A) - {x};
  }

  lemma Overwrite(A: map<nat, bool>, x: nat)
    ensures A[x := true][x := false] == A[x := false]
    ensures x !in A ==> A[x := false] - {x} == A
  {
  }

  /** The product over the first k components is enclosed and has spent k shares of width. */
  ghost predicate Running(c: Circuit, A: map<nat, bool>, op: Op, comps: seq<seq<nat>>, k: nat, run: Interval, share: real) {
    && k <= |comps| && AllSupported(c, Prefix(comps, k))
    && Encloses(run, Part(c, A, op, Prefix(comps, k)))
    && Width(run) <= Spent(k, share)
  }

  lemma RunningStart(c: Circuit, A: map<nat, bool>, op: Op, comps: seq<seq<nat>>)
    requires WellFormed(c)
    ensures forall share :: Running(c, A, op, comps, 0, Interval(1.0, 1.0), share)
  {
    hide GroupPr;
    EmptyGroup(c, A, op);
    forall share ensures Spent(0, share) == 0.0 { SpentStep(0, share); }
  }

  lemma RunningStep(c: Circuit, A: map<nat, bool>, op: Op, live: seq<nat>, comps: seq<seq<nat>>, k: nat, run: Interval, r: Interval, share: real)
    requires Problem(c, live, A) && AreComponents(c, live, A, comps) && k < |comps|
    requires Running(c, A, op, comps, k, run, share)
    requires Problem(c, comps[k], A) && Within(r, GroupPr(c, A, op, comps[k]), share)
    ensures Running(c, A, op, comps, k + 1, Product(run, PartOf(op, r)), share)
  {
    hide GroupPr;
    hide Product;
    hide AreComponents;
    hide Spent;
    hide Prefix;
    hide AllSupported;
    hide Target;
    hide Part;
    hide PartOf;
    ComponentStep(c, A, op, live, comps, k, run, r);
    SpentStep(k, share);
  }

  lemma RunningAll(c: Circuit, A: map<nat, bool>, op: Op, live: seq<nat>, comps: seq<seq<nat>>, run: Interval, share: real)
    requires Problem(c, live, A) && AreComponents(c, live, A, comps)
    requires Running(c, A, op, comps, |comps|, run, share)
    ensures Encloses(PartOf(op, run), GroupPr(c, A, op, live))
  {
    hide GroupPr;
    AllComponents(c, A, op, live, comps);
  }

  lemma BoundedStep(c: Circuit, A: map<nat, bool>, op: Op, live: seq<nat>, comps: seq<seq<nat>>, k: nat, run: Interval, r: Interval)
    requires Problem(c, live, A) && AreComponents(c, live, A, comps) && k < |comps|
    requires Running(c, A, op, comps, k, run, 1.0)
    requires Problem(c, comps[k], A) && Encloses(r, GroupPr(c, A, op, comps[k]))
    ensures Running(c, A, op, comps, k + 1, Product(run, PartOf(op, r)), 1.0)
  {
    hide GroupPr;
    hide Running;
    hide AreComponents;
    RunningStep(c, A, op, live, comps, k, run, r, 1.0);
  }

  lemma RunningEnd(c: Circuit, A: map<nat, bool>, op: Op, live: seq<nat>, comps: seq<seq<nat>>, run: Interval, w: real)
    requires Problem(c, live, A) && AreComponents(c, live, A, comps) && |comps| > 0
    requires Running(c, A, op, comps, |comps|, run, w / |comps| as real)
    ensures Within(PartOf(op, run), GroupPr(c, A, op, live), w)
  {
    hide GroupPr;
    ShareOut(w, |comps|);
    AllComponents(c, A, op, live, comps);
  }

  lemma ShannonMul(c: Circuit, A: map<nat, bool>, op: Op, gs: seq<nat>, x: nat)
    requires Problem(c, gs, A) && IsGate(c, x) && x !in A
    ensures GroupPr(c, A, op, gs) ==
            Mean(c.prob[x], GroupPr(c, A[x := true], op, gs), GroupPr(c, A[x := false], op, gs))
  {
    hide GroupPr;
    GroupShannon(c, A, op, gs, x);
  }

  // ----- The pivot -----

  lemma PivotExists(c: Circuit, live: seq<nat>, A: map<nat, bool>, keys: seq<set<nat>>)
    requires Problem(c, live, A) && AreKeys(c, live, A, keys) && FreeOf(c, live, A) != {}
    ensures exists i :: 0 <= i < |keys| && keys[i] != {}
    ensures forall i, v :: 0 <= i < |keys| && v in keys[i] ==> v < |c.kind|
  {
    FootprintInRange(c, live);
    var v :| v in FreeOf(c, live, A);
    var g :| g in live && v in Footprint(c, g);
    var i :| 0 <= i < |live| && live[i] == g;
    assert v in keys[i];
    forall j, u | 0 <= j < |keys| && u in keys[j] ensures u < |c.kind| {
      assert live[j] in live;
      assert u in FootprintOf(c, live);
    }
  }

  lemma PivotFree(c: Circuit, live: seq<nat>, A: map<nat, bool>, keys: seq<set<nat>>, x: nat)
    requires Problem(c, live, A) && AreKeys(c, live, A, keys) && IsMostFrequent(keys, x)
    ensures x in FreeOf(c, live, A)
  {
    var i :| 0 <= i < |keys| && x in keys[i];
    assert live[i] in live;
  }

  // ----- Case facts for the refinement methods -----

  lemma ProblemGates(c: Circuit, gs: seq<nat>, A: map<nat, bool>)
    requires Problem(c, gs, A)
    ensures AreGates(c, gs)
  {
  }

  lemma GateFacts(c: Circuit, g: nat)
    requires IsGate(c, g) && Supported(c, g)
    ensures 0.0 <= c.prob[g] <= 1.0
    ensures c.kind[g].InGate? || c.kind[g].NotGate? || c.kind[g].AndGate? || c.kind[g].OrGate?
    ensures c.kind[g].NotGate? ==> |c.wires[g]| > 0
  {
  }

  lemma OpenInput(c: Circuit, g: nat, A: map<nat, bool>)
    requires IsGate(c, g) && c.kind[g].InGate? && !(Footprint(c, g) <= A.Keys)
    ensures GatePr(c, A, g) == c.prob[g]
  {
    hide GatePr;
    InputPr(c, g, A);
  }

  lemma OpenGroup(c: Circuit, g: nat, A: map<nat, bool>)
    requires IsGate(c, g) && Supported(c, g) && Assigns(c, A) && (c.kind[g].AndGate? || c.kind[g].OrGate?)
    ensures Problem(c, c.wires[g], A) && AreGates(c, c.wires[g])
    ensures forall h :: h in c.wires[g] ==> c.rank[h] < c.rank[g]
    ensures GatePr(c, A, g) == GroupPr(c, A, if c.kind[g].AndGate? then Conj else Disj, c.wires[g])
    ensures |FreeOf(c, c.wires[g], A)| == |Free(c, g, A)|
  {
    hide GroupPr;
    hide GatePr;
    WiresSupported(c, g);
    GateIsGroup(c, g, A);
  }

  lemma LiveFacts(c: Circuit, op: Op, children: seq<nat>, A: map<nat, bool>, live: seq<nat>)
    requires LiveOf(c, op, children, A, live)
    ensures Problem(c, live, A) && Assigns(c, A) && AreGates(c, live) && AreGates(c, children) && |live| <= |children|
    ensures forall g :: g in live ==> g in children && Free(c, g, A) != {}
    ensures GroupPr(c, A, op, children) == GroupPr(c, A, op, live)
    ensures 0.0 <= GroupPr(c, A, op, live) <= 1.0
    ensures |FreeOf(c, live, A)| <= |FreeOf(c, children, A)|
  {
    hide GroupPr;
    LivePr(c, op, children, A, live);
    GroupBounds(c, A, op, live);
  }

  lemma NothingLive(c: Circuit, op: Op, A: map<nat, bool>, w: real)
    requires Assigns(c, A)
    ensures Within(Certain(op, false), GroupPr(c, A, op, []), w)
  {
    hide GroupPr;
    hide Within;
    EmptyGroup(c, A, op);
    if op.Conj? { PointWithin(1.0, w); } else { PointWithin(0.0, w); }
  }

  lemma DeterminedWithin(c: Circuit, g: nat, A: map<nat, bool>, v: real, w: real)
    requires IsGate(c, g) && Supported(c, g) && Assigns(c, A) && Footprint(c, g) <= A.Keys
    requires v == if EvalDet(c, g, A) then 1.0 else 0.0
    ensures Within(Interval(v, v), GatePr(c, A, g), w)
  {
    hide GatePr;
    hide Within;
    DeterminedPr(c, g, A);
    PointWithin(v, w);
  }

  lemma NotWithin(c: Circuit, g: nat, A: map<nat, bool>, r: Interval, w: real)
    requires IsGate(c, g) && c.kind[g].NotGate? && Within(r, GatePr(c, A, c.wires[g][0]), w)
    ensures Within(Complement(r), GatePr(c, A, g), w)
  {
    hide GatePr;
    NegatedPr(c, g, A);
  }

  lemma InputWithin(c: Circuit, g: nat, A: map<nat, bool>, w: real)
    requires IsGate(c, g) && Supported(c, g) && c.kind[g].InGate? && !(Footprint(c, g) <= A.Keys)
    ensures Within(Interval(c.prob[g], c.prob[g]), GatePr(c, A, g), w)
  {
    hide GatePr;
    GateFacts(c, g);
    OpenInput(c, g, A);
  }

  /** The certain answer of a group: an absorbing child decides it, no open child is neutral. */
  function Certain(op: Op, absorbed: bool): Interval {
    if op.Conj? == absorbed then Interval(0.0, 0.0) else Interval(1.0, 1.0)
  }

  lemma AbsorbedWithin(c: Circuit, op: Op, gs: seq<nat>, A: map<nat, bool>, w: real)
    requires AreGates(c, gs) && GroupPr(c, A, op, gs) == if op.Conj? then 0.0 else 1.0
    ensures Within(Certain(op, true), GroupPr(c, A, op, gs), w)
  {
    hide GroupPr;
    hide Within;
    if op.Conj? { PointWithin(0.0, w); } else { PointWithin(1.0, w); }
  }

  lemma ExpandWithin(c: Circuit, A: map<nat, bool>, op: Op, gs: seq<nat>, x: nat, r1: Interval, r0: Interval, w: real)
    requires Problem(c, gs, A) && x in FreeOf(c, gs, A)
    requires Within(r1, GroupPr(c, A[x := true], op, gs), w) && Within(r0, GroupPr(c, A[x := false], op, gs), w)
    ensures IsGate(c, x) && Within(Mixed(c.prob[x], r1, r0), GroupPr(c, A, op, gs), w)
  {
    AssignFree(c, gs, A, x, true);
    hide GroupPr;
    hide Mean;
    hide Problem;
    hide FreeOf;
    hide Mixed;
    hide Within;
    ShannonMul(c, A, op, gs, x);
    MixtureWithin(c.prob[x], r1, GroupPr(c, A[x := true], op, gs), r0, GroupPr(c, A[x := false], op, gs), w);
  }

  lemma MemoSound(c: Circuit, memo: map<string, real>, key: string)
    requires MemoFor(c, memo) && key in memo
    ensures SoundEntry(c, key, memo[key])
  {
  }

  // ----- The recursion state -----

  ghost predicate CacheFor(c: Circuit, footprint: map<nat, set<nat>>) {
    WellFormed(c) && forall g :: g in footprint ==> IsGate(c, g) && Supported(c, g) && footprint[g] == Footprint(c, g)
  }

  ghost predicate MemoFor(c: Circuit, memo: map<string, real>) {
    forall k :: k in memo ==> SoundEntry(c, k, memo[k])
  }


  class Assignment {
    var vals: map<nat, bool>

    constructor ()
      ensures vals == map[]
    {
      vals := map[];
    }
  }

  class GenContext {
    const c: Circuit
    const budget: nat
    var footprint: map<nat, set<nat>>
    var exactMemo: map<string, real>
    var steps: nat

    constructor (c: Circuit, budget: nat)
      requires WellFormed(c)
      ensures this.c == c && this.budget == budget && Valid() && steps == 0
    {
      this.c := c;
      this.budget := budget;
      footprint := map[];
      exactMemo := map[];
      steps := 0;
    }

    ghost predicate Valid()
      reads this`footprint, this`exactMemo
    {
      CacheFor(c, footprint) && MemoFor(c, exactMemo)
    }

    /** The footprint of g, or an exception when the cone holds an unsupported gate. */
    method FootprintOfGate(g: nat) returns (r: Result<set<nat>>)
      requires Valid() && IsGate(c, g)
      modifies this`footprint
      ensures Valid()
      ensures r.Success? <==> Supported(c, g)
      ensures r.Success? ==> r.value == Footprint(c, g)
      decreases c.rank[g], 1
    {
      if g in footprint {
        return Success(footprint[g]);
      }
      var s: set<nat> := {};
      match c.kind[g] {
        case InGate =>
          if c.prob[g] > 0.0 && c.prob[g] < 1.0 {
            s := {g};
          }
        case AndGate | OrGate | NotGate =>
          s :- FootprintOfWires(g);
        case _ =>
          return Failure("d-tree: multivalued / undetermined gate not supported on the general circuit path");
      }
      footprint := footprint[g := s];
      return Success(s);
    }

    method FootprintOfWires(g: nat) returns (r: Result<set<nat>>)
      requires Valid() && IsGate(c, g) && (c.kind[g].AndGate? || c.kind[g].OrGate? || c.kind[g].NotGate?)
      modifies this`footprint
      ensures Valid()
      ensures r.Success? <==> Supported(c, g)
      ensures r.Success? ==> r.value == Footprint(c, g)
      decreases c.rank[g], 0
    {
      var s: set<nat> := {};
      var ws := c.wires[g];
      for k := 0 to |ws|
        invariant Valid()
        invariant forall j :: 0 <= j < k ==> Supported(c, ws[j]) && Footprint(c, ws[j]) <= s
        invariant forall v :: v in s ==> exists j :: 0 <= j < k && v in Footprint(c, ws[j])
      {
        var cs :- FootprintOfGate(ws[k]);
        s := s + cs;
      }
      assert s == Footprint(c, g);
      return Success(s);
    }

    /** Whether every variable below g is assigned. */
    method Determined(g: nat, A: map<nat, bool>) returns (b: bool)
      requires Valid() && IsGate(c, g) && Supported(c, g)
      modifies this`footprint
      ensures Valid()
      ensures b == (Footprint(c, g) <= A.Keys)
    {
      var fp := FootprintOfGate(g);
      b := fp.value <= A.Keys;
    }

    /** The free variables of each gate of live. */
    method FreeKeys(live: seq<nat>, A: map<nat, bool>) returns (keys: seq<set<nat>>)
      requires Valid() && Problem(c, live, A)
      modifies this`footprint
      ensures Valid()
      ensures AreKeys(c, live, A, keys)
    {
      keys := [];
      for i := 0 to |live|
        invariant Valid()
        invariant |keys| == i && forall j :: 0 <= j < i ==> keys[j] == Free(c, live[j], A)
      {
        assert live[i] in live;
        var fp := FootprintOfGate(live[i]);
        keys := keys + [fp.value - A.Keys];
      }
    }

    /** Splits live into groups that share no free variable. */
    method Components(live: seq<nat>, A: map<nat, bool>)
      returns (comps: seq<seq<nat>>, ghost keys: seq<set<nat>>, ghost blocks: seq<seq<nat>>)
      requires Valid() && Problem(c, live, A)
      modifies this`footprint
      ensures Valid()
      ensures AreKeys(c, live, A, keys) && Blocks.IsBlocks(keys, blocks) && comps == Blocks.PickAll(live, blocks)
      ensures AreComponents(c, live, A, comps)
    {
      var ks := FreeKeys(live, A);
      var bs := Blocks.Partition(ks);
      keys, blocks := ks, bs;
      comps := Blocks.PickAll(live, bs);
      BlocksAreComponents(c, live, A, keys, bs);
    }

    /** The free variable shared by the most gates of live; the smallest one on ties. */
    method Pivot(live: seq<nat>, A: map<nat, bool>) returns (best: nat, ghost keys: seq<set<nat>>)
      requires Valid() && Problem(c, live, A) && FreeOf(c, live, A) != {}
      modifies this`footprint
      ensures Valid()
      ensures AreKeys(c, live, A, keys) && IsMostFrequent(keys, best)
      ensures best in FreeOf(c, live, A)
    {
      var ks := FreeKeys(live, A);
      keys := ks;
      PivotExists(c, live, A, ks);
      best := MostFrequent(ks, |c.kind|);
      PivotFree(c, live, A, ks, best);
    }

    // ----- Cheap bounds -----

    /** A certified interval for one gate, without expansion. */
    method Bound(g: nat, A: map<nat, bool>) returns (b: Interval)
      requires Valid() && IsGate(c, g) && Supported(c, g) && Assigns(c, A)
      modifies this`footprint
      ensures Valid()
      ensures Encloses(b, GatePr(c, A, g))
      decreases c.rank[g], 1
    {
      if c.kind[g].InGate? {
        InputPr(c, g, A);
        if g in A {
          b := if A[g] then Interval(1.0, 1.0) else Interval(0.0, 0.0);
        } else {
          var p := c.prob[g];
          if p < 0.0 { p := 0.0; }
          if p > 1.0 { p := 1.0; }
          b := Interval(p, p);
        }
      } else if c.kind[g].NotGate? {
        var r := Bound(c.wires[g][0], A);
        NegatedPr(c, g, A);
        b := Complement(r);
      } else {
        WiresSupported(c, g);
        GateIsGroup(c, g, A);
        b := BoundGroup(if c.kind[g].AndGate? then Conj else Disj, c.wires[g], A, c.rank[g]);
      }
    }

    /** A certified interval for a connected component: Bonferroni and minimum under AND,
        maximum and union bound under OR. */
    method BoundComponent(op: Op, comp: seq<nat>, A: map<nat, bool>, ghost top: nat) returns (b: Interval)
      requires Valid() && Problem(c, comp, A) && comp != []
      requires forall g :: g in comp ==> c.rank[g] < top
      modifies this`footprint
      ensures Valid()
      ensures Encloses(b, GroupPr(c, A, op, comp))
      decreases top, 0, 0
    {
      if |comp| == 1 {
        assert comp == [comp[0]] && comp[0] in comp;
        SingleGroup(c, A, op, comp[0]);
        b := Bound(comp[0], A);
        return;
      }
      var sum, extreme := 0.0, if op.Conj? then 1.0 else 0.0;
      hide GroupPr;
      hide GatePr;
      EmptyGroup(c, A, op);
      for j := 0 to |comp|
        invariant Valid() && AreGates(c, comp[..j])
        invariant 0.0 <= extreme <= 1.0 && 0.0 <= sum
        invariant op.Conj? ==> sum - (j as real - 1.0) <= GroupPr(c, A, op, comp[..j]) <= extreme
        invariant op.Disj? ==> extreme <= GroupPr(c, A, op, comp[..j]) <= sum
      {
        assert comp[j] in comp;
        var r := Bound(comp[j], A);
        assert comp[..j + 1] == comp[..j] + [comp[j]];
        BoundStep(c, A, op, comp[..j], comp[j]);
        if op.Conj? {
          sum := sum + r.lower;
          extreme := if r.upper < extreme then r.upper else extreme;
        } else {
          sum := sum + r.upper;
          extreme := if r.lower > extreme then r.lower else extreme;
        }
      }
      assert comp[..|comp|] == comp;
      GroupBounds(c, A, op, comp);
      if op.Conj? {
        var lower := sum - (|comp| as real - 1.0);
        if lower < 0.0 { lower := 0.0; }
        b := Interval(lower, extreme);
      } else {
        b := Interval(extreme, if sum > 1.0 then 1.0 else sum);
      }
    }

    /** A certified interval for op over children: independent components compose exactly. */
    method BoundGroup(op: Op, children: seq<nat>, A: map<nat, bool>, ghost top: nat) returns (b: Interval)
      requires Valid() && Problem(c, children, A)
      requires forall g :: g in children ==> c.rank[g] < top
      modifies this`footprint
      ensures Valid()
      ensures Encloses(b, GroupPr(c, A, op, children))
      decreases top, 0, 1
    {
      var comps, _, _ := Components(children, A);
      hide WellFormed;
      hide MemoFor;
      hide CacheFor;
      hide GroupPr;
      hide Supported;
      hide FootprintOf;
      hide Problem;
      hide AllSupported;
      hide Assigns;
      hide AreComponents;
      hide Product;
      hide PartOf;
      hide Prefix;
      hide Running;
      hide Encloses;
      var run := Interval(1.0, 1.0);
      RunningStart(c, A, op, comps);
      for k := 0 to |comps|
        invariant Valid() && Running(c, A, op, comps, k, run, 1.0)
      {
        ComponentGates(c, A, children, comps, k);
        var r := BoundComponent(op, comps[k], A, top);
        BoundedStep(c, A, op, children, comps, k, run, r);
        run := Product(run, PartOf(op, r));
      }
      RunningAll(c, A, op, children, comps, run, 1.0);
      b := PartOf(op, run);
    }

    // ----- Refinement to a width -----

    /** Counts a subproblem; false once the budget is spent. */
    method Tick() returns (ok: bool)
      modifies this`steps
      ensures steps == old(steps) + 1
      ensures ok == (budget == 0 || steps <= budget)
    {
      steps := steps + 1;
      ok := budget == 0 || steps <= budget;
    }

    ghost predicate OverBudget()
      reads this`steps
    {
      budget > 0 && steps > budget
    }

    /** Drops the children that A decides; absorbed when one of them decides the group. */
    method DropFixed(op: Op, children: seq<nat>, A: map<nat, bool>) returns (live: seq<nat>, absorbed: bool)
      requires Valid() && Problem(c, children, A)
      modifies this`footprint
      ensures Valid()
      ensures absorbed ==> GroupPr(c, A, op, children) == if op.Conj? then 0.0 else 1.0
      ensures !absorbed ==> LiveOf(c, op, children, A, live)
    {
      live, absorbed := [], false;
      EmptyLive(c, op, A);
      hide GroupPr;
      for k := 0 to |children|
        invariant Valid()
        invariant LiveOf(c, op, children[..k], A, live)
      {
        var g := children[k];
        assert g in children && children[..k + 1] == children[..k] + [g];
        SubSupported(c, children[..k], children);
        var fixed := Determined(g, A);
        if fixed {
          var v := EvalDet(c, g, A);
          if v == op.Disj? {
            AbsorbedPr(c, op, children, g, A);
            absorbed := true;
            return;
          }
          DropStep(c, op, children[..k], g, A, live);
        } else {
          KeepStep(c, op, children[..k], g, A, live);
          live := live + [g];
        }
      }
      assert children[..|children|] == children;
    }

    /** Refines the interval of gate g until it is at most w wide (exactly when w is 0). */
    method Refine(g: nat, A: Assignment, w: real) returns (res: Result<Interval>)
      requires Valid() && IsGate(c, g) && Supported(c, g) && Assigns(c, A.vals)
      modifies this, A
      ensures Valid()
      ensures res.Success? ==> A.vals == old(A.vals)
      ensures res.Success? ==> Within(res.value, GatePr(c, old(A.vals), g), w)
      ensures res.Failure? ==> OverBudget()
      decreases |Free(c, g, A.vals)|, c.rank[g], 1, 0, 0
    {
      ghost var A0 := A.vals;
      hide WellFormed;
      hide MemoFor;
      hide CacheFor;
      hide GatePr;
      hide GroupPr;
      hide Supported;
      hide Footprint;
      hide FootprintOf;
      hide Free;
      hide FreeOf;
      hide Problem;
      hide AllSupported;
      hide Assigns;
      hide LiveOf;
      hide AreComponents;
      hide Within;
      hide Encloses;
      hide Complement;
      hide EvalDet;
      var settled;
      settled, res := Settle(g, A, w);
      if settled { return res; }
      GateFacts(c, g);
      if c.kind[g].NotGate? {
        FreeShrinks(c, c.wires[g][0], g, A.vals);
        var r :- Refine(c.wires[g][0], A, w);
        NotWithin(c, g, A0, r, w);
        return Success(Complement(r));
      } else if c.kind[g].InGate? {
        InputWithin(c, g, A.vals, w);
        return Success(Interval(c.prob[g], c.prob[g]));
      } else {
        OpenGroup(c, g, A.vals);
        res := RefineGroup(if c.kind[g].AndGate? then Conj else Disj, c.wires[g], A, w, c.rank[g]);
      }
    }

    /** The cases that need no refinement: the budget is spent, the gate is determined, or
        its static bound is narrow enough. */
    method Settle(g: nat, A: Assignment, w: real) returns (settled: bool, res: Result<Interval>)
      requires Valid() && IsGate(c, g) && Supported(c, g) && Assigns(c, A.vals)
      modifies this
      ensures Valid()
      ensures settled && res.Success? ==> Within(res.value, GatePr(c, A.vals, g), w)
      ensures settled && res.Failure? ==> OverBudget()
      ensures !settled ==> !(Footprint(c, g) <= A.vals.Keys)
    {
      hide WellFormed;
      hide MemoFor;
      hide CacheFor;
      hide GatePr;
      hide GroupPr;
      hide Supported;
      hide Footprint;
      hide Assigns;
      hide Within;
      hide EvalDet;
      var ok := Tick();
      if !ok {
        return true, Failure("d-tree: cost budget exceeded");
      }
      var fixed := Determined(g, A.vals);
      if fixed {
        var v := if EvalDet(c, g, A.vals) then 1.0 else 0.0;
        DeterminedWithin(c, g, A.vals, v, w);
        return true, Success(Interval(v, v));
      }
      if w > 0.0 {
        var b := Bound(g, A.vals);
        if Width(b) <= w {
          NarrowWithin(b, GatePr(c, A.vals, g), w);
          return true, Success(b);
        }
      }
      return false, Failure("");
    }

    method Remember(key: string, x: real, ghost op: Op, ghost gs: seq<nat>, ghost A: map<nat, bool>)
      requires Valid() && EntryFor(c, key, x, op, gs, A)
      modifies this`exactMemo
      ensures Valid()
    {
      exactMemo := exactMemo[key := x];
    }

    /** Refines the interval of op over children until it is at most w wide. */
    method RefineGroup(op: Op, children: seq<nat>, A: Assignment, w: real, ghost top: nat) returns (res: Result<Interval>)
      requires Valid() && Problem(c, children, A.vals)
      requires forall g :: g in children ==> c.rank[g] < top
      modifies this, A
      ensures Valid()
      ensures res.Success? ==> A.vals == old(A.vals)
      ensures res.Success? ==> Within(res.value, GroupPr(c, old(A.vals), op, children), w)
      ensures res.Failure? ==> OverBudget()
      decreases |FreeOf(c, children, A.vals)|, top, 0, |children|, 3
    {
      ghost var A0 := A.vals;
      hide WellFormed;
      hide MemoFor;
      hide CacheFor;
      hide GatePr;
      hide GroupPr;
      hide Supported;
      hide Footprint;
      hide FootprintOf;
      hide Free;
      hide FreeOf;
      hide Problem;
      hide AllSupported;
      hide Assigns;
      hide LiveOf;
      hide AreComponents;
      hide Within;
      hide Certain;
      var ok := Tick();
      if !ok {
        return Failure("d-tree: cost budget exceeded");
      }
      var live, absorbed := DropFixed(op, children, A.vals);
      if absorbed {
        ProblemGates(c, children, A0);
        AbsorbedWithin(c, op, children, A0, w);
        return Success(Certain(op, true));
      }
      LiveFacts(c, op, children, A0, live);
      if live == [] {
        NothingLive(c, op, A0, w);
        return Success(Certain(op, false));
      }
      SortLive(c, op, children, A0, live);
      live := Sorting.Sort(Ascending(), live);
      LiveFacts(c, op, children, A0, live);
      if w > 0.0 {
        res := RefineLive(op, live, A, w, top);
      } else {
        res := RefineExactly(op, live, A, w, top);
      }
    }

    /** An exact request: answered from the memo, or computed and remembered. */
    method RefineExactly(op: Op, live: seq<nat>, A: Assignment, w: real, ghost top: nat) returns (res: Result<Interval>)
      requires Valid() && Problem(c, live, A.vals) && live != [] && w <= 0.0
      requires forall g :: g in live ==> c.rank[g] < top && Free(c, g, A.vals) != {}
      modifies this, A
      ensures Valid()
      ensures res.Success? ==> A.vals == old(A.vals)
      ensures res.Success? ==> Within(res.value, GroupPr(c, old(A.vals), op, live), w)
      ensures res.Failure? ==> OverBudget()
      decreases |FreeOf(c, live, A.vals)|, top, 0, |live|, 2
    {
      ghost var A0 := A.vals;
      hide WellFormed;
      hide MemoFor;
      hide CacheFor;
      hide GroupPr;
      hide KeyOf;
      hide Supported;
      hide FootprintOf;
      hide Free;
      hide FreeOf;
      hide Problem;
      hide AllSupported;
      hide Assigns;
      hide Within;
      hide SoundEntry;
      ProblemGates(c, live, A0);
      var key := ExactKey(op, live, A.vals);
      if key in exactMemo {
        MemoSound(c, exactMemo, key);
        MemoHit(c, op, live, A0, exactMemo[key]);
        GroupBounds(c, A0, op, live);
        PointWithin(exactMemo[key], w);
        return Success(Interval(exactMemo[key], exactMemo[key]));
      }
      var r :- RefineLive(op, live, A, w, top);
      ExactWithin(r, GroupPr(c, A0, op, live), w);
      Remember(key, r.lower, op, live, A0);
      return Success(r);
    }

    method ExactKey(op: Op, gates: seq<nat>, A: map<nat, bool>) returns (key: string)
      requires Valid() && Problem(c, gates, A)
      modifies this`footprint
      ensures Valid()
      ensures key == KeyOf(c, op, gates, A)
    {
      var foot: set<nat> := {};
      for k := 0 to |gates|
        invariant Valid() && AreGates(c, gates[..k])
        invariant foot == FootprintOf(c, gates[..k])
      {
        assert gates[k] in gates && gates[..k + 1] == gates[..k] + [gates[k]];
        var fp := FootprintOfGate(gates[k]);
        foot := foot + fp.value;
      }
      assert gates[..|gates|] == gates;
      key := KeyText.Key(op.Disj?, gates, foot, A, |c.kind|);
    }

    /** The open part of a group: split it, descend into a single gate, or expand a variable. */
    method RefineLive(op: Op, live: seq<nat>, A: Assignment, w: real, ghost top: nat) returns (res: Result<Interval>)
      requires Valid() && Problem(c, live, A.vals) && live != []
      requires forall g :: g in live ==> c.rank[g] < top && Free(c, g, A.vals) != {}
      modifies this, A
      ensures Valid()
      ensures res.Success? ==> A.vals == old(A.vals)
      ensures res.Success? ==> Within(res.value, GroupPr(c, old(A.vals), op, live), w)
      ensures res.Failure? ==> OverBudget()
      decreases |FreeOf(c, live, A.vals)|, top, 0, |live|, 1
    {
      hide WellFormed;
      hide MemoFor;
      hide CacheFor;
      hide GatePr;
      hide GroupPr;
      hide Supported;
      hide Footprint;
      hide FootprintOf;
      hide Free;
      hide FreeOf;
      hide Problem;
      hide AllSupported;
      hide Assigns;
      hide LiveOf;
      hide AreComponents;
      hide Within;
      var comps, _, _ := Components(live, A.vals);
      if |comps| > 1 {
        res := RefineComponents(op, live, comps, A, w, top);
      } else if |live| == 1 {
        SingleLive(c, op, live, A.vals);
        res := Refine(live[0], A, w);
      } else {
        if w > 0.0 {
          var b := BoundGroup(op, live, A.vals, top);
          if Width(b) <= w {
            NarrowWithin(b, GroupPr(c, A.vals, op, live), w);
            return Success(b);
          }
        }
        FreeNonEmpty(c, live, A.vals);
        res := Expand(op, live, A, w, top);
      }
    }

    /** Refines each component with its share of the width and recombines. */
    method RefineComponents(op: Op, live: seq<nat>, comps: seq<seq<nat>>, A: Assignment, w: real, ghost top: nat)
      returns (res: Result<Interval>)
      requires Valid() && Problem(c, live, A.vals) && AreComponents(c, live, A.vals, comps) && |comps| > 1
      requires forall g :: g in live ==> c.rank[g] < top
      modifies this, A
      ensures Valid()
      ensures res.Success? ==> A.vals == old(A.vals)
      ensures res.Success? ==> Within(res.value, GroupPr(c, old(A.vals), op, live), w)
      ensures res.Failure? ==> OverBudget()
      decreases |FreeOf(c, live, A.vals)|, top, 0, |live|, 0
    {
      ghost var A0 := A.vals;
      hide WellFormed;
      hide MemoFor;
      hide CacheFor;
      hide GroupPr;
      hide Supported;
      hide FootprintOf;
      hide FreeOf;
      hide Problem;
      hide AllSupported;
      hide Assigns;
      hide Within;
      hide Running;
      hide Prefix;
      hide Product;
      hide PartOf;
      var share := w / |comps| as real;
      var run := Interval(1.0, 1.0);
      RunningStart(c, A0, op, comps);
      for k := 0 to |comps|
        invariant Valid() && A.vals == A0
        invariant Running(c, A0, op, comps, k, run, share)
      {
        ComponentGates(c, A0, live, comps, k);
        FreeOfSub(c, comps[k], live, A0);
        var r :- RefineGroup(op, comps[k], A, share, top);
        RunningStep(c, A0, op, live, comps, k, run, r, share);
        run := Product(run, PartOf(op, r));
      }
      RunningEnd(c, A0, op, live, comps, run, w);
      return Success(PartOf(op, run));
    }

    /** One cofactor: refine with x assigned b. */
    method Cofactor(op: Op, live: seq<nat>, A: Assignment, ghost A0: map<nat, bool>, x: nat, b: bool, w: real, ghost top: nat)
      returns (res: Result<Interval>)
      requires Valid() && Problem(c, live, A0) && x in FreeOf(c, live, A0) && A.vals[x := b] == A0[x := b]
      requires forall g :: g in live ==> c.rank[g] < top
      modifies this, A
      ensures Valid() && AreGates(c, live)
      ensures res.Success? ==> A.vals == A0[x := b]
      ensures res.Success? ==> Within(res.value, GroupPr(c, A0[x := b], op, live), w)
      ensures res.Failure? ==> OverBudget()
      decreases |FreeOf(c, live, A0)|, top, 0, 0, 0
    {
      hide WellFormed;
      hide MemoFor;
      hide CacheFor;
      hide GroupPr;
      hide Supported;
      hide FootprintOf;
      hide FreeOf;
      hide Problem;
      hide AllSupported;
      hide Assigns;
      hide Within;
      ProblemGates(c, live, A0);
      AssignFree(c, live, A0, x, b);
      FreeOfAssigned(c, live, A0, x, b);
      A.vals := A.vals[x := b];
      res := RefineGroup(op, live, A, w, top);
    }

    /** Shannon expansion on the pivot: the mixture of the two cofactors. */
    method Expand(op: Op, live: seq<nat>, A: Assignment, w: real, ghost top: nat) returns (res: Result<Interval>)
      requires Valid() && Problem(c, live, A.vals) && FreeOf(c, live, A.vals) != {}
      requires forall g :: g in live ==> c.rank[g] < top
      modifies this, A
      ensures Valid()
      ensures res.Success? ==> A.vals == old(A.vals)
      ensures res.Success? ==> Within(res.value, GroupPr(c, old(A.vals), op, live), w)
      ensures res.Failure? ==> OverBudget()
      decreases |FreeOf(c, live, A.vals)|, top, 0, 0, 1
    {
      ghost var A0 := A.vals;
      hide WellFormed;
      hide MemoFor;
      hide CacheFor;
      hide GroupPr;
      hide Supported;
      hide FootprintOf;
      hide FreeOf;
      hide Problem;
      hide AllSupported;
      hide Assigns;
      hide Within;
      hide Mul;
      hide Mixed;
      hide IsMostFrequent;
      var x, _ := Pivot(live, A.vals);
      AssignFree(c, live, A0, x, true);
      Overwrite(A0, x);
      var r1 := Cofactor(op, live, A, A0, x, true, w, top);
      if r1.Failure? {
        return r1;
      }
      var r0 := Cofactor(op, live, A, A0, x, false, w, top);
      if r0.Failure? {
        return r0;
      }
      A.vals := A.vals - {x};
      ExpandWithin(c, A0, op, live, x, r1.value, r0.value, w);
      return Success(Mixed(c.prob[x], r1.value, r0.value));
    }
  }

  /** The certified interval of an arbitrary circuit, refined to width maxWidth. */
  method DTreeBoundsCircuit(c: Circuit, root: nat, maxWidth: real, budget: nat) returns (res: Result<Interval>, steps: nat)
    requires IsGate(c, root)
    ensures res.Success? ==> Supported(c, root)
    ensures res.Success? ==> Encloses(res.value, P(c.prob, Holds(c, root))) && Width(res.value) <= Target(maxWidth)
    ensures res.Success? && maxWidth <= 0.0 ==> res.value.lower == res.value.upper == P(c.prob, Holds(c, root))
    ensures res.Failure? ==> !Supported(c, root) || 0 < budget < steps
  {
    var ctx := new GenContext(c, budget);
    var A := new Assignment();
    steps := 0;
    var fp := ctx.FootprintOfGate(root);
    if fp.Failure? {
      return Failure(fp.error), 0;
    }
    res := ctx.Refine(root, A, maxWidth);
    steps := ctx.steps;
    assert Given(c.prob, map[]) == c.prob;
  }
}
