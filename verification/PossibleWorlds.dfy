/** Exact probability by enumerating the truth assignments of the reachable inputs. */
module PossibleWorlds {
  import opened Reals
  import opened Worlds
  import opened Probability
  import opened Masks
  import opened Outcomes
  import opened Sequences
  import opened BooleanCircuit

  const MAX_INPUTS := 64

  // ----- Evaluating a gate on a set of true inputs -----

  function WorldOf(n: nat, s: set<nat>): (w: World)
    ensures |w| == n && forall v :: 0 <= v < n ==> True(w, v) == (v in s)
  {
    seq(n, (v: nat) => if v in s then 1 else 0)
  }

  /** The truth value of g when exactly the inputs in s are true; gates that are not
      Boolean connectives are errors when they are reached. */
  method Evaluate(c: Circuit, g: nat, s: set<nat>) returns (r: Result<bool>)
    requires IsGate(c, g)
    ensures Supported(c, g) ==> r.Success?
    ensures r.Success? ==> r.value == Eval(c, g, WorldOf(|c.kind|, s))
    decreases c.rank[g]
  {
    ghost var w := WorldOf(|c.kind|, s);
    match c.kind[g] {
      case InGate => return Success(g in s);
      case NotGate =>
        var e := Evaluate(c, c.wires[g][0], s);
        return if e.Failure? then e else Success(!e.value);
      case AndGate =>
        for k := 0 to |c.wires[g]|
          invariant forall i :: 0 <= i < k ==> Eval(c, c.wires[g][i], w)
        {
          var e := Evaluate(c, c.wires[g][k], s);
          if e.Failure? || !e.value { return e; }
        }
        return Success(true);
      case OrGate =>
        for k := 0 to |c.wires[g]|
          invariant forall i :: 0 <= i < k ==> !Eval(c, c.wires[g][i], w)
        {
          var e := Evaluate(c, c.wires[g][k], s);
          if e.Failure? || e.value { return e; }
        }
        return Success(false);
      case UndeterminedGate => return Failure("Incorrect gate type");
      case _ => return Failure("Monte-Carlo sampling not implemented on multivalued inputs");
    }
  }

  // ----- The reachable inputs -----

  /** The inputs that g reaches. */
  ghost function Inputs(c: Circuit, g: nat): set<nat>
    requires IsGate(c, g)
    decreases c.rank[g]
  {
    (if c.kind[g] == InGate then {g} else {})
    + set k, v | 0 <= k < |c.wires[g]| && v in Inputs(c, c.wires[g][k]) :: v
  }

  lemma InputsBelow(c: Circuit, g: nat, h: nat)
    requires IsGate(c, g) && h in c.wires[g]
    ensures h < |c.kind| && Inputs(c, h) <= Inputs(c, g)
  {
    var k :| 0 <= k < |c.wires[g]| && c.wires[g][k] == h;
  }

  /** Every gate in seen has its children in seen or waiting. */
  ghost predicate Closed(c: Circuit, seen: set<nat>, waiting: seq<nat>)
    requires Sized(c)
  {
    forall u, h :: u in seen && u < |c.kind| && h in c.wires[u] ==> h in seen || h in waiting
  }

  lemma {:induction false} ClosedHasInputs(c: Circuit, seen: set<nat>, g: nat)
    requires IsGate(c, g) && Closed(c, seen, []) && g in seen
    ensures forall v :: v in Inputs(c, g) ==> v in seen && v < |c.kind| && c.kind[v] == InGate
    decreases c.rank[g]
  {
    forall k | 0 <= k < |c.wires[g]|
      ensures forall v :: v in Inputs(c, c.wires[g][k]) ==> v in seen && v < |c.kind| && c.kind[v] == InGate
    {
      assert c.wires[g][k] in c.wires[g];
      ClosedHasInputs(c, seen, c.wires[g][k]);
    }
  }

  lemma PopClosed(c: Circuit, seen: set<nat>, stack: seq<nat>, u: nat)
    requires Sized(c) && u < |c.kind| && Closed(c, seen, stack + [u])
    ensures u in seen ==> Closed(c, seen, stack)
    ensures Closed(c, seen + {u}, stack + c.wires[u])
  {
    forall v, h | v in seen + {u} && v < |c.kind| && h in c.wires[v] ensures h in seen + {u} || h in stack + c.wires[u] {
      if v in seen { assert h in seen || h in stack + [u]; }
    }
    if u in seen {
      forall v, h | v in seen && v < |c.kind| && h in c.wires[v] ensures h in seen || h in stack {
        assert h in seen || h in stack + [u];
      }
    }
  }

  /** Only gates of g's cone wait or were seen. */
  ghost predicate Within(c: Circuit, gs: seq<nat>, vs: set<nat>)
    requires WellFormed(c) && Sized(c)
  {
    forall u :: u in gs ==> u < |c.kind| && Inputs(c, u) <= vs
  }

  /** What the walk from g knows: the inputs seen, and that nothing below a seen gate is missing. */
  ghost predicate Walking(c: Circuit, g: nat, seen: set<nat>, stack: seq<nat>, ins: set<nat>)
    requires IsGate(c, g)
  {
    && Within(c, stack, Inputs(c, g)) && Closed(c, seen, stack) && (g in seen || g in stack)
    && seen <= FirstVars(|c.kind|) && ins <= Inputs(c, g)
    && forall v :: v in seen && c.kind[v] == InGate ==> v in ins
  }

  lemma WalkStep(c: Circuit, g: nat, seen: set<nat>, rest: seq<nat>, u: nat, ins: set<nat>)
    requires IsGate(c, g) && Walking(c, g, seen, rest + [u], ins)
    ensures u < |c.kind|
    ensures u in seen ==> Walking(c, g, seen, rest, ins)
    ensures u !in seen ==> Walking(c, g, seen + {u}, rest + c.wires[u], if c.kind[u] == InGate then ins + {u} else ins)
  {
    assert u in rest + [u];
    PopClosed(c, seen, rest, u);
    PushWithin(c, rest, u, Inputs(c, g));
    assert c.kind[u] == InGate ==> u in Inputs(c, u);
  }

  lemma WalkStart(c: Circuit, g: nat)
    requires IsGate(c, g)
    ensures Walking(c, g, {}, [g], {})
  {
  }

  lemma WalkEnd(c: Circuit, g: nat, seen: set<nat>, ins: set<nat>)
    requires IsGate(c, g) && Walking(c, g, seen, [], ins)
    ensures ins == Inputs(c, g)
  {
    ClosedHasInputs(c, seen, g);
  }

  method ReachableInputs(c: Circuit, g: nat) returns (ins: set<nat>)
    requires IsGate(c, g)
    ensures ins == Inputs(c, g)
  {
    WalkStart(c, g);
    hide Walking;
    hide WellFormed;
    ins := {};
    var seen: set<nat> := {};
    var stack: seq<nat> := [g];
    while stack != []
      invariant Walking(c, g, seen, stack, ins)
      decreases |FirstVars(|c.kind|) - seen|, |stack|
    {
      var u := stack[|stack| - 1];
      var rest := stack[..|stack| - 1];
      assert stack == rest + [u];
      WalkStep(c, g, seen, rest, u, ins);
      stack := rest;
      if u !in seen {
        if c.kind[u] == InGate { ins := ins + {u}; }
        ghost var left := FirstVars(|c.kind|) - seen;
        assert u in left;
        SubsetSize(left - {u}, left);
        assert FirstVars(|c.kind|) - (seen + {u}) == left - {u};
        hide *;
        seen := seen + {u};
        stack := stack + c.wires[u];
      }
    }
    WalkEnd(c, g, seen, ins);
  }

  lemma PushWithin(c: Circuit, rest: seq<nat>, u: nat, vs: set<nat>)
    requires WellFormed(c) && Sized(c) && Within(c, rest + [u], vs)
    ensures u < |c.kind| && Inputs(c, u) <= vs
    ensures Within(c, rest, vs) && Within(c, rest + c.wires[u], vs)
  {
    assert u in rest + [u];
    forall h | h in rest ensures h < |c.kind| && Inputs(c, h) <= vs {
      assert h in rest + [u];
    }
    forall h | h in c.wires[u] ensures h < |c.kind| && Inputs(c, h) <= vs {
      InputsBelow(c, u, h);
    }
  }

  lemma {:induction false} EvalByInputs(c: Circuit, g: nat, u: World, w: World)
    requires IsGate(c, g) && Supported(c, g) && forall v :: v in Inputs(c, g) ==> True(u, v) == True(w, v)
    ensures Eval(c, g, u) == Eval(c, g, w)
    decreases c.rank[g]
  {
    if c.kind[g] != InGate {
      forall k | 0 <= k < |c.wires[g]| ensures Eval(c, c.wires[g][k], u) == Eval(c, c.wires[g][k], w) {
        EvalByInputs(c, c.wires[g][k], u, w);
      }
    }
  }

  // ----- The sum over masks -----

  ghost predicate InRange(p: seq<real>, ins: seq<nat>) {
    forall i :: 0 <= i < |ins| ==> ins[i] < |p|
  }

  /** The inputs that mask s makes true among the first k. */
  ghost function Picked(ins: seq<nat>, s: nat, k: nat): set<nat>
    requires k <= |ins|
  {
    if k == 0 then {} else Picked(ins, s, k - 1) + (if Bit(s, k - 1) then {ins[k - 1]} else {})
  }

  /** The weight of mask s over the first k inputs. */
  ghost function Weight(p: seq<real>, ins: seq<nat>, s: nat, k: nat): real
    requires k <= |ins| && InRange(p, ins)
  {
    if k == 0 then 1.0
    else Mul(Weight(p, ins, s, k - 1), if Bit(s, k - 1) then p[ins[k - 1]] else 1.0 - p[ins[k - 1]])
  }

  /** The weight of mask s if e holds there, the inputs from k on being true just in T. */
  ghost function Term(p: seq<real>, ins: seq<nat>, k: nat, e: Event, T: set<nat>): nat -> real
    requires k <= |ins| && InRange(p, ins)
  {
    (s: nat) => Mul(Weight(p, ins, s, k), if e(WorldOf(|p|, Picked(ins, s, k) + T)) then 1.0 else 0.0)
  }

  lemma {:induction false} HighMask(p: seq<real>, ins: seq<nat>, s: nat, k: nat, i: nat)
    requires s < Pow2(k) && i <= k < |ins| && InRange(p, ins)
    ensures Picked(ins, s + Pow2(k), i) == Picked(ins, s, i)
    ensures Weight(p, ins, s + Pow2(k), i) == Weight(p, ins, s, i)
  {
    if i > 0 {
      HighMask(p, ins, s, k, i - 1);
      HighBitSplit(s, k, i - 1);
    }
  }

  lemma TermSplit(p: seq<real>, ins: seq<nat>, k: nat, e: Event, T: set<nat>, s: nat)
    requires k < |ins| && s < Pow2(k) && InRange(p, ins)
    ensures Term(p, ins, k + 1, e, T)(s) == Mul(1.0 - p[ins[k]], Term(p, ins, k, e, T)(s))
    ensures Shifted(Term(p, ins, k + 1, e, T), Pow2(k))(s) == Mul(p[ins[k]], Term(p, ins, k, e, T + {ins[k]})(s))
  {
    hide Mul;
    hide Bit;
    hide Pow2;
    HighBitSplit(s, k, k);
    HighMask(p, ins, s, k, k);
    var x, t := p[ins[k]], s + Pow2(k);
    assert Picked(ins, s, k + 1) == Picked(ins, s, k);
    assert Picked(ins, t, k + 1) + T == Picked(ins, s, k) + (T + {ins[k]});
    var low := if e(WorldOf(|p|, Picked(ins, s, k) + T)) then 1.0 else 0.0;
    var high := if e(WorldOf(|p|, Picked(ins, t, k + 1) + T)) then 1.0 else 0.0;
    var wt := Weight(p, ins, s, k);
    MulComm(wt, 1.0 - x);
    MulMove(1.0 - x, wt, low);
    MulComm(wt, x);
    MulMove(x, wt, high);
  }

  lemma {:induction false} SumScaled(f: nat -> real, g: nat -> real, a: real, n: nat)
    requires forall t: nat :: t < n ==> g(t) == Mul(a, f(t))
    ensures MaskSum(g, 0, n) == Mul(a, MaskSum(f, 0, n))
  {
    hide Mul;
    if n == 0 {
      MulZero(a);
    } else {
      SumScaled(f, g, a, n - 1);
      MulAdd(a, MaskSum(f, 0, n - 1), f(n - 1));
    }
  }

  /** The inputs from k on are settled: true just when in T. */
  function Settled(p: seq<real>, ins: seq<nat>, k: nat, T: set<nat>): (q: seq<real>)
    requires k <= |ins|
    ensures |q| == |p|
  {
    seq(|p|, (v: nat) requires v < |p| => if v in ins[k..] then (if v in T then 1.0 else 0.0) else p[v])
  }

  lemma SettledStep(p: seq<real>, ins: seq<nat>, k: nat, T: set<nat>)
    requires k < |ins| && Distinct(ins) && ins[k] < |p| && ins[k] !in T
    ensures Settled(p, ins, k + 1, T)[ins[k]] == p[ins[k]]
    ensures Settled(p, ins, k, T) == Settled(p, ins, k + 1, T)[ins[k] := 0.0]
    ensures Settled(p, ins, k, T + {ins[k]}) == Settled(p, ins, k + 1, T)[ins[k] := 1.0]
  {
    assert ins[k..] == [ins[k]] + ins[k + 1..];
  }

  /** The sum over the masks of the first k inputs is the probability once the others are settled. */
  lemma {:induction false} MaskedSum(p: seq<real>, ins: seq<nat>, k: nat, e: Event, T: set<nat>)
    requires Unit(p) && k <= |ins| && Distinct(ins) && InRange(p, ins)
    requires ReadsOnly(e, Elements(ins)) && T <= Elements(ins[k..])
    ensures MaskSum(Term(p, ins, k, e, T), 0, Pow2(k)) == P(Settled(p, ins, k, T), e)
    decreases k
  {
    if k == 0 {
      SettledAll(p, ins, e, T);
    } else {
      NotAmongLater(ins, k - 1, T);
      MaskedSum(p, ins, k - 1, e, T);
      MaskedSum(p, ins, k - 1, e, T + {ins[k - 1]});
      MaskedStep(p, ins, k - 1, e, T);
    }
  }

  lemma MaskedStep(p: seq<real>, ins: seq<nat>, i: nat, e: Event, T: set<nat>)
    requires i < |ins| && Distinct(ins) && InRange(p, ins) && ins[i] !in T
    requires MaskSum(Term(p, ins, i, e, T), 0, Pow2(i)) == P(Settled(p, ins, i, T), e)
    requires MaskSum(Term(p, ins, i, e, T + {ins[i]}), 0, Pow2(i)) == P(Settled(p, ins, i, T + {ins[i]}), e)
    ensures MaskSum(Term(p, ins, i + 1, e, T), 0, Pow2(i + 1)) == P(Settled(p, ins, i + 1, T), e)
  {
    assert ins[i] < |p|;
    SettledStep(p, ins, i, T);
    hide *;
    MixBern(Settled(p, ins, i + 1, T), ins[i], e);
    MaskedHalves(p, ins, i, e, T);
  }

  lemma MaskedHalves(p: seq<real>, ins: seq<nat>, i: nat, e: Event, T: set<nat>)
    requires i < |ins| && InRange(p, ins)
    ensures MaskSum(Term(p, ins, i + 1, e, T), 0, Pow2(i + 1))
         == Mul(p[ins[i]], MaskSum(Term(p, ins, i, e, T + {ins[i]}), 0, Pow2(i)))
            + Mul(1.0 - p[ins[i]], MaskSum(Term(p, ins, i, e, T), 0, Pow2(i)))
  {
    hide Bit;
    hide Picked;
    hide Weight;
    var x, n := p[ins[i]], Pow2(i);
    var f, low, high := Term(p, ins, i + 1, e, T), Term(p, ins, i, e, T), Term(p, ins, i, e, T + {ins[i]});
    forall s: nat | s < n ensures f(s) == Mul(1.0 - x, low(s)) && Shifted(f, n)(s) == Mul(x, high(s)) {
      TermSplit(p, ins, i, e, T, s);
    }
    hide Term;
    hide Shifted;
    hide Mul;
    hide MaskSum;
    hide Pow2;
    hide InRange;
    SumTopBit(f, i);
    SumScaled(low, f, 1.0 - x, n);
    SumScaled(high, Shifted(f, n), x, n);
  }

  lemma NotAmongLater(ins: seq<nat>, i: nat, T: set<nat>)
    requires Distinct(ins) && i < |ins| && T <= Elements(ins[i + 1..])
    ensures ins[i] !in T && T <= Elements(ins[i..]) && T + {ins[i]} <= Elements(ins[i..])
  {
    assert ins[i..] == [ins[i]] + ins[i + 1..];
  }

  lemma SettledAll(p: seq<real>, ins: seq<nat>, e: Event, T: set<nat>)
    requires Unit(p) && InRange(p, ins)
    requires ReadsOnly(e, Elements(ins)) && T <= Elements(ins)
    ensures MaskSum(Term(p, ins, 0, e, T), 0, Pow2(0)) == P(Settled(p, ins, 0, T), e)
  {
    var q, w0 := Settled(p, ins, 0, T), WorldOf(|p|, T);
    BernProb(q);
    forall w | Possible(Bern(q), w) ensures e(w) == e(w0) {
      forall v | v in Elements(ins) ensures True(w, v) == True(w0, v) {
        assert v in ins[0..];
        assert Bern(q)[v] == [1.0 - q[v], q[v]];
      }
    }
    hide Pr;
    hide Settled;
    hide ReadsOnly;
    hide InRange;
    PrSure(Bern(q), e);
    OneTerm(p, ins, e, T);
  }

  lemma OneTerm(p: seq<real>, ins: seq<nat>, e: Event, T: set<nat>)
    requires InRange(p, ins)
    ensures MaskSum(Term(p, ins, 0, e, T), 0, Pow2(0)) == if e(WorldOf(|p|, T)) then 1.0 else 0.0
  {
    var f := Term(p, ins, 0, e, T);
    assert Picked(ins, 0, 0) + T == T;
    var x := if e(WorldOf(|p|, T)) then 1.0 else 0.0;
    assert f(0) == Mul(1.0, x);
    assert MaskSum(f, 0, 1) == MaskSum(f, 0, 0) + f(0);
  }

  /** The event as a sum over the assignments of the variables it reads. */
  lemma EnumerationSum(p: seq<real>, ins: seq<nat>, e: Event)
    requires Unit(p) && Distinct(ins) && InRange(p, ins) && ReadsOnly(e, Elements(ins))
    ensures MaskSum(Term(p, ins, |ins|, e, {}), 0, Pow2(|ins|)) == P(p, e)
  {
    hide P;
    hide ReadsOnly;
    MaskedSum(p, ins, |ins|, e, {});
    assert Settled(p, ins, |ins|, {}) == p;
  }

  /** The inputs of mask s and its weight. */
  method World(p: seq<real>, ins: seq<nat>, s: nat) returns (t: set<nat>, q: real)
    requires InRange(p, ins)
    ensures t == Picked(ins, s, |ins|) && q == Weight(p, ins, s, |ins|)
  {
    t, q := {}, 1.0;
    for j := 0 to |ins|
      invariant t == Picked(ins, s, j) && q == Weight(p, ins, s, j)
    {
      if Bit(s, j) {
        t := t + {ins[j]};
        q := q * p[ins[j]];
      } else {
        q := q * (1.0 - p[ins[j]]);
      }
    }
  }

  lemma HoldsReads(c: Circuit, g: nat)
    requires IsGate(c, g) && Supported(c, g)
    ensures ReadsOnly(Holds(c, g), Inputs(c, g))
  {
    var e, vs := Holds(c, g), Inputs(c, g);
    forall u, w {:trigger e(u), e(w)} | (forall v :: v in vs ==> True(u, v) == True(w, v)) ensures e(u) == e(w) {
      EvalByInputs(c, g, u, w);
    }
  }

  lemma InputsAreGates(c: Circuit, g: nat)
    requires IsGate(c, g)
    ensures forall v :: v in Inputs(c, g) ==> v < |c.kind|
  {
    var all := FirstVars(|c.kind|);
    assert Closed(c, all, []) by {
      forall u, h | u in all && u < |c.kind| && h in c.wires[u] ensures h in all {
        WiresAreGates(c, u);
      }
    }
    ClosedHasInputs(c, all, g);
  }

  /** The elements of a set in some order. */
  method ListOf(s: set<nat>) returns (l: seq<nat>)
    ensures Elements(l) == s && Distinct(l) && |l| == |s|
  {
    l := [];
    var rest := s;
    while rest != {}
      invariant Elements(l) !! rest && Elements(l) + rest == s && Distinct(l)
      decreases rest
    {
      var v :| v in rest;
      l := l + [v];
      rest := rest - {v};
    }
    DistinctSize(l);
  }

  lemma EnumerationIs(c: Circuit, g: nat, ins: seq<nat>)
    requires IsGate(c, g) && Supported(c, g) && Elements(ins) == Inputs(c, g) && Distinct(ins)
    ensures InRange(c.prob, ins)
    ensures MaskSum(Term(c.prob, ins, |ins|, Holds(c, g), {}), 0, Pow2(|ins|)) == P(c.prob, Holds(c, g))
  {
    hide P;
    hide Term;
    hide ReadsOnly;
    InputsAreGates(c, g);
    forall i | 0 <= i < |ins| ensures ins[i] < |c.prob| {
      assert ins[i] in Elements(ins);
    }
    HoldsReads(c, g);
    EnumerationSum(c.prob, ins, Holds(c, g));
  }

  /** The total weight of the assignments under which g is true. */
  method TotalWeight(c: Circuit, g: nat) returns (r: Result<real>)
    requires IsGate(c, g) && Supported(c, g)
    ensures r.Success? <==> |Inputs(c, g)| < MAX_INPUTS
    ensures r.Success? ==> r.value == P(c.prob, Holds(c, g))
  {
    hide P;
    hide Term;
    hide WellFormed;
    hide Supported;
    hide InRange;
    hide Distinct;
    hide Eval;
    hide Inputs;
    hide Weight;
    hide Picked;
    hide Elements;
    var reach := ReachableInputs(c, g);
    if |reach| >= MAX_INPUTS {
      return Failure("Too many possible worlds to iterate over");
    }
    var ins := ListOf(reach);
    EnumerationIs(c, g, ins);
    var total := 0.0;
    var n := Pow2(|ins|);
    ghost var f := Term(c.prob, ins, |ins|, Holds(c, g), {});
    for s := 0 to n
      invariant total == MaskSum(f, 0, s)
    {
      var t, q := World(c.prob, ins, s);
      var e := Evaluate(c, g, t);
      TermIs(c, g, ins, s);
      if e.value { total := total + q; }
    }
    return Success(total);
  }

  lemma TermIs(c: Circuit, g: nat, ins: seq<nat>, s: nat)
    requires IsGate(c, g) && InRange(c.prob, ins)
    ensures Term(c.prob, ins, |ins|, Holds(c, g), {})(s)
         == if Eval(c, g, WorldOf(|c.kind|, Picked(ins, s, |ins|))) then Weight(c.prob, ins, s, |ins|) else 0.0
  {
    var t := Picked(ins, s, |ins|);
    assert t + {} == t;
    hide Eval;
  }
}
