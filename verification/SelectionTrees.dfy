/** Trees of binary choices among the alternatives of a block: what the conjunctions of
    choices mean and with which probability each alternative is selected. */
module SelectionTrees {
  import opened Reals
  import opened Worlds
  import opened Probability
  import opened BooleanCircuit
  import Masks

  // ----- Cumulated probabilities -----

  function Cumulated(p: seq<real>, muls: seq<nat>, k: nat): real
    requires k <= |muls| && forall i :: 0 <= i < |muls| ==> muls[i] < |p|
  {
    if k == 0 then 0.0 else Cumulated(p, muls, k - 1) + p[muls[k - 1]]
  }

  /** cum[i] is the probability of the alternatives up to and including i. */
  ghost predicate Cumulates(p: seq<real>, muls: seq<nat>, cum: seq<real>) {
    && |cum| == |muls| && (forall i :: 0 <= i < |muls| ==> muls[i] < |p|)
    && forall i :: 0 <= i < |cum| ==> cum[i] == Cumulated(p, muls, i + 1)
  }

  function Before(cum: seq<real>, s: nat): real
    requires s <= |cum|
  {
    if s == 0 then 0.0 else cum[s - 1]
  }

  /** No alternative has negative probability. */
  ghost predicate Rising(cum: seq<real>) {
    forall s, e :: 0 <= s <= e < |cum| ==> Before(cum, s) <= cum[e]
  }

  lemma {:induction false} CumulatedGrows(p: seq<real>, muls: seq<nat>, s: nat, e: nat)
    requires Unit(p) && s <= e <= |muls| && forall i :: 0 <= i < |muls| ==> muls[i] < |p|
    ensures Cumulated(p, muls, s) <= Cumulated(p, muls, e)
    decreases e - s
  {
    if s < e { CumulatedGrows(p, muls, s, e - 1); }
  }

  lemma CumulatesRises(p: seq<real>, muls: seq<nat>, cum: seq<real>)
    requires Unit(p) && Cumulates(p, muls, cum)
    ensures Rising(cum)
  {
    forall s, e | 0 <= s <= e < |cum| ensures Before(cum, s) <= cum[e] {
      CumulatedGrows(p, muls, s, e + 1);
    }
  }

  /** The probability of alternatives s..m given s..e; setGate reads the quotient of zeros
      as one. */
  function Conditional(cum: seq<real>, s: nat, m: nat, e: nat): real
    requires s <= m <= e < |cum|
  {
    if cum[e] - Before(cum, s) == 0.0 then 1.0 else (cum[m] - Before(cum, s)) / (cum[e] - Before(cum, s))
  }

  lemma ConditionalUnit(cum: seq<real>, s: nat, m: nat, e: nat)
    requires Rising(cum) && s <= m <= e < |cum|
    ensures 0.0 <= Conditional(cum, s, m, e) <= 1.0
  {
    assert Before(cum, s) <= cum[m];
    assert m < e ==> Before(cum, m + 1) <= cum[e];
    var a, b := cum[m] - Before(cum, s), cum[e] - Before(cum, s);
    assert 0.0 <= a <= b;
    assert b != 0.0 ==> a / b <= 1.0;
  }

  // ----- Trees -----

  function Middle(s: nat, e: nat): nat {
    (s + e) / 2
  }

  /** The choices among alternatives s..e take gates base, base + 1, ...: an input and its
      negation for each split; each alternative is the conjunction of the choices above it. */
  ghost predicate Tree(c: Circuit, muls: seq<nat>, cum: seq<real>, s: nat, e: nat, prefix: seq<nat>, base: nat)
    requires Sized(c) && s <= e < |muls| == |cum| && Rising(cum)
    decreases e - s
  {
    if s == e then
      muls[s] < |c.kind| && c.kind[muls[s]] == AndGate && c.wires[muls[s]] == prefix
    else
      var m := Middle(s, e);
      && base + 1 < |c.kind|
      && c.kind[base] == InGate && c.prob[base] == Conditional(cum, s, m, e)
      && c.kind[base + 1] == NotGate && c.wires[base + 1] == [base]
      && Tree(c, muls, cum, s, m, prefix + [base], base + 2)
      && Tree(c, muls, cum, m + 1, e, prefix + [base + 1], base + 2 + 2 * (m - s))
  }

  /** The n gates from lo on. */
  function Span(lo: nat, n: nat): (gs: set<nat>)
    ensures forall g: nat :: g in gs <==> lo <= g < lo + n
  {
    if n == 0 then {} else Span(lo, n - 1) + {lo + n - 1}
  }

  /** b has the gates of a, except that those in changed may have other kinds and wires;
      no multivalued input is new. */
  ghost predicate Grown(a: Circuit, b: Circuit, changed: set<nat>)
    requires Sized(a) && Sized(b)
  {
    && |a.kind| <= |b.kind| && a.prob == b.prob[..|a.kind|] && a.info == b.info[..|a.kind|] && a.rank == b.rank[..|a.kind|]
    && (forall g: nat :: g < |a.kind| && g !in changed ==> a.kind[g] == b.kind[g] && a.wires[g] == b.wires[g])
    && forall g: nat :: g < |b.kind| && b.kind[g] == MulInGate ==> g < |a.kind| && a.kind[g] == MulInGate
  }

  lemma GrownTrans(a: Circuit, b: Circuit, c: Circuit, ab: set<nat>, bc: set<nat>)
    requires Sized(a) && Sized(b) && Sized(c) && Grown(a, b, ab) && Grown(b, c, bc)
    ensures Grown(a, c, ab + bc)
  {
    assert a.prob == b.prob[..|a.kind|] == c.prob[..|b.kind|][..|a.kind|] == c.prob[..|a.kind|];
    assert a.info == c.info[..|b.kind|][..|a.kind|] == c.info[..|a.kind|];
    assert a.rank == c.rank[..|b.kind|][..|a.kind|] == c.rank[..|a.kind|];
  }

  /** Trees stand when other gates change. */
  lemma {:induction false} TreeStands(a: Circuit, b: Circuit, changed: set<nat>, muls: seq<nat>, cum: seq<real>,
                                      s: nat, e: nat, prefix: seq<nat>, base: nat)
    requires Sized(a) && Sized(b) && Grown(a, b, changed) && s <= e < |muls| == |cum| && Rising(cum)
    requires Tree(a, muls, cum, s, e, prefix, base)
    requires forall g: nat :: g in changed ==> !(base <= g < base + 2 * (e - s))
    requires forall i :: s <= i <= e ==> muls[i] !in changed
    ensures Tree(b, muls, cum, s, e, prefix, base)
    decreases e - s
  {
    if s < e {
      var m := Middle(s, e);
      TreeStands(a, b, changed, muls, cum, s, m, prefix + [base], base + 2);
      TreeStands(a, b, changed, muls, cum, m + 1, e, prefix + [base + 1], base + 2 + 2 * (m - s));
      assert b.prob[base] == b.prob[..|a.kind|][base];
    }
  }

  // ----- What a tree selects -----

  /** The alternative that the choices in w lead to. */
  ghost function Selected(s: nat, e: nat, base: nat, w: World): (i: nat)
    requires s <= e
    ensures s <= i <= e
    decreases e - s
  {
    if s == e then s
    else
      var m := Middle(s, e);
      if True(w, base) then Selected(s, m, base + 2, w) else Selected(m + 1, e, base + 2 + 2 * (m - s), w)
  }

  ghost predicate AllHold(c: Circuit, gs: seq<nat>, w: World)
    requires WellFormed(c) && Sized(c)
  {
    forall k :: 0 <= k < |gs| ==> gs[k] < |c.kind| && Eval(c, gs[k], w)
  }

  lemma AllHoldMore(c: Circuit, gs: seq<nat>, g: nat, w: World)
    requires IsGate(c, g)
    ensures AllHold(c, gs + [g], w) <==> AllHold(c, gs, w) && Eval(c, g, w)
  {
    if AllHold(c, gs + [g], w) {
      forall k | 0 <= k < |gs| ensures gs[k] < |c.kind| && Eval(c, gs[k], w) {
        assert (gs + [g])[k] == gs[k];
      }
      assert (gs + [g])[|gs|] == g;
    }
  }

  /** An alternative of the tree is true exactly when the prefix is and it is selected: at
      most one alternative is true in any world. */
  lemma {:induction false} AlternativeMeans(c: Circuit, muls: seq<nat>, cum: seq<real>, s: nat, e: nat, prefix: seq<nat>,
                                            base: nat, i: nat, w: World)
    requires WellFormed(c) && Sized(c) && s <= i <= e < |muls| == |cum| && Rising(cum)
    requires Tree(c, muls, cum, s, e, prefix, base)
    ensures muls[i] < |c.kind| && (Eval(c, muls[i], w) <==> AllHold(c, prefix, w) && Selected(s, e, base, w) == i)
    decreases e - s
  {
    hide Eval;
    hide AllHold;
    hide Rising;
    hide True;
    if s < e {
      var m := Middle(s, e);
      BothChoices(c, prefix, base, w);
      if i <= m {
        AlternativeMeans(c, muls, cum, s, m, prefix + [base], base + 2, i, w);
      } else {
        AlternativeMeans(c, muls, cum, m + 1, e, prefix + [base + 1], base + 2 + 2 * (m - s), i, w);
      }
    } else {
      AndHolds(c, muls[i], w);
    }
  }

  lemma AndHolds(c: Circuit, g: nat, w: World)
    requires IsGate(c, g) && c.kind[g] == AndGate
    ensures Eval(c, g, w) <==> AllHold(c, c.wires[g], w)
  {
    WiresAreGates(c, g);
    assert forall k :: 0 <= k < |c.wires[g]| ==> c.wires[g][k] in c.wires[g];
  }

  /** The two halves of a split hold in complementary worlds. */
  lemma BothChoices(c: Circuit, prefix: seq<nat>, base: nat, w: World)
    requires IsGate(c, base) && IsGate(c, base + 1) && c.kind[base] == InGate
    requires c.kind[base + 1] == NotGate && c.wires[base + 1] == [base]
    ensures AllHold(c, prefix + [base], w) <==> AllHold(c, prefix, w) && True(w, base)
    ensures AllHold(c, prefix + [base + 1], w) <==> AllHold(c, prefix, w) && !True(w, base)
  {
    AllHoldMore(c, prefix, base, w);
    AllHoldMore(c, prefix, base + 1, w);
    assert Eval(c, base + 1, w) == !Eval(c, c.wires[base + 1][0], w);
  }

  // ----- With which probability -----

  /** The event that alternative i is selected. */
  ghost function Picks(s: nat, e: nat, base: nat, i: nat): Event
    requires s <= e
  {
    (w: World) => Selected(s, e, base, w) == i
  }

  lemma {:induction false} SelectedReads(s: nat, e: nat, base: nat, u: World, w: World)
    requires s <= e && forall g: nat :: base <= g < base + 2 * (e - s) ==> True(u, g) == True(w, g)
    ensures Selected(s, e, base, u) == Selected(s, e, base, w)
    decreases e - s
  {
    if s < e {
      var m := Middle(s, e);
      SelectedReads(s, m, base + 2, u, w);
      SelectedReads(m + 1, e, base + 2 + 2 * (m - s), u, w);
    }
  }

  lemma PicksDecided(d: Space, s: nat, e: nat, base: nat, i: nat)
    requires s <= e && base + 2 * (e - s) <= |d|
    ensures DecidedBy(d, Picks(s, e, base, i), Span(base, 2 * (e - s)))
  {
    forall u, w | Possible(d, u) && Possible(d, w) && Agree(u, w, Span(base, 2 * (e - s)))
      ensures Picks(s, e, base, i)(u) == Picks(s, e, base, i)(w)
    {
      SelectedReads(s, e, base, u, w);
    }
  }

  /** The probability of alternatives s..e. */
  function Mass(cum: seq<real>, s: nat, e: nat): real
    requires s <= e < |cum|
  {
    cum[e] - Before(cum, s)
  }

  lemma MassSplit(cum: seq<real>, s: nat, e: nat)
    requires Rising(cum) && s < e < |cum|
    ensures var m := Middle(s, e);
            && Mul(Mass(cum, s, e), Conditional(cum, s, m, e)) == Mass(cum, s, m)
            && Mul(Mass(cum, s, e), 1.0 - Conditional(cum, s, m, e)) == Mass(cum, m + 1, e)
  {
    var m := Middle(s, e);
    assert Before(cum, s) <= cum[m] && Before(cum, m + 1) <= cum[e];
    var a, b := Mass(cum, s, m), Mass(cum, s, e);
    assert b != 0.0 ==> b * (a / b) == a;
  }

  /** Telescoping conditionals: alternative i is selected with its share of the total. */
  lemma {:induction false} PicksPr(c: Circuit, muls: seq<nat>, cum: seq<real>, s: nat, e: nat, prefix: seq<nat>, base: nat, i: nat)
    requires Unit(c.prob) && Sized(c) && s <= i <= e < |muls| == |cum| && Rising(cum)
    requires Tree(c, muls, cum, s, e, prefix, base) && base + 2 * (e - s) <= |c.kind|
    ensures Mul(Mass(cum, s, e), P(c.prob, Picks(s, e, base, i))) == Mass(cum, i, i)
    decreases e - s
  {
    hide P;
    hide Picks;
    hide Mass;
    hide Mul;
    hide Rising;
    if s == e {
      OnlyChoice(c.prob, cum, s, base);
    } else {
      var m := Middle(s, e);
      if i <= m {
        PicksPr(c, muls, cum, s, m, prefix + [base], base + 2, i);
      } else {
        PicksPr(c, muls, cum, m + 1, e, prefix + [base + 1], base + 2 + 2 * (m - s), i);
      }
      PicksStep(c.prob, cum, s, e, base, i);
    }
  }

  lemma PicksStep(p: seq<real>, cum: seq<real>, s: nat, e: nat, base: nat, i: nat)
    requires Unit(p) && Rising(cum) && s <= i <= e < |cum| && s < e && base + 2 * (e - s) <= |p|
    requires p[base] == Conditional(cum, s, Middle(s, e), e)
    requires var m := Middle(s, e);
             if i <= m then Mul(Mass(cum, s, m), P(p, Picks(s, m, base + 2, i))) == Mass(cum, i, i)
             else Mul(Mass(cum, m + 1, e), P(p, Picks(m + 1, e, base + 2 + 2 * (m - s), i))) == Mass(cum, i, i)
    ensures Mul(Mass(cum, s, e), P(p, Picks(s, e, base, i))) == Mass(cum, i, i)
  {
    MassSplit(cum, s, e);
    hide P;
    hide Picks;
    hide Mass;
    hide Mul;
    hide Conditional;
    hide Rising;
    SplitPr(p, s, e, base, i);
    var m, x, r := Middle(s, e), p[base], Mass(cum, s, e);
    if i <= m {
      MulMove(r, x, P(p, Picks(s, m, base + 2, i)));
    } else {
      MulMove(r, 1.0 - x, P(p, Picks(m + 1, e, base + 2 + 2 * (m - s), i)));
    }
  }

  lemma OnlyChoice(p: seq<real>, cum: seq<real>, s: nat, base: nat)
    requires Unit(p) && s < |cum|
    ensures Mul(Mass(cum, s, s), P(p, Picks(s, s, base, s))) == Mass(cum, s, s)
  {
    BernProb(p);
    hide Pr;
    PrSure(Bern(p), Picks(s, s, base, s));
  }

  lemma SplitPr(p: seq<real>, s: nat, e: nat, base: nat, i: nat)
    requires Unit(p) && s <= i <= e && s < e && base + 2 * (e - s) <= |p|
    ensures var m := Middle(s, e);
            P(p, Picks(s, e, base, i)) == if i <= m then Mul(p[base], P(p, Picks(s, m, base + 2, i)))
                                          else Mul(1.0 - p[base], P(p, Picks(m + 1, e, base + 2 + 2 * (m - s), i)))
  {
    var m := Middle(s, e);
    hide P;
    hide Mul;
    if i <= m {
      ChoicePr(p, s, m, base + 2, i, base, true, Picks(s, e, base, i));
    } else {
      ChoicePr(p, m + 1, e, base + 2 + 2 * (m - s), i, base, false, Picks(s, e, base, i));
    }
  }

  /** Flip g, when it is b, followed by a choice among s..e on later gates. */
  lemma ChoicePr(p: seq<real>, s: nat, e: nat, base: nat, i: nat, g: nat, b: bool, whole: Event)
    requires Unit(p) && s <= e && g < base && base + 2 * (e - s) <= |p| && g < |p|
    requires forall w :: whole(w) == (Flip(g, b)(w) && Picks(s, e, base, i)(w))
    ensures P(p, whole) == Mul(if b then p[g] else 1.0 - p[g], P(p, Picks(s, e, base, i)))
  {
    BernProb(p);
    FlipPr(p, g, b);
    PicksDecided(Bern(p), s, e, base, i);
    hide Pr;
    hide Picks;
    hide Flip;
    hide DecidedBy;
    PrIndepMul(Bern(p), Flip(g, b), {g}, Picks(s, e, base, i), Span(base, 2 * (e - s)), whole);
  }

  // ----- Its size -----

  /** The conjunction of an alternative among n has at most log n choices. */
  lemma {:induction false} ShallowTree(c: Circuit, muls: seq<nat>, cum: seq<real>, s: nat, e: nat, prefix: seq<nat>, base: nat, i: nat, d: nat)
    requires Sized(c) && s <= i <= e < |muls| == |cum| && Rising(cum)
    requires Tree(c, muls, cum, s, e, prefix, base) && e - s < Masks.Pow2(d)
    ensures muls[i] < |c.kind| && |c.wires[muls[i]]| <= |prefix| + d
    decreases e - s
  {
    if s < e {
      var m := Middle(s, e);
      assert d > 0 && Masks.Pow2(d) == 2 * Masks.Pow2(d - 1);
      if i <= m {
        ShallowTree(c, muls, cum, s, m, prefix + [base], base + 2, i, d - 1);
      } else {
        ShallowTree(c, muls, cum, m + 1, e, prefix + [base + 1], base + 2 + 2 * (m - s), i, d - 1);
      }
    }
  }

  lemma {:induction false} LeafKind(c: Circuit, muls: seq<nat>, cum: seq<real>, s: nat, e: nat, prefix: seq<nat>, base: nat, i: nat)
    requires Sized(c) && s <= i <= e < |muls| == |cum| && Rising(cum) && Tree(c, muls, cum, s, e, prefix, base)
    ensures muls[i] < |c.kind| && c.kind[muls[i]] == AndGate
    decreases e - s
  {
    if s < e {
      var m := Middle(s, e);
      if i <= m {
        LeafKind(c, muls, cum, s, m, prefix + [base], base + 2, i);
      } else {
        LeafKind(c, muls, cum, m + 1, e, prefix + [base + 1], base + 2 + 2 * (m - s), i);
      }
    }
  }

  /** The number of inputs among gates lo, ..., hi - 1. */
  function InputCount(c: Circuit, lo: nat, hi: nat): nat
    requires lo <= hi <= |c.kind|
    decreases hi - lo
  {
    if lo == hi then 0 else InputCount(c, lo, hi - 1) + if c.kind[hi - 1] == InGate then 1 else 0
  }

  lemma {:induction false} CountAppend(c: Circuit, lo: nat, mid: nat, hi: nat)
    requires lo <= mid <= hi <= |c.kind|
    ensures InputCount(c, lo, hi) == InputCount(c, lo, mid) + InputCount(c, mid, hi)
    decreases hi - mid
  {
    if mid < hi { CountAppend(c, lo, mid, hi - 1); }
  }

  /** One new input for each split: one fewer than the alternatives. */
  lemma {:induction false} TreeInputs(c: Circuit, muls: seq<nat>, cum: seq<real>, s: nat, e: nat, prefix: seq<nat>, base: nat)
    requires Sized(c) && s <= e < |muls| == |cum| && Rising(cum)
    requires Tree(c, muls, cum, s, e, prefix, base) && base + 2 * (e - s) <= |c.kind|
    ensures InputCount(c, base, base + 2 * (e - s)) == e - s
    decreases e - s
  {
    if s < e {
      var m := Middle(s, e);
      var left := base + 2;
      var right := left + 2 * (m - s);
      TreeInputs(c, muls, cum, s, m, prefix + [base], left);
      TreeInputs(c, muls, cum, m + 1, e, prefix + [base + 1], right);
      CountAppend(c, base, left, right);
      CountAppend(c, base, right, right + 2 * (e - m - 1));
      assert InputCount(c, base, base + 1) == 1;
    }
  }
}
