/** Rewriting of multivalued inputs into Boolean circuits over fresh independent inputs. */
module MultivaluedRewrite {
  import opened Worlds
  import opened Probability
  import opened BooleanCircuit
  import opened SelectionTrees
  import opened KeyBlocks
  import opened Sequences
  import Categorical
  import KeyWorlds

  // ----- Adding and changing gates -----

  function WithGate(c: Circuit, k: Kind, x: real): Circuit {
    Circuit(c.kind + [k], c.wires + [[]], c.prob + [x], c.info + [0], c.rank + [if k == NotGate then 1 else 0])
  }

  function WithWires(c: Circuit, g: nat, ws: seq<nat>): Circuit
    requires g < |c.wires|
  {
    c.(wires := c.wires[g := ws])
  }

  function Conjunction(c: Circuit, g: nat): Circuit
    requires g < |c.wires| && g < |c.kind|
  {
    c.(kind := c.kind[g := AndGate], wires := c.wires[g := []])
  }

  /** An input of probability x and its negation. */
  function WithSplit(c: Circuit, x: real): Circuit
    requires Sized(c)
  {
    WithWires(WithGate(WithGate(c, InGate, x), NotGate, 1.0), |c.kind| + 1, [|c.kind|])
  }

  lemma SplitGood(c: Circuit, x: real)
    requires Good(c) && 0.0 <= x <= 1.0
    ensures var b := WithSplit(c, x);
            && Good(b) && Grown(c, b, {}) && |b.kind| == |c.kind| + 2
            && b.kind[|c.kind|] == InGate && b.prob[|c.kind|] == x && b.rank[|c.kind|] == 0
            && b.kind[|c.kind| + 1] == NotGate && b.wires[|c.kind| + 1] == [|c.kind|] && b.rank[|c.kind| + 1] == 1
  {
  }

  lemma InputGood(c: Circuit, x: real)
    requires Good(c) && 0.0 <= x <= 1.0
    ensures var b := WithGate(c, InGate, x);
            && Good(b) && Grown(c, b, {}) && |b.kind| == |c.kind| + 1
            && b.kind[|c.kind|] == InGate && b.prob[|c.kind|] == x && b.rank[|c.kind|] == 0
  {
  }

  /** The alternatives muls, all conjunctions by now, above gates that may be wired to them. */
  ghost predicate Ready(c: Circuit, muls: seq<nat>, prefix: seq<nat>) {
    && Good(c) && Distinct(muls)
    && (forall i :: 0 <= i < |muls| ==> muls[i] < |c.kind| && c.kind[muls[i]] == AndGate && c.rank[muls[i]] >= 2)
    && (forall i :: 0 <= i < |prefix| ==> prefix[i] < |c.kind| && c.rank[prefix[i]] < 2)
  }

  function Part(muls: seq<nat>, s: nat, e: nat): set<nat>
    requires s <= e < |muls|
  {
    Elements(muls[s..e + 1])
  }

  lemma InPart(muls: seq<nat>, s: nat, e: nat, g: nat)
    requires s <= e < |muls|
    ensures g in Part(muls, s, e) <==> exists i :: s <= i <= e && muls[i] == g
  {
    if g in Part(muls, s, e) {
      var k :| 0 <= k < |muls[s..e + 1]| && muls[s..e + 1][k] == g;
      assert muls[s + k] == g;
    }
    if i :| s <= i <= e && muls[i] == g {
      assert muls[s..e + 1][i - s] == g;
    }
  }

  lemma LeafGood(c: Circuit, muls: seq<nat>, prefix: seq<nat>, s: nat)
    requires Ready(c, muls, prefix) && s < |muls|
    ensures var b := WithWires(c, muls[s], prefix);
            Ready(b, muls, prefix) && Grown(c, b, Part(muls, s, s))
  {
    InPart(muls, s, s, muls[s]);
  }

  /** Growth keeps alternatives ready, under a prefix of gates that exist. */
  lemma GrownReady(a: Circuit, b: Circuit, changed: set<nat>, muls: seq<nat>, prefix: seq<nat>)
    requires Ready(a, muls, prefix) && Good(b) && Grown(a, b, changed)
    requires forall i :: 0 <= i < |muls| ==> b.kind[muls[i]] == AndGate
    ensures Ready(b, muls, prefix)
  {
    forall g: nat | g < |a.kind| ensures b.rank[g] == a.rank[g] {
      assert b.rank[..|a.kind|][g] == b.rank[g];
    }
  }

  lemma ReadyAfterSplit(c: Circuit, x: real, muls: seq<nat>, prefix: seq<nat>)
    requires Ready(c, muls, prefix) && 0.0 <= x <= 1.0
    ensures var b := WithSplit(c, x);
            Ready(b, muls, prefix + [|c.kind|]) && Ready(b, muls, prefix + [|c.kind| + 1])
  {
    SplitGood(c, x);
    GrownReady(c, WithSplit(c, x), {}, muls, prefix);
  }

  /** d is a with the selection tree over alternatives s..e built at its end. */
  ghost predicate Built(a: Circuit, d: Circuit, muls: seq<nat>, cum: seq<real>, s: nat, e: nat, prefix: seq<nat>)
    requires s <= e < |muls| == |cum| && Rising(cum)
  {
    && Sized(a) && Ready(d, muls, prefix) && |d.kind| == |a.kind| + 2 * (e - s)
    && Grown(a, d, Part(muls, s, e)) && Tree(d, muls, cum, s, e, prefix, |a.kind|)
  }

  /** A split and the trees below it make a tree. */
  lemma Assemble(a: Circuit, b: Circuit, c: Circuit, d: Circuit, muls: seq<nat>, cum: seq<real>, s: nat, e: nat, prefix: seq<nat>)
    requires Ready(a, muls, prefix) && s < e < |muls| == |cum| && Rising(cum)
    requires b == WithSplit(a, Conditional(cum, s, Middle(s, e), e))
    requires Built(b, c, muls, cum, s, Middle(s, e), prefix + [|a.kind|])
    requires Built(c, d, muls, cum, Middle(s, e) + 1, e, prefix + [|a.kind| + 1])
    ensures Built(a, d, muls, cum, s, e, prefix)
  {
    hide Tree;
    hide Part;
    hide WellFormed;
    hide Distinct;
    var m := Middle(s, e);
    ConditionalUnit(cum, s, m, e);
    SplitGood(a, Conditional(cum, s, m, e));
    hide Rising;
    hide WithSplit;
    hide Conditional;
    ReadyShorter(d, muls, prefix, |a.kind| + 1);
    LeftStands(a, c, d, muls, cum, s, m, e, prefix);
    hide Ready;
    hide Grown;
    AssembleGrown(a, b, c, d, muls, s, m, e);
    GrownTrans(b, c, d, Part(muls, s, m), Part(muls, m + 1, e));
    PairStands(a, b, d, muls, prefix, s, m, e, |a.kind|);
    PairStands(a, b, d, muls, prefix, s, m, e, |a.kind| + 1);
    TreeNode(d, muls, cum, s, e, prefix, |a.kind|, |c.kind|);
  }

  lemma AssembleGrown(a: Circuit, b: Circuit, c: Circuit, d: Circuit, muls: seq<nat>, s: nat, m: nat, e: nat)
    requires Sized(a) && Sized(b) && Sized(c) && Sized(d) && s <= m < e < |muls|
    requires Grown(a, b, {}) && Grown(b, c, Part(muls, s, m)) && Grown(c, d, Part(muls, m + 1, e))
    ensures Grown(a, d, Part(muls, s, e))
  {
    PartsJoin(muls, s, m, e);
    GrownTrans(a, b, c, {}, Part(muls, s, m));
    GrownTrans(a, c, d, {} + Part(muls, s, m), Part(muls, m + 1, e));
  }

  lemma PartsJoin(muls: seq<nat>, s: nat, m: nat, e: nat)
    requires s <= m < e < |muls|
    ensures Part(muls, s, e) == {} + Part(muls, s, m) + Part(muls, m + 1, e)
  {
    forall g ensures g in Part(muls, s, e) <==> g in Part(muls, s, m) || g in Part(muls, m + 1, e) {
      InPart(muls, s, e, g);
      InPart(muls, s, m, g);
      InPart(muls, m + 1, e, g);
    }
  }

  /** The new pair of gates is no alternative, so it stands. */
  lemma PairStands(a: Circuit, b: Circuit, d: Circuit, muls: seq<nat>, prefix: seq<nat>, s: nat, m: nat, e: nat, g: nat)
    requires Ready(a, muls, prefix) && s <= m < e < |muls| && |a.kind| <= g < |b.kind| && Sized(b) && Sized(d)
    requires Grown(b, d, Part(muls, s, m) + Part(muls, m + 1, e))
    ensures g < |d.kind| && b.kind[g] == d.kind[g] && b.wires[g] == d.wires[g] && b.prob[g] == d.prob[g]
  {
    PartBelow(a, muls, prefix, s, m, g);
    PartBelow(a, muls, prefix, m + 1, e, g);
    assert d.prob[..|b.kind|][g] == d.prob[g];
  }

  lemma TreeNode(d: Circuit, muls: seq<nat>, cum: seq<real>, s: nat, e: nat, prefix: seq<nat>, base: nat, next: nat)
    requires next == base + 2 + 2 * (Middle(s, e) - s)
    requires Good(d) && s < e < |muls| == |cum| && Rising(cum) && base + 1 < |d.kind|
    requires d.kind[base] == InGate && d.prob[base] == Conditional(cum, s, Middle(s, e), e)
    requires d.kind[base + 1] == NotGate && d.wires[base + 1] == [base]
    requires Tree(d, muls, cum, s, Middle(s, e), prefix + [base], base + 2)
    requires Tree(d, muls, cum, Middle(s, e) + 1, e, prefix + [base + 1], next)
    ensures Tree(d, muls, cum, s, e, prefix, base)
  {
  }

  lemma LeafBuilt(c: Circuit, muls: seq<nat>, cum: seq<real>, prefix: seq<nat>, s: nat)
    requires Ready(c, muls, prefix) && s < |muls| == |cum| && Rising(cum)
    ensures Built(c, WithWires(c, muls[s], prefix), muls, cum, s, s, prefix)
  {
    LeafGood(c, muls, prefix, s);
  }

  /** After the left half, the right half may start. */
  lemma LeftBuilt(a: Circuit, b: Circuit, l: Circuit, muls: seq<nat>, cum: seq<real>, s: nat, mid: nat, p: seq<nat>)
    requires s <= mid < |muls| == |cum| && Rising(cum) && Ready(b, muls, p + [|a.kind| + 1])
    requires Built(b, l, muls, cum, s, mid, p + [|a.kind|])
    ensures Ready(l, muls, p + [|a.kind| + 1])
  {
    hide Tree;
    hide Rising;
    GrownReady(b, l, Part(muls, s, mid), muls, p + [|a.kind| + 1]);
  }

  lemma PartBelow(a: Circuit, muls: seq<nat>, prefix: seq<nat>, s: nat, e: nat, g: nat)
    requires Ready(a, muls, prefix) && s <= e < |muls| && g >= |a.kind|
    ensures g !in Part(muls, s, e)
  {
    InPart(muls, s, e, g);
  }

  lemma LeftStands(a: Circuit, c: Circuit, d: Circuit, muls: seq<nat>, cum: seq<real>, s: nat, m: nat, e: nat, prefix: seq<nat>)
    requires Ready(a, muls, prefix) && s <= m < e < |muls| == |cum| && Rising(cum) && Good(c) && Good(d)
    requires Grown(c, d, Part(muls, m + 1, e)) && |c.kind| == |a.kind| + 2 + 2 * (m - s)
    requires Tree(c, muls, cum, s, m, prefix + [|a.kind|], |a.kind| + 2)
    ensures Tree(d, muls, cum, s, m, prefix + [|a.kind|], |a.kind| + 2)
  {
    var later := Part(muls, m + 1, e);
    forall g | g in later ensures !(|a.kind| + 2 <= g < |a.kind| + 2 + 2 * (m - s)) {
      InPart(muls, m + 1, e, g);
    }
    forall i | s <= i <= m ensures muls[i] !in Part(muls, m + 1, e) {
      InPart(muls, m + 1, e, muls[i]);
    }
    TreeStands(c, d, Part(muls, m + 1, e), muls, cum, s, m, prefix + [|a.kind|], |a.kind| + 2);
  }

  // ----- One key -----

  /** The first k alternatives are conjunctions already. */
  ghost predicate Retyped(a: Circuit, b: Circuit, muls: seq<nat>, k: nat)
    requires k <= |muls|
  {
    && Good(a) && Good(b) && a.prob == b.prob && |a.kind| == |b.kind| && Grown(a, b, Elements(muls[..k]))
    && forall i :: 0 <= i < k ==> muls[i] < |b.kind| && b.kind[muls[i]] == AndGate
  }

  lemma RetypeMore(a: Circuit, b: Circuit, muls: seq<nat>, k: nat)
    requires k < |muls| && Retyped(a, b, muls, k) && muls[k] < |a.kind|
    ensures Retyped(a, Conjunction(b, muls[k]), muls, k + 1)
  {
    assert Elements(muls[..k + 1]) == Elements(muls[..k]) + {muls[k]};
  }

  /** Alternatives of a key that can be rewritten. */
  ghost predicate Rewritable(c: Circuit, muls: seq<nat>) {
    && Good(c) && |muls| > 0 && Distinct(muls)
    && (forall i :: 0 <= i < |muls| ==> muls[i] < |c.kind| && c.rank[muls[i]] >= 2)
    && Cumulated(c.prob, muls, |muls|) <= 1.0
  }

  lemma RetypeStarts(c: Circuit, muls: seq<nat>)
    requires Rewritable(c, muls)
    ensures Retyped(c, c, muls, 0) && forall i :: 0 <= i < |muls| ==> muls[i] < |c.kind|
  {
    assert muls[..0] == [];
  }

  lemma RetypeStep(a: Circuit, b: Circuit, muls: seq<nat>, k: nat)
    requires Rewritable(a, muls) && k < |muls| && Retyped(a, b, muls, k)
    ensures muls[k] < |b.kind| == |b.wires| && a.prob == b.prob && |b.prob| == |b.kind|
    ensures Retyped(a, Conjunction(b, muls[k]), muls, k + 1)
  {
    RetypeMore(a, b, muls, k);
  }

  /** The first k running totals. */
  ghost predicate CumulatedTo(p: seq<real>, muls: seq<nat>, cum: seq<real>, total: real, k: nat)
    requires forall i :: 0 <= i < |muls| ==> muls[i] < |p|
  {
    |cum| == k <= |muls| && total == Cumulated(p, muls, k) && forall j :: 0 <= j < k ==> cum[j] == Cumulated(p, muls, j + 1)
  }

  lemma CumulatedNone(p: seq<real>, muls: seq<nat>)
    requires forall i :: 0 <= i < |muls| ==> muls[i] < |p|
    ensures CumulatedTo(p, muls, [], 0.0, 0)
  {
  }

  lemma CumulatedDone(p: seq<real>, muls: seq<nat>, cum: seq<real>, total: real)
    requires (forall i :: 0 <= i < |muls| ==> muls[i] < |p|) && CumulatedTo(p, muls, cum, total, |muls|)
    ensures cum == CumulatedAll(p, muls)
  {
  }

  lemma CumulatedMore(p: seq<real>, muls: seq<nat>, cum: seq<real>, total: real, k: nat)
    requires (forall i :: 0 <= i < |muls| ==> muls[i] < |p|) && k < |muls| && CumulatedTo(p, muls, cum, total, k)
    ensures CumulatedTo(p, muls, cum + [total + p[muls[k]]], total + p[muls[k]], k + 1)
  {
  }

  lemma RetypedReady(a: Circuit, b: Circuit, muls: seq<nat>)
    requires Rewritable(a, muls) && Retyped(a, b, muls, |muls|)
    ensures Ready(b, muls, [])
  {
    forall g: nat | g < |a.kind| ensures b.rank[g] == a.rank[g] {
      assert b.rank[..|a.kind|][g] == b.rank[g];
    }
  }

  lemma GuardReady(b: Circuit, muls: seq<nat>, x: real)
    requires Ready(b, muls, []) && 0.0 <= x <= 1.0
    ensures Ready(WithGate(b, InGate, x), muls, [|b.kind|])
  {
    InputGood(b, x);
    GrownReady(b, WithGate(b, InGate, x), {}, muls, []);
  }

  /** c is a with the block of muls built at its end. */
  ghost predicate BlockBuilt(a: Circuit, c: Circuit, muls: seq<nat>, cum: seq<real>) {
    && Good(a) && Good(c) && 0 < |muls| == |cum| && Rising(cum)
    && |c.kind| == |a.kind| + Taken(cum) && Grown(a, c, Elements(muls)) && KeyTree(c, muls, cum, |a.kind|)
  }

  lemma UnguardedBuilt(a: Circuit, b: Circuit, c: Circuit, muls: seq<nat>, cum: seq<real>)
    requires |muls| > 0 && Retyped(a, b, muls, |muls|) && |cum| == |muls| && Rising(cum) && !Guarded(cum)
    requires Built(b, c, muls, cum, 0, |muls| - 1, [])
    ensures BlockBuilt(a, c, muls, cum)
  {
    assert muls[..|muls|] == muls && muls[0..|muls| - 1 + 1] == muls;
    assert Elements(muls) + Elements(muls) == Elements(muls);
    GrownTrans(a, b, c, Elements(muls), Elements(muls));
  }

  lemma GuardedBuilt(a: Circuit, b: Circuit, c: Circuit, muls: seq<nat>, cum: seq<real>)
    requires |muls| > 0 && Retyped(a, b, muls, |muls|) && |cum| == |muls| && Rising(cum) && Guarded(cum)
    requires 0.0 <= cum[|cum| - 1] <= 1.0
    requires Built(WithGate(b, InGate, cum[|cum| - 1]), c, muls, cum, 0, |muls| - 1, [|b.kind|])
    ensures BlockBuilt(a, c, muls, cum)
  {
    var g := WithGate(b, InGate, cum[|cum| - 1]);
    InputGood(b, cum[|cum| - 1]);
    assert muls[..|muls|] == muls && muls[0..|muls| - 1 + 1] == muls;
    assert Elements(muls) + {} + Elements(muls) == Elements(muls);
    GrownTrans(a, b, g, Elements(muls), {});
    GrownTrans(a, g, c, Elements(muls) + {}, Elements(muls));
    var n := |b.kind|;
    assert n !in Elements(muls);
    assert c.prob[..n + 1][n] == c.prob[n];
  }

  // ----- All keys -----

  /** The alternatives of each key, each exactly once. */
  ghost predicate IsGrouping(c: Circuit, gs: set<nat>, groups: map<nat, seq<nat>>) {
    && Good(c) && (forall g :: g in gs ==> IsMul(c, g))
    && (forall v :: v in groups ==> |groups[v]| > 0 && Distinct(groups[v]) && forall g :: g in groups[v] ==> g in gs && Key(c, g) == v)
    && forall g :: g in gs ==> Key(c, g) in groups && g in groups[Key(c, g)]
  }

  ghost predicate AllGrouped(c: Circuit, groups: map<nat, seq<nat>>) {
    Good(c) && IsGrouping(c, MulIns(c), groups)
  }

  function Grouped(groups: map<nat, seq<nat>>, v: nat, g: nat): map<nat, seq<nat>> {
    groups[v := (if v in groups then groups[v] else []) + [g]]
  }

  lemma GroupMore(c: Circuit, gs: set<nat>, groups: map<nat, seq<nat>>, g: nat)
    requires IsGrouping(c, gs, groups) && IsMul(c, g) && g !in gs
    ensures IsGrouping(c, gs + {g}, Grouped(groups, Key(c, g), g))
  {
    hide WellFormed;
    var v := Key(c, g);
    var more := Grouped(groups, v, g);
    assert v !in groups ==> more[v] == [g];
    assert forall h :: h in gs ==> h in more[Key(c, h)];
  }

  function Lifted(c: Circuit): Circuit {
    c.(rank := seq(|c.rank|, (g: nat) requires g < |c.rank| => c.rank[g] + 2))
  }

  /** The rank only witnesses that the wires are acyclic. */
  lemma {:induction false} LiftedEval(c: Circuit, g: nat, w: World)
    requires IsGate(c, g)
    ensures IsGate(Lifted(c), g) && Eval(Lifted(c), g, w) == Eval(c, g, w)
    decreases c.rank[g]
  {
    forall k | 0 <= k < |c.wires[g]| ensures Eval(Lifted(c), c.wires[g][k], w) == Eval(c, c.wires[g][k], w) {
      LiftedEval(c, c.wires[g][k], w);
    }
  }

  lemma LiftedCategorical(c: Circuit, d: Space)
    requires IsCategorical(c, d)
    ensures IsCategorical(Lifted(c), d) && MulIns(Lifted(c)) == MulIns(c)
    ensures forall g: nat :: g < |c.kind| ==> Lifted(c).rank[g] >= 2
  {
    var l := Lifted(c);
    LiftedGood(c);
    hide WellFormed;
    hide Prob;
    hide Lifted;
    assert l.kind == c.kind && l.wires == c.wires && l.prob == c.prob && l.info == c.info && Good(l) by { LiftedFields(c); }
    forall g: nat | IsMul(l, g) ensures IsMul(c, g) && Key(l, g) == Key(c, g) && IsAlternativeOf(l, d, g, Key(l, g)) {
      assert IsMul(c, g) && IsAlternativeOf(c, d, g, Key(c, g));
    }
    forall v: nat, k: nat | v < |d| && l.kind[v] == MulVarGate && 0 < k < |d[v]| && d[v][k] != 0.0
      ensures exists g: nat :: IsMul(l, g) && Key(l, g) == v && l.info[g] + 1 == k
    {
      var g: nat :| IsMul(c, g) && Key(c, g) == v && c.info[g] + 1 == k;
      assert IsMul(l, g) && Key(l, g) == v;
    }
  }

  lemma LiftedFields(c: Circuit)
    ensures var l := Lifted(c);
            l.kind == c.kind && l.wires == c.wires && l.prob == c.prob && l.info == c.info
  {
  }

  lemma LiftedGood(c: Circuit)
    requires Good(c)
    ensures Good(Lifted(c)) && forall g: nat :: g < |c.kind| ==> Lifted(c).rank[g] >= 2
  {
  }

  /** The alternatives of a key are exclusive, so their probabilities sum to at most one. */
  function FirstOf(c: Circuit, muls: seq<nat>, v: nat, k: nat): Event
    requires k <= |muls| && forall i :: 0 <= i < |muls| ==> muls[i] < |c.info|
  {
    w => exists i :: 0 <= i < k && v < |w| && w[v] == c.info[muls[i]] + 1
  }

  lemma {:induction false} AlternativesSum(c: Circuit, d: Space, muls: seq<nat>, v: nat, k: nat)
    requires IsCategorical(c, d) && k <= |muls| && Distinct(muls)
    requires forall i :: 0 <= i < |muls| ==> IsMul(c, muls[i]) && Key(c, muls[i]) == v
    ensures Cumulated(c.prob, muls, k) == Pr(d, FirstOf(c, muls, v, k))
  {
    hide Pr;
    hide Prob;
    hide WellFormed;
    if k == 0 {
      PrSure(d, FirstOf(c, muls, v, 0));
    } else {
      var g := muls[k - 1];
      assert IsAlternativeOf(c, d, g, v);
      AlternativesSum(c, d, muls, v, k - 1);
      Categorical.OutcomePr(d, v, c.info[g] + 1);
      OneMore(c, d, muls, v, k - 1);
    }
  }

  lemma OneMore(c: Circuit, d: Space, muls: seq<nat>, v: nat, k: nat)
    requires IsCategorical(c, d) && k < |muls| && Distinct(muls)
    requires forall i :: 0 <= i < |muls| ==> IsMul(c, muls[i]) && Key(c, muls[i]) == v
    ensures Pr(d, FirstOf(c, muls, v, k + 1)) == Pr(d, FirstOf(c, muls, v, k)) + Pr(d, Categorical.Outcome(v, c.info[muls[k]] + 1))
  {
    hide Pr;
    var a, b, e := FirstOf(c, muls, v, k), Categorical.Outcome(v, c.info[muls[k]] + 1), FirstOf(c, muls, v, k + 1);
    forall w | Possible(d, w) ensures e(w) == (a(w) || b(w)) && !(a(w) && b(w)) {
      forall i | 0 <= i < k ensures c.info[muls[i]] != c.info[muls[k]] {
        assert IsMul(c, muls[i]) && IsMul(c, muls[k]) && muls[i] != muls[k];
      }
    }
    PrSplit(d, a, b, e);
  }

  /** All alternatives of the block's key. */
  ghost predicate AllOfKey(c: Circuit, b: KeyBlock) {
    Alternatives(c, b) && forall g: nat :: IsMul(c, g) && Key(c, g) == b.key ==> g in b.muls
  }

  /** What is left to none of a key's alternatives is the probability of outcome zero. */
  lemma TotalAndRest(c: Circuit, d: Space, b: KeyBlock)
    requires IsCategorical(c, d) && AllOfKey(c, b)
    ensures b.key < |d| && |d[b.key]| > 0 && Cumulated(c.prob, b.muls, |b.muls|) == 1.0 - d[b.key][0]
  {
    var muls, v, n := b.muls, b.key, |b.muls|;
    assert IsAlternativeOf(c, d, muls[0], v);
    AlternativesSum(c, d, muls, v, n);
    Categorical.OutcomePr(d, v, 0);
    SomeOrNone(c, d, b);
  }

  lemma SomeOrNone(c: Circuit, d: Space, b: KeyBlock)
    requires IsCategorical(c, d) && AllOfKey(c, b) && b.key < |d|
    ensures Pr(d, FirstOf(c, b.muls, b.key, |b.muls|)) == 1.0 - Pr(d, Categorical.Outcome(b.key, 0))
  {
    var muls, v, n := b.muls, b.key, |b.muls|;
    var some, none := FirstOf(c, muls, v, n), Categorical.Outcome(v, 0);
    hide WellFormed;
    hide Pr;
    assert c.kind[v] == MulVarGate by { assert IsAlternativeOf(c, d, muls[0], v); }
    forall w | Possible(d, w) ensures some(w) == !none(w) {
      if w[v] != 0 { ChosenAlternative(c, d, b, w[v]); }
    }
    PrNot(d, none, some);
  }

  lemma ChosenAlternative(c: Circuit, d: Space, b: KeyBlock, k: nat)
    requires IsCategorical(c, d) && AllOfKey(c, b) && b.key < |d| && c.kind[b.key] == MulVarGate
    requires 0 < k < |d[b.key]| && d[b.key][k] != 0.0
    ensures exists i :: 0 <= i < |b.muls| && c.info[b.muls[i]] + 1 == k
  {
    var g: nat :| IsMul(c, g) && Key(c, g) == b.key && c.info[g] + 1 == k;
    var i :| 0 <= i < |b.muls| && b.muls[i] == g;
  }

  /** The keys in rest are untouched, the others have their blocks. */
  ghost predicate Progress(c0: Circuit, c: Circuit, groups: map<nat, seq<nat>>, rest: set<nat>, changed: set<nat>, blocks: seq<KeyBlock>) {
    && Good(c0) && Good(c) && Grown(c0, c, changed) && rest <= groups.Keys
    && (forall g :: g in changed ==> IsMul(c0, g))
    && (forall v, g :: v in rest && g in groups[v] ==> g !in changed)
    && (forall b :: b in blocks ==> BlockOk(c0, c, b) && b.key in groups && b.key !in rest && b.muls == groups[b.key])
    && Ordered(c0, blocks)
    && (forall v :: v in groups && v !in rest ==> HasKey(blocks, v))
  }

  lemma ProgressStarts(c0: Circuit, groups: map<nat, seq<nat>>)
    requires Good(c0)
    ensures Progress(c0, c0, groups, groups.Keys, {}, [])
  {
  }

  /** A block stands while other keys are rewritten. */
  lemma BlockStands(c0: Circuit, a: Circuit, c: Circuit, changed: set<nat>, b: KeyBlock)
    requires BlockOk(c0, a, b) && Good(c) && Grown(a, c, changed)
    requires forall g :: g in changed ==> g < |c0.kind|
    requires forall g :: g in b.muls ==> g !in changed
    ensures BlockOk(c0, c, b)
  {
    var cum, n := Cum(c0, b), |b.muls| - 1;
    forall i | 0 <= i <= n ensures b.muls[i] !in changed {
      assert b.muls[i] in b.muls;
    }
    if Guarded(cum) {
      TreeStands(a, c, changed, b.muls, cum, 0, n, [b.base], b.base + 1);
      assert c.prob[..|a.kind|][b.base] == c.prob[b.base];
    } else {
      TreeStands(a, c, changed, b.muls, cum, 0, n, [], b.base);
    }
  }

  lemma ProgressGood(c0: Circuit, a: Circuit, groups: map<nat, seq<nat>>, rest: set<nat>, changed: set<nat>, blocks: seq<KeyBlock>)
    requires Progress(c0, a, groups, rest, changed, blocks)
    ensures Good(c0) && Good(a) && Grown(c0, a, changed) && rest <= groups.Keys
  {
  }

  lemma GroupIsAlternatives(c: Circuit, groups: map<nat, seq<nat>>, v: nat, base: nat)
    requires AllGrouped(c, groups) && v in groups
    ensures Alternatives(c, KeyBlock(v, groups[v], base))
  {
    var muls := groups[v];
    forall i | 0 <= i < |muls| ensures IsMul(c, muls[i]) && Key(c, muls[i]) == v {
      assert muls[i] in muls;
    }
  }

  /** The alternatives of a key are as likely as in the original. */
  lemma KeyRewritable(c0: Circuit, a: Circuit, d: Space, muls: seq<nat>, changed: set<nat>, v: nat)
    requires Good(c0) && Good(a) && Grown(c0, a, changed) && Alternatives(c0, KeyBlock(v, muls, |a.kind|))
    requires IsCategorical(c0, d) && forall g: nat :: g < |c0.kind| ==> c0.rank[g] >= 2
    ensures Rewritable(a, muls)
    ensures CumulatedAll(a.prob, muls) == Cum(c0, KeyBlock(v, muls, |a.kind|))
  {
    forall i | 0 <= i < |muls| ensures a.rank[muls[i]] >= 2 {
      assert a.rank[..|c0.kind|][muls[i]] == a.rank[muls[i]];
    }
    AlternativesSum(c0, d, muls, v, |muls|);
    hide Pr;
    PrBounds(d, FirstOf(c0, muls, v, |muls|));
    forall k | 0 <= k <= |muls| ensures Cumulated(a.prob, muls, k) == Cumulated(c0.prob, muls, k) {
      SameCumulated(c0, a, changed, muls, k);
    }
  }

  lemma {:induction false} SameCumulated(c0: Circuit, a: Circuit, changed: set<nat>, muls: seq<nat>, k: nat)
    requires Good(c0) && Good(a) && Grown(c0, a, changed) && k <= |muls| && forall i :: 0 <= i < |muls| ==> muls[i] < |c0.kind|
    ensures Cumulated(a.prob, muls, k) == Cumulated(c0.prob, muls, k)
    decreases k
  {
    if k > 0 {
      SameCumulated(c0, a, changed, muls, k - 1);
      assert a.prob[..|c0.kind|][muls[k - 1]] == a.prob[muls[k - 1]];
    }
  }

  /** One more key. */
  lemma ProgressStep(c0: Circuit, a: Circuit, c: Circuit, groups: map<nat, seq<nat>>, rest: set<nat>, changed: set<nat>,
                     blocks: seq<KeyBlock>, v: nat)
    requires Progress(c0, a, groups, rest, changed, blocks) && v in rest && AllGrouped(c0, groups)
    requires Alternatives(c0, KeyBlock(v, groups[v], |a.kind|))
    requires BlockBuilt(a, c, groups[v], Cum(c0, KeyBlock(v, groups[v], |a.kind|)))
    ensures Progress(c0, c, groups, rest - {v}, changed + Elements(groups[v]), blocks + [KeyBlock(v, groups[v], |a.kind|)])
  {
    var muls, more := groups[v], blocks + [KeyBlock(v, groups[v], |a.kind|)];
    hide KeyTree;
    hide WellFormed;
    hide Taken;
    hide Cum;
    GrownTrans(c0, a, c, changed, Elements(muls));
    assert BlockOk(c0, c, KeyBlock(v, muls, |a.kind|));
    BlocksStand(c0, a, c, groups, blocks, v);
    forall u, g | u in rest - {v} && g in groups[u] ensures g !in Elements(muls) {
      OtherKey(c0, groups, u, v);
    }
    KeysCovered(groups, rest, blocks, v, KeyBlock(v, muls, |a.kind|));
    BlocksOrdered(c0, a, blocks, KeyBlock(v, muls, |a.kind|));
  }

  lemma BlocksOrdered(c0: Circuit, a: Circuit, blocks: seq<KeyBlock>, b: KeyBlock)
    requires b.base == |a.kind| && Ordered(c0, blocks)
    requires forall x :: x in blocks ==> BlockOk(c0, a, x) && x.key != b.key
    ensures Ordered(c0, blocks + [b])
  {
    hide KeyTree;
    hide WellFormed;
    hide Alternatives;
    var more := blocks + [b];
    forall k, l | 0 <= k < l < |more| ensures Apart(c0, more[k], more[l]) {
      assert more[k] == blocks[k] && blocks[k] in blocks && BlockOk(c0, a, blocks[k]);
      if l < |blocks| {
        assert more[l] == blocks[l];
      } else {
        assert more[l] == b;
      }
    }
  }

  lemma BlocksStand(c0: Circuit, a: Circuit, c: Circuit, groups: map<nat, seq<nat>>, blocks: seq<KeyBlock>, v: nat)
    requires AllGrouped(c0, groups) && v in groups && Good(c)
    requires forall b :: b in blocks ==> BlockOk(c0, a, b) && b.key in groups && b.key != v && b.muls == groups[b.key]
    requires Good(a) && Grown(a, c, Elements(groups[v]))
    ensures forall b :: b in blocks ==> BlockOk(c0, c, b)
  {
    hide KeyTree;
    hide WellFormed;
    hide Grown;
    forall g | g in Elements(groups[v]) ensures g < |c0.kind| {
      assert g in groups[v] && IsMul(c0, g);
    }
    forall b | b in blocks ensures BlockOk(c0, c, b) {
      OtherKey(c0, groups, b.key, v);
      BlockStands(c0, a, c, Elements(groups[v]), b);
    }
  }

  lemma OtherKey(c: Circuit, groups: map<nat, seq<nat>>, u: nat, v: nat)
    requires AllGrouped(c, groups) && u in groups && v in groups && u != v
    ensures forall g :: g in groups[u] ==> g !in Elements(groups[v])
  {
  }

  lemma KeysCovered(groups: map<nat, seq<nat>>, rest: set<nat>, blocks: seq<KeyBlock>, v: nat, b: KeyBlock)
    requires b.key == v && forall u :: u in groups && u !in rest ==> HasKey(blocks, u)
    ensures forall u :: u in groups && u !in rest - {v} ==> HasKey(blocks + [b], u)
  {
    var more := blocks + [b];
    forall u | u in groups && u !in rest - {v} ensures HasKey(more, u) {
      if u == v {
        assert more[|blocks|].key == u;
      } else {
        var k :| 0 <= k < |blocks| && blocks[k].key == u;
        assert more[k].key == u;
      }
    }
  }

  lemma ProgressEnds(c0: Circuit, c: Circuit, groups: map<nat, seq<nat>>, changed: set<nat>, blocks: seq<KeyBlock>)
    requires Progress(c0, c, groups, {}, changed, blocks) && AllGrouped(c0, groups)
    ensures Rewritten(c0, c, blocks) && MulIns(c) == {}
  {
    hide WellFormed;
    hide KeyTree;
    assert forall k :: 0 <= k < |blocks| ==> blocks[k] in blocks;
    forall g: nat | IsMul(c0, g) ensures exists k :: 0 <= k < |blocks| && g in blocks[k].muls {
      assert g in MulIns(c0);
      var k :| 0 <= k < |blocks| && blocks[k].key == Key(c0, g);
      assert blocks[k] in blocks;
    }
    NoMulsLeft(c0, c, blocks);
  }

  lemma NoMulsLeft(c0: Circuit, c: Circuit, blocks: seq<KeyBlock>)
    requires Rewritten(c0, c, blocks)
    ensures MulIns(c) == {}
  {
    forall g | g in FirstVars(|c.kind|) ensures c.kind[g] != MulInGate {
      if g < |c0.kind| && c0.kind[g] == MulInGate { MulIsAnd(c0, c, blocks, g); }
    }
  }

  lemma MulIsAnd(c0: Circuit, c: Circuit, blocks: seq<KeyBlock>, g: nat)
    requires Rewritten(c0, c, blocks) && IsMul(c0, g)
    ensures g < |c.kind| && c.kind[g] == AndGate
  {
    hide WellFormed;
    hide KeyTree;
    var k :| 0 <= k < |blocks| && g in blocks[k].muls;
    assert BlockOk(c0, c, blocks[k]);
    var i :| 0 <= i < |blocks[k].muls| && blocks[k].muls[i] == g;
    AlternativesAreAnd(c0, c, blocks[k], i);
  }

  lemma AlternativesAreAnd(c0: Circuit, c: Circuit, b: KeyBlock, i: nat)
    requires BlockOk(c0, c, b) && i < |b.muls|
    ensures b.muls[i] < |c.kind| && c.kind[b.muls[i]] == AndGate
  {
    var cum := Cum(c0, b);
    if Guarded(cum) {
      LeafKind(c, b.muls, cum, 0, |b.muls| - 1, [b.base], b.base + 1, i);
    } else {
      LeafKind(c, b.muls, cum, 0, |b.muls| - 1, [], b.base, i);
    }
  }

  /** Gate g of c has, over independent inputs, the probability it has in a over d. */
  ghost predicate SameProbability(a: Circuit, d: Space, c: Circuit, g: nat) {
    IsGate(a, g) && IsGate(c, g) && P(c.prob, Holds(c, g)) == Pr(d, Holds(a, g))
  }

  class MulRewriter {
    var c: Circuit
    var mulInputs: set<nat>
    var prefix: seq<nat>

    method SetGate(k: Kind, x: real) returns (g: nat)
      requires Sized(c)
      modifies this`c
      ensures g == |old(c).kind| && c == WithGate(old(c), k, x)
    {
      g := |c.kind|;
      c := WithGate(c, k, x);
    }

    /** A new input and its negation. */
    method AddSplit(x: real) returns (g: nat, notG: nat)
      requires Sized(c)
      modifies this`c
      ensures g == |old(c).kind| && notG == g + 1 && c == WithSplit(old(c), x)
    {
      g := SetGate(InGate, x);
      notG := SetGate(NotGate, 1.0);
      assert c.wires[notG] + [g] == [g];
      c := WithWires(c, notG, c.wires[notG] + [g]);
    }

    method Pop(ghost p: seq<nat>, ghost g: nat)
      requires prefix == p + [g]
      modifies this`prefix
      ensures prefix == p
    {
      prefix := prefix[..|prefix| - 1];
    }

    /** Builds the selection tree over alternatives s..e below the current prefix. */
    method RewriteRec(muls: seq<nat>, cum: seq<real>, s: nat, e: nat)
      requires Ready(c, muls, prefix) && s <= e < |muls| == |cum| && Rising(cum)
      modifies this`c, this`prefix
      ensures prefix == old(prefix) && Built(old(c), c, muls, cum, s, e, prefix)
      decreases e - s, 1
    {
      if s == e {
        LeafBuilt(c, muls, cum, prefix, s);
        c := WithWires(c, muls[s], prefix);
      } else {
        ConditionalUnit(cum, s, Middle(s, e), e);
        ReadyAfterSplit(c, Conditional(cum, s, Middle(s, e), e), muls, prefix);
        RewriteHalves(muls, cum, s, Middle(s, e), e, Conditional(cum, s, Middle(s, e), e));
      }
    }

    /** The left half under a new input of probability x, the right half under its negation. */
    method RewriteHalves(muls: seq<nat>, cum: seq<real>, s: nat, mid: nat, e: nat, x: real)
      requires Ready(c, muls, prefix) && s <= mid < e < |muls| == |cum| && Rising(cum)
      requires mid == Middle(s, e) && x == Conditional(cum, s, mid, e)
      requires Ready(WithSplit(c, x), muls, prefix + [|c.kind|]) && Ready(WithSplit(c, x), muls, prefix + [|c.kind| + 1])
      modifies this`c, this`prefix
      ensures prefix == old(prefix) && Built(old(c), c, muls, cum, s, e, prefix)
      decreases e - s, 0
    {
      ghost var a, p := c, prefix;
      assert Sized(c);
      hide *;
      var g, notG := AddSplit(x);
      ghost var b := c;
      prefix := prefix + [g];
      RewriteRec(muls, cum, s, mid);
      ghost var l := c;
      Pop(p, g);
      LeftBuilt(a, b, l, muls, cum, s, mid, p);
      prefix := prefix + [notG];
      RewriteRec(muls, cum, mid + 1, e);
      Pop(p, notG);
      Assemble(a, b, l, c, muls, cum, s, e, p);
    }

    /** Makes the alternatives of a key empty conjunctions and cumulates their probabilities. */
    method Retype(muls: seq<nat>) returns (cum: seq<real>)
      requires Rewritable(c, muls)
      modifies this`c
      ensures Retyped(old(c), c, muls, |muls|) && cum == CumulatedAll(old(c).prob, muls)
    {
      ghost var a := c;
      cum := [];
      var total := 0.0;
      RetypeStarts(c, muls);
      CumulatedNone(c.prob, muls);
      hide Retyped;
      hide Rewritable;
      hide Conjunction;
      hide CumulatedTo;
      hide Cumulated;
      hide WellFormed;
      for i := 0 to |muls|
        invariant Retyped(a, c, muls, i) && CumulatedTo(a.prob, muls, cum, total, i)
      {
        RetypeStep(a, c, muls, i);
        CumulatedMore(a.prob, muls, cum, total, i);
        total := total + c.prob[muls[i]];
        cum := cum + [total];
        c := Conjunction(c, muls[i]);
      }
      CumulatedDone(a.prob, muls, cum, total);
    }

    /** Turns the alternatives of one key into conjunctions of choices. */
    method RewriteKey(muls: seq<nat>)
      requires Rewritable(c, muls)
      modifies this`c, this`prefix
      ensures BlockBuilt(old(c), c, muls, CumulatedAll(old(c).prob, muls))
    {
      ghost var a := c;
      var cum := Retype(muls);
      CumulatesRises(a.prob, muls, cum);
      assert |cum| == |muls| > 0 && 0.0 == Before(cum, 0) <= cum[|cum| - 1] <= 1.0;
      RetypedReady(a, c, muls);
      hide *;
      StartTree(muls, cum, cum[|cum| - 1]);
    }

    method StartTree(muls: seq<nat>, cum: seq<real>, total: real)
      requires Ready(c, muls, []) && 0 < |muls| == |cum| && Rising(cum) && cum[|cum| - 1] == total && 0.0 <= total <= 1.0
      modifies this`c, this`prefix
      ensures forall a :: Retyped(a, old(c), muls, |muls|) ==> BlockBuilt(a, c, muls, cum)
    {
      ghost var b := c;
      prefix := [];
      if !AlmostEquals(total, 1.0) {
        GuardReady(c, muls, total);
        var g := SetGate(InGate, total);
        prefix := [g];
      }
      RewriteRec(muls, cum, 0, |muls| - 1);
      forall a | Retyped(a, b, muls, |muls|) ensures BlockBuilt(a, c, muls, cum) {
        if Guarded(cum) { GuardedBuilt(a, b, c, muls, cum); } else { UnguardedBuilt(a, b, c, muls, cum); }
      }
    }

    /** The alternatives of each key. */
    method GroupByKey() returns (groups: map<nat, seq<nat>>)
      requires Good(c) && forall g :: g in mulInputs ==> IsMul(c, g)
      ensures IsGrouping(c, mulInputs, groups)
    {
      groups := map[];
      var rest := mulInputs;
      while rest != {}
        invariant rest <= mulInputs && IsGrouping(c, mulInputs - rest, groups)
        decreases rest
      {
        var g :| g in rest;
        GroupMore(c, mulInputs - rest, groups, g);
        assert mulInputs - (rest - {g}) == mulInputs - rest + {g};
        hide IsGrouping;
        groups := Grouped(groups, c.wires[g][0], g);
        rest := rest - {g};
      }
      assert mulInputs - {} == mulInputs;
    }

    /** Replaces every multivalued input by a conjunction of choices over new independent
        inputs.  Every gate keeps its probability, if each key's total is one or not
        almost one; an alternative keeps it up to 10^-14 in any case, and exactly when what
        its key leaves to no alternative is zero or at least that much. */
    method Rewrite(ghost d: Space) returns (ghost blocks: seq<KeyBlock>)
      requires IsCategorical(c, d) && mulInputs == MulIns(c)
      modifies this
      ensures mulInputs == {} && Rewritten(Lifted(old(c)), c, blocks) && MulIns(c) == {}
      ensures AllExact(Lifted(old(c)), blocks) ==>
        forall root: nat :: root < |old(c).kind| ==> SameProbability(old(c), d, c, root)
      ensures forall g: nat :: IsMul(old(c), g) ==>
        var error, rest := P(c.prob, Holds(c, g)) - old(c).prob[g], d[Key(old(c), g)][0];
        && -0.00000000000001 < error < 0.00000000000001
        && (rest == 0.0 || rest >= 0.00000000000001 ==> error == 0.0)
    {
      ghost var before := c;
      LiftedCategorical(c, d);
      c := Lifted(c);
      ghost var c0 := c;
      var groups := GroupByKey();
      mulInputs := {};
      blocks := RewriteGroups(groups, d);
      forall root: nat | root < |before.kind| && AllExact(c0, blocks) ensures SameProbability(before, d, c, root) {
        KeepsAt(before, c, blocks, d, root);
      }
      forall g: nat | IsMul(before, g) ensures NearlyKept(before, d, c, g) {
        NearlyKeptAt(before, c, blocks, d, g);
      }
    }

    method RewriteGroups(groups: map<nat, seq<nat>>, ghost d: Space) returns (ghost blocks: seq<KeyBlock>)
      requires AllGrouped(c, groups) && IsCategorical(c, d) && forall g: nat :: g < |c.kind| ==> c.rank[g] >= 2
      modifies this`c, this`prefix
      ensures Rewritten(old(c), c, blocks) && MulIns(c) == {}
    {
      ghost var c0 := c;
      var rest := groups.Keys;
      ghost var changed: set<nat> := {};
      blocks := [];
      ProgressStarts(c0, groups);
      hide Progress;
      hide AllGrouped;
      hide WellFormed;
      hide Grown;
      hide BlockBuilt;
      hide Rewritable;
      hide IsCategorical;
      hide Alternatives;
      while rest != {}
        invariant Progress(c0, c, groups, rest, changed, blocks)
        decreases rest
      {
        ghost var a := c;
        var v :| v in rest;
        ProgressGood(c0, c, groups, rest, changed, blocks);
        GroupIsAlternatives(c0, groups, v, |c.kind|);
        KeyRewritable(c0, c, d, groups[v], changed, v);
        RewriteKey(groups[v]);
        ProgressStep(c0, a, c, groups, rest, changed, blocks, v);
        blocks := blocks + [KeyBlock(v, groups[v], |a.kind|)];
        changed := changed + Elements(groups[v]);
        rest := rest - {v};
      }
      ProgressEnds(c0, c, groups, changed, blocks);
    }
  }

  /** Every key's total is one or not almost one. */
  ghost predicate AllExact(c: Circuit, blocks: seq<KeyBlock>) {
    forall b :: b in blocks ==> Alternatives(c, b) && Exact(Cum(c, b))
  }

  ghost predicate NearlyKept(a: Circuit, d: Space, c: Circuit, g: nat)
    requires IsCategorical(a, d) && Good(c)
  {
    && IsMul(a, g) && g < |c.kind| && Key(a, g) < |d| && |d[Key(a, g)]| > 0
    && Small(P(c.prob, Holds(c, g)) - a.prob[g], d[Key(a, g)][0])
  }

  lemma NearlyKeptAt(a: Circuit, c: Circuit, blocks: seq<KeyBlock>, d: Space, g: nat)
    requires IsCategorical(a, d) && Rewritten(Lifted(a), c, blocks) && IsMul(a, g)
    ensures NearlyKept(a, d, c, g)
  {
    var c0 := Lifted(a);
    LiftedCategorical(a, d);
    LiftedFields(a);
    hide Lifted;
    hide WellFormed;
    hide Prob;
    hide Rewritten;
    hide IsAlternativeOf;
    hide Small;
    hide P;
    assert IsMul(c0, g) && Key(c0, g) == Key(a, g);
    LiftedNearlyKept(c0, c, blocks, d, g);
  }

  lemma LiftedNearlyKept(c0: Circuit, c: Circuit, blocks: seq<KeyBlock>, d: Space, g: nat)
    requires IsCategorical(c0, d) && Rewritten(c0, c, blocks) && IsMul(c0, g)
    ensures NearlyKept(c0, d, c, g)
  {
    hide Grown;
    hide KeyTree;
    hide WellFormed;
    hide P;
    hide Prob;
    hide Ordered;
    hide Cumulated;
    hide Small;
    var k, i := BlockWith(c0, c, blocks, g);
    TotalAndRest(c0, d, blocks[k]);
    AlternativeError(c0, c, blocks[k], i);
  }

  lemma BlockWith(c0: Circuit, c: Circuit, blocks: seq<KeyBlock>, g: nat) returns (k: nat, i: nat)
    requires Rewritten(c0, c, blocks) && IsMul(c0, g)
    ensures k < |blocks| && i < |blocks[k].muls| && blocks[k].muls[i] == g && Key(c0, g) == blocks[k].key
    ensures BlockOk(c0, c, blocks[k]) && AllOfKey(c0, blocks[k])
  {
    hide WellFormed;
    hide KeyTree;
    hide Cum;
    hide Taken;
    hide Grown;
    k :| 0 <= k < |blocks| && g in blocks[k].muls;
    i :| 0 <= i < |blocks[k].muls| && blocks[k].muls[i] == g;
    var b := blocks[k];
    forall h: nat | IsMul(c0, h) && Key(c0, h) == b.key ensures h in b.muls {
      var l :| 0 <= l < |blocks| && h in blocks[l].muls;
      assert BlockOk(c0, c, blocks[l]);
      if l != k { KeysDiffer(c0, blocks, k, l); }
    }
  }

  lemma KeysDiffer(c0: Circuit, blocks: seq<KeyBlock>, k: nat, l: nat)
    requires Ordered(c0, blocks) && k < |blocks| && l < |blocks| && k != l
    ensures blocks[k].key != blocks[l].key
  {
    assert l < k ==> Apart(c0, blocks[l], blocks[k]);
    assert k < l ==> Apart(c0, blocks[k], blocks[l]);
  }

  lemma KeepsAt(a: Circuit, c: Circuit, blocks: seq<KeyBlock>, d: Space, root: nat)
    requires IsCategorical(a, d) && Rewritten(Lifted(a), c, blocks) && AllExact(Lifted(a), blocks) && root < |a.kind|
    ensures Good(a) && Good(c) && root < |c.kind| && P(c.prob, Holds(c, root)) == Pr(d, Holds(a, root))
  {
    var c0 := Lifted(a);
    LiftedCategorical(a, d);
    assert KeyWorlds.Setting(c0, c, blocks, d);
    KeyWorlds.RewritingKeepsProbability(c0, c, blocks, d, root);
    LiftedPr(a, d, root);
  }

  lemma LiftedPr(c: Circuit, d: Space, g: nat)
    requires Prob(d) && IsGate(c, g)
    ensures IsGate(Lifted(c), g) && Pr(d, Holds(Lifted(c), g)) == Pr(d, Holds(c, g))
  {
    forall w ensures IsGate(Lifted(c), g) && Holds(Lifted(c), g)(w) == Holds(c, g)(w) {
      LiftedEval(c, g, w);
    }
    LiftedEval(c, g, []);
    hide Pr;
    PrSame(d, Holds(Lifted(c), g), Holds(c, g));
  }

  lemma ReadyShorter(c: Circuit, muls: seq<nat>, p: seq<nat>, g: nat)
    requires Ready(c, muls, p + [g])
    ensures Ready(c, muls, p) && Good(c)
  {
    forall i | 0 <= i < |p| ensures p[i] < |c.kind| && c.rank[p[i]] < 2 {
      assert (p + [g])[i] == p[i];
    }
  }
}
