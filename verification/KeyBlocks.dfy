/** Blocks of mutually exclusive alternatives as Boolean circuits: the rewritten circuit
    computes, from its independent inputs, a world of the multivalued circuit.  */
module KeyBlocks {
  import opened Reals
  import opened Worlds
  import opened Probability
  import opened IndependentImages
  import opened BooleanCircuit
  import opened SelectionTrees
  import opened Sequences
  import Masks

  const EPSILON := 10.0 / 4503599627370496.0

  predicate AlmostEquals(a: real, b: real) {
    -EPSILON < a - b < EPSILON
  }

  /** The alternatives of one key and the first gate made for them. */
  datatype KeyBlock = KeyBlock(key: nat, muls: seq<nat>, base: nat)

  function CumulatedAll(p: seq<real>, muls: seq<nat>): (cum: seq<real>)
    requires forall i :: 0 <= i < |muls| ==> muls[i] < |p|
    ensures |cum| == |muls| && forall i :: 0 <= i < |muls| ==> cum[i] == Cumulated(p, muls, i + 1)
  {
    seq(|muls|, (i: nat) requires i < |muls| => Cumulated(p, muls, i + 1))
  }

  /** Whether the alternatives leave enough probability to none of them to be worth an input. */
  predicate Guarded(cum: seq<real>)
    requires |cum| > 0
  {
    !AlmostEquals(cum[|cum| - 1], 1.0)
  }

  /** The selection tree over muls, under an input for "any of them" when guarded. */
  ghost predicate KeyTree(c: Circuit, muls: seq<nat>, cum: seq<real>, base: nat)
    requires Sized(c) && 0 < |muls| == |cum| && Rising(cum)
  {
    if Guarded(cum) then
      && base < |c.kind| && c.kind[base] == InGate && c.prob[base] == cum[|cum| - 1]
      && Tree(c, muls, cum, 0, |muls| - 1, [base], base + 1)
    else
      Tree(c, muls, cum, 0, |muls| - 1, [], base)
  }

  /** How many gates a block of n alternatives takes. */
  function Taken(cum: seq<real>): nat
    requires |cum| > 0
  {
    2 * (|cum| - 1) + if Guarded(cum) then 1 else 0
  }

  ghost predicate Good(c: Circuit) {
    WellFormed(c) && Sized(c)
  }

  // ----- The multivalued circuit -----

  ghost predicate IsMul(c: Circuit, g: nat)
    requires Good(c)
  {
    g < |c.kind| && c.kind[g] == MulInGate
  }

  function Key(c: Circuit, g: nat): nat
    requires Good(c) && IsMul(c, g)
  {
    c.wires[g][0]
  }

  /** Each key takes one of its alternatives, or none; everything else is Boolean. */
  ghost predicate IsCategorical(c: Circuit, d: Space) {
    && Good(c) && Prob(d) && |d| == |c.kind|
    && (forall g: nat :: g < |d| && c.kind[g] != MulVarGate ==> d[g] == [1.0 - c.prob[g], c.prob[g]])
    && (forall g: nat :: IsMul(c, g) ==> IsAlternativeOf(c, d, g, Key(c, g)))
    && (forall g: nat, h: nat :: IsMul(c, g) && IsMul(c, h) && g != h && Key(c, g) == Key(c, h) ==> c.info[g] != c.info[h])
    && (forall v: nat, k: nat :: v < |d| && c.kind[v] == MulVarGate && 0 < k < |d[v]| && d[v][k] != 0.0 ==>
          exists g: nat :: IsMul(c, g) && Key(c, g) == v && c.info[g] + 1 == k)
  }

  ghost predicate IsAlternativeOf(c: Circuit, d: Space, g: nat, v: nat)
    requires Good(c) && IsMul(c, g) && |d| == |c.kind|
  {
    v < |d| && c.kind[v] == MulVarGate && c.info[g] + 1 < |d[v]| && d[v][c.info[g] + 1] == c.prob[g]
  }

  // ----- The rewritten circuit -----

  ghost predicate Alternatives(c0: Circuit, b: KeyBlock) {
    && Good(c0) && |b.muls| > 0 && Distinct(b.muls)
    && forall i :: 0 <= i < |b.muls| ==> IsMul(c0, b.muls[i]) && Key(c0, b.muls[i]) == b.key
  }

  ghost function Cum(c0: Circuit, b: KeyBlock): (cum: seq<real>)
    requires Alternatives(c0, b)
    ensures |cum| == |b.muls| && Rising(cum)
  {
    CumulatesRises(c0.prob, b.muls, CumulatedAll(c0.prob, b.muls));
    CumulatedAll(c0.prob, b.muls)
  }

  ghost function End(c0: Circuit, b: KeyBlock): nat
    requires Alternatives(c0, b)
  {
    b.base + Taken(Cum(c0, b))
  }

  /** The block stands in c, above all the gates of c0. */
  ghost predicate BlockOk(c0: Circuit, c: Circuit, b: KeyBlock) {
    && Good(c) && Alternatives(c0, b) && |c0.kind| <= b.base && End(c0, b) <= |c.kind|
    && KeyTree(c, b.muls, Cum(c0, b), b.base)
  }

  /** Different keys, on different gates. */
  ghost predicate Apart(c0: Circuit, a: KeyBlock, b: KeyBlock) {
    Alternatives(c0, a) && a.key != b.key && End(c0, a) <= b.base
  }

  ghost predicate Ordered(c0: Circuit, blocks: seq<KeyBlock>) {
    forall k, l :: 0 <= k < l < |blocks| ==> Apart(c0, blocks[k], blocks[l])
  }

  ghost function MulIns(c: Circuit): set<nat>
    requires Good(c)
  {
    set g | g in FirstVars(|c.kind|) && c.kind[g] == MulInGate
  }

  /** c is c0 with all multivalued inputs replaced, one block for each key. */
  ghost predicate Rewritten(c0: Circuit, c: Circuit, blocks: seq<KeyBlock>) {
    && Good(c0) && Good(c) && Grown(c0, c, MulIns(c0))
    && (forall k :: 0 <= k < |blocks| ==> BlockOk(c0, c, blocks[k]))
    && Ordered(c0, blocks)
    && (forall g: nat :: IsMul(c0, g) ==> exists k :: 0 <= k < |blocks| && g in blocks[k].muls)
  }

  // ----- The choice a block makes -----

  /** The number of the alternative that w chooses, or -1 for none. */
  ghost function ChosenIn(cum: seq<real>, base: nat, w: World): (i: int)
    requires |cum| > 0
    ensures -1 <= i < |cum|
  {
    if Guarded(cum) then
      if True(w, base) then Selected(0, |cum| - 1, base + 1, w) else -1
    else
      Selected(0, |cum| - 1, base, w)
  }

  ghost function ChoosesIn(cum: seq<real>, base: nat, i: int): Event
    requires |cum| > 0
  {
    (w: World) => ChosenIn(cum, base, w) == i
  }

  ghost function Chosen(c0: Circuit, b: KeyBlock, w: World): (i: int)
    requires Alternatives(c0, b)
    ensures -1 <= i < |b.muls|
  {
    ChosenIn(Cum(c0, b), b.base, w)
  }

  ghost function Chooses(c0: Circuit, b: KeyBlock, i: int): Event
    requires Alternatives(c0, b)
  {
    ChoosesIn(Cum(c0, b), b.base, i)
  }

  /** An alternative of a block is true exactly when it is chosen. */
  lemma BlockMeans(c0: Circuit, c: Circuit, b: KeyBlock, i: nat, w: World)
    requires BlockOk(c0, c, b) && i < |b.muls|
    ensures b.muls[i] < |c.kind| && (Eval(c, b.muls[i], w) <==> Chosen(c0, b, w) == i)
  {
    hide Eval;
    hide AllHold;
    hide WellFormed;
    hide Rising;
    hide Tree;
    var cum := Cum(c0, b);
    NoneHold(c, w);
    if Guarded(cum) {
      AlternativeMeans(c, b.muls, cum, 0, |b.muls| - 1, [b.base], b.base + 1, i, w);
      OneHolds(c, b.base, w);
    } else {
      AlternativeMeans(c, b.muls, cum, 0, |b.muls| - 1, [], b.base, i, w);
    }
  }

  lemma NoneHold(c: Circuit, w: World)
    requires Good(c)
    ensures AllHold(c, [], w)
  {
  }

  lemma OneHolds(c: Circuit, g: nat, w: World)
    requires IsGate(c, g) && c.kind[g] == InGate
    ensures AllHold(c, [g], w) <==> True(w, g)
  {
    assert AllHold(c, [g], w) <==> Eval(c, [g][0], w);
  }

  /** At most one alternative of a key is true in any world. */
  lemma AtMostOne(c0: Circuit, c: Circuit, b: KeyBlock, i: nat, j: nat, w: World)
    requires BlockOk(c0, c, b) && i < j < |b.muls|
    ensures b.muls[i] < |c.kind| && b.muls[j] < |c.kind| && !(Eval(c, b.muls[i], w) && Eval(c, b.muls[j], w))
  {
    BlockMeans(c0, c, b, i, w);
    BlockMeans(c0, c, b, j, w);
  }

  function Scale(cum: seq<real>): real
    requires |cum| > 0
  {
    if Guarded(cum) then 1.0 else cum[|cum| - 1]
  }

  lemma ChoosesPr(c0: Circuit, c: Circuit, b: KeyBlock, i: nat)
    requires BlockOk(c0, c, b) && i < |b.muls|
    ensures Scale(Cum(c0, b)) > 0.0
    ensures P(c.prob, Chooses(c0, b, i)) == c0.prob[b.muls[i]] / Scale(Cum(c0, b))
  {
    CumStep(c0, b, i);
    hide P;
    hide KeyTree;
    hide WellFormed;
    if Guarded(Cum(c0, b)) {
      GuardedPr(c, b.muls, Cum(c0, b), b.base, i);
    } else {
      UnguardedPr(c, b.muls, Cum(c0, b), b.base, i);
    }
  }

  lemma GuardedPr(c: Circuit, muls: seq<nat>, cum: seq<real>, base: nat, i: nat)
    requires Good(c) && i < |muls| == |cum| && Rising(cum) && Guarded(cum)
    requires KeyTree(c, muls, cum, base) && base + Taken(cum) <= |c.kind|
    ensures P(c.prob, ChoosesIn(cum, base, i)) == Mass(cum, i, i)
  {
    var n := |muls| - 1;
    hide P;
    hide Rising;
    hide Mul;
    PicksPr(c, muls, cum, 0, n, [base], base + 1, i);
    ChoicePr(c.prob, 0, n, base + 1, i, base, true, ChoosesIn(cum, base, i));
    assert Mass(cum, 0, n) == cum[n];
  }

  lemma UnguardedPr(c: Circuit, muls: seq<nat>, cum: seq<real>, base: nat, i: nat)
    requires Good(c) && i < |muls| == |cum| && Rising(cum) && !Guarded(cum)
    requires KeyTree(c, muls, cum, base) && base + Taken(cum) <= |c.kind|
    ensures cum[|cum| - 1] > 0.0 && P(c.prob, ChoosesIn(cum, base, i)) == Mass(cum, i, i) / cum[|cum| - 1]
  {
    var n := |muls| - 1;
    BernProb(c.prob);
    hide Pr;
    hide Rising;
    hide WellFormed;
    PicksPr(c, muls, cum, 0, n, [], base, i);
    PrSame(Bern(c.prob), ChoosesIn(cum, base, i), Picks(0, n, base, i));
    assert Mass(cum, 0, n) == cum[n];
    Quotient(cum[n], P(c.prob, Picks(0, n, base, i)));
  }

  lemma Quotient(t: real, x: real)
    requires t != 0.0
    ensures Mul(t, x) / t == x
  {
  }

  lemma CumStep(c0: Circuit, b: KeyBlock, i: nat)
    requires Alternatives(c0, b) && i < |b.muls|
    ensures Mass(Cum(c0, b), i, i) == c0.prob[b.muls[i]]
  {
    var cum := Cum(c0, b);
    assert cum[i] == Cumulated(c0.prob, b.muls, i + 1) == Cumulated(c0.prob, b.muls, i) + c0.prob[b.muls[i]];
    assert i > 0 ==> cum[i - 1] == Cumulated(c0.prob, b.muls, i);
  }

  /** The probability of a rewritten alternative. */
  lemma AlternativeIs(c0: Circuit, c: Circuit, b: KeyBlock, i: nat)
    requires BlockOk(c0, c, b) && i < |b.muls|
    ensures b.muls[i] < |c.kind| && Scale(Cum(c0, b)) > 0.0
    ensures P(c.prob, Holds(c, b.muls[i])) == c0.prob[b.muls[i]] / Scale(Cum(c0, b))
  {
    ChoosesPr(c0, c, b, i);
    BernProb(c.prob);
    forall w ensures Chooses(c0, b, i)(w) == Holds(c, b.muls[i])(w) {
      BlockMeans(c0, c, b, i, w);
    }
    hide Pr;
    hide WellFormed;
    hide Holds;
    hide Chooses;
    PrSame(Bern(c.prob), Chooses(c0, b, i), Holds(c, b.muls[i]));
  }

  /** An alternative keeps its probability exactly when the total is one, or far enough
      from one for the block to be guarded, or its probability is zero. */
  lemma AlternativePr(c0: Circuit, c: Circuit, b: KeyBlock, i: nat)
    requires BlockOk(c0, c, b) && i < |b.muls|
    ensures b.muls[i] < |c.kind|
    ensures P(c.prob, Holds(c, b.muls[i])) == c0.prob[b.muls[i]] <==> Exact(Cum(c0, b)) || c0.prob[b.muls[i]] == 0.0
  {
    AlternativeIs(c0, c, b, i);
    hide P;
    Unscaled(c0.prob[b.muls[i]], Scale(Cum(c0, b)));
  }

  ghost predicate Small(error: real, rest: real) {
    && -0.00000000000001 < error < 0.00000000000001
    && (rest == 0.0 || rest >= 0.00000000000001 || rest <= -0.00000000000001 ==> error == 0.0)
  }

  /** Whatever the total, the probability is off by less than 10^-14, and by nothing when the
      total is one or at least that far from one. */
  lemma AlternativeError(c0: Circuit, c: Circuit, b: KeyBlock, i: nat)
    requires BlockOk(c0, c, b) && i < |b.muls|
    ensures b.muls[i] < |c.kind|
    ensures Small(P(c.prob, Holds(c, b.muls[i])) - c0.prob[b.muls[i]], 1.0 - Cumulated(c0.prob, b.muls, |b.muls|))
  {
    AlternativeIs(c0, c, b, i);
    AlternativeInTotal(c0, b, i);
    hide P;
    hide Cum;
    hide BlockOk;
    hide Alternatives;
    if !Guarded(Cum(c0, b)) { Rescaled(c0.prob[b.muls[i]], Cumulated(c0.prob, b.muls, |b.muls|)); }
  }

  lemma AlternativeInTotal(c0: Circuit, b: KeyBlock, i: nat)
    requires Alternatives(c0, b) && i < |b.muls|
    ensures Cum(c0, b)[|b.muls| - 1] == Cumulated(c0.prob, b.muls, |b.muls|)
    ensures 0.0 <= c0.prob[b.muls[i]] <= Cumulated(c0.prob, b.muls, |b.muls|)
  {
    CumStep(c0, b, i);
    CumulatedGrows(c0.prob, b.muls, i + 1, |b.muls|);
    CumulatedGrows(c0.prob, b.muls, 0, i);
  }

  lemma Rescaled(x: real, t: real)
    requires 0.0 <= x <= t && AlmostEquals(t, 1.0)
    ensures -EPSILON < x / t - x < EPSILON
  {
    var q := x / t;
    assert q * t == x && 0.0 <= q <= 1.0;
    assert q - x == q * (1.0 - t);
    if 1.0 - t >= 0.0 {
      Shrinks(q, 1.0 - t);
    } else {
      Shrinks(q, t - 1.0);
    }
  }

  lemma Shrinks(q: real, a: real)
    requires 0.0 <= q <= 1.0 && 0.0 <= a
    ensures 0.0 <= q * a <= a
  {
  }

  /** A key whose only alternative has a probability that is almost one: the alternative
      becomes certain. */
  lemma AlmostCertain()
    ensures var p := 0.999999999999999;
            var c0 := Circuit([MulVarGate, MulInGate], [[], [0]], [1.0, p], [0, 0], [0, 1]);
            var c := Circuit([MulVarGate, AndGate], [[], []], [1.0, p], [0, 0], [0, 1]);
            BlockOk(c0, c, KeyBlock(0, [1], 2)) && P(c.prob, Holds(c, 1)) == 1.0
  {
    var p := 0.999999999999999;
    var c0 := Circuit([MulVarGate, MulInGate], [[], [0]], [1.0, p], [0, 0], [0, 1]);
    var c := Circuit([MulVarGate, AndGate], [[], []], [1.0, p], [0, 0], [0, 1]);
    var b := KeyBlock(0, [1], 2);
    assert Cumulated(c0.prob, [1], 1) == Cumulated(c0.prob, [1], 0) + p;
    assert Cum(c0, b)[0] == p;
    assert BlockOk(c0, c, b);
    hide *;
    assert p / p == 1.0;
    AlternativeIs(c0, c, b, 0);
  }

  lemma Unscaled(x: real, t: real)
    requires t > 0.0
    ensures x / t == x <==> t == 1.0 || x == 0.0
  {
    var q := x / t;
    assert q * t == x;
    if q == x {
      assert x * (t - 1.0) == 0.0;
    }
  }

  predicate Exact(cum: seq<real>)
    requires |cum| > 0
  {
    Guarded(cum) || cum[|cum| - 1] == 1.0
  }

  lemma ChosenReads(c0: Circuit, b: KeyBlock, u: World, w: World)
    requires Alternatives(c0, b) && forall g: nat :: b.base <= g < End(c0, b) ==> True(u, g) == True(w, g)
    ensures Chosen(c0, b, u) == Chosen(c0, b, w)
  {
    var n := |b.muls| - 1;
    if Guarded(Cum(c0, b)) {
      SelectedReads(0, n, b.base + 1, u, w);
    } else {
      SelectedReads(0, n, b.base, u, w);
    }
  }

  /** A block of n alternatives takes n - 1 splits, of an input and a negation each, and an
      input more when guarded; each alternative has at most log n choices under the guard. */
  lemma BlockSize(c0: Circuit, c: Circuit, b: KeyBlock, i: nat, depth: nat)
    requires BlockOk(c0, c, b) && i < |b.muls| <= Masks.Pow2(depth)
    ensures End(c0, b) <= |c.kind|
    ensures InputCount(c, b.base, End(c0, b)) == |b.muls| - 1 + (if Guarded(Cum(c0, b)) then 1 else 0)
    ensures b.muls[i] < |c.kind| && |c.wires[b.muls[i]]| <= depth + (if Guarded(Cum(c0, b)) then 1 else 0)
  {
    hide WellFormed;
    var cum, n := Cum(c0, b), |b.muls| - 1;
    if Guarded(cum) {
      ShallowTree(c, b.muls, cum, 0, n, [b.base], b.base + 1, i, depth);
      TreeInputs(c, b.muls, cum, 0, n, [b.base], b.base + 1);
      CountAppend(c, b.base, b.base + 1, End(c0, b));
      assert InputCount(c, b.base, b.base + 1) == 1;
    } else {
      ShallowTree(c, b.muls, cum, 0, n, [], b.base, i, depth);
      TreeInputs(c, b.muls, cum, 0, n, [], b.base);
    }
  }

  // ----- The world that the choices make -----

  ghost predicate HasKey(blocks: seq<KeyBlock>, v: nat) {
    exists k :: 0 <= k < |blocks| && blocks[k].key == v
  }

  ghost function BlockOf(blocks: seq<KeyBlock>, v: nat): (b: KeyBlock)
    requires HasKey(blocks, v)
    ensures b in blocks && b.key == v
  {
    var k :| 0 <= k < |blocks| && blocks[k].key == v;
    blocks[k]
  }

  /** The outcome of a block's key: the number of the chosen alternative, or 0 for none. */
  ghost function KeyOutcome(c0: Circuit, b: KeyBlock, w: World): nat
    requires Alternatives(c0, b)
  {
    var i := Chosen(c0, b, w);
    if i < 0 then 0 else c0.info[b.muls[i]] + 1
  }

  ghost function Coordinate(c0: Circuit, blocks: seq<KeyBlock>, v: nat, w: World): nat
    requires v < |c0.kind| && forall b :: b in blocks ==> Alternatives(c0, b)
  {
    if c0.kind[v] == MulVarGate then
      if HasKey(blocks, v) then KeyOutcome(c0, BlockOf(blocks, v), w) else 0
    else if v < |w| then w[v]
    else 0
  }

  /** The world of the multivalued circuit that w makes. */
  ghost function Image(c0: Circuit, blocks: seq<KeyBlock>): World -> World
    requires forall b :: b in blocks ==> Alternatives(c0, b)
  {
    (w: World) => seq(|c0.kind|, (v: nat) requires v < |c0.kind| => Coordinate(c0, blocks, v, w))
  }

  /** The inputs behind a coordinate. */
  ghost function Behind(c0: Circuit, blocks: seq<KeyBlock>, v: nat): set<nat>
    requires v < |c0.kind| && forall b :: b in blocks ==> Alternatives(c0, b)
  {
    if c0.kind[v] != MulVarGate then {v}
    else if HasKey(blocks, v) then Span(BlockOf(blocks, v).base, Taken(Cum(c0, BlockOf(blocks, v))))
    else {}
  }

  ghost function AllBehind(c0: Circuit, blocks: seq<KeyBlock>): seq<set<nat>>
    requires forall b :: b in blocks ==> Alternatives(c0, b)
  {
    seq(|c0.kind|, (v: nat) requires v < |c0.kind| => Behind(c0, blocks, v))
  }

  lemma BlocksOk(c0: Circuit, c: Circuit, blocks: seq<KeyBlock>)
    requires Rewritten(c0, c, blocks)
    ensures forall b :: b in blocks ==> BlockOk(c0, c, b) && Alternatives(c0, b)
  {
  }

  lemma CoordinateDecided(c0: Circuit, c: Circuit, blocks: seq<KeyBlock>, v: nat, k: nat)
    requires Rewritten(c0, c, blocks) && v < |c0.kind| && forall b :: b in blocks ==> Alternatives(c0, b)
    ensures DecidedBy(Bern(c.prob), Yields(Image(c0, blocks), v, k), Behind(c0, blocks, v))
  {
    BlocksOk(c0, c, blocks);
    var e := Yields(Image(c0, blocks), v, k);
    forall u, w | Possible(Bern(c.prob), u) && Possible(Bern(c.prob), w) && Agree(u, w, Behind(c0, blocks, v))
      ensures e(u) == e(w)
    {
      SameCoordinate(c0, c, blocks, v, u, w);
    }
  }

  lemma SameCoordinate(c0: Circuit, c: Circuit, blocks: seq<KeyBlock>, v: nat, u: World, w: World)
    requires Rewritten(c0, c, blocks) && v < |c0.kind| && forall b :: b in blocks ==> Alternatives(c0, b)
    requires |u| == |w| == |c.kind| && Agree(u, w, Behind(c0, blocks, v))
    ensures Coordinate(c0, blocks, v, u) == Coordinate(c0, blocks, v, w)
  {
    hide Rewritten;
    hide Alternatives;
    hide WellFormed;
    if c0.kind[v] == MulVarGate {
      if HasKey(blocks, v) {
        var b := BlockOf(blocks, v);
        BlockPlace(c0, c, blocks, v);
        TrueOnSpan(u, w, b.base, Taken(Cum(c0, b)));
        ChosenReads(c0, b, u, w);
      }
    } else {
      assert v in Behind(c0, blocks, v);
    }
  }

  lemma TrueOnSpan(u: World, w: World, lo: nat, n: nat)
    requires |u| == |w| && Agree(u, w, Span(lo, n))
    ensures forall g: nat :: lo <= g < lo + n ==> True(u, g) == True(w, g)
  {
    forall g: nat | lo <= g < lo + n ensures True(u, g) == True(w, g) {
      assert g in Span(lo, n);
    }
  }

  lemma BlockPlace(c0: Circuit, c: Circuit, blocks: seq<KeyBlock>, v: nat)
    requires Rewritten(c0, c, blocks) && HasKey(blocks, v)
    ensures var b := BlockOf(blocks, v);
            Alternatives(c0, b) && |c0.kind| <= b.base && End(c0, b) <= |c.kind| && BlockOk(c0, c, b)
  {
    assert BlockOk(c0, c, BlockOf(blocks, v));
  }

  lemma BlocksApart(c0: Circuit, c: Circuit, blocks: seq<KeyBlock>, a: KeyBlock, b: KeyBlock)
    requires Rewritten(c0, c, blocks) && a in blocks && b in blocks && a.key != b.key
    ensures Alternatives(c0, a) && Alternatives(c0, b) && (End(c0, a) <= b.base || End(c0, b) <= a.base)
  {
    var k :| 0 <= k < |blocks| && blocks[k] == a;
    var l :| 0 <= l < |blocks| && blocks[l] == b;
    hide KeyTree;
    hide Alternatives;
    hide Taken;
    hide Cum;
    hide WellFormed;
    assert BlockOk(c0, c, a) && BlockOk(c0, c, b);
    assert Apart(c0, blocks[k], blocks[l]) || Apart(c0, blocks[l], blocks[k]);
  }

  lemma BehindApart(c0: Circuit, c: Circuit, blocks: seq<KeyBlock>, u: nat, v: nat)
    requires Rewritten(c0, c, blocks) && u < v < |c0.kind| && forall b :: b in blocks ==> Alternatives(c0, b)
    ensures Behind(c0, blocks, u) !! Behind(c0, blocks, v)
  {
    hide Rewritten;
    hide Alternatives;
    hide WellFormed;
    hide Taken;
    hide Cum;
    hide Span;
    if c0.kind[u] == MulVarGate && HasKey(blocks, u) {
      BlockPlace(c0, c, blocks, u);
    }
    if c0.kind[v] == MulVarGate && HasKey(blocks, v) {
      BlockPlace(c0, c, blocks, v);
      if c0.kind[u] == MulVarGate && HasKey(blocks, u) {
        BlocksApart(c0, c, blocks, BlockOf(blocks, u), BlockOf(blocks, v));
      }
    }
  }
}
