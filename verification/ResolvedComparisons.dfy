/** A comparison whose aggregate has its randomness to itself can be replaced by an
    independent input of the same probability.  */
module ResolvedComparisons {
  import opened Reals
  import opened Worlds
  import opened Probability
  import opened IndependentImages
  import opened PrivateContributors
  import opened AggregatePrivacy

  /** What each gate other than inputs and constants makes of its children. */
  type Reading = (nat, seq<bool>) -> bool

  /** Whether g is true in w. */
  ghost function Truth(c: Formula, r: Reading, g: nat, w: World): bool
    requires IsGate(c, g)
    decreases c.rank[g]
  {
    match c.kind[g]
    case OneGate => true
    case ZeroGate => false
    case ValueGate => r(g, [])
    case InputGate => True(w, g)
    case _ => r(g, seq(|c.wires[g]|, (k: nat) requires k < |c.wires[g]| => Truth(c, r, c.wires[g][k], w)))
  }

  ghost function Truly(c: Formula, r: Reading, g: nat): Event
    requires IsGate(c, g)
  {
    w => Truth(c, r, g, w)
  }

  lemma OneLevel(c: Formula, r: Reading, g: nat, u: World, c': Formula, w: World)
    requires IsGate(c, g) && IsGate(c', g) && c.kind[g] == c'.kind[g] && c.wires[g] == c'.wires[g]
    requires c.kind[g] == InputGate ==> True(u, g) == True(w, g)
    requires forall k :: 0 <= k < |c.wires[g]| ==> Truth(c, r, c.wires[g][k], u) == Truth(c', r, c.wires[g][k], w)
    ensures Truth(c, r, g, u) == Truth(c', r, g, w)
  {
    var xs := seq(|c.wires[g]|, (k: nat) requires k < |c.wires[g]| => Truth(c, r, c.wires[g][k], u));
    var ys := seq(|c'.wires[g]|, (k: nat) requires k < |c'.wires[g]| => Truth(c', r, c'.wires[g][k], w));
    assert xs == ys;
  }

  // ----- Comparisons of an aggregate -----

  /** cmp compares agg, which only cmp refers to, with constants; what is below agg is referred
      to only from below agg. */
  ghost predicate IsPrivateComparison(c: Formula, cmp: nat, agg: nat) {
    && IsGate(c, cmp) && IsGate(c, agg) && c.kind[cmp] == OtherGate && c.kind[agg] == OtherGate
    && (exists k :: 0 <= k < |c.wires[cmp]| && c.wires[cmp][k] == agg)
    && (forall k :: 0 <= k < |c.wires[cmp]| ==> c.wires[cmp][k] == agg || IsConstant(c.kind[c.wires[cmp][k]]))
    && References(c, |c.wires|, agg) == 1 && SubtreePrivate(c, agg)
  }

  /** The inputs below agg. */
  ghost function Inside(c: Formula, agg: nat): set<nat>
    requires IsGate(c, agg)
  {
    set h | h in Below(c, agg) && h < |c.kind| && c.kind[h] == InputGate
  }

  /** No other gate looks inside. */
  lemma NothingEscapes(c: Formula, cmp: nat, agg: nat, i: nat, k: nat)
    requires IsPrivateComparison(c, cmp, agg) && i < |c.wires| && k < |c.wires[i]| && i != cmp && i !in Below(c, agg)
    ensures c.wires[i][k] < |c.kind| && (c.wires[i][k] in Below(c, agg) ==> IsConstant(c.kind[c.wires[i][k]]))
  {
    var h := c.wires[i][k];
    if h == agg {
      var l :| 0 <= l < |c.wires[cmp]| && c.wires[cmp][l] == agg;
      OneParent(c, i, k, cmp, l);
    } else if h in Below(c, agg) && !IsConstant(c.kind[h]) {
      NoOutsideParent(c, agg, i, k);
    }
  }

  lemma ConstantTruth(c: Formula, r: Reading, g: nat, u: World, c': Formula, w: World)
    requires IsGate(c, g) && IsGate(c', g) && IsConstant(c.kind[g]) && c'.kind[g] == c.kind[g]
    ensures Truth(c, r, g, u) == Truth(c', r, g, w)
  {
  }

  /** What is below agg depends on the inputs there. */
  lemma {:induction false} InsideDecides(c: Formula, r: Reading, agg: nat, g: nat, u: World, w: World)
    requires IsGate(c, agg) && g in Below(c, agg) && g < |c.kind| && forall v :: v in Inside(c, agg) ==> True(u, v) == True(w, v)
    ensures Truth(c, r, g, u) == Truth(c, r, g, w)
    decreases c.rank[g]
  {
    forall k | 0 <= k < |c.wires[g]| ensures Truth(c, r, c.wires[g][k], u) == Truth(c, r, c.wires[g][k], w) {
      BelowClosed(c, agg, g, k);
      InsideDecides(c, r, agg, c.wires[g][k], u, w);
    }
    OneLevel(c, r, g, u, c, w);
  }

  lemma ComparisonDecided(c: Formula, r: Reading, cmp: nat, agg: nat, u: World, w: World)
    requires IsPrivateComparison(c, cmp, agg) && forall v :: v in Inside(c, agg) ==> True(u, v) == True(w, v)
    ensures Truth(c, r, cmp, u) == Truth(c, r, cmp, w)
  {
    forall k | 0 <= k < |c.wires[cmp]| ensures Truth(c, r, c.wires[cmp][k], u) == Truth(c, r, c.wires[cmp][k], w) {
      var h := c.wires[cmp][k];
      if h == agg {
        assert agg in Below(c, agg);
        InsideDecides(c, r, agg, agg, u, w);
      } else {
        ConstantTruth(c, r, h, u, c, w);
      }
    }
    OneLevel(c, r, cmp, u, c, w);
  }

  // ----- The resolved circuit -----

  function ResolvedKind(pr: real): Kind {
    if pr == 0.0 then ZeroGate else if pr == 1.0 then OneGate else InputGate
  }

  function Resolved(c: Formula, cmp: nat, pr: real): Formula
    requires cmp < |c.kind| == |c.wires| == |c.prob|
  {
    c.(kind := c.kind[cmp := ResolvedKind(pr)], wires := c.wires[cmp := []], prob := c.prob[cmp := pr])
  }

  lemma ResolvedFormed(c: Formula, cmp: nat, pr: real)
    requires IsGate(c, cmp) && 0.0 <= pr <= 1.0
    ensures WellFormed(Resolved(c, cmp, pr))
  {
    var c' := Resolved(c, cmp, pr);
    forall g, k | 0 <= g < |c'.kind| && 0 <= k < |c'.wires[g]| ensures c'.wires[g][k] < |c'.kind| && c'.rank[c'.wires[g][k]] < c'.rank[g] {
      assert c'.wires[g] == c.wires[g];
    }
  }

  /** The world the resolved circuit sees: the comparison is an input, those inside are gone. */
  ghost function Outer(c: Formula, r: Reading, cmp: nat, agg: nat): World -> World
    requires IsGate(c, cmp) && IsGate(c, agg)
  {
    w => seq(|c.kind|, (v: nat) requires v < |c.kind| => OuterAt(c, r, cmp, agg, w, v))
  }

  ghost function OuterAt(c: Formula, r: Reading, cmp: nat, agg: nat, w: World, v: nat): nat
    requires IsGate(c, cmp) && IsGate(c, agg)
  {
    if v == cmp then if Truth(c, r, cmp, w) then 1 else 0
    else if v in Inside(c, agg) then 0
    else if v < |w| then w[v] else 0
  }

  /** The marginals of that world. */
  function OuterProb(c: Formula, cmp: nat, pr: real, gone: set<nat>): (q: seq<real>)
    ensures |q| == |c.prob| && forall v :: 0 <= v < |q| ==> q[v] == if v == cmp then pr else if v in gone then 0.0 else c.prob[v]
  {
    seq(|c.prob|, (v: nat) requires v < |c.prob| => if v == cmp then pr else if v in gone then 0.0 else c.prob[v])
  }

  ghost function Sources(c: Formula, cmp: nat, gone: set<nat>): (us: seq<set<nat>>)
    ensures |us| == |c.kind| && forall v :: 0 <= v < |us| ==> us[v] == if v == cmp then gone else if v in gone then {} else {v}
  {
    seq(|c.kind|, (v: nat) requires v < |c.kind| => if v == cmp then gone else if v in gone then {} else {v})
  }

  lemma OuterIs(c: Formula, r: Reading, cmp: nat, agg: nat, w: World, v: nat, k: nat)
    requires IsGate(c, cmp) && IsGate(c, agg) && v < |c.kind|
    ensures |Outer(c, r, cmp, agg)(w)| == |c.kind| && Outer(c, r, cmp, agg)(w)[v] == OuterAt(c, r, cmp, agg, w, v)
    ensures Yields(Outer(c, r, cmp, agg), v, k)(w) == (OuterAt(c, r, cmp, agg, w, v) == k)
  {
    hide Truth;
  }

  lemma CoordinateDecided(c: Formula, r: Reading, cmp: nat, agg: nat, v: nat, k: nat)
    requires IsPrivateComparison(c, cmp, agg) && v < |c.kind|
    ensures DecidedBy(Bern(c.prob), Yields(Outer(c, r, cmp, agg), v, k), Sources(c, cmp, Inside(c, agg))[v])
  {
    var e := Yields(Outer(c, r, cmp, agg), v, k);
    forall u, w | Possible(Bern(c.prob), u) && Possible(Bern(c.prob), w) && Agree(u, w, Sources(c, cmp, Inside(c, agg))[v])
      ensures e(u) == e(w)
    {
      OuterIs(c, r, cmp, agg, u, v, k);
      OuterIs(c, r, cmp, agg, w, v, k);
      if v == cmp { ComparisonDecided(c, r, cmp, agg, u, w); }
      hide Truth;
    }
  }

  lemma CoordinatePr(c: Formula, r: Reading, cmp: nat, agg: nat, pr: real, v: nat, k: nat)
    requires IsPrivateComparison(c, cmp, agg) && v < |c.kind| && k < 2 && pr == P(c.prob, Truly(c, r, cmp))
    ensures var d := Bern(OuterProb(c, cmp, pr, Inside(c, agg)));
            Pr(Bern(c.prob), Yields(Outer(c, r, cmp, agg), v, k)) == d[v][k]
  {
    var q, e := Bern(c.prob), Yields(Outer(c, r, cmp, agg), v, k);
    BernProb(c.prob);
    FlipPr(c.prob, v, k == 1);
    hide Pr;
    forall w | Possible(q, w) ensures e(w) == (OuterAt(c, r, cmp, agg, w, v) == k) && w[v] < 2 { OuterIs(c, r, cmp, agg, w, v, k); }
    hide Outer;
    hide Truth;
    hide IsPrivateComparison;
    if v == cmp {
      var t := Truly(c, r, cmp);
      if k == 1 { PrSame(q, t, e); } else { PrNot(q, t, e); }
    } else if v in Inside(c, agg) {
      PrSure(q, e);
    } else {
      PrSame(q, Flip(v, k == 1), e);
    }
  }

  lemma SourcesApart(c: Formula, cmp: nat, gone: set<nat>)
    requires cmp !in gone
    ensures var us := Sources(c, cmp, gone); forall i, j :: 0 <= i < j < |us| ==> us[i] !! us[j]
  {
  }

  lemma OuterInSpace(c: Formula, r: Reading, cmp: nat, agg: nat, q: seq<real>, w: World)
    requires IsGate(c, cmp) && IsGate(c, agg) && Possible(Bern(c.prob), w) && |q| == |c.prob| && |Bern(q)| == |c.kind|
    ensures InSpace(Bern(q), Outer(c, r, cmp, agg)(w))
  {
    forall v: nat | v < |c.kind| ensures Outer(c, r, cmp, agg)(w)[v] < 2 { OuterIs(c, r, cmp, agg, w, v, 0); }
    OuterIs(c, r, cmp, agg, w, cmp, 0);
  }

  lemma OuterRepresents(c: Formula, r: Reading, cmp: nat, agg: nat, pr: real)
    requires IsPrivateComparison(c, cmp, agg) && pr == P(c.prob, Truly(c, r, cmp))
    ensures Unit(OuterProb(c, cmp, pr, Inside(c, agg)))
    ensures Represents(Bern(c.prob), Bern(OuterProb(c, cmp, pr, Inside(c, agg))), Outer(c, r, cmp, agg), Sources(c, cmp, Inside(c, agg)))
  {
    var q, gone := Bern(c.prob), Inside(c, agg);
    BernProb(c.prob);
    PrBounds(q, Truly(c, r, cmp));
    BernProb(OuterProb(c, cmp, pr, gone));
    var d, F, us := Bern(OuterProb(c, cmp, pr, gone)), Outer(c, r, cmp, agg), Sources(c, cmp, gone);
    CmpOutside(c, cmp, agg);
    SourcesApart(c, cmp, gone);
    hide Pr;
    hide DecidedBy;
    hide Possible;
    hide InSpace;
    hide Outer;
    hide Inside;
    hide Truth;
    hide Below;
    hide IsPrivateComparison;
    forall w | Possible(q, w) ensures InSpace(d, F(w)) { OuterInSpace(c, r, cmp, agg, OuterProb(c, cmp, pr, gone), w); }
    forall i: nat, k: nat | i < |d| ensures DecidedBy(q, Yields(F, i, k), us[i]) { CoordinateDecided(c, r, cmp, agg, i, k); }
    forall i: nat, k: nat | i < |d| && k < |d[i]| ensures Pr(q, Yields(F, i, k)) == d[i][k] { CoordinatePr(c, r, cmp, agg, pr, i, k); }
  }

  lemma CmpOutside(c: Formula, cmp: nat, agg: nat)
    requires IsPrivateComparison(c, cmp, agg)
    ensures cmp !in Below(c, agg) && cmp !in Inside(c, agg)
  {
    var k :| 0 <= k < |c.wires[cmp]| && c.wires[cmp][k] == agg;
    if cmp in Below(c, agg) { BelowGates(c, agg, cmp); }
  }

  // ----- Gates outside keep their truth -----

  /** In possible worlds a comparison of probability zero is false, and one of probability
      one is true. */
  lemma CertainTruth(c: Formula, r: Reading, cmp: nat, w: World)
    requires IsGate(c, cmp) && Possible(Bern(c.prob), w)
    ensures P(c.prob, Truly(c, r, cmp)) == 0.0 ==> !Truth(c, r, cmp, w)
    ensures P(c.prob, Truly(c, r, cmp)) == 1.0 ==> Truth(c, r, cmp, w)
  {
    var q, t := Bern(c.prob), Truly(c, r, cmp);
    BernProb(c.prob);
    var f: Event := u => !t(u);
    hide Pr;
    hide Truth;
    PrNot(q, t, f);
    if t(w) { PositivePr(q, t, w); } else { PositivePr(q, f, w); }
  }

  lemma {:induction false} OutsideSame(c: Formula, r: Reading, cmp: nat, agg: nat, pr: real, g: nat, w: World)
    requires IsPrivateComparison(c, cmp, agg) && pr == P(c.prob, Truly(c, r, cmp)) && WellFormed(Resolved(c, cmp, pr))
    requires g < |c.kind| && (g !in Below(c, agg) || IsConstant(c.kind[g])) && Possible(Bern(c.prob), w)
    ensures Truth(Resolved(c, cmp, pr), r, g, Outer(c, r, cmp, agg)(w)) == Truth(c, r, g, w)
    decreases c.rank[g]
  {
    var c', u := Resolved(c, cmp, pr), Outer(c, r, cmp, agg)(w);
    hide P;
    hide SubtreePrivate;
    OuterIs(c, r, cmp, agg, w, g, 1);
    if g == cmp {
      CertainTruth(c, r, cmp, w);
    } else if IsConstant(c.kind[g]) {
      ConstantTruth(c, r, g, w, c', u);
    } else {
      forall k | 0 <= k < |c.wires[g]| ensures Truth(c', r, c.wires[g][k], u) == Truth(c, r, c.wires[g][k], w) {
        NothingEscapes(c, cmp, agg, g, k);
        OutsideSame(c, r, cmp, agg, pr, c.wires[g][k], w);
      }
      OneLevel(c', r, g, u, c, w);
    }
  }

  /** The resolved circuit does not read what is inside. */
  lemma {:induction false} InsideUnread(c: Formula, r: Reading, cmp: nat, agg: nat, pr: real, g: nat, u: World, w: World)
    requires IsPrivateComparison(c, cmp, agg) && WellFormed(Resolved(c, cmp, pr)) && g < |c.kind| && (g !in Below(c, agg) || IsConstant(c.kind[g]))
    requires forall v: nat :: v < |c.kind| && v !in Inside(c, agg) ==> True(u, v) == True(w, v)
    ensures Truth(Resolved(c, cmp, pr), r, g, u) == Truth(Resolved(c, cmp, pr), r, g, w)
    decreases c.rank[g]
  {
    var c' := Resolved(c, cmp, pr);
    hide SubtreePrivate;
    CmpOutside(c, cmp, agg);
    if IsConstant(c'.kind[g]) {
      ConstantTruth(c', r, g, u, c', w);
    } else {
      forall k | 0 <= k < |c'.wires[g]| ensures Truth(c', r, c'.wires[g][k], u) == Truth(c', r, c'.wires[g][k], w) {
        NothingEscapes(c, cmp, agg, g, k);
        InsideUnread(c, r, cmp, agg, pr, c'.wires[g][k], u, w);
      }
      OneLevel(c', r, g, u, c', w);
    }
  }

  /** The outer world gives the resolved circuit the truths of the original one. */
  lemma OuterPr(c: Formula, r: Reading, cmp: nat, agg: nat, pr: real, g: nat)
    requires IsPrivateComparison(c, cmp, agg) && pr == P(c.prob, Truly(c, r, cmp)) && g < |c.kind| && g !in Below(c, agg)
    requires WellFormed(Resolved(c, cmp, pr))
    ensures P(OuterProb(c, cmp, pr, Inside(c, agg)), Truly(Resolved(c, cmp, pr), r, g)) == P(c.prob, Truly(c, r, g))
  {
    hide Represents;
    hide Outer;
    hide Truth;
    hide Below;
    hide Inside;
    var F, e := Outer(c, r, cmp, agg), Truly(Resolved(c, cmp, pr), r, g);
    BernProb(c.prob);
    hide Pr;
    OuterRepresents(c, r, cmp, agg, pr);
    forall w | Possible(Bern(c.prob), w) ensures Truly(c, r, g)(w) == Through(F, e)(w) { OutsideSame(c, r, cmp, agg, pr, g, w); }
    hide Truly;
    hide IsPrivateComparison;
    PrSame(Bern(c.prob), Truly(c, r, g), Through(F, e));
    ImagePr(Bern(c.prob), Bern(OuterProb(c, cmp, pr, Inside(c, agg))), F, Sources(c, cmp, Inside(c, agg)), e);
  }

  /** Replacing a private comparison by an independent input of its probability leaves the
      probability of every gate that is not below its aggregate as it was. */
  lemma ResolutionKeepsProbability(c: Formula, r: Reading, cmp: nat, agg: nat, pr: real, g: nat)
    requires IsPrivateComparison(c, cmp, agg) && pr == P(c.prob, Truly(c, r, cmp)) && g < |c.kind| && g !in Below(c, agg)
    ensures WellFormed(Resolved(c, cmp, pr)) && P(Resolved(c, cmp, pr).prob, Truly(Resolved(c, cmp, pr), r, g)) == P(c.prob, Truly(c, r, g))
  {
    hide Represents;
    hide Truth;
    hide Below;
    BernProb(c.prob);
    hide Pr;
    hide P;
    hide ReadsOnly;
    ComparisonRange(c, r, cmp);
    ResolvedFormed(c, cmp, pr);
    OuterRepresents(c, r, cmp, agg, pr);
    OuterPr(c, r, cmp, agg, pr, g);
    ReadsOutside(c, r, cmp, agg, pr, g);
    CmpOutside(c, cmp, agg);
    hide Truly;
    var c', gone := Resolved(c, cmp, pr), Inside(c, agg);
    PrTransfer(c'.prob, OuterProb(c, cmp, pr, gone), Truly(c', r, g), set v: nat | v < |c.kind| && v !in gone);
  }

  lemma ComparisonRange(c: Formula, r: Reading, cmp: nat)
    requires IsGate(c, cmp)
    ensures 0.0 <= P(c.prob, Truly(c, r, cmp)) <= 1.0
  {
    BernProb(c.prob);
    PrBounds(Bern(c.prob), Truly(c, r, cmp));
  }

  lemma ReadsOutside(c: Formula, r: Reading, cmp: nat, agg: nat, pr: real, g: nat)
    requires IsPrivateComparison(c, cmp, agg) && WellFormed(Resolved(c, cmp, pr)) && g < |c.kind| && g !in Below(c, agg)
    ensures ReadsOnly(Truly(Resolved(c, cmp, pr), r, g), set v: nat | v < |c.kind| && v !in Inside(c, agg))
  {
    var e, vs := Truly(Resolved(c, cmp, pr), r, g), set v: nat | v < |c.kind| && v !in Inside(c, agg);
    forall u, w {:trigger e(u), e(w)} | (forall v :: v in vs ==> True(u, v) == True(w, v)) ensures e(u) == e(w) {
      InsideUnread(c, r, cmp, agg, pr, g, u, w);
    }
  }

  /** cmp compares agg with constants. */
  predicate IsComparison(c: Formula, cmp: nat, agg: nat)
    requires |c.wires| == |c.kind| && cmp < |c.kind| && agg < |c.kind| && forall k :: 0 <= k < |c.wires[cmp]| ==> c.wires[cmp][k] < |c.kind|
  {
    && c.kind[cmp] == OtherGate && c.kind[agg] == OtherGate && (exists k :: 0 <= k < |c.wires[cmp]| && c.wires[cmp][k] == agg)
    && forall k :: 0 <= k < |c.wires[cmp]| ==> c.wires[cmp][k] == agg || IsConstant(c.kind[c.wires[cmp][k]])
  }

  /** Replaces a comparison, whose probability pr has been computed, by an input, if its
      aggregate has its randomness to itself: all other gates keep their probabilities. */
  method ResolveComparison(c: Formula, ghost r: Reading, cmp: nat, agg: nat, refs: array<nat>, pr: real) returns (c': Formula, resolved: bool)
    requires IsGate(c, cmp) && IsGate(c, agg) && IsComparison(c, cmp, agg) && pr == P(c.prob, Truly(c, r, cmp)) && refs.Length == |c.kind|
    requires forall h :: 0 <= h < |c.kind| ==> refs[h] == References(c, |c.wires|, h)
    ensures resolved <==> References(c, |c.wires|, agg) == 1 && SubtreePrivate(c, agg)
    ensures !resolved ==> c' == c
    ensures resolved ==> WellFormed(c') && |c'.kind| == |c.kind| && c'.kind[cmp] == ResolvedKind(pr)
    ensures resolved ==> forall g: nat :: g < |c.kind| && g !in Below(c, agg) ==>
              P(c'.prob, Truly(c', r, g)) == P(c.prob, Truly(c, r, g))
  {
    hide P;
    hide Truly;
    hide SubtreePrivate;
    c', resolved := c, false;
    if refs[agg] != 1 {
      return;
    }
    resolved := AggSubtreePrivate(c, agg, refs);
    if resolved {
      c' := Resolved(c, cmp, pr);
      ComparisonRange(c, r, cmp);
      ResolvedFormed(c, cmp, pr);
      forall g: nat | g < |c.kind| && g !in Below(c, agg) ensures P(c'.prob, Truly(c', r, g)) == P(c.prob, Truly(c, r, g)) {
        ResolutionKeepsProbability(c, r, cmp, agg, pr, g);
      }
    }
  }
}
