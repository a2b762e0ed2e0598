/** The rewritten circuit has the probability of the multivalued one. */
module KeyWorlds {
  import opened Worlds
  import opened Probability
  import opened IndependentImages
  import opened BooleanCircuit
  import opened SelectionTrees
  import opened Sequences
  import opened KeyBlocks

  /** All that the theorem below supposes: c is c0 rewritten, d the space of c0. */
  ghost predicate Setting(c0: Circuit, c: Circuit, blocks: seq<KeyBlock>, d: Space) {
    && Rewritten(c0, c, blocks) && IsCategorical(c0, d)
    && (forall b :: b in blocks ==> Alternatives(c0, b))
    && forall b :: b in blocks && Alternatives(c0, b) ==> Exact(Cum(c0, b))
  }

  /** A key's block, with all that is known of it. */
  ghost predicate BlockAt(c0: Circuit, c: Circuit, d: Space, b: KeyBlock, v: nat) {
    && BlockOk(c0, c, b) && b.key == v && IsCategorical(c0, d) && Exact(Cum(c0, b))
    && v < |d| && c0.kind[v] == MulVarGate
    && (forall g: nat :: IsMul(c0, g) && Key(c0, g) == v ==> g in b.muls)
  }

  lemma FindBlock(c0: Circuit, c: Circuit, blocks: seq<KeyBlock>, d: Space, v: nat)
    requires Setting(c0, c, blocks, d) && HasKey(blocks, v)
    ensures BlockAt(c0, c, d, BlockOf(blocks, v), v)
  {
    var b := BlockOf(blocks, v);
    var k :| 0 <= k < |blocks| && blocks[k] == b;
    hide KeyTree;
    hide WellFormed;
    hide Exact;
    hide Taken;
    hide Cum;
    assert BlockOk(c0, c, blocks[k]);
    assert IsMul(c0, b.muls[0]) && Key(c0, b.muls[0]) == v;
    forall g: nat | IsMul(c0, g) && Key(c0, g) == v ensures g in b.muls {
      var l :| 0 <= l < |blocks| && g in blocks[l].muls;
      assert BlockOk(c0, c, blocks[l]);
      assert blocks[l].key == v;
      SameKey(c0, blocks, k, l);
    }
  }

  lemma SameKey(c0: Circuit, blocks: seq<KeyBlock>, k: nat, l: nat)
    requires Ordered(c0, blocks) && k < |blocks| && l < |blocks|
    ensures blocks[k].key == blocks[l].key ==> k == l
  {
    if k < l {
      assert Apart(c0, blocks[k], blocks[l]);
    } else if l < k {
      assert Apart(c0, blocks[l], blocks[k]);
    }
  }

  lemma KeyHasBlock(c0: Circuit, c: Circuit, blocks: seq<KeyBlock>, d: Space, g: nat)
    requires Setting(c0, c, blocks, d) && IsMul(c0, g)
    ensures HasKey(blocks, Key(c0, g))
  {
    var l :| 0 <= l < |blocks| && g in blocks[l].muls;
    hide KeyTree;
    hide WellFormed;
    assert BlockOk(c0, c, blocks[l]);
    assert blocks[l].key == Key(c0, g);
  }

  // ----- The outcomes of a key -----

  /** The key takes an alternative's outcome exactly when that alternative is chosen. */
  lemma OutcomeIsChoice(c0: Circuit, c: Circuit, d: Space, b: KeyBlock, v: nat, i: nat, w: World)
    requires BlockAt(c0, c, d, b, v) && i < |b.muls|
    ensures KeyOutcome(c0, b, w) == c0.info[b.muls[i]] + 1 <==> Chosen(c0, b, w) == i
    ensures KeyOutcome(c0, b, w) < |d[v]|
  {
    var j := Chosen(c0, b, w);
    hide KeyTree;
    hide WellFormed;
    hide Chosen;
    hide Prob;
    if j >= 0 {
      assert IsMul(c0, b.muls[i]) && IsMul(c0, b.muls[j]);
      assert IsAlternativeOf(c0, d, b.muls[j], v);
      assert j != i ==> b.muls[i] != b.muls[j];
    } else {
      assert IsMul(c0, b.muls[i]) && IsAlternativeOf(c0, d, b.muls[i], v);
    }
  }

  /** Outcomes above zero that no alternative has weigh nothing. */
  lemma OtherOutcome(c0: Circuit, c: Circuit, d: Space, b: KeyBlock, v: nat, k: nat)
    requires BlockAt(c0, c, d, b, v) && 0 < k < |d[v]| && forall i :: 0 <= i < |b.muls| ==> c0.info[b.muls[i]] + 1 != k
    ensures d[v][k] == 0.0 && forall w :: KeyOutcome(c0, b, w) != k
  {
    hide KeyTree;
    hide WellFormed;
    hide Chosen;
    forall g: nat | IsMul(c0, g) && Key(c0, g) == v ensures c0.info[g] + 1 != k {
      var i :| 0 <= i < |b.muls| && b.muls[i] == g;
    }
  }

  ghost function KeyIs(c0: Circuit, b: KeyBlock, k: nat): Event
    requires Alternatives(c0, b)
  {
    (w: World) => KeyOutcome(c0, b, w) == k
  }

  lemma KeyPositivePr(c0: Circuit, c: Circuit, d: Space, b: KeyBlock, v: nat, k: nat)
    requires BlockAt(c0, c, d, b, v) && 0 < k < |d[v]|
    ensures Alternatives(c0, b) && Pr(Bern(c.prob), KeyIs(c0, b, k)) == d[v][k]
  {
    BernProb(c.prob);
    hide Pr;
    hide KeyTree;
    hide WellFormed;
    hide KeyOutcome;
    if i :| 0 <= i < |b.muls| && c0.info[b.muls[i]] + 1 == k {
      forall w ensures KeyIs(c0, b, k)(w) == Chooses(c0, b, i)(w) {
        OutcomeIsChoice(c0, c, d, b, v, i, w);
      }
      PrSame(Bern(c.prob), KeyIs(c0, b, k), Chooses(c0, b, i));
      ChoosesPr(c0, c, b, i);
      assert IsAlternativeOf(c0, d, b.muls[i], v);
      ExactPr(c0, c, b, i);
    } else {
      OtherOutcome(c0, c, d, b, v, k);
      PrSure(Bern(c.prob), KeyIs(c0, b, k));
    }
  }

  lemma ExactPr(c0: Circuit, c: Circuit, b: KeyBlock, i: nat)
    requires BlockOk(c0, c, b) && i < |b.muls| && Exact(Cum(c0, b))
    ensures P(c.prob, Chooses(c0, b, i)) == c0.prob[b.muls[i]]
  {
    hide P;
    hide KeyTree;
    ChoosesPr(c0, c, b, i);
  }

  // ----- The image is a world of the multivalued circuit -----

  lemma ImageInSpace(c0: Circuit, c: Circuit, blocks: seq<KeyBlock>, d: Space, v: nat, w: World)
    requires Setting(c0, c, blocks, d) && v < |c0.kind| && Possible(Bern(c.prob), w)
    ensures Coordinate(c0, blocks, v, w) < |d[v]|
  {
    hide Rewritten;
    if c0.kind[v] == MulVarGate {
      if HasKey(blocks, v) {
        FindBlock(c0, c, blocks, d, v);
        OutcomeIsChoice(c0, c, d, BlockOf(blocks, v), v, 0, w);
      } else {
        assert Total(d[v], 0) == 1.0;
      }
    } else {
      GatesStay(c0, c, blocks, v);
      assert Bern(c.prob)[v] == [1.0 - c.prob[v], c.prob[v]];
    }
  }

  lemma GatesStay(c0: Circuit, c: Circuit, blocks: seq<KeyBlock>, v: nat)
    requires Rewritten(c0, c, blocks) && v < |c0.kind|
    ensures Good(c0) && Good(c) && v < |c.kind| && c.prob[v] == c0.prob[v] && c.info[v] == c0.info[v] && c.rank[v] == c0.rank[v]
    ensures Unit(c.prob)
    ensures c0.kind[v] != MulInGate ==> c.kind[v] == c0.kind[v] && c.wires[v] == c0.wires[v]
  {
    assert Unit(c.prob);
    hide BlockOk;
    hide WellFormed;
    assert c.prob[..|c0.kind|][v] == c.prob[v];
    assert c.info[..|c0.kind|][v] == c.info[v];
    assert c.rank[..|c0.kind|][v] == c.rank[v];
  }

  lemma ImageAt(c0: Circuit, blocks: seq<KeyBlock>, v: nat, k: nat, w: World)
    requires v < |c0.kind| && forall b :: b in blocks ==> Alternatives(c0, b)
    ensures |Image(c0, blocks)(w)| == |c0.kind| && Image(c0, blocks)(w)[v] == Coordinate(c0, blocks, v, w)
    ensures Yields(Image(c0, blocks), v, k)(w) == (Coordinate(c0, blocks, v, w) == k)
  {
  }

  lemma CoordinatePr(c0: Circuit, c: Circuit, blocks: seq<KeyBlock>, d: Space, v: nat, k: nat)
    requires Setting(c0, c, blocks, d) && v < |c0.kind| && k < |d[v]|
    ensures Pr(Bern(c.prob), Yields(Image(c0, blocks), v, k)) == d[v][k]
  {
    if c0.kind[v] != MulVarGate {
      BooleanPr(c0, c, blocks, d, v, k);
    } else if k > 0 {
      KeyPr(c0, c, blocks, d, v, k);
    } else {
      ZeroPr(c0, c, blocks, d, v);
    }
  }

  lemma ZeroPr(c0: Circuit, c: Circuit, blocks: seq<KeyBlock>, d: Space, v: nat)
    requires Setting(c0, c, blocks, d) && v < |c0.kind| && |d[v]| > 0 && c0.kind[v] == MulVarGate
    ensures Pr(Bern(c.prob), Yields(Image(c0, blocks), v, 0)) == d[v][0]
  {
    hide Rewritten;
    hide WellFormed;
    hide Coordinate;
    hide Pr;
    var F := Image(c0, blocks);
    GatesStay(c0, c, blocks, v);
    BernProb(c.prob);
    forall w | Possible(Bern(c.prob), w) ensures v < |F(w)| && F(w)[v] < |d[v]| {
      ImageAt(c0, blocks, v, 0, w);
      ImageInSpace(c0, c, blocks, d, v, w);
    }
    hide Image;
    forall j: nat | 1 <= j < |d[v]| ensures Pr(Bern(c.prob), Yields(F, v, j)) == d[v][j] {
      KeyPr(c0, c, blocks, d, v, j);
    }
    FirstOutcome(Bern(c.prob), d[v], F, v);
  }

  lemma BooleanPr(c0: Circuit, c: Circuit, blocks: seq<KeyBlock>, d: Space, v: nat, k: nat)
    requires Setting(c0, c, blocks, d) && v < |c0.kind| && k < |d[v]| && c0.kind[v] != MulVarGate
    ensures Pr(Bern(c.prob), Yields(Image(c0, blocks), v, k)) == d[v][k]
  {
    GatesStay(c0, c, blocks, v);
    BernProb(c.prob);
    FlipPr(c.prob, v, k == 1);
    var e := Yields(Image(c0, blocks), v, k);
    hide Pr;
    hide Rewritten;
    forall w | Possible(Bern(c.prob), w) ensures e(w) == Flip(v, k == 1)(w) {
      ImageAt(c0, blocks, v, k, w);
      assert Bern(c.prob)[v] == [1.0 - c.prob[v], c.prob[v]];
    }
    PrSame(Bern(c.prob), e, Flip(v, k == 1));
  }

  lemma KeyPr(c0: Circuit, c: Circuit, blocks: seq<KeyBlock>, d: Space, v: nat, k: nat)
    requires Setting(c0, c, blocks, d) && v < |c0.kind| && 0 < k < |d[v]| && c0.kind[v] == MulVarGate
    ensures Pr(Bern(c.prob), Yields(Image(c0, blocks), v, k)) == d[v][k]
  {
    hide Rewritten;
    hide WellFormed;
    hide BlockAt;
    hide KeyOutcome;
    hide Pr;
    var e := Yields(Image(c0, blocks), v, k);
    forall w ensures e(w) == (Coordinate(c0, blocks, v, w) == k) {
      ImageAt(c0, blocks, v, k, w);
    }
    hide Image;
    hide Yields;
    GatesStay(c0, c, blocks, v);
    BernProb(c.prob);
    if HasKey(blocks, v) {
      var b := BlockOf(blocks, v);
      FindBlock(c0, c, blocks, d, v);
      KeyPositivePr(c0, c, d, b, v, k);
      PrSame(Bern(c.prob), e, KeyIs(c0, b, k));
    } else {
      NoAlternative(c0, c, blocks, d, v, k);
      PrSure(Bern(c.prob), e);
    }
  }

  lemma NoAlternative(c0: Circuit, c: Circuit, blocks: seq<KeyBlock>, d: Space, v: nat, k: nat)
    requires Setting(c0, c, blocks, d) && v < |d| && 0 < k < |d[v]| && c0.kind[v] == MulVarGate && !HasKey(blocks, v)
    ensures d[v][k] == 0.0
  {
    forall g: nat | IsMul(c0, g) ensures Key(c0, g) != v {
      KeyHasBlock(c0, c, blocks, d, g);
    }
  }

  /** The choices of the rewritten circuit make a world of the multivalued one, with the
      right distribution. */
  lemma ImageRepresents(c0: Circuit, c: Circuit, blocks: seq<KeyBlock>, d: Space)
    requires Setting(c0, c, blocks, d)
    ensures Represents(Bern(c.prob), d, Image(c0, blocks), AllBehind(c0, blocks))
  {
    BernProb(c.prob);
    var q, F, us := Bern(c.prob), Image(c0, blocks), AllBehind(c0, blocks);
    forall w | Possible(q, w) ensures InSpace(d, F(w)) {
      forall v: nat | v < |c0.kind| ensures F(w)[v] < |d[v]| {
        ImageInSpace(c0, c, blocks, d, v, w);
      }
    }
    forall i, j | 0 <= i < j < |us| ensures us[i] !! us[j] {
      BehindApart(c0, c, blocks, i, j);
    }
    forall i: nat, k: nat | i < |d| ensures DecidedBy(q, Yields(F, i, k), us[i]) {
      CoordinateDecided(c0, c, blocks, i, k);
    }
    forall i: nat, k: nat | i < |d| && k < |d[i]| ensures Pr(q, Yields(F, i, k)) == d[i][k] {
      CoordinatePr(c0, c, blocks, d, i, k);
    }
    hide *;
  }

  // ----- Both circuits agree -----

  lemma {:induction false} SameEval(c0: Circuit, c: Circuit, blocks: seq<KeyBlock>, d: Space, g: nat, w: World)
    requires Setting(c0, c, blocks, d) && g < |c0.kind| && |w| == |c.kind|
    ensures g < |c.kind| && Eval(c, g, w) == Eval(c0, g, Image(c0, blocks)(w))
    decreases c0.rank[g]
  {
    hide Rewritten;
    hide IsCategorical;
    hide Image;
    GatesStay(c0, c, blocks, g);
    ImageAt(c0, blocks, g, 0, w);
    if c0.kind[g] == MulInGate {
      MulEval(c0, c, blocks, d, g, w);
    } else {
      forall k | 0 <= k < |c0.wires[g]|
        ensures c0.wires[g][k] < |c.kind| && Eval(c, c.wires[g][k], w) == Eval(c0, c0.wires[g][k], Image(c0, blocks)(w))
      {
        SameEval(c0, c, blocks, d, c0.wires[g][k], w);
      }
      EvalStep(c0, c, g, c.wires[g], Image(c0, blocks)(w), w);
    }
  }

  /** A gate whose children agree agrees. */
  lemma EvalStep(c0: Circuit, c: Circuit, g: nat, ws: seq<nat>, u: World, w: World)
    requires IsGate(c0, g) && IsGate(c, g) && c.kind[g] == c0.kind[g] != MulInGate && c.wires[g] == c0.wires[g] == ws
    requires g < |u| && g < |w| && (c0.kind[g] == InGate ==> u[g] == w[g])
    requires forall k :: 0 <= k < |ws| ==> Eval(c, ws[k], w) == Eval(c0, ws[k], u)
    ensures Eval(c, g, w) == Eval(c0, g, u)
  {
    EvalCases(c, g, ws, w);
    EvalCases(c0, g, ws, u);
    hide WellFormed;
    hide Eval;
  }

  lemma EvalCases(c: Circuit, g: nat, ws: seq<nat>, w: World)
    requires IsGate(c, g) && c.kind[g] != MulInGate && c.wires[g] == ws
    ensures match c.kind[g]
            case AndGate => Eval(c, g, w) <==> forall k :: 0 <= k < |ws| ==> Eval(c, ws[k], w)
            case OrGate => Eval(c, g, w) <==> exists k :: 0 <= k < |ws| && Eval(c, ws[k], w)
            case NotGate => Eval(c, g, w) <==> !Eval(c, ws[0], w)
            case InGate => Eval(c, g, w) <==> g < |w| && w[g] == 1
            case _ => !Eval(c, g, w)
  {
  }

  lemma MulEval(c0: Circuit, c: Circuit, blocks: seq<KeyBlock>, d: Space, g: nat, w: World)
    requires Setting(c0, c, blocks, d) && IsMul(c0, g) && |w| == |c.kind|
    ensures g < |c.kind| && Eval(c, g, w) == Eval(c0, g, Image(c0, blocks)(w))
  {
    hide Rewritten;
    hide BlockAt;
    hide KeyOutcome;
    hide Prob;
    var v := Key(c0, g);
    KeyHasBlock(c0, c, blocks, d, g);
    FindBlock(c0, c, blocks, d, v);
    ChosenEval(c0, c, d, BlockOf(blocks, v), v, g, w);
    ImageAt(c0, blocks, v, 0, w);
    MulInEval(c0, g, Image(c0, blocks)(w));
  }

  lemma MulInEval(c0: Circuit, g: nat, u: World)
    requires Good(c0) && IsMul(c0, g)
    ensures Eval(c0, g, u) == Takes(u, Key(c0, g), c0.info[g] + 1)
  {
  }

  lemma ChosenEval(c0: Circuit, c: Circuit, d: Space, b: KeyBlock, v: nat, g: nat, w: World)
    requires BlockAt(c0, c, d, b, v) && IsMul(c0, g) && Key(c0, g) == v
    ensures v < |c0.kind| && c0.kind[v] == MulVarGate
    ensures g < |c.kind| && Eval(c, g, w) == (KeyOutcome(c0, b, w) == c0.info[g] + 1)
  {
    var i :| 0 <= i < |b.muls| && b.muls[i] == g;
    hide KeyTree;
    hide WellFormed;
    hide Prob;
    BlockMeans(c0, c, b, i, w);
    OutcomeIsChoice(c0, c, d, b, v, i, w);
  }

  /** Every gate of the multivalued circuit keeps its probability. */
  lemma RewritingKeepsProbability(c0: Circuit, c: Circuit, blocks: seq<KeyBlock>, d: Space, root: nat)
    requires Setting(c0, c, blocks, d) && root < |c0.kind|
    ensures root < |c.kind| && P(c.prob, Holds(c, root)) == Pr(d, Holds(c0, root))
  {
    ImageRepresents(c0, c, blocks, d);
    BernProb(c.prob);
    GatesStay(c0, c, blocks, root);
    var F := Image(c0, blocks);
    forall w | Possible(Bern(c.prob), w) ensures Holds(c, root)(w) == Through(F, Holds(c0, root))(w) {
      SameEval(c0, c, blocks, d, root, w);
    }
    hide Pr;
    hide Represents;
    hide Setting;
    hide Image;
    hide Holds;
    PrSame(Bern(c.prob), Holds(c, root), Through(F, Holds(c0, root)));
    ImagePr(Bern(c.prob), d, F, AllBehind(c0, blocks), Holds(c0, root));
  }
}
