/** The values present in a world of a group: independent contributors over Boolean
    leaves, and blocks of mutually exclusive alternatives.  */
module ExtremeValues {
  import opened Worlds
  import opened Probability
  import opened Categorical
  import opened Sequences
  import opened MonotoneDnf
  import opened Contributors
  import opened Comparisons

  datatype Alternative = Alternative(value: int, prob: real)

  /** At most one alternative of a block is present. */
  type Block = seq<Alternative>

  datatype Group = Group(leaves: Clauses, vals: seq<int>, blocks: seq<Block>)

  type Test = int -> bool

  // ----- Block outcomes -----

  /** The probability of the alternatives among the first k whose value passes the test. */
  function Weight(blk: Block, test: Test, k: nat): real
    requires k <= |blk|
  {
    if k == 0 then 0.0
    else Weight(blk, test, k - 1) + (if test(blk[k - 1].value) then blk[k - 1].prob else 0.0)
  }

  function Any(): Test {
    v => true
  }

  ghost predicate BlockOk(blk: Block) {
    (forall j :: 0 <= j < |blk| ==> blk[j].prob >= 0.0) && Weight(blk, Any(), |blk|) <= 1.0
  }

  /** Outcome 0 is the null outcome; outcome j + 1 is alternative j. */
  function Choices(blk: Block): (ws: seq<real>)
    ensures |ws| == |blk| + 1 && ws[0] == 1.0 - Weight(blk, Any(), |blk|)
    ensures forall j :: 0 <= j < |blk| ==> ws[j + 1] == blk[j].prob
  {
    [1.0 - Weight(blk, Any(), |blk|)] + seq(|blk|, j requires 0 <= j < |blk| => blk[j].prob)
  }

  function ChoiceSpace(blocks: seq<Block>): (d: Space)
    ensures |d| == |blocks| && forall b :: 0 <= b < |blocks| ==> d[b] == Choices(blocks[b])
  {
    seq(|blocks|, b requires 0 <= b < |blocks| => Choices(blocks[b]))
  }

  lemma {:induction false} ChoiceTotal(blk: Block, ws: seq<real>, k: nat)
    requires k <= |blk| && |ws| == |blk| + 1 && forall j :: 0 <= j < |blk| ==> ws[j + 1] == blk[j].prob
    ensures Total(ws, k + 1) + Weight(blk, Any(), k) == Weight(blk, Any(), |blk|)
    decreases |blk| - k
  {
    if k < |blk| {
      ChoiceTotal(blk, ws, k + 1);
      assert ws[k + 1] == blk[k].prob;
    }
  }

  lemma ChoiceProb(blocks: seq<Block>)
    requires forall b :: 0 <= b < |blocks| ==> BlockOk(blocks[b])
    ensures Prob(ChoiceSpace(blocks))
  {
    var d := ChoiceSpace(blocks);
    forall b | 0 <= b < |d| ensures Total(d[b], 0) == 1.0 {
      ChoiceTotal(blocks[b], d[b], 0);
      assert Total(d[b], 0) == d[b][0] + Total(d[b], 1);
    }
    forall b, j | 0 <= b < |d| && 0 <= j < |d[b]| ensures 0.0 <= d[b][j] {
      assert BlockOk(blocks[b]);
      if j > 0 { assert d[b][j] == blocks[b][j - 1].prob; }
    }
  }

  // ----- The values present in a world -----

  ghost predicate GroupOk(p: seq<real>, g: Group) {
    LeavesOk(p, g.leaves) && |g.vals| == |g.leaves| && forall b :: 0 <= b < |g.blocks| ==> BlockOk(g.blocks[b])
  }

  /** The leaves are the first variables; each block is a variable of its own. */
  ghost function GroupSpace(p: seq<real>, g: Group): Space {
    Bern(p) + ChoiceSpace(g.blocks)
  }

  lemma GroupProb(p: seq<real>, g: Group)
    requires GroupOk(p, g)
    ensures Prob(GroupSpace(p, g)) && Prob(Bern(p)) && Prob(ChoiceSpace(g.blocks))
  {
    BernProb(p);
    ChoiceProb(g.blocks);
    ExtendProb(Bern(p), ChoiceSpace(g.blocks));
  }

  /** In w, block b has chosen alternative j. */
  predicate Chosen(w: World, n: nat, b: nat, j: nat) {
    n + b < |w| && w[n + b] == j + 1
  }

  ghost function LeafValues(g: Group, w: World): set<int> {
    set i | 0 <= i < |g.leaves| && i < |g.vals| && AllTrue(w, g.leaves[i]) :: g.vals[i]
  }

  ghost function BlockValues(g: Group, n: nat, b: nat, w: World): set<int>
    requires b < |g.blocks|
  {
    set j: nat | j < |g.blocks[b]| && Chosen(w, n, b, j) :: g.blocks[b][j].value
  }

  /** The values of the leaf contributors and of the first k blocks. */
  ghost function ValuesTo(g: Group, n: nat, k: nat, w: World): set<int>
    requires k <= |g.blocks|
  {
    if k == 0 then LeafValues(g, w) else ValuesTo(g, n, k - 1, w) + BlockValues(g, n, k - 1, w)
  }

  /** Every value present in w; n leaves precede the blocks. */
  ghost function Values(g: Group, n: nat, w: World): set<int> {
    ValuesTo(g, n, |g.blocks|, w)
  }

  ghost predicate NoneOf(s: set<int>, test: Test) {
    forall v :: v in s ==> !test(v)
  }

  lemma SomeOf(s: set<int>, test: Test, v: int)
    requires v in s && test(v)
    ensures !NoneOf(s, test)
  {
  }

  /** No value passing the test comes from the leaves or the first k blocks. */
  ghost function NoneTo(g: Group, n: nat, k: nat, test: Test): Event
    requires k <= |g.blocks|
  {
    w => NoneOf(ValuesTo(g, n, k, w), test)
  }

  ghost function NoneWhere(g: Group, n: nat, test: Test): Event {
    NoneTo(g, n, |g.blocks|, test)
  }

  // ----- Leaf contributors that pass a test -----

  /** The contributors among the first k whose value passes the test. */
  function Passing(g: Group, test: Test, k: nat): Clauses
    requires k <= |g.leaves| == |g.vals|
  {
    if k == 0 then []
    else if test(g.vals[k - 1]) then Passing(g, test, k - 1) + [g.leaves[k - 1]]
    else Passing(g, test, k - 1)
  }

  lemma {:induction false} InPassing(g: Group, test: Test, k: nat, c: set<nat>)
    requires k <= |g.leaves| == |g.vals|
    ensures c in Passing(g, test, k) <==> exists i :: 0 <= i < k && test(g.vals[i]) && g.leaves[i] == c
  {
    if k > 0 { InPassing(g, test, k - 1, c); }
  }

  lemma {:induction false} PassingDistinct(g: Group, test: Test, k: nat)
    requires k <= |g.leaves| == |g.vals| && Distinct(g.leaves)
    ensures Distinct(Passing(g, test, k))
  {
    if k > 0 {
      PassingDistinct(g, test, k - 1);
      var init := Passing(g, test, k - 1);
      forall i | 0 <= i < |init| ensures init[i] != g.leaves[k - 1] {
        InPassing(g, test, k - 1, init[i]);
        assert init[i] in init;
      }
    }
  }

  lemma PassingLeaves(p: seq<real>, g: Group, test: Test)
    requires GroupOk(p, g)
    ensures LeavesOk(p, Passing(g, test, |g.leaves|))
  {
    var sub := Passing(g, test, |g.leaves|);
    forall i, v | 0 <= i < |sub| && v in sub[i] ensures v < |p| {
      assert sub[i] in sub;
      InPassing(g, test, |g.leaves|, sub[i]);
    }
  }

  lemma NoneOfLeaves(g: Group, n: nat, test: Test, w: World)
    requires |g.leaves| == |g.vals|
    ensures NoneTo(g, n, 0, test)(w) == !DnfTrue(Passing(g, test, |g.leaves|), w)
  {
    var sub := Passing(g, test, |g.leaves|);
    var none := NoneOf(LeafValues(g, w), test);
    assert NoneTo(g, n, 0, test)(w) == none;
    if DnfTrue(sub, w) {
      var k :| 0 <= k < |sub| && AllTrue(w, sub[k]);
      assert sub[k] in sub;
      InPassing(g, test, |g.leaves|, sub[k]);
      var i :| 0 <= i < |g.leaves| && test(g.vals[i]) && g.leaves[i] == sub[k];
      SomeOf(LeafValues(g, w), test, g.vals[i]);
    }
    if !none {
      var v :| v in LeafValues(g, w) && test(v);
      var i :| 0 <= i < |g.leaves| && AllTrue(w, g.leaves[i]) && g.vals[i] == v;
      InPassing(g, test, |g.leaves|, g.leaves[i]);
      var k :| 0 <= k < |sub| && sub[k] == g.leaves[i];
      assert DnfTrue(sub, w);
    }
  }

  // ----- Probability that no value passes a test -----

  /** Block b, at variable n + b, has chosen an alternative among the first k that passes. */
  ghost function Picked(blk: Block, x: nat, test: Test, k: nat): Event {
    w => x < |w| && 1 <= w[x] <= k && w[x] <= |blk| && test(blk[w[x] - 1].value)
  }

  lemma PickedDecided(d: Space, blk: Block, x: nat, test: Test, k: nat)
    ensures DecidedBy(d, Picked(blk, x, test, k), {x})
  {
  }

  lemma {:induction false} PickedPr(d: Space, blk: Block, x: nat, test: Test, k: nat)
    requires Prob(d) && x < |d| && d[x] == Choices(blk) && k <= |blk|
    ensures Pr(d, Picked(blk, x, test, k)) == Weight(blk, test, k)
  {
    hide Pr;
    if k == 0 {
      PrSure(d, Picked(blk, x, test, 0));
    } else {
      PickedPr(d, blk, x, test, k - 1);
      OutcomePr(d, x, k);
      var before, now := Picked(blk, x, test, k - 1), Picked(blk, x, test, k);
      if test(blk[k - 1].value) {
        PrSplit(d, before, Outcome(x, k), now);
      } else {
        PrSame(d, before, now);
      }
    }
  }

  lemma PickedValues(g: Group, n: nat, b: nat, test: Test, w: World)
    requires b < |g.blocks|
    ensures NoneOf(BlockValues(g, n, b, w), test) == !Picked(g.blocks[b], n + b, test, |g.blocks[b]|)(w)
  {
    var blk, x := g.blocks[b], n + b;
    if Picked(blk, x, test, |blk|)(w) {
      assert Chosen(w, n, b, w[x] - 1);
      assert blk[w[x] - 1].value in BlockValues(g, n, b, w);
    }
    if !NoneOf(BlockValues(g, n, b, w), test) {
      var v :| v in BlockValues(g, n, b, w) && test(v);
      var j: nat :| j < |blk| && Chosen(w, n, b, j) && blk[j].value == v;
      assert w[x] == j + 1;
    }
  }

  lemma NoneUnion(a: set<int>, b: set<int>, test: Test)
    ensures NoneOf(a + b, test) == (NoneOf(a, test) && NoneOf(b, test))
  {
  }

  lemma NoneToStep(g: Group, n: nat, k: nat, test: Test, w: World)
    requires k < |g.blocks|
    ensures NoneTo(g, n, k + 1, test)(w)
         == (NoneTo(g, n, k, test)(w) && !Picked(g.blocks[k], n + k, test, |g.blocks[k]|)(w))
  {
    NoneUnion(ValuesTo(g, n, k, w), BlockValues(g, n, k, w), test);
    PickedValues(g, n, k, test, w);
  }

  lemma {:induction false} NoneToDecided(p: seq<real>, g: Group, test: Test, k: nat)
    requires GroupOk(p, g) && k <= |g.blocks|
    ensures DecidedBy(GroupSpace(p, g), NoneTo(g, |p|, k, test), FirstVars(|p| + k))
  {
    hide NoneTo;
    hide DecidedBy;
    if k == 0 {
      NoneOfLeavesDecided(p, g, test);
    } else {
      NoneToDecided(p, g, test, k - 1);
      NoneStepDecided(GroupSpace(p, g), g, |p|, test, k - 1);
    }
  }

  lemma NoneStepDecided(d: Space, g: Group, n: nat, test: Test, k: nat)
    requires k < |g.blocks| && DecidedBy(d, NoneTo(g, n, k, test), FirstVars(n + k))
    ensures DecidedBy(d, NoneTo(g, n, k + 1, test), FirstVars(n + k + 1))
  {
    hide NoneTo;
    hide Picked;
    hide DecidedBy;
    var before, pick, vs := NoneTo(g, n, k, test), Picked(g.blocks[k], n + k, test, |g.blocks[k]|), FirstVars(n + k + 1);
    PickedDecided(d, g.blocks[k], n + k, test, |g.blocks[k]|);
    forall w ensures And(before, Not(pick))(w) == NoneTo(g, n, k + 1, test)(w) { NoneToStep(g, n, k, test, w); }
    DecidedMore(d, before, FirstVars(n + k), vs);
    DecidedMore(d, pick, {n + k}, vs);
    DecidedAnd(d, pick, pick, vs);
    DecidedAnd(d, before, Not(pick), vs);
    DecidedSame(d, And(before, Not(pick)), NoneTo(g, n, k + 1, test), vs);
  }

  lemma NoneOfLeavesDecided(p: seq<real>, g: Group, test: Test)
    requires GroupOk(p, g)
    ensures DecidedBy(GroupSpace(p, g), NoneTo(g, |p|, 0, test), FirstVars(|p|))
  {
    var d, e, sub := GroupSpace(p, g), NoneTo(g, |p|, 0, test), Passing(g, test, |g.leaves|);
    PassingLeaves(p, g, test);
    DnfReads(sub);
    forall u, w | Possible(d, u) && Possible(d, w) && Agree(u, w, FirstVars(|p|)) ensures e(u) == e(w) {
      NoneOfLeaves(g, |p|, test, u);
      NoneOfLeaves(g, |p|, test, w);
      forall v | v in Support(sub) ensures True(u, v) == True(w, v) { assert v in FirstVars(|p|); }
      assert Satisfied(sub)(u) == Satisfied(sub)(w);
    }
  }
}
