/** Multivalued circuits through rewriting, clausal encoding and weighted model counting. */
module CompiledBlocks {
  import opened Outcomes
  import opened Worlds
  import opened Probability
  import opened RandomValues
  import opened BooleanCircuit
  import opened SelectionTrees
  import opened KeyBlocks
  import opened KeyWorlds
  import opened MultivaluedRewrite
  import opened Tseytin
  import opened ModelCounting

  /** The cone of g holds only gates that can be encoded once multivalued inputs are gone. */
  ghost predicate Countable(c: Circuit, g: nat)
    requires IsGate(c, g)
    decreases c.rank[g]
  {
    match c.kind[g]
    case InGate | MulInGate => true
    case AndGate | OrGate | NotGate => forall k :: 0 <= k < |c.wires[g]| ==> Countable(c, c.wires[g][k])
    case _ => false
  }

  /** An input or the negation of one. */
  ghost predicate IsLiteral(c: Circuit, h: nat)
    requires Good(c)
  {
    && h < |c.kind|
    && (c.kind[h] == InGate || (c.kind[h] == NotGate && forall k :: 0 <= k < |c.wires[h]| ==> c.kind[c.wires[h][k]] == InGate))
  }

  ghost predicate AreLiterals(c: Circuit, hs: seq<nat>)
    requires Good(c)
  {
    forall k :: 0 <= k < |hs| ==> IsLiteral(c, hs[k])
  }

  /** Each alternative has become a conjunction of literals. */
  lemma {:induction false} TreeLiterals(c: Circuit, muls: seq<nat>, cum: seq<real>, s: nat, e: nat, prefix: seq<nat>, base: nat, i: nat)
    requires Good(c) && s <= i <= e < |muls| == |cum| && Rising(cum) && Tree(c, muls, cum, s, e, prefix, base) && AreLiterals(c, prefix)
    ensures muls[i] < |c.kind| && c.kind[muls[i]] == AndGate && AreLiterals(c, c.wires[muls[i]])
    decreases e - s
  {
    hide WellFormed;
    hide Rising;
    if s < e {
      var m := Middle(s, e);
      if i <= m {
        TreeLiterals(c, muls, cum, s, m, prefix + [base], base + 2, i);
      } else {
        TreeLiterals(c, muls, cum, m + 1, e, prefix + [base + 1], base + 2 + 2 * (m - s), i);
      }
    }
  }

  lemma BlockLiterals(c0: Circuit, c: Circuit, b: KeyBlock, i: nat)
    requires BlockOk(c0, c, b) && i < |b.muls|
    ensures b.muls[i] < |c.kind| && c.kind[b.muls[i]] == AndGate && AreLiterals(c, c.wires[b.muls[i]])
  {
    hide WellFormed;
    var cum := Cum(c0, b);
    if Guarded(cum) {
      TreeLiterals(c, b.muls, cum, 0, |b.muls| - 1, [b.base], b.base + 1, i);
    } else {
      TreeLiterals(c, b.muls, cum, 0, |b.muls| - 1, [], b.base, i);
    }
  }

  lemma LiteralSupported(c: Circuit, h: nat)
    requires Good(c) && IsLiteral(c, h)
    ensures Supported(c, h)
  {
  }

  /** After the rewriting, what could be encoded but for multivalued inputs can be encoded. */
  lemma {:induction false} SupportedAfter(c0: Circuit, c: Circuit, blocks: seq<KeyBlock>, g: nat)
    requires Rewritten(c0, c, blocks) && IsGate(c0, g) && Countable(c0, g)
    ensures IsGate(c, g) && Supported(c, g)
    decreases c0.rank[g]
  {
    GatesStay(c0, c, blocks, g);
    if c0.kind[g] == MulInGate {
      assert IsMul(c0, g);
      MulSupported(c0, c, blocks, g);
    } else {
      hide Rewritten;
      forall k | 0 <= k < |c0.wires[g]| ensures c0.wires[g][k] < |c.kind| && (c0.kind[g] != InGate ==> Supported(c, c0.wires[g][k])) {
        if c0.kind[g] != InGate {
          SupportedAfter(c0, c, blocks, c0.wires[g][k]);
        } else {
          GatesStay(c0, c, blocks, c0.wires[g][k]);
        }
      }
    }
  }

  lemma MulSupported(c0: Circuit, c: Circuit, blocks: seq<KeyBlock>, g: nat)
    requires Rewritten(c0, c, blocks) && IsMul(c0, g) && IsGate(c, g)
    ensures Supported(c, g)
  {
    var k :| 0 <= k < |blocks| && g in blocks[k].muls;
    var b := blocks[k];
    var i :| 0 <= i < |b.muls| && b.muls[i] == g;
    BlockLiterals(c0, c, b, i);
    forall j | 0 <= j < |c.wires[g]| ensures Supported(c, c.wires[g][j]) { LiteralSupported(c, c.wires[g][j]); }
  }

  /** What a weighted model counter answers on a multivalued circuit, rewritten and encoded:
      the probability, doubled for each gate without weights, when every key's total is one
      or not almost one. */
  method CountMultivalued(rw: MulRewriter, ghost d: Space, root: nat) returns (cls: seq<Clause>, ghost blocks: seq<KeyBlock>)
    requires IsCategorical(rw.c, d) && rw.mulInputs == MulIns(rw.c) && IsGate(rw.c, root) && Countable(rw.c, root)
    modifies rw
    ensures Rewritten(Lifted(old(rw.c)), rw.c, blocks) && IsGate(rw.c, root)
    ensures AllExact(Lifted(old(rw.c)), blocks) ==>
      WeightedCount(rw.c, cls) == Pow2(|Free(rw.c)|) * Pr(d, Holds(old(rw.c), root))
  {
    hide IsCategorical;
    hide Rewritten;
    hide Supported;
    hide Countable;
    hide AllExact;
    hide WeightedCount;
    hide P;
    hide Pr;
    hide Holds;
    hide Free;
    hide Pow2;
    ghost var c0 := rw.c;
    LiftedCountable(c0, root);
    blocks := rw.Rewrite(d);
    SupportedAfter(Lifted(c0), rw.c, blocks, root);
    hide WellFormed;
    cls := CountRewritten(rw.c, root);
    if AllExact(Lifted(c0), blocks) { assert SameProbability(c0, d, rw.c, root); }
  }

  method CountRewritten(c: Circuit, root: nat) returns (cls: seq<Clause>)
    requires IsGate(c, root) && Supported(c, root) && MulIns(c) == {}
    ensures WeightedCount(c, cls) == Pow2(|Free(c)|) * P(c.prob, Holds(c, root))
  {
    NoneLeft(c);
    var r := CompiledProbability(c, root);
    cls := if r.Success? then r.value else [];
  }

  lemma NoneLeft(c: Circuit)
    requires Good(c) && MulIns(c) == {}
    ensures !exists g :: 0 <= g < |c.kind| && c.kind[g] == MulInGate
  {
    forall g: nat | g < |c.kind| ensures c.kind[g] != MulInGate { assert g !in MulIns(c); }
  }

  lemma {:induction false} LiftedCountable(c: Circuit, g: nat)
    requires IsGate(c, g) && Countable(c, g)
    ensures IsGate(Lifted(c), g) && Countable(Lifted(c), g)
    decreases c.rank[g]
  {
    if IsInner(c.kind[g]) {
      forall k | 0 <= k < |c.wires[g]| ensures Countable(Lifted(c), c.wires[g][k]) { LiftedCountable(c, c.wires[g][k]); }
    }
  }

  // ----- Keys that are plain inputs -----

  /** Keys held as plain inputs, as when a circuit is built from the store. */
  function KeysAsInputs(c: Circuit): Circuit {
    c.(kind := seq(|c.kind|, (g: nat) requires g < |c.kind| => if c.kind[g] == MulVarGate then InGate else c.kind[g]))
  }

  lemma {:induction false} IdleKeys(c: Circuit, g: nat, w: World)
    requires IsGate(c, g) && Supported(c, g)
    ensures IsGate(KeysAsInputs(c), g) && Supported(KeysAsInputs(c), g)
    ensures Eval(KeysAsInputs(c), g, w) == Eval(c, g, w)
    decreases c.rank[g]
  {
    if IsInner(c.kind[g]) {
      forall k | 0 <= k < |c.wires[g]|
        ensures Supported(KeysAsInputs(c), c.wires[g][k]) && Eval(KeysAsInputs(c), c.wires[g][k], w) == Eval(c, c.wires[g][k], w)
      {
        IdleKeys(c, c.wires[g][k], w);
      }
    }
  }

  /** Keys that are plain inputs carry weights of their own: the count is then the
      probability, if every other gate is determined. */
  lemma KeysCount(c: Circuit, root: nat, cls: seq<Clause>)
    requires IsGate(c, root) && Supported(c, root) && forall g: nat :: g < |c.kind| ==> c.kind[g] != MulInGate && c.kind[g] != UndeterminedGate
    requires forall w :: AllClausesTrue(w, cls) <==> LocalUpTo(KeysAsInputs(c), |c.kind|, w) && True(w, root)
    ensures WeightedCount(KeysAsInputs(c), cls) == P(c.prob, Holds(c, root))
  {
    hide P;
    hide WeightedCount;
    hide LocalUpTo;
    hide AllClausesTrue;
    var c' := KeysAsInputs(c);
    IdleKeys(c, root, []);
    assert Free(c') == {};
    assert Pow2(0) == 1.0;
    CountIsProbability(c', root, cls);
    forall w ensures Holds(c', root)(w) == Holds(c, root)(w) { IdleKeys(c, root, w); }
    hide Supported;
    hide Holds;
    SameEvent(c.prob, Holds(c', root), Holds(c, root));
  }
}
