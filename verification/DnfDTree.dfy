/** The anytime d-tree on monotone DNFs: canonicalise, look up, bound, split into
    independent components, or expand on the most frequent variable.  */
module DnfDTree {
  import opened Outcomes
  import opened Reals
  import opened Worlds
  import opened Probability
  import opened SeqSums
  import opened Sequences
  import opened MonotoneDnf
  import opened DnfCanonical
  import opened Intervals
  import opened ClauseBlocks
  import Blocks
  import DnfBounds
  import opened Frequency

  // ----- Independent components of a clause list -----

  /** comps splits cls into parts with pairwise disjoint leaves. */
  ghost predicate AreComponents(cls: Clauses, comps: seq<Clauses>) {
    && (forall c :: c in Flat(comps, |comps|) <==> c in cls)
    && PairwiseApart(comps)
    && (forall b :: 0 <= b < |comps| && |comps| > 1 ==> Literals(comps[b]) < Literals(cls))
  }

  lemma LastOfBlock(block: seq<nat>, n: nat)
    requires Blocks.Increasing(block) && n > 0 && n - 1 in block && forall i :: i in block ==> i < n
    ensures block == block[..|block| - 1] + [n - 1]
    ensures forall k :: 0 <= k < |block| - 1 ==> block[k] < n - 1
  {
    var m := |block| - 1;
    assert block[m] in block;
    var k :| 0 <= k < |block| && block[k] == n - 1;
    assert k == m;
    forall a | 0 <= a < m ensures block[a] < n - 1 {
      assert block[a] < block[m];
    }
  }

  lemma SelectAppend(cls: Clauses, block: seq<nat>, i: nat)
    requires i < |cls| && forall b :: b in block ==> b < |cls|
    ensures forall b :: b in block + [i] ==> b < |cls|
    ensures Literals(Blocks.Pick(cls, block + [i])) == Literals(Blocks.Pick(cls, block)) + |cls[i]|
  {
    assert Blocks.Pick(cls, block + [i]) == Blocks.Pick(cls, block) + [cls[i]];
    SumAppend(Blocks.Pick(cls, block), cls[i], Size());
  }

  /** A block's literals, plus those of any clause outside it, fit in the whole. */
  lemma {:induction false} BlockLiterals(cls: Clauses, block: seq<nat>, n: nat, j: nat)
    requires n <= |cls| && j < |cls| && Blocks.Increasing(block) && j !in block
    requires forall i :: i in block ==> i < n
    ensures Literals(Blocks.Pick(cls, block)) + (if j < n then |cls[j]| else 0) <= Literals(cls[..n])
    decreases n
  {
    hide Literals;
    if n == 0 {
      EmptyBlock(cls, block);
    } else {
      assert cls[..n] == cls[..n - 1] + [cls[n - 1]];
      LiteralsAppend(cls[..n - 1], cls[n - 1]);
      if n - 1 in block {
        LastOfBlock(block, n);
        BlockLiterals(cls, block[..|block| - 1], n - 1, j);
        SelectAppend(cls, block[..|block| - 1], n - 1);
      } else {
        BlockLiterals(cls, block, n - 1, j);
      }
    }
  }

  lemma LiteralsAppend(cls: Clauses, c: set<nat>)
    ensures Literals(cls + [c]) == Literals(cls) + |c|
  {
    SumAppend(cls, c, Size());
  }

  lemma FirstIn(block: seq<nat>)
    ensures block != [] ==> block[0] in block
  {
  }

  lemma EmptyBlock(cls: Clauses, block: seq<nat>)
    requires forall i :: i in block ==> i < 0
    ensures block == [] && Literals(Blocks.Pick(cls, block)) == 0 && Literals(cls[..0]) == 0
  {
    FirstIn(block);
    assert Blocks.Pick(cls, []) == [];
  }

  lemma BlocksAreComponents(cls: Clauses, blocks: seq<seq<nat>>)
    requires Blocks.IsBlocks(cls, blocks) && forall i :: 0 <= i < |cls| ==> cls[i] != {}
    ensures AreComponents(cls, Blocks.PickAll(cls, blocks))
  {
    var comps := Blocks.PickAll(cls, blocks);
    hide Literals;
    forall c ensures c in Flat(comps, |comps|) <==> c in cls { GroupMembers(cls, blocks, c); }
    GroupsApart(cls, blocks);
    forall b | 0 <= b < |comps| && |comps| > 1 ensures Literals(comps[b]) < Literals(cls) {
      SmallerGroup(cls, blocks, b);
    }
  }

  lemma SmallerGroup(cls: Clauses, blocks: seq<seq<nat>>, b: nat)
    requires Blocks.IsBlocks(cls, blocks) && b < |blocks| && |blocks| > 1 && forall i :: 0 <= i < |cls| ==> cls[i] != {}
    ensures Literals(Blocks.PickAll(cls, blocks)[b]) < Literals(cls)
  {
    var a := if b == 0 then 1 else 0;
    var j := blocks[a][0];
    assert j in blocks[a] && j !in blocks[b];
    BlockLiterals(cls, blocks[b], |cls|, j);
    assert cls[..|cls|] == cls;
    assert |cls[j]| > 0;
  }

  // ----- Interval arithmetic over components -----

  /** The product of failure probabilities over the first k components, k shares wide. */
  ghost predicate Running(p: seq<real>, comps: seq<Clauses>, k: nat, run: Interval, share: real) {
    && k <= |comps|
    && Encloses(run, 1.0 - DnfPr(p, Flat(comps, k)))
    && Width(run) <= Spent(k, share)
  }

  lemma RunningStart(p: seq<real>, comps: seq<Clauses>, share: real)
    requires Unit(p)
    ensures Running(p, comps, 0, Interval(1.0, 1.0), share)
  {
    hide DnfPr;
    DnfEmpty(p);
    SpentStep(0, share);
  }

  lemma RunningStep(p: seq<real>, cls: Clauses, comps: seq<Clauses>, k: nat, run: Interval, r: Interval, share: real)
    requires Unit(p) && AreComponents(cls, comps) && k < |comps|
    requires Running(p, comps, k, run, share) && Within(r, DnfPr(p, comps[k]), share)
    ensures Running(p, comps, k + 1, Product(run, Complement(r)), share)
  {
    var done := Flat(comps, k);
    PrefixApart(comps, k);
    hide DnfPr;
    hide Mul;
    hide Target;
    hide Spent;
    IndependentOr(p, done, comps[k]);
    ProductStep(run, 1.0 - DnfPr(p, done), Complement(r), 1.0 - DnfPr(p, comps[k]));
    SpentStep(k, share);
  }

  lemma IndependentOr(p: seq<real>, a: Clauses, b: Clauses)
    requires Unit(p) && Support(a) !! Support(b)
    ensures 1.0 - DnfPr(p, a + b) == Mul(1.0 - DnfPr(p, a), 1.0 - DnfPr(p, b))
  {
    hide DnfPr;
    DnfIndependent(p, a, b);
  }

  lemma RunningEnd(p: seq<real>, cls: Clauses, comps: seq<Clauses>, run: Interval, w: real)
    requires Unit(p) && AreComponents(cls, comps) && |comps| > 0
    requires Running(p, comps, |comps|, run, w / |comps| as real)
    ensures Within(Complement(run), DnfPr(p, cls), w)
  {
    hide DnfPr;
    hide Spent;
    ShareOut(w, |comps|);
    SameClauses(Flat(comps, |comps|), cls);
    DnfSame(p, Flat(comps, |comps|), cls);
  }

  // ----- Expansion -----

  lemma ExpandWithin(p: seq<real>, cls: Clauses, x: nat, r1: Interval, r0: Interval, w: real)
    requires Unit(p) && x < |p|
    requires Within(r1, DnfPr(p, Positive(cls, x)), w) && Within(r0, DnfPr(p, Negative(cls, x)), w)
    ensures Within(Mixed(p[x], r1, r0), DnfPr(p, cls), w)
  {
    hide DnfPr;
    hide Mean;
    hide Mixed;
    hide Within;
    ShannonMean(p, cls, x);
    MixtureWithin(p[x], r1, DnfPr(p, Positive(cls, x)), r0, DnfPr(p, Negative(cls, x)), w);
  }

  lemma ShannonMean(p: seq<real>, cls: Clauses, x: nat)
    requires Unit(p) && x < |p|
    ensures DnfPr(p, cls) == Mean(p[x], DnfPr(p, Positive(cls, x)), DnfPr(p, Negative(cls, x)))
  {
    hide DnfPr;
    DnfShannon(p, cls, x);
  }

  lemma {:induction false} PositiveLiterals(cls: Clauses, x: nat)
    ensures Literals(Positive(cls, x)) <= Literals(cls)
    ensures x in Support(cls) ==> Literals(Positive(cls, x)) < Literals(cls)
  {
    if cls != [] {
      var init, last := cls[..|cls| - 1], cls[|cls| - 1];
      assert cls == init + [last];
      assert Positive(cls, x) == Positive(init, x) + [last - {x}];
      PositiveLiterals(init, x);
      LiteralsAppend(init, last);
      LiteralsAppend(Positive(init, x), last - {x});
      assert x in last ==> last == (last - {x}) + {x};
      assert x !in last ==> last - {x} == last;
      assert x in Support(cls) ==> x in Support(init) || x in last;
    }
  }

  lemma {:induction false} NegativeLiterals(cls: Clauses, x: nat)
    ensures Literals(Negative(cls, x)) <= Literals(cls)
    ensures x in Support(cls) ==> Literals(Negative(cls, x)) < Literals(cls)
  {
    if cls != [] {
      var init, last := cls[..|cls| - 1], cls[|cls| - 1];
      assert cls == init + [last];
      NegativeLiterals(init, x);
      LiteralsAppend(init, last);
      LiteralsAppend(Negative(init, x), last);
      assert x in last ==> |last| > 0;
      assert x in Support(cls) ==> x in Support(init) || x in last;
    }
  }

  lemma CofactorLeaves(p: seq<real>, cls: Clauses, x: nat)
    requires LeavesOk(p, cls)
    ensures LeavesOk(p, Positive(cls, x)) && LeavesOk(p, Negative(cls, x))
  {
    var neg := Negative(cls, x);
    forall i, v | 0 <= i < |neg| && v in neg[i] ensures v < |p| {
      assert neg[i] in neg;
      var j :| 0 <= j < |cls| && cls[j] == neg[i];
    }
  }

  lemma SubLeaves(p: seq<real>, xs: Clauses, ys: Clauses)
    requires LeavesOk(p, ys) && forall c :: c in xs ==> c in ys
    ensures LeavesOk(p, xs)
  {
    forall i, v | 0 <= i < |xs| && v in xs[i] ensures v < |p| {
      assert xs[i] in xs;
      var j :| 0 <= j < |ys| && ys[j] == xs[i];
    }
  }

  lemma ComponentLeaves(p: seq<real>, cls: Clauses, comps: seq<Clauses>, b: nat)
    requires LeavesOk(p, cls) && AreComponents(cls, comps) && b < |comps|
    ensures LeavesOk(p, comps[b])
  {
    forall c | c in comps[b] ensures c in cls { InFlat(comps, |comps|, c); }
    SubLeaves(p, comps[b], cls);
  }

  ghost predicate MemoFor(p: seq<real>, memo: map<Clauses, real>) {
    forall k :: k in memo ==> memo[k] == DnfPr(p, k)
  }

  // ----- The engine -----

  class DTreeContext {
    const p: seq<real>
    const budget: nat
    var memo: map<Clauses, real>
    var steps: nat

    constructor (p: seq<real>, budget: nat)
      requires Unit(p)
      ensures this.p == p && this.budget == budget && Valid() && steps == 0
    {
      this.p := p;
      this.budget := budget;
      memo := map[];
      steps := 0;
    }

    ghost predicate Valid()
      reads this`memo
    {
      Unit(p) && MemoFor(p, memo)
    }

    ghost predicate OverBudget()
      reads this`steps
    {
      budget > 0 && steps > budget
    }

    method Tick() returns (ok: bool)
      modifies this`steps
      ensures steps == old(steps) + 1 && ok == !OverBudget()
    {
      steps := steps + 1;
      ok := budget == 0 || steps <= budget;
    }

    method Remember(key: Clauses, x: real)
      requires Valid() && x == DnfPr(p, key)
      modifies this`memo
      ensures Valid()
    {
      memo := memo[key := x];
    }

    /** Refines the interval of a DNF until it is at most w wide (exactly when w is 0). */
    method Recurse(clauses: Clauses, w: real) returns (res: Result<Interval>)
      requires Valid() && LeavesOk(p, clauses)
      modifies this
      ensures Valid()
      ensures res.Success? ==> Within(res.value, DnfPr(p, clauses), w)
      ensures res.Failure? ==> OverBudget()
      decreases Literals(clauses), 3
    {
      hide DnfPr;
      hide Literals;
      hide MemoFor;
      hide Within;
      var ok := Tick();
      if !ok {
        return Failure("d-tree: cost budget exceeded");
      }
      if clauses == [] {
        DnfEmpty(p);
        PointWithin(0.0, w);
        return Success(Interval(0.0, 0.0));
      }
      var top := HasEmptyClause(clauses);
      if top {
        PointWithin(1.0, w);
        return Success(Interval(1.0, 1.0));
      }
      var key := Canonicalise(clauses);
      SubLeaves(p, key, clauses);
      DnfSame(p, key, clauses);
      KeyNonTrivial(key, clauses);
      hide SameFunction;
      hide Canonical;
      if w <= 0.0 && key in memo {
        MemoPoint(p, memo, key, w);
        return Success(Interval(memo[key], memo[key]));
      }
      res := Refine(key, w);
    }

    method HasEmptyClause(clauses: Clauses) returns (b: bool)
      requires Unit(p)
      ensures b ==> DnfPr(p, clauses) == 1.0
      ensures !b ==> forall i :: 0 <= i < |clauses| ==> clauses[i] != {}
    {
      for i := 0 to |clauses|
        invariant forall j :: 0 <= j < i ==> clauses[j] != {}
      {
        if clauses[i] == {} {
          DnfTop(p, clauses, i);
          return true;
        }
      }
      return false;
    }

    /** Bounds the canonical DNF and refines it; exact results are remembered. */
    method Refine(key: Clauses, w: real) returns (res: Result<Interval>)
      requires Valid() && LeavesOk(p, key) && key != [] && forall i :: 0 <= i < |key| ==> key[i] != {}
      modifies this
      ensures Valid()
      ensures res.Success? ==> Within(res.value, DnfPr(p, key), w)
      ensures res.Failure? ==> OverBudget()
      decreases Literals(key), 2
    {
      hide DnfPr;
      hide Literals;
      hide MemoFor;
      hide Within;
      hide Blocks.IsBlocks;
      hide Blocks.PickAll;
      var exact := w <= 0.0;
      var lower, upper := DnfBounds.Bounds(p, key);
      if upper - lower <= w {
        CloseWithin(Interval(lower, upper), DnfPr(p, key), w);
        if exact {
          Remember(key, lower);
        }
        return Success(Interval(lower, upper));
      }
      var blocks := Blocks.Partition(key);
      BlocksAreComponents(key, blocks);
      var comps := GroupsOf(key, blocks);
      var r: Interval;
      if |comps| > 1 {
        r :- RefineComponents(key, comps, w);
      } else {
        r :- Expand(key, w);
      }
      if exact {
        ExactWithin(r, DnfPr(p, key), w);
        Remember(key, r.lower);
      }
      return Success(r);
    }

    method GroupsOf(key: Clauses, blocks: seq<seq<nat>>) returns (comps: seq<Clauses>)
      requires Blocks.IsBlocks(key, blocks)
      ensures comps == Blocks.PickAll(key, blocks)
    {
      comps := Blocks.PickAll(key, blocks);
    }

    /** Independent-or: each component gets an equal share of the width. */
    method RefineComponents(key: Clauses, comps: seq<Clauses>, w: real) returns (res: Result<Interval>)
      requires Valid() && LeavesOk(p, key) && AreComponents(key, comps) && |comps| > 1
      modifies this
      ensures Valid()
      ensures res.Success? ==> Within(res.value, DnfPr(p, key), w)
      ensures res.Failure? ==> OverBudget()
      decreases Literals(key), 1
    {
      hide DnfPr;
      hide Literals;
      hide MemoFor;
      hide Within;
      hide Running;
      hide Product;
      hide Complement;
      var share := w / |comps| as real;
      var run := Interval(1.0, 1.0);
      RunningStart(p, comps, share);
      for k := 0 to |comps|
        invariant Valid() && Running(p, comps, k, run, share)
      {
        ComponentLeaves(p, key, comps, k);
        var r :- Recurse(comps[k], share);
        RunningStep(p, key, comps, k, run, r, share);
        run := Product(run, Complement(r));
      }
      RunningEnd(p, key, comps, run, w);
      return Success(Complement(run));
    }

    /** Shannon expansion on the most frequent variable. */
    method Expand(key: Clauses, w: real) returns (res: Result<Interval>)
      requires Valid() && LeavesOk(p, key) && key != [] && forall i :: 0 <= i < |key| ==> key[i] != {}
      modifies this
      ensures Valid()
      ensures res.Success? ==> Within(res.value, DnfPr(p, key), w)
      ensures res.Failure? ==> OverBudget()
      decreases Literals(key), 1
    {
      hide DnfPr;
      hide Literals;
      hide MemoFor;
      hide Within;
      hide Mixed;
      assert key[0] != {};
      var x := MostFrequent(key, |p|);
      assert x in Support(key) && x < |p|;
      CofactorLeaves(p, key, x);
      PositiveLiterals(key, x);
      NegativeLiterals(key, x);
      var r1 :- Recurse(Positive(key, x), w);
      var r0 :- Recurse(Negative(key, x), w);
      ExpandWithin(p, key, x, r1, r0, w);
      return Success(Mixed(p[x], r1, r0));
    }
  }

  lemma MemoPoint(p: seq<real>, memo: map<Clauses, real>, key: Clauses, w: real)
    requires Unit(p) && MemoFor(p, memo) && key in memo
    ensures Within(Interval(memo[key], memo[key]), DnfPr(p, key), w)
  {
    hide DnfPr;
    DnfBounds01(p, key);
    PointWithin(memo[key], w);
  }

  lemma CloseWithin(r: Interval, x: real, w: real)
    requires Encloses(r, x) && Width(r) <= w
    ensures Within(r, x, w) && (w <= 0.0 ==> r.lower == x)
  {
  }

  /** A canonical form of a DNF without empty clauses is not trivial either. */
  lemma KeyNonTrivial(key: Clauses, clauses: Clauses)
    requires SameFunction(key, clauses) && (forall c :: c in key ==> c in clauses)
    requires clauses != [] && forall i :: 0 <= i < |clauses| ==> clauses[i] != {}
    ensures key != [] && forall i :: 0 <= i < |key| ==> key[i] != {}
  {
    var w := Just(clauses[0]);
    JustTrue(clauses[0], clauses[0]);
    assert AllTrue(w, clauses[0]);
    assert DnfTrue(clauses, w) && DnfTrue(key, w);
    forall i | 0 <= i < |key| ensures key[i] != {} {
      assert key[i] in clauses;
      var j :| 0 <= j < |clauses| && clauses[j] == key[i];
    }
  }

  /** The certified interval of a monotone DNF, refined to width maxWidth. */
  method DTreeBounds(p: seq<real>, clauses: Clauses, maxWidth: real, budget: nat) returns (res: Result<Interval>, steps: nat)
    requires LeavesOk(p, clauses)
    ensures res.Success? ==> Encloses(res.value, DnfPr(p, clauses)) && Width(res.value) <= Target(maxWidth)
    ensures res.Success? && maxWidth <= 0.0 ==> res.value.lower == res.value.upper == DnfPr(p, clauses)
    ensures res.Failure? ==> 0 < budget < steps
  {
    hide DnfPr;
    var ctx := new DTreeContext(p, budget);
    res := ctx.Recurse(clauses, maxWidth);
    steps := ctx.steps;
  }
}
