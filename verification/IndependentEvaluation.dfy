/** Linear-time exact evaluation of circuits in which no variable is used twice, except
    inside islands marked deterministic and decomposable.  */
module IndependentEvaluation {
  import opened Outcomes
  import opened Reals
  import opened Worlds
  import opened Probability
  import opened Sequences
  import opened BooleanCircuit
  import opened ReadOnce
  import opened GateEvents
  import opened Footprints
  import opened OrGroups
  import opened PostOrder

  /** x is the probability of gate g, which the variables vs decide. */
  ghost predicate Answers(c: Circuit, d: Space, g: nat, x: real, vs: set<nat>) {
    IsGate(c, g) && Known(d, Holds(c, g), x, vs)
  }

  /** Cached gates carry no variable. */
  ghost predicate MemoOk(c: Circuit, d: Space, memo: map<nat, real>) {
    forall g :: g in memo ==> Answers(c, d, g, memo[g], {}) && !IsKey(c, g)
  }

  lemma AnswersMore(c: Circuit, d: Space, g: nat, x: real, vs: set<nat>, us: set<nat>)
    requires Answers(c, d, g, x, vs) && vs <= us
    ensures Answers(c, d, g, x, us)
  {
    hide Known;
    KnownMore(d, Holds(c, g), x, vs, us);
  }

  /** Cached values are zero or one. */
  lemma MemoConstant(c: Circuit, d: Space, memo: map<nat, real>, g: nat)
    requires Prob(d) && MemoOk(c, d, memo) && g in memo
    ensures memo[g] == 0.0 || memo[g] == 1.0
  {
    hide Known;
    ConstantKnown(d, Holds(c, g), memo[g]);
  }

  // ----- Values inside an island -----

  ghost predicate ValuesOk(c: Circuit, d: Space, val: map<nat, real>, vs: set<nat>) {
    forall g :: g in val ==> Answers(c, d, g, val[g], vs)
  }

  lemma ValuesMore(c: Circuit, d: Space, val: map<nat, real>, vs: set<nat>, us: set<nat>)
    requires ValuesOk(c, d, val, vs) && vs <= us
    ensures ValuesOk(c, d, val, us)
  {
    forall g | g in val ensures Answers(c, d, g, val[g], us) { AnswersMore(c, d, g, val[g], vs, us); }
  }

  lemma ValuesPut(c: Circuit, d: Space, val: map<nat, real>, vs: set<nat>, g: nat, x: real)
    requires ValuesOk(c, d, val, vs) && Answers(c, d, g, x, vs)
    ensures ValuesOk(c, d, val[g := x], vs)
  {
  }

  ghost predicate ChildrenValued(c: Circuit, g: nat, val: map<nat, real>)
    requires IsGate(c, g)
  {
    forall h :: h in c.wires[g] ==> h in val
  }

  lemma DecidedByValues(c: Circuit, d: Space, g: nat, val: map<nat, real>, vs: set<nat>)
    requires IsGate(c, g) && c.kind[g] in {AndGate, OrGate, NotGate} && ValuesOk(c, d, val, vs) && ChildrenValued(c, g, val)
    ensures DecidedBy(d, Holds(c, g), vs)
  {
    hide Pr;
    forall h | h in c.wires[g] ensures IsGate(c, h) && DecidedBy(d, Holds(c, h), vs) {
      assert Answers(c, d, h, val[h], vs);
    }
    hide DecidedBy;
    DecidedFromChildren(c, d, g, vs);
  }

  /** Marked gates combine the values of their children by product and by sum. */
  method CombineValues(c: Circuit, ghost d: Space, g: nat, val: map<nat, real>, ghost vs: set<nat>) returns (x: real)
    requires IsGate(c, g) && Truthful(c, d) && ValuesOk(c, d, val, vs) && ChildrenValued(c, g, val)
    requires Inner(c, g)
    ensures Answers(c, d, g, x, vs)
  {
    hide Pr;
    hide Eval;
    DecidedByValues(c, d, g, val, vs);
    WiresAreGates(c, g);
    forall h | h in c.wires[g] ensures h in val && val[h] == Pr(d, Holds(c, h)) && Known(d, Holds(c, h), val[h], vs) {
      assert Answers(c, d, h, val[h], vs);
    }
    if c.kind[g] == NotGate {
      NegationKnown(c, d, g, val[c.wires[g][0]], vs);
      return 1.0 - val[c.wires[g][0]];
    }
    assert MarkHolds(c, d, g);
    if c.kind[g] == AndGate {
      x := ProductOf(c, d, g, val);
    } else {
      x := SumOf(c, d, g, val);
    }
  }

  method ProductOf(c: Circuit, ghost d: Space, g: nat, val: map<nat, real>) returns (x: real)
    requires IsGate(c, g) && Prob(d) && c.kind[g] == AndGate && Decomposable(c, d, g)
    requires forall h :: h in c.wires[g] ==> h in val && IsGate(c, h) && val[h] == Pr(d, Holds(c, h))
    ensures x == Pr(d, Holds(c, g))
  {
    hide Pr;
    hide DecidedBy;
    hide Eval;
    ghost var us: seq<set<nat>> :| Splitting(c, d, g, us);
    x := 1.0;
    AllStart(c, d, g);
    hide AllTo;
    hide Mul;
    for k := 0 to |c.wires[g]|
      invariant x == Pr(d, AllTo(c, g, k)) && DecidedBy(d, AllTo(c, g, k), Union(us, k))
    {
      CertifiedAndStep(c, d, g, us, k, x, val[c.wires[g][k]]);
      x := Mul(x, val[c.wires[g][k]]);
    }
    AllEnd(c, d, g, x, Union(us, |c.wires[g]|));
  }

  method SumOf(c: Circuit, ghost d: Space, g: nat, val: map<nat, real>) returns (x: real)
    requires IsGate(c, g) && Prob(d) && c.kind[g] == OrGate && Deterministic(c, d, g)
    requires forall h :: h in c.wires[g] ==> h in val && IsGate(c, h) && val[h] == Pr(d, Holds(c, h))
    ensures x == Pr(d, Holds(c, g))
  {
    hide Pr;
    hide DecidedBy;
    hide Eval;
    x := 0.0;
    AllStart(c, d, g);
    hide SomeTo;
    for k := 0 to |c.wires[g]|
      invariant x == Pr(d, SomeTo(c, g, k))
    {
      CertifiedOrStep(c, d, g, k, x, val[c.wires[g][k]]);
      x := x + val[c.wires[g][k]];
    }
    SomeEnd(c, d, g, x);
  }

  // ----- The stack of an island walk -----

  /** g is the root or lies below it, and leaves the island only where the root does. */
  ghost predicate Inside(c: Circuit, root: nat, g: nat) {
    IsGate(c, root) && IsGate(c, g) && (g == root || c.rank[g] < c.rank[root]) && Border(c, g) <= Border(c, root)
  }

  ghost predicate StackOk(c: Circuit, root: nat, stack: seq<nat>) {
    forall i :: 0 <= i < |stack| ==> Inside(c, root, stack[i])
  }

  lemma ChildrenInside(c: Circuit, root: nat, g: nat)
    requires Inside(c, root, g) && Inner(c, g)
    ensures forall h :: h in c.wires[g] ==> Inside(c, root, h) && c.rank[h] < c.rank[g]
  {
    WiresAreGates(c, g);
    InnerBorder(c, g);
    hide Border;
    hide WellFormed;
  }

  /** Where a walk leaves the island, its root leaves it. */
  lemma OwnBorder(c: Circuit, root: nat, g: nat)
    requires Inside(c, root, g) && !Inner(c, g)
    ensures g in Border(c, root) && (Inner(c, root) ==> c.rank[g] < c.rank[root])
  {
    assert g in Border(c, g);
  }

  /** Pushes the children that have no value yet. */
  method PushMissing(c: Circuit, ghost root: nat, g: nat, val: map<nat, real>, stack0: seq<nat>) returns (ready: bool, stack: seq<nat>)
    requires Inside(c, root, g) && Inner(c, g) && StackOk(c, root, stack0)
    ensures StackOk(c, root, stack) && stack0 <= stack
    ensures ready ==> ChildrenValued(c, g, val) && stack == stack0
    ensures !ready ==> |stack| > |stack0| && stack[|stack| - 1] !in val && Lower(c, stack[|stack| - 1], g)
    ensures Spent(stack, val.Keys) == Spent(stack0, val.Keys)
  {
    hide Border;
    hide Spent;
    hide StackOk;
    ready, stack := true, stack0;
    ChildrenInside(c, root, g);
    hide Inside;
    hide WellFormed;
    for i := 0 to |c.wires[g]|
      invariant StackOk(c, root, stack) && stack0 <= stack && Spent(stack, val.Keys) == Spent(stack0, val.Keys)
      invariant ready ==> stack == stack0 && forall j :: 0 <= j < i ==> c.wires[g][j] in val
      invariant !ready ==> |stack| > |stack0| && stack[|stack| - 1] !in val && Lower(c, stack[|stack| - 1], g)
    {
      var h := c.wires[g][i];
      if h !in val {
        assert h in c.wires[g];
        InsideIsGate(c, root, h);
        SpentPush(stack, h, val.Keys);
        StackPush(c, root, stack, h);
        stack := stack + [h];
        ready := false;
      }
    }
  }

  lemma StackPush(c: Circuit, root: nat, stack: seq<nat>, h: nat)
    requires StackOk(c, root, stack) && Inside(c, root, h)
    ensures StackOk(c, root, stack + [h])
  {
    hide Inside;
  }

  predicate Lower(c: Circuit, h: nat, g: nat) {
    h < |c.rank| && g < |c.rank| && c.rank[h] < c.rank[g]
  }

  /** The gate on top of the stack. */
  lemma StackPop(c: Circuit, root: nat, stack: seq<nat>, done: set<nat>)
    requires StackOk(c, root, stack) && stack != []
    ensures var g, rest := stack[|stack| - 1], stack[..|stack| - 1];
            IsGate(c, g) && Inside(c, root, g) && StackOk(c, root, rest) && (g in done ==> Spent(rest, done) < Spent(stack, done))
  {
    hide Border;
  }

  lemma InsideIsGate(c: Circuit, root: nat, g: nat)
    requires Inside(c, root, g)
    ensures IsGate(c, g)
  {
  }

  lemma NoValues(c: Circuit, d: Space)
    ensures ValuesOk(c, d, map[], {})
  {
  }

  lemma ValueAt(c: Circuit, d: Space, val: map<nat, real>, vs: set<nat>, g: nat)
    requires ValuesOk(c, d, val, vs) && g in val
    ensures Answers(c, d, g, val[g], vs)
  {
  }

  lemma MemoPut(c: Circuit, d: Space, memo: map<nat, real>, g: nat, x: real)
    requires MemoOk(c, d, memo) && Answers(c, d, g, x, {}) && !IsKey(c, g)
    ensures MemoOk(c, d, memo[g := x])
  {
  }

  /** What was decided by newly seen variables is decided by all those of the island. */
  lemma InputOfIsland(c: Circuit, d: Space, g: nat, x: real, now: set<nat>, all: set<nat>)
    requires Answers(c, d, g, x, now) && now <= all
    ensures Answers(c, d, g, x, all)
  {
    AnswersMore(c, d, g, x, now, all);
  }

  lemma AlternativeOfIsland(c: Circuit, d: Space, g: nat, all: set<nat>)
    requires Truthful(c, d) && IsGate(c, g) && c.kind[g] == MulInGate && c.wires[g][0] in all
    ensures Answers(c, d, g, c.prob[g], all)
  {
    hide Known;
    AlternativeKnown(c, d, g);
    KnownMore(d, Holds(c, g), c.prob[g], {c.wires[g][0]}, all);
  }

  class IndependentWalk {
    const c: Circuit
    ghost const d: Space
    var seen: set<nat>
    var memo: map<nat, real>

    constructor (c: Circuit, ghost d: Space)
      ensures this.c == c && this.d == d && seen == {} && memo == map[]
    {
      this.c := c;
      this.d := d;
      seen := {};
      memo := map[];
    }

    ghost predicate Valid()
      reads this
    {
      Truthful(c, d) && MemoOk(c, d, memo) && Free(c, memo.Keys)
    }

    /** A returned value answers for gate g through variables not seen before. It is returned
        exactly when g uses its variables once each and none of those seen before.  */
    ghost predicate Answered(g: nat, res: Result<real>, seen0: set<nat>)
      requires IsGate(c, g)
      reads this
    {
      seen0 <= seen && Uses(c, g, res.Success?, seen0, seen) && (res.Success? ==> Answers(c, d, g, res.value, seen - seen0) && !IsKey(c, g))
    }

    method Evaluate(g: nat) returns (res: Result<real>)
      requires Valid() && IsGate(c, g)
      modifies this
      ensures Valid() && Answered(g, res, old(seen))
      decreases c.rank[g], 3
    {
      if g in memo {
        assert seen - seen == {};
        FreeUses(c, memo.Keys, g, seen);
        return Success(memo[g]);
      }
      if Certified(c, g) {
        res := EvaluateIsland(g);
        return;
      }
      ghost var seen0 := seen;
      var seenBefore := |seen|;
      res := EvaluateGate(g);
      if res.Success? { Remember(g, res.value, seen0, seenBefore); }
    }

    /** Caches the value of a gate that consumed no variable. */
    method Remember(g: nat, x: real, ghost seen0: set<nat>, seenBefore: nat)
      requires Valid() && seen0 <= seen && seenBefore == |seen0|
      requires IsGate(c, g) && Uses(c, g, true, seen0, seen) && Answers(c, d, g, x, seen - seen0) && !IsKey(c, g)
      modifies this`memo
      ensures Valid()
    {
      hide Answers;
      hide MemoOk;
      hide WellFormed;
      hide Uses;
      hide Free;
      if |seen| == seenBefore {
        FreePut(c, memo.Keys, g, seen0, seen);
        assert seen - seen0 == {};
        MemoPut(c, d, memo, g, x);
        assert memo[g := x].Keys == memo.Keys + {g};
        memo := memo[g := x];
      }
    }

    /** A marked region, each gate of it computed once, on an explicit stack. */
    method EvaluateIsland(root: nat) returns (res: Result<real>)
      requires Valid() && IsGate(c, root) && Certified(c, root)
      modifies this
      ensures Valid() && Answered(root, res, old(seen))
      decreases c.rank[root], 2
    {
      hide Truthful;
      hide MemoOk;
      hide ValuesOk;
      hide Answers;
      hide WellFormed;
      hide Uses;
      hide Crossed;
      hide Border;
      hide Free;
      assert Inside(c, root, root) && StackOk(c, root, [root]);
      hide Inside;
      hide StackOk;
      hide Spent;
      ghost var seen0 := seen;
      ghost var border: seq<nat> := [];
      var seenBefore := |seen|;
      var val: map<nat, real> := map[];
      var keys: set<nat> := {};
      var stack := [root];
      NoValues(c, d);
      CrossedStart(c, root, seen);
      assert val.Keys == {};
      assert seen - seen0 == {};
      while stack != []
        invariant Valid() && seen0 <= seen && StackOk(c, root, stack) && ValuesOk(c, d, val, seen - seen0)
        invariant keys <= seen - seen0 && val.Keys <= FirstVars(|c.kind|)
        invariant Crossed(c, root, border, val.Keys, keys, seen0, seen)
        invariant root in val || (stack != [] && stack[0] == root)
        decreases FirstVars(|c.kind|) - val.Keys, Spent(stack, val.Keys), if stack == [] then 0 else c.rank[stack[|stack| - 1]]
      {
        var g, rest := stack[|stack| - 1], stack[..|stack| - 1];
        StackPop(c, root, stack, val.Keys);
        if g in val {
          stack := rest;
        } else {
          ghost var seen1 := seen;
          if Inner(c, g) {
            var ready;
            ready, stack := PushMissing(c, root, g, val, stack);
            if ready {
              var x := CombineValues(c, d, g, val, seen - seen0);
              ValuesPut(c, d, val, seen - seen0, g, x);
              CrossedInner(c, root, border, val.Keys, keys, seen0, seen, g);
              assert g in FirstVars(|c.kind|) - val.Keys && val[g := x].Keys == val.Keys + {g};
              val := val[g := x];
              stack := rest;
            }
          } else {
            OwnBorder(c, root, g);
            var res0;
            res0, keys := EvaluateBorder(root, g, keys, seen0, border, val.Keys);
            if res0.Failure? {
              return res0;
            }
            var x := res0.value;
            ValuesMore(c, d, val, seen1 - seen0, seen - seen0);
            ValuesPut(c, d, val, seen - seen0, g, x);
            border := border + [g];
            assert g in FirstVars(|c.kind|) - val.Keys && val[g := x].Keys == val.Keys + {g};
            val := val[g := x];
            stack := rest;
          }
        }
      }
      ValueAt(c, d, val, seen - seen0, root);
      CrossedEnd(c, root, border, val.Keys, keys, seen0, seen);
      Remember(root, val[root], seen0, seenBefore);
      res := Success(val[root]);
    }

    /** A leaf of the island, or an unmarked gate inside it under the read-once rules. */
    method EvaluateBorder(ghost root: nat, g: nat, keys: set<nat>, ghost seen0: set<nat>, ghost border: seq<nat>, ghost done: set<nat>)
      returns (res: Result<real>, keys': set<nat>)
      requires Valid() && IsGate(c, root) && IsGate(c, g) && c.rank[g] < c.rank[root] && !Inner(c, g)
      requires seen0 <= seen && keys <= seen - seen0
      requires Certified(c, root) && Crossed(c, root, border, done, keys, seen0, seen) && g in Border(c, root) && g !in done
      modifies this
      ensures Valid() && old(seen) <= seen && keys' <= seen - seen0
      ensures res.Success? ==> Answers(c, d, g, res.value, seen - seen0)
      ensures res.Success? ==> Crossed(c, root, border + [g], done + {g}, keys', seen0, seen)
      ensures res.Failure? ==> Uses(c, root, false, seen0, seen)
      decreases c.rank[root], 1
    {
      hide Truthful;
      hide MemoOk;
      hide Answers;
      hide Uses;
      hide Crossed;
      hide Border;
      hide Free;
      keys' := keys;
      ghost var seen1 := seen;
      if c.kind[g] == InGate {
        res := EvaluateInput(g);
      } else if c.kind[g] == MulInGate {
        CrossedKey(c, root, border, done, keys, seen0, seen, g, c.wires[g][0]);
        var unused := RegisterKey(g, keys);
        if !unused {
          return Failure("Not an independent circuit"), keys;
        }
        assert seen == seen1 + {c.wires[g][0]};
        keys' := keys + {c.wires[g][0]};
        AlternativeOfIsland(c, d, g, seen - seen0);
        return Success(c.prob[g]), keys';
      } else {
        res := Evaluate(g);
      }
      CrossedOwn(c, root, border, done, keys, seen0, seen1, g, res.Success?, seen);
      if res.Success? { InputOfIsland(c, d, g, res.value, seen - seen1, seen - seen0); }
    }

    /** The first alternative of a key in an island registers the key. */
    method RegisterKey(g: nat, keys: set<nat>) returns (ok: bool)
      requires Valid() && IsGate(c, g) && c.kind[g] == MulInGate
      modifies this`seen
      ensures Valid() && old(seen) <= seen
      ensures ok <==> c.wires[g][0] in keys || c.wires[g][0] !in old(seen)
      ensures ok ==> seen == old(seen) + (if c.wires[g][0] in keys then {} else {c.wires[g][0]})
      ensures ok && c.wires[g][0] !in keys ==> c.wires[g][0] !in old(seen)
    {
      var k := c.wires[g][0];
      if k !in keys {
        if k in seen {
          return false;
        }
        seen := seen + {k};
      }
      ok := true;
    }

    method EvaluateGate(g: nat) returns (res: Result<real>)
      requires Valid() && IsGate(c, g) && !Certified(c, g)
      modifies this
      ensures Valid() && Answered(g, res, old(seen))
      decreases c.rank[g], 2
    {
      hide Truthful;
      hide MemoOk;
      hide Known;
      hide Uses;
      hide Free;
      WiresAreGates(c, g);
      if c.kind[g] == AndGate {
        res := EvaluateAnd(g);
      } else if c.kind[g] == OrGate {
        res := EvaluateOr(g);
      } else if c.kind[g] == NotGate {
        var h := c.wires[g][0];
        assert h in c.wires[g];
        res := Evaluate(h);
        OtherUse(c, g, old(seen), seen);
        if res.Success? {
          TruthfulSpace(c, d);
          NegationKnown(c, d, g, res.value, seen - old(seen));
          res := Success(1.0 - res.value);
        }
      } else if c.kind[g] == InGate {
        res := EvaluateInput(g);
      } else if c.kind[g] == MulInGate {
        TruthfulSpace(c, d);
        AlternativeKnown(c, d, g);
        var k := c.wires[g][0];
        AlternativeUse(c, g, seen);
        if k in seen {
          return Failure("Not an independent circuit");
        }
        seen := seen + {k};
        assert seen - old(seen) == {k};
        res := Success(c.prob[g]);
      } else {
        OtherUse(c, g, old(seen), seen);
        res := Failure("Bad gate");
      }
    }

    /** A leaf of probability zero or one is a constant; any other may be used once. */
    method EvaluateInput(g: nat) returns (res: Result<real>)
      requires Valid() && IsGate(c, g) && c.kind[g] == InGate
      modifies this`seen
      ensures Valid() && Answered(g, res, old(seen))
    {
      TruthfulSpace(c, d);
      InputKnown(c, d, g);
      OtherUse(c, g, seen, seen);
      hide Free;
      hide Known;
      var p := c.prob[g];
      if p == 0.0 || p == 1.0 {
        assert seen - seen == {};
        return Success(p);
      }
      if g in seen {
        return Failure("Not an independent circuit");
      }
      seen := seen + {g};
      assert seen - old(seen) == {g};
      res := Success(p);
    }

    method EvaluateAnd(g: nat) returns (res: Result<real>)
      requires Valid() && IsGate(c, g) && c.kind[g] == AndGate && !Certified(c, g)
      modifies this
      ensures Valid() && Answered(g, res, old(seen))
      decreases c.rank[g], 1
    {
      hide Truthful;
      hide MemoOk;
      hide Known;
      hide AllTo;
      hide Mul;
      hide Eval;
      hide Uses;
      hide Progress;
      hide Free;
      TruthfulSpace(c, d);
      WiresAreGates(c, g);
      AllStart(c, d, g);
      ghost var seen0 := seen;
      var x := 1.0;
      assert seen - seen0 == {};
      ProgressStart(c, g, seen0);
      for k := 0 to |c.wires[g]|
        invariant Progress(c, g, k, seen0, seen)
        invariant Valid() && seen0 <= seen && Known(d, AllTo(c, g, k), x, seen - seen0)
      {
        ghost var seen1 := seen;
        assert c.wires[g][k] in c.wires[g];
        res := Evaluate(c.wires[g][k]);
        ProgressOwn(c, g, k, seen0, seen1, res.Success?, seen);
        if res.Failure? {
          return;
        }
        var y := res.value;
        AllStep(c, d, g, k, x, seen1 - seen0, y, seen - seen1);
        assert (seen1 - seen0) + (seen - seen1) == seen - seen0;
        x := Mul(x, y);
      }
      AllEnd(c, d, g, x, seen - seen0);
      ProgressEnd(c, g, seen0, seen);
      res := Success(x);
    }

    /** Counts one more alternative; a key met before outside this disjunction is refused. */
    method AddAlternative(g: nat, k: nat, h: nat, groups: map<nat, real>, ghost vs: map<nat, set<nat>>, infos: map<nat, set<nat>>,
                          ghost seen0: set<nat>)
      returns (ok: bool, groups': map<nat, real>, ghost vs': map<nat, set<nat>>, infos': map<nat, set<nat>>)
      requires Valid() && IsGate(c, g) && k < |c.wires[g]| && h == c.wires[g][k] && IsGate(c, h) && c.kind[h] == MulInGate
      requires seen0 <= seen && Grouped(c, d, g, k, groups, vs, infos, seen - seen0)
      modifies this`seen
      ensures Valid() && old(seen) <= seen
      ensures ok <==> GroupOf(c, h) in infos || GroupOf(c, h) !in old(seen)
      ensures ok ==> seen == old(seen) + {GroupOf(c, h)} && infos'.Keys == infos.Keys + {GroupOf(c, h)}
      ensures ok ==> Grouped(c, d, g, k + 1, groups', vs', infos', seen - seen0)
    {
      TruthfulSpace(c, d);
      hide Truthful;
      hide MemoOk;
      hide Free;
      hide Grouped;
      KeyGroups(c, d, g, k, groups, vs, infos, seen - seen0, h);
      hide WellFormed;
      hide IsSpaceOf;
      var q := c.wires[h][0];
      KeyStepIfNew(c, d, g, k, groups, vs, infos, seen - seen0, h, q);
      ok, vs' := q in infos || q !in seen, vs[q := {q}];
      groups' := groups[q := NewWeight(c, groups, infos, h, q)];
      infos' := infos[q := Picked(infos, q) + {c.info[h]}];
      if ok {
        assert (seen - seen0) + {q} == seen + {q} - seen0;
        seen := seen + {q};
      }
    }

    /** Alternatives of one key are grouped; groups are independent. */
    method EvaluateOr(g: nat) returns (res: Result<real>)
      requires Valid() && IsGate(c, g) && c.kind[g] == OrGate && !Certified(c, g)
      modifies this
      ensures Valid() && Answered(g, res, old(seen))
      decreases c.rank[g], 1
    {
      hide WellFormed;
      hide IsSpaceOf;
      hide Truthful;
      hide MemoOk;
      hide Known;
      hide Grouped;
      hide Eval;
      hide Answers;
      hide Uses;
      hide Progress;
      hide KeysMet;
      hide Free;
      TruthfulSpace(c, d);
      WiresAreGates(c, g);
      GroupedStart(c, d, g);
      ghost var seen0 := seen;
      var groups: map<nat, real> := map[];
      var infos: map<nat, set<nat>> := map[];
      ghost var vs: map<nat, set<nat>> := map[];
      assert seen - seen0 == {};
      ProgressStart(c, g, seen0);
      NoKeysMet(c, g);
      assert infos.Keys == {};
      for k := 0 to |c.wires[g]|
        invariant Progress(c, g, k, seen0, seen) && KeysMet(c, g, k, infos.Keys)
        invariant Valid() && seen0 <= seen && Grouped(c, d, g, k, groups, vs, infos, seen - seen0)
      {
        var h := c.wires[g][k];
        assert h in c.wires[g];
        ghost var seen1 := seen;
        KeysMetStep(c, g, k, infos.Keys);
        if c.kind[h] == MulInGate {
          ProgressKey(c, g, k, seen0, seen, infos.Keys, c.wires[h][0]);
          var ok;
          ok, groups, vs, infos := AddAlternative(g, k, h, groups, vs, infos, seen0);
          if !ok {
            return Failure("Not an independent circuit");
          }
        } else {
          res := Evaluate(h);
          ProgressOwn(c, g, k, seen0, seen1, res.Success?, seen);
          if res.Failure? {
            return;
          }
          var x := res.value;
          ChildStep(c, d, g, k, groups, vs, infos, seen1 - seen0, h, x, seen - seen1);
          assert (seen1 - seen0) + (seen - seen1) == seen - seen0;
          groups := groups[h := x];
          vs := vs[h := if h in vs then vs[h] else seen - seen1];
        }
      }
      var none := NoneOfGroups(c, d, g, groups, vs, infos, seen - seen0);
      ProgressEnd(c, g, seen0, seen);
      res := Success(1.0 - none);
    }
  }

  lemma ChildStep(c: Circuit, d: Space, g: nat, k: nat, groups: map<nat, real>, vs: map<nat, set<nat>>, infos: map<nat, set<nat>>,
                  added: set<nat>, h: nat, x: real, us: set<nat>)
    requires IsGate(c, g) && k < |c.wires[g]| && IsSpaceOf(c, d) && Grouped(c, d, g, k, groups, vs, infos, added)
    requires h == c.wires[g][k] && h < |c.kind| && c.kind[h] != MulInGate && !IsKey(c, h) && Answers(c, d, h, x, us) && us !! added
    ensures Grouped(c, d, g, k + 1, groups[h := x], vs[h := if h in vs then vs[h] else us], infos, added + us)
  {
    hide Grouped;
    hide Known;
    hide WellFormed;
    hide IsSpaceOf;
    OwnStep(c, d, g, k, groups, vs, infos, added, h, x, us);
  }

  lemma KeyStepIfNew(c: Circuit, d: Space, g: nat, k: nat, groups: map<nat, real>, vs: map<nat, set<nat>>, infos: map<nat, set<nat>>,
                     added: set<nat>, h: nat, q: nat)
    requires IsGate(c, g) && k < |c.wires[g]| && IsSpaceOf(c, d) && Grouped(c, d, g, k, groups, vs, infos, added)
    requires h == Child(c, g, k) && c.kind[h] == MulInGate && q == GroupOf(c, h)
    requires q in infos <==> q in groups
    ensures q in infos || q !in added ==>
              Grouped(c, d, g, k + 1, groups[q := NewWeight(c, groups, infos, h, q)], vs[q := {q}],
                      infos[q := Picked(infos, q) + {c.info[h]}], added + {q})
  {
    hide Grouped;
    hide WellFormed;
    hide IsSpaceOf;
    if q in infos || q !in added { KeyStep(c, d, g, k, groups, vs, infos, added, h, q); }
  }

  lemma TruthfulSpace(c: Circuit, d: Space)
    requires Truthful(c, d)
    ensures IsSpaceOf(c, d) && Prob(d)
  {
  }

  /** A key has been met in this disjunction exactly if its group exists. */
  lemma KeyGroups(c: Circuit, d: Space, g: nat, k: nat, groups: map<nat, real>, vs: map<nat, set<nat>>, infos: map<nat, set<nat>>,
                  added: set<nat>, h: nat)
    requires IsGate(c, g) && k <= |c.wires[g]| && Grouped(c, d, g, k, groups, vs, infos, added)
    requires IsSpaceOf(c, d) && IsGate(c, h) && c.kind[h] == MulInGate
    ensures |c.wires[h]| > 0 && GroupOf(c, h) == c.wires[h][0]
    ensures c.wires[h][0] in infos <==> c.wires[h][0] in groups
    ensures c.wires[h][0] in infos ==> c.wires[h][0] in added
  {
    KeysAreKeys(c, d, h);
    var q := c.wires[h][0];
    if q in groups { assert GroupOk(c, d, g, k, q, groups[q], vs[q], Picked(infos, q)); }
  }

  /** The product of the failure probabilities of all groups. */
  method NoneOfGroups(c: Circuit, ghost d: Space, g: nat, groups: map<nat, real>, ghost vs: map<nat, set<nat>>,
                      ghost infos: map<nat, set<nat>>, ghost added: set<nat>) returns (x: real)
    requires IsGate(c, g) && c.kind[g] == OrGate && Prob(d) && Grouped(c, d, g, |c.wires[g]|, groups, vs, infos, added)
    ensures Answers(c, d, g, 1.0 - x, added)
  {
    hide Known;
    hide Grouped;
    hide Eval;
    hide Mul;
    x := 1.0;
    var rest := groups.Keys;
    NoneStart(c, d, g, vs);
    assert groups.Keys - rest == {};
    while rest != {}
      invariant rest <= groups.Keys
      invariant Known(d, NoneTrue(c, g, |c.wires[g]|, groups.Keys - rest), x, VarsOf(vs, groups.Keys - rest))
      decreases rest
    {
      var q :| q in rest;
      NoneStep(c, d, g, |c.wires[g]|, groups, vs, infos, added, groups.Keys - rest, q, x);
      assert groups.Keys - (rest - {q}) == (groups.Keys - rest) + {q};
      x := Mul(x, 1.0 - groups[q]);
      rest := rest - {q};
    }
    assert groups.Keys - rest == groups.Keys;
    NoneEnd(c, d, g, groups, vs, infos, added, x);
  }

  lemma NoneStart(c: Circuit, d: Space, g: nat, vs: map<nat, set<nat>>)
    requires IsGate(c, g) && Prob(d)
    ensures Known(d, NoneTrue(c, g, |c.wires[g]|, {}), 1.0, VarsOf(vs, {}))
  {
    assert VarsOf(vs, {}) == {};
    hide Known;
    KnownSure(d, NoneTrue(c, g, |c.wires[g]|, {}), true);
  }

  /** A value is returned exactly when no variable is used twice, and it is then the exact
      probability of the gate, given marks that are true; the variables of a multivalued
      input exclude each other.  */
  method IndependentProbability(c: Circuit, ghost d: Space, g: nat) returns (res: Result<real>)
    requires Truthful(c, d) && IsGate(c, g)
    ensures res.Success? <==> ReadOnceAt(c, g)
    ensures res.Success? ==> res.value == Pr(d, Holds(c, g))
  {
    hide Pr;
    hide Truthful;
    hide ReadOnceAt;
    hide VarsAt;
    var walk := new IndependentWalk(c, d);
    res := walk.Evaluate(g);
  }
}
