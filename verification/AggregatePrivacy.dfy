/** When the randomness below an aggregate is its own: the walk that compares, for each gate
    below it, the references from within with all references.  */
module AggregatePrivacy {
  import opened Sequences
  import opened PrivateContributors

  /** The gates below g, and g. */
  ghost function Below(c: Formula, g: nat): set<nat>
    requires IsGate(c, g)
    decreases c.rank[g]
  {
    {g} + set k, h | 0 <= k < |c.wires[g]| && h in Below(c, c.wires[g][k]) :: h
  }

  lemma {:induction false} BelowGates(c: Formula, g: nat, h: nat)
    requires IsGate(c, g) && h in Below(c, g)
    ensures h < |c.kind| && (h == g || c.rank[h] < c.rank[g])
    decreases c.rank[g]
  {
    if h != g {
      var k :| 0 <= k < |c.wires[g]| && h in Below(c, c.wires[g][k]);
      BelowGates(c, c.wires[g][k], h);
    }
  }

  lemma {:induction false} BelowClosed(c: Formula, g: nat, h: nat, k: nat)
    requires IsGate(c, g) && h in Below(c, g) && h < |c.wires| && k < |c.wires[h]|
    ensures c.wires[h][k] in Below(c, g)
    decreases c.rank[g]
  {
    if h == g {
      assert c.wires[g][k] in Below(c, c.wires[g][k]);
    } else {
      var i :| 0 <= i < |c.wires[g]| && h in Below(c, c.wires[g][i]);
      BelowClosed(c, c.wires[g][i], h, k);
    }
  }

  /** s holds all children of its gates. */
  ghost predicate Closed(c: Formula, s: set<nat>) {
    forall h, k {:trigger c.wires[h][k]} :: h in s && h < |c.wires| && 0 <= k < |c.wires[h]| ==> c.wires[h][k] in s
  }

  lemma {:induction false} BelowLeast(c: Formula, g: nat, s: set<nat>)
    requires IsGate(c, g) && g in s && Closed(c, s)
    ensures Below(c, g) <= s
    decreases c.rank[g]
  {
    forall k | 0 <= k < |c.wires[g]| ensures Below(c, c.wires[g][k]) <= s { BelowLeast(c, c.wires[g][k], s); }
  }

  // ----- References from within -----

  /** How often h is a wire of those of the first n gates that are in s. */
  ghost function InternalRefs(c: Formula, n: nat, s: set<nat>, h: nat): nat
    requires n <= |c.wires|
  {
    if n == 0 then 0 else InternalRefs(c, n - 1, s, h) + if n - 1 in s then multiset(c.wires[n - 1])[h] else 0
  }

  lemma {:induction false} MoreInternal(c: Formula, n: nat, s: set<nat>, g: nat, h: nat)
    requires n <= |c.wires| && g !in s
    ensures InternalRefs(c, n, s + {g}, h) == InternalRefs(c, n, s, h) + if g < n then multiset(c.wires[g])[h] else 0
  {
    if n > 0 { MoreInternal(c, n - 1, s, g, h); }
  }

  lemma {:induction false} NoneInternal(c: Formula, n: nat, h: nat)
    requires n <= |c.wires|
    ensures InternalRefs(c, n, {}, h) == 0
  {
    if n > 0 { NoneInternal(c, n - 1, h); }
  }

  /** A reference from outside is one more than those from within. */
  lemma {:induction false} ExternalRef(c: Formula, n: nat, s: set<nat>, i: nat, h: nat)
    requires n <= |c.wires|
    ensures References(c, n, h) >= InternalRefs(c, n, s, h) + if i < n && i !in s then multiset(c.wires[i])[h] else 0
  {
    if n > 0 { ExternalRef(c, n - 1, s, i, h); }
  }

  predicate IsConstant(k: Kind) {
    k == OneGate || k == ZeroGate || k == ValueGate
  }

  /** All gates below agg, other than constants and agg, are referenced only from below agg. */
  ghost predicate SubtreePrivate(c: Formula, agg: nat)
    requires IsGate(c, agg)
  {
    PrivateAmong(c, agg, Below(c, agg))
  }

  ghost predicate PrivateAmong(c: Formula, agg: nat, s: set<nat>)
    requires IsGate(c, agg)
  {
    forall h :: h in s && h < |c.kind| && h != agg && !IsConstant(c.kind[h]) ==>
      References(c, |c.wires|, h) == InternalRefs(c, |c.wires|, Below(c, agg), h)
  }

  lemma NoOutsideParent(c: Formula, agg: nat, i: nat, k: nat)
    requires IsGate(c, agg) && SubtreePrivate(c, agg) && i < |c.wires| && k < |c.wires[i]|
    requires var h := c.wires[i][k]; h < |c.kind| && h in Below(c, agg) && h != agg && !IsConstant(c.kind[h])
    ensures i in Below(c, agg)
  {
    var h := c.wires[i][k];
    ExternalRef(c, |c.wires|, Below(c, agg), i, h);
    assert h in multiset(c.wires[i]);
  }

  // ----- The walk -----

  function At(m: map<nat, nat>, h: nat): nat {
    if h in m then m[h] else 0
  }

  /** The walk has left the gates in done, which are those visited but not on the stack. */
  ghost predicate Walked(c: Formula, agg: nat, done: set<nat>, visited: set<nat>, stack: seq<nat>) {
    && agg in visited && (forall h :: h in visited <==> h in done || h in stack) && (forall h :: h in stack ==> h !in done)
    && Distinct(stack) && Left(c, done, visited)
  }

  /** The children of the gates in done have been visited. */
  ghost predicate Left(c: Formula, done: set<nat>, visited: set<nat>) {
    forall h, k {:trigger c.wires[h][k]} :: h in done && h < |c.wires| && 0 <= k < |c.wires[h]| ==> c.wires[h][k] in visited
  }

  /** The walk is within gate g, with k of its wires followed. */
  ghost predicate Within(c: Formula, agg: nat, done: set<nat>, g: nat, k: nat, visited: set<nat>, stack: seq<nat>)
    requires g < |c.wires| && k <= |c.wires[g]|
  {
    && agg in visited && (forall h :: h in visited <==> h in done || h == g || h in stack) && (forall h :: h in stack ==> h !in done && h != g)
    && g !in done && Distinct(stack) && Left(c, done, visited) && forall i :: 0 <= i < k ==> c.wires[g][i] in visited
  }

  /** The wires of the gates in done, and the first k of g, have been counted. */
  ghost predicate Counted(c: Formula, done: set<nat>, g: nat, k: nat, internal: map<nat, nat>)
    requires g < |c.wires| && k <= |c.wires[g]|
  {
    forall h :: At(internal, h) == InternalRefs(c, |c.wires|, done, h) + multiset(c.wires[g][..k])[h]
  }

  ghost predicate AllCounted(c: Formula, done: set<nat>, internal: map<nat, nat>) {
    forall h :: At(internal, h) == InternalRefs(c, |c.wires|, done, h)
  }

  lemma WithinStart(c: Formula, agg: nat, done: set<nat>, visited: set<nat>, stack: seq<nat>)
    requires Walked(c, agg, done, visited, stack) && stack != [] && stack[|stack| - 1] < |c.wires|
    ensures stack[|stack| - 1] in visited && Within(c, agg, done, stack[|stack| - 1], 0, visited, stack[..|stack| - 1])
  {
    var top := |stack| - 1;
    assert stack == stack[..top] + [stack[top]];
    hide Left;
  }

  lemma WithinStep(c: Formula, agg: nat, done: set<nat>, g: nat, k: nat, visited: set<nat>, stack: seq<nat>)
    requires g < |c.wires| && k < |c.wires[g]| && Within(c, agg, done, g, k, visited, stack)
    ensures var u := c.wires[g][k];
            Within(c, agg, done, g, k + 1, visited + {u}, if u in visited then stack else stack + [u])
  {
    var u := c.wires[g][k];
    LeftMore(c, done, visited, visited + {u});
    hide Left;
    assert forall h :: h in stack + [u] <==> h in stack || h == u;
  }

  lemma LeftMore(c: Formula, done: set<nat>, visited: set<nat>, more: set<nat>)
    requires Left(c, done, visited) && visited <= more
    ensures Left(c, done, more)
  {
  }

  lemma CountStep(c: Formula, done: set<nat>, g: nat, k: nat, internal: map<nat, nat>)
    requires g < |c.wires| && k < |c.wires[g]| && Counted(c, done, g, k, internal)
    ensures var u := c.wires[g][k]; Counted(c, done, g, k + 1, internal[u := At(internal, u) + 1])
  {
    assert c.wires[g][..k + 1] == c.wires[g][..k] + [c.wires[g][k]];
    hide InternalRefs;
  }

  lemma WithinEnd(c: Formula, agg: nat, done: set<nat>, g: nat, visited: set<nat>, stack: seq<nat>)
    requires g < |c.wires| && Within(c, agg, done, g, |c.wires[g]|, visited, stack)
    ensures Walked(c, agg, done + {g}, visited, stack)
  {
    forall h, i | h in done + {g} && h < |c.wires| && 0 <= i < |c.wires[h]| ensures c.wires[h][i] in visited {
      if h == g { assert c.wires[g][i] in visited; }
    }
  }

  lemma CountEnd(c: Formula, done: set<nat>, g: nat, internal: map<nat, nat>)
    requires g < |c.wires| && g !in done && Counted(c, done, g, |c.wires[g]|, internal)
    ensures AllCounted(c, done + {g}, internal)
  {
    assert c.wires[g][..|c.wires[g]|] == c.wires[g];
    forall h ensures At(internal, h) == InternalRefs(c, |c.wires|, done + {g}, h) { MoreInternal(c, |c.wires|, done, g, h); }
  }

  lemma WalkedAll(c: Formula, agg: nat, done: set<nat>, visited: set<nat>)
    requires IsGate(c, agg) && Walked(c, agg, done, visited, []) && visited <= Below(c, agg)
    ensures visited == Below(c, agg) == done
  {
    hide WellFormed;
    BelowLeast(c, agg, visited);
  }

  lemma AllBelow(c: Formula, agg: nat)
    requires IsGate(c, agg)
    ensures forall h :: h in Below(c, agg) ==> h < |c.kind|
  {
    forall h | h in Below(c, agg) ensures h < |c.kind| { BelowGates(c, agg, h); }
  }

  lemma WalkStart(c: Formula, agg: nat)
    requires IsGate(c, agg)
    ensures agg in Below(c, agg) && Walked(c, agg, {}, {agg}, [agg]) && AllCounted(c, {}, map[])
  {
    forall h ensures InternalRefs(c, |c.wires|, {}, h) == 0 { NoneInternal(c, |c.wires|, h); }
    hide Below;
  }

  /** Whether every gate below agg, other than constants, is referenced only from below agg. */
  method AggSubtreePrivate(c: Formula, agg: nat, refs: array<nat>) returns (ok: bool)
    requires IsGate(c, agg) && refs.Length == |c.kind|
    requires forall h :: 0 <= h < |c.kind| ==> refs[h] == References(c, |c.wires|, h)
    ensures ok <==> SubtreePrivate(c, agg)
  {
    AllBelow(c, agg);
    WalkStart(c, agg);
    hide Walked;
    hide Within;
    hide Counted;
    hide AllCounted;
    hide Below;
    var internal: map<nat, nat> := map[];
    var visited: set<nat> := {agg};
    var stack: seq<nat> := [agg];
    ghost var done: set<nat> := {};
    while stack != []
      invariant Walked(c, agg, done, visited, stack) && AllCounted(c, done, internal)
      invariant visited <= Below(c, agg) && done <= FirstVars(|c.kind|) && forall h :: h in stack ==> h in visited
      decreases FirstVars(|c.kind|) - done
    {
      var g := stack[|stack| - 1];
      assert g in stack;
      WithinStart(c, agg, done, visited, stack);
      WithinFresh(c, agg, done, g, 0, visited, stack[..|stack| - 1]);
      CountStart(c, done, g, internal);
      assert g in FirstVars(|c.kind|) - done;
      visited, stack, internal := FollowWires(c, agg, done, g, visited, stack[..|stack| - 1], internal);
      done := done + {g};
    }
    WalkedAll(c, agg, done, visited);
    ok := CompareRefs(c, agg, refs, visited, internal);
  }

  /** Counts the wires of g, and stacks the gates not visited before. */
  method FollowWires(c: Formula, ghost agg: nat, ghost done: set<nat>, g: nat, visited0: set<nat>, stack0: seq<nat>, internal0: map<nat, nat>)
    returns (visited: set<nat>, stack: seq<nat>, internal: map<nat, nat>)
    requires IsGate(c, agg) && g < |c.wires| && g in Below(c, agg) && visited0 <= Below(c, agg) && forall h :: h in stack0 ==> h in visited0
    requires Within(c, agg, done, g, 0, visited0, stack0) && Counted(c, done, g, 0, internal0)
    ensures Walked(c, agg, done + {g}, visited, stack) && AllCounted(c, done + {g}, internal)
    ensures visited <= Below(c, agg) && forall h :: h in stack ==> h in visited
  {
    hide Walked;
    hide Within;
    hide Counted;
    hide AllCounted;
    hide Below;
    visited, stack, internal := visited0, stack0, internal0;
    for k := 0 to |c.wires[g]|
      invariant Within(c, agg, done, g, k, visited, stack) && Counted(c, done, g, k, internal)
      invariant visited <= Below(c, agg) && forall h :: h in stack ==> h in visited
    {
      var u := c.wires[g][k];
      WithinStep(c, agg, done, g, k, visited, stack);
      CountStep(c, done, g, k, internal);
      BelowClosed(c, agg, g, k);
      internal := internal[u := At(internal, u) + 1];
      if u in visited {
        assert visited + {u} == visited;
      } else {
        visited := visited + {u};
        stack := stack + [u];
      }
    }
    WithinFresh(c, agg, done, g, |c.wires[g]|, visited, stack);
    WithinEnd(c, agg, done, g, visited, stack);
    CountEnd(c, done, g, internal);
  }

  lemma WithinFresh(c: Formula, agg: nat, done: set<nat>, g: nat, k: nat, visited: set<nat>, stack: seq<nat>)
    requires g < |c.wires| && k <= |c.wires[g]| && Within(c, agg, done, g, k, visited, stack)
    ensures g !in done
  {
  }

  lemma CountStart(c: Formula, done: set<nat>, g: nat, internal: map<nat, nat>)
    requires g < |c.wires| && AllCounted(c, done, internal)
    ensures Counted(c, done, g, 0, internal)
  {
    hide InternalRefs;
  }

  method CompareRefs(c: Formula, agg: nat, refs: array<nat>, visited: set<nat>, internal: map<nat, nat>) returns (ok: bool)
    requires IsGate(c, agg) && refs.Length == |c.kind| && visited == Below(c, agg)
    requires forall h :: 0 <= h < |c.kind| ==> refs[h] == References(c, |c.wires|, h)
    requires AllCounted(c, Below(c, agg), internal)
    ensures ok <==> SubtreePrivate(c, agg)
  {
    AllBelow(c, agg);
    hide Below;
    hide InternalRefs;
    var rest := visited;
    assert PrivateAmong(c, agg, visited - rest);
    while rest != {}
      invariant rest <= visited && PrivateAmong(c, agg, visited - rest)
      decreases rest
    {
      var h :| h in rest;
      if h != agg && !IsConstant(c.kind[h]) && refs[h] != At(internal, h) {
        return false;
      }
      assert visited - (rest - {h}) == (visited - rest) + {h};
      rest := rest - {h};
    }
    assert visited - rest == visited;
    ok := true;
  }
}
