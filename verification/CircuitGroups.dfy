/** Independent components of a group of gates, and interval arithmetic over them. */
module CircuitGroups {
  import opened Reals
  import opened Worlds
  import opened Probability
  import opened BooleanCircuit
  import opened CircuitCones
  import opened Intervals
  import opened Blocks

  /** The still-free variables of a gate, the keys by which components are formed. */
  ghost function Free(c: Circuit, g: nat, A: map<nat, bool>): set<nat> {
    if IsGate(c, g) then Footprint(c, g) - A.Keys else {}
  }

  ghost function FreeOf(c: Circuit, gs: seq<nat>, A: map<nat, bool>): set<nat>
    requires AreGates(c, gs)
  {
    FootprintOf(c, gs) - A.Keys
  }

  ghost predicate Listed(comps: seq<seq<nat>>, g: nat) {
    exists b :: 0 <= b < |comps| && g in comps[b]
  }

  /** comps splits live into non-empty groups that share no free variable. */
  ghost predicate AreComponents(c: Circuit, live: seq<nat>, A: map<nat, bool>, comps: seq<seq<nat>>) {
    && AreGates(c, live)
    && (forall b :: 0 <= b < |comps| ==> comps[b] != [] && |comps[b]| <= |live| && (|comps| > 1 ==> |comps[b]| < |live|))
    && (forall b, g :: 0 <= b < |comps| && g in comps[b] ==> g in live)
    && (forall g :: g in live ==> Listed(comps, g))
    && (forall a, b, g, h :: 0 <= a < b < |comps| && g in comps[a] && h in comps[b] ==>
          Free(c, g, A) !! Free(c, h, A))
  }

  ghost predicate AreKeys(c: Circuit, live: seq<nat>, A: map<nat, bool>, keys: seq<set<nat>>) {
    AreGates(c, live) && |keys| == |live| && forall i :: 0 <= i < |live| ==> keys[i] == Free(c, live[i], A)
  }

  lemma {:induction false} IncreasingAtLeast(s: seq<nat>, k: nat)
    requires Increasing(s) && k < |s|
    ensures s[k] >= k
  {
    if k > 0 { IncreasingAtLeast(s, k - 1); }
  }

  lemma {:induction false} FullBlock(s: seq<nat>, j: nat)
    requires Increasing(s) && j < |s| && forall i :: i in s ==> i < |s|
    ensures s[j] == j
    decreases |s| - j
  {
    IncreasingAtLeast(s, j);
    if j + 1 < |s| { FullBlock(s, j + 1); } else { assert s[j] in s; }
  }

  /** A block that misses an item is shorter than the list of items. */
  lemma ShorterBlock(s: seq<nat>, n: nat)
    requires Increasing(s) && forall i :: i in s ==> i < n
    ensures |s| <= n && (|s| == n ==> forall j: nat :: j < n ==> j in s)
  {
    if s != [] { IncreasingAtLeast(s, |s| - 1); assert s[|s| - 1] in s; }
    if |s| == n {
      forall j: nat | j < n ensures j in s { FullBlock(s, j); }
    }
  }

  /** A gate of a component comes from an item of the block. */
  lemma FromBlock(live: seq<nat>, block: seq<nat>, g: nat) returns (i: nat)
    requires forall i :: i in block ==> i < |live|
    requires g in Pick(live, block)
    ensures i in block && i < |live| && live[i] == g
  {
    var comp := Pick(live, block);
    var k :| 0 <= k < |comp| && comp[k] == g;
    i := block[k];
    assert block[k] in block;
  }

  lemma BlockSizes(keys: seq<set<nat>>, blocks: seq<seq<nat>>, b: nat)
    requires IsBlocks(keys, blocks) && b < |blocks|
    ensures blocks[b] != [] && |blocks[b]| <= |keys| && (|blocks| > 1 ==> |blocks[b]| < |keys|)
  {
    ShorterBlock(blocks[b], |keys|);
    if |blocks| > 1 {
      var a := if b == 0 then 1 else 0;
      assert blocks[a][0] in blocks[a];
      assert blocks[a][0] !in blocks[b];
    }
  }

  lemma BlocksListAll(keys: seq<set<nat>>, blocks: seq<seq<nat>>, live: seq<nat>, g: nat)
    requires IsBlocks(keys, blocks) && |live| == |keys| && g in live
    ensures Listed(PickAll(live, blocks), g)
  {
    var comps := PickAll(live, blocks);
    var i :| 0 <= i < |live| && live[i] == g;
    assert Covered(blocks, i);
    var b :| 0 <= b < |blocks| && i in blocks[b];
    var k :| 0 <= k < |blocks[b]| && blocks[b][k] == i;
    assert comps[b][k] == g;
  }

  lemma BlocksAreComponents(c: Circuit, live: seq<nat>, A: map<nat, bool>, keys: seq<set<nat>>, blocks: seq<seq<nat>>)
    requires AreKeys(c, live, A, keys) && IsBlocks(keys, blocks)
    ensures AreComponents(c, live, A, PickAll(live, blocks))
  {
    var comps := PickAll(live, blocks);
    forall b | 0 <= b < |comps|
      ensures comps[b] != [] && |comps[b]| <= |live| && (|comps| > 1 ==> |comps[b]| < |live|)
    {
      BlockSizes(keys, blocks, b);
    }
    forall g | g in live ensures Listed(comps, g) { BlocksListAll(keys, blocks, live, g); }
    forall b, g | 0 <= b < |comps| && g in comps[b] ensures g in live {
      var i := FromBlock(live, blocks[b], g);
    }
    forall a, b, g, h | 0 <= a < b < |comps| && g in comps[a] && h in comps[b]
      ensures Free(c, g, A) !! Free(c, h, A)
    {
      var i := FromBlock(live, blocks[a], g);
      var j := FromBlock(live, blocks[b], h);
      assert keys[i] !! keys[j];
    }
  }

  // ----- Groups as events -----

  lemma GroupSame(c: Circuit, A: map<nat, bool>, op: Op, xs: seq<nat>, ys: seq<nat>)
    requires AreGates(c, xs) && AreGates(c, ys)
    requires forall g :: g in xs <==> g in ys
    ensures GroupPr(c, A, op, xs) == GroupPr(c, A, op, ys)
  {
    LeftProb(c, A);
    hide Pr;
    PrSame(Left(c, A), GroupHolds(c, op, xs), GroupHolds(c, op, ys));
  }

  lemma GroupBounds(c: Circuit, A: map<nat, bool>, op: Op, gs: seq<nat>)
    requires AreGates(c, gs)
    ensures 0.0 <= GroupPr(c, A, op, gs) <= 1.0
  {
    LeftProb(c, A);
    hide Pr;
    PrBounds(Left(c, A), GroupHolds(c, op, gs));
  }

  lemma EmptyGroup(c: Circuit, A: map<nat, bool>, op: Op)
    requires WellFormed(c)
    ensures GroupPr(c, A, op, []) == if op.Conj? then 1.0 else 0.0
  {
    LeftProb(c, A);
    hide Pr;
    PrSure(Left(c, A), GroupHolds(c, op, []));
  }

  lemma SingleGroup(c: Circuit, A: map<nat, bool>, op: Op, g: nat)
    requires IsGate(c, g)
    ensures GroupPr(c, A, op, [g]) == GatePr(c, A, g)
  {
    LeftProb(c, A);
    assert forall w :: GroupHolds(c, op, [g])(w) == Holds(c, g)(w);
    hide Pr;
    PrSame(Left(c, A), GroupHolds(c, op, [g]), Holds(c, g));
  }

  /** What a running product over components stands for: AND multiplies probabilities,
      OR multiplies the probabilities of failing. */
  ghost function Part(c: Circuit, A: map<nat, bool>, op: Op, gs: seq<nat>): real
    requires AreGates(c, gs)
  {
    if op.Conj? then GroupPr(c, A, op, gs) else 1.0 - GroupPr(c, A, op, gs)
  }

  function PartOf(op: Op, r: Interval): Interval {
    if op.Conj? then r else Complement(r)
  }

  lemma JoinConj(c: Circuit, A: map<nat, bool>, xs: seq<nat>, ys: seq<nat>)
    requires AllSupported(c, xs) && AllSupported(c, ys) && Assigns(c, A)
    requires FreeOf(c, xs, A) !! FreeOf(c, ys, A)
    ensures AreGates(c, xs + ys)
    ensures GroupPr(c, A, Conj, xs + ys) == GroupPr(c, A, Conj, xs) * GroupPr(c, A, Conj, ys)
  {
    var d, ex, ey, exy := Left(c, A), GroupHolds(c, Conj, xs), GroupHolds(c, Conj, ys), GroupHolds(c, Conj, xs + ys);
    LeftProb(c, A);
    GroupDecided(c, Conj, xs, A);
    GroupDecided(c, Conj, ys, A);
    assert forall w :: exy(w) == (ex(w) && ey(w));
    hide Pr;
    hide DecidedBy;
    PrIndep(d, ex, FreeOf(c, xs, A), ey, FreeOf(c, ys, A), exy);
  }

  lemma JoinDisj(c: Circuit, A: map<nat, bool>, xs: seq<nat>, ys: seq<nat>)
    requires AllSupported(c, xs) && AllSupported(c, ys) && Assigns(c, A)
    requires FreeOf(c, xs, A) !! FreeOf(c, ys, A)
    ensures AreGates(c, xs + ys)
    ensures 1.0 - GroupPr(c, A, Disj, xs + ys) == (1.0 - GroupPr(c, A, Disj, xs)) * (1.0 - GroupPr(c, A, Disj, ys))
  {
    var d, ex, ey, exy := Left(c, A), GroupHolds(c, Disj, xs), GroupHolds(c, Disj, ys), GroupHolds(c, Disj, xs + ys);
    var fx, fy := FreeOf(c, xs, A), FreeOf(c, ys, A);
    LeftProb(c, A);
    GroupDecided(c, Disj, xs, A);
    GroupDecided(c, Disj, ys, A);
    DecidedAnd(d, ex, ex, fx);
    DecidedAnd(d, ey, ey, fy);
    assert forall w :: Not(exy)(w) == (Not(ex)(w) && Not(ey)(w));
    hide Pr;
    hide DecidedBy;
    PrNot(d, ex, Not(ex));
    PrNot(d, ey, Not(ey));
    PrNot(d, exy, Not(exy));
    PrIndep(d, Not(ex), fx, Not(ey), fy, Not(exy));
  }

  /** Groups that share no free variable multiply. */
  lemma JoinIndependent(c: Circuit, A: map<nat, bool>, op: Op, xs: seq<nat>, ys: seq<nat>)
    requires AllSupported(c, xs) && AllSupported(c, ys) && Assigns(c, A)
    requires FreeOf(c, xs, A) !! FreeOf(c, ys, A)
    ensures AreGates(c, xs + ys)
    ensures Part(c, A, op, xs + ys) == Mul(Part(c, A, op, xs), Part(c, A, op, ys))
  {
    hide GroupPr;
    if op.Conj? { JoinConj(c, A, xs, ys); } else { JoinDisj(c, A, xs, ys); }
  }

  /** The components up to the b-th, in one list. */
  function Prefix(comps: seq<seq<nat>>, b: nat): seq<nat>
    requires b <= |comps|
  {
    if b == 0 then [] else Prefix(comps, b - 1) + comps[b - 1]
  }

  lemma {:induction false} InPrefix(comps: seq<seq<nat>>, b: nat, g: nat)
    requires b <= |comps|
    ensures g in Prefix(comps, b) <==> exists a :: 0 <= a < b && g in comps[a]
  {
    if b > 0 { InPrefix(comps, b - 1, g); }
  }

  /** One more component: the running product stays an enclosure, and widths add. */
  lemma ComponentStep(c: Circuit, A: map<nat, bool>, op: Op, live: seq<nat>, comps: seq<seq<nat>>, b: nat, run: Interval, r: Interval)
    requires AllSupported(c, live) && Assigns(c, A) && AreComponents(c, live, A, comps) && b < |comps|
    requires AllSupported(c, Prefix(comps, b)) && AllSupported(c, comps[b])
    requires Encloses(run, Part(c, A, op, Prefix(comps, b)))
    requires Encloses(r, GroupPr(c, A, op, comps[b]))
    ensures AllSupported(c, Prefix(comps, b + 1))
    ensures Encloses(Product(run, PartOf(op, r)), Part(c, A, op, Prefix(comps, b + 1)))
    ensures Width(Product(run, PartOf(op, r))) <= Width(run) + Width(r)
  {
    var xs, ys := Prefix(comps, b), comps[b];
    hide Pr;
    hide Mul;
    forall v | v in FreeOf(c, xs, A) ensures v !in FreeOf(c, ys, A) {
      var g :| g in xs && v in Footprint(c, g);
      InPrefix(comps, b, g);
      var a :| 0 <= a < b && g in comps[a];
      forall h | h in ys ensures v !in Free(c, h, A) {
        assert Free(c, g, A) !! Free(c, h, A);
        assert v in Free(c, g, A);
      }
    }
    JoinIndependent(c, A, op, xs, ys);
    ProductStep(run, Part(c, A, op, xs), PartOf(op, r), Part(c, A, op, ys));
  }

  lemma PrefixSupported(c: Circuit, A: map<nat, bool>, live: seq<nat>, comps: seq<seq<nat>>, b: nat)
    requires AllSupported(c, live) && AreComponents(c, live, A, comps) && b <= |comps|
    ensures AllSupported(c, Prefix(comps, b))
  {
    forall g | g in Prefix(comps, b) ensures g in live {
      InPrefix(comps, b, g);
    }
  }

  lemma AllComponents(c: Circuit, A: map<nat, bool>, op: Op, live: seq<nat>, comps: seq<seq<nat>>)
    requires AllSupported(c, live) && AreComponents(c, live, A, comps)
    ensures AllSupported(c, Prefix(comps, |comps|))
    ensures Part(c, A, op, Prefix(comps, |comps|)) == Part(c, A, op, live)
  {
    PrefixSupported(c, A, live, comps, |comps|);
    var all := Prefix(comps, |comps|);
    forall g: nat ensures g in all <==> g in live {
      InPrefix(comps, |comps|, g);
      if g in live { assert Listed(comps, g); }
    }
    hide Pr;
    GroupSame(c, A, op, all, live);
  }

  // ----- Bounds inside one component -----

  /** Bonferroni and union bounds for one more gate. */
  lemma BoundStep(c: Circuit, A: map<nat, bool>, op: Op, gs: seq<nat>, g: nat)
    requires AreGates(c, gs) && IsGate(c, g)
    ensures AreGates(c, gs + [g])
    ensures op.Conj? ==> GroupPr(c, A, op, gs) + GatePr(c, A, g) - 1.0 <= GroupPr(c, A, op, gs + [g])
    ensures op.Conj? ==> GroupPr(c, A, op, gs + [g]) <= GroupPr(c, A, op, gs) && GroupPr(c, A, op, gs + [g]) <= GatePr(c, A, g)
    ensures op.Disj? ==> GroupPr(c, A, op, gs + [g]) <= GroupPr(c, A, op, gs) + GatePr(c, A, g)
    ensures op.Disj? ==> GroupPr(c, A, op, gs) <= GroupPr(c, A, op, gs + [g]) && GatePr(c, A, g) <= GroupPr(c, A, op, gs + [g])
  {
    var d, e, h := Left(c, A), GroupHolds(c, op, gs), Holds(c, g);
    var eg := GroupHolds(c, op, gs + [g]);
    LeftProb(c, A);
    assert forall w :: eg(w) == if op.Conj? then e(w) && h(w) else e(w) || h(w);
    hide Pr;
    PrOr(d, e, h);
    PrBounds(d, Or(e, h));
    PrBounds(d, And(e, h));
    PrSame(d, eg, if op.Conj? then And(e, h) else Or(e, h));
    PrMono(d, And(e, h), e);
    PrMono(d, And(e, h), h);
    PrMono(d, e, Or(e, h));
    PrMono(d, h, Or(e, h));
  }
}
