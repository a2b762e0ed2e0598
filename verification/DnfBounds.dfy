/** Cheap certified bounds of a monotone DNF: greedy buckets of independent clauses. */
module DnfBounds {
  import opened Reals
  import opened Worlds
  import opened Probability
  import opened Sequences
  import opened MonotoneDnf
  import Sorting

  /** Each bucket knows its leaves and its exact probability. */
  ghost predicate Bucketed(p: seq<real>, supports: seq<set<nat>>, probs: seq<real>, members: seq<Clauses>) {
    && |supports| == |probs| == |members|
    && (forall b :: 0 <= b < |members| ==> supports[b] == Support(members[b]) && probs[b] == DnfPr(p, members[b]))
  }

  /** The buckets hold exactly the clauses placed so far. */
  ghost predicate Placed(members: seq<Clauses>, cls: Clauses, order: seq<nat>, k: nat) {
    && k <= |order|
    && (forall b, c :: 0 <= b < |members| && c in members[b] ==> c in cls)
    && (forall i :: 0 <= i < k ==> order[i] < |cls| && InSome(members, cls[order[i]]))
  }

  ghost predicate InSome(members: seq<Clauses>, c: set<nat>) {
    exists b :: 0 <= b < |members| && c in members[b]
  }

  lemma SingleClause(p: seq<real>, c: set<nat>)
    requires Unit(p)
    ensures DnfPr(p, [c]) == P(p, Present(c))
  {
    BernProb(p);
    forall w ensures Satisfied([c])(w) == Present(c)(w) {
      assert [c][0] == c;
    }
    hide Pr;
    PrSame(Bern(p), Satisfied([c]), Present(c));
  }

  /** Adding an independent clause: the independent-or of the two probabilities. */
  lemma BucketStep(p: seq<real>, a: Clauses, c: set<nat>)
    requires Unit(p) && Support(a) !! c
    ensures DnfPr(p, a + [c]) == 1.0 - (1.0 - DnfPr(p, a)) * (1.0 - P(p, Present(c)))
  {
    SupportAppend([], c);
    assert [] + [c] == [c];
    assert Support([c]) == c;
    SingleClause(p, c);
    hide DnfPr;
    DnfIndependent(p, a, [c]);
  }

  lemma PlacedStep(members: seq<Clauses>, cls: Clauses, order: seq<nat>, k: nat, b: nat)
    requires Placed(members, cls, order, k) && k < |order| && order[k] < |cls| && b < |members|
    ensures Placed(members[b := members[b] + [cls[order[k]]]], cls, order, k + 1)
  {
    var c := cls[order[k]];
    var next := members[b := members[b] + [c]];
    assert c in next[b];
    forall i | 0 <= i < k ensures InSome(next, cls[order[i]]) {
      assert InSome(members, cls[order[i]]);
      var a :| 0 <= a < |members| && cls[order[i]] in members[a];
      assert cls[order[i]] in next[a];
    }
  }

  lemma PlacedOpen(members: seq<Clauses>, cls: Clauses, order: seq<nat>, k: nat)
    requires Placed(members, cls, order, k)
    ensures Placed(members + [[]], cls, order, k)
  {
    var next := members + [[]];
    forall i | 0 <= i < k ensures InSome(next, cls[order[i]]) {
      assert InSome(members, cls[order[i]]);
      var a :| 0 <= a < |members| && cls[order[i]] in members[a];
      assert cls[order[i]] in next[a];
    }
  }

  /** The buckets together denote the DNF, and each is a part of it. */
  lemma AllPlaced(members: seq<Clauses>, cls: Clauses, order: seq<nat>)
    requires Placed(members, cls, order, |order|)
    requires forall j: nat :: j < |cls| ==> j in order
    ensures SameFunction(Flat(members, |members|), cls)
  {
    forall c ensures c in Flat(members, |members|) <==> c in cls {
      InFlat(members, |members|, c);
      if c in cls {
        var j :| 0 <= j < |cls| && cls[j] == c;
        assert j in order;
        var i :| 0 <= i < |order| && order[i] == j;
        assert InSome(members, cls[order[i]]);
      }
    }
    SameClauses(Flat(members, |members|), cls);
  }

  lemma PartOfAll(p: seq<real>, members: seq<Clauses>, cls: Clauses, b: nat)
    requires Unit(p) && b < |members| && SameFunction(Flat(members, |members|), cls)
    ensures DnfPr(p, members[b]) <= DnfPr(p, cls)
  {
    BernProb(p);
    var all := Flat(members, |members|);
    forall w | Satisfied(members[b])(w) ensures Satisfied(cls)(w) {
      var i :| 0 <= i < |members[b]| && AllTrue(w, members[b][i]);
      InFlat(members, |members|, members[b][i]);
      assert members[b][i] in members[b];
      var j :| 0 <= j < |all| && all[j] == members[b][i];
      assert DnfTrue(all, w);
    }
    hide Pr;
    PrMono(Bern(p), Satisfied(members[b]), Satisfied(cls));
  }

  /** The first bucket whose leaves avoid those of c, or a new one. */
  method FindBucket(supports: seq<set<nat>>, c: set<nat>) returns (target: nat)
    ensures target <= |supports| && (target < |supports| ==> supports[target] !! c)
    ensures forall b :: 0 <= b < target ==> !(supports[b] !! c)
  {
    for b := 0 to |supports|
      invariant forall a :: 0 <= a < b ==> !(supports[a] !! c)
    {
      if supports[b] !! c {
        return b;
      }
    }
    return |supports|;
  }

  method ClauseProbs(p: seq<real>, clauses: Clauses) returns (probs: seq<real>)
    requires LeavesOk(p, clauses)
    ensures |probs| == |clauses| && forall i :: 0 <= i < |clauses| ==> probs[i] == P(p, Present(clauses[i]))
  {
    probs := [];
    hide P;
    for i := 0 to |clauses|
      invariant |probs| == i && forall j :: 0 <= j < i ==> probs[j] == P(p, Present(clauses[j]))
    {
      var q := LeafProduct(p, clauses[i]);
      probs := probs + [q];
    }
  }

  function Likelier(probs: seq<real>): (nat, nat) -> bool {
    (a: nat, b: nat) => a < |probs| && b < |probs| && probs[a] >= probs[b]
  }

  /** Clause indices in descending order of probability. */
  function Order(probs: seq<real>): seq<nat> {
    Sorting.Sort(Likelier(probs), Indices(|probs|))
  }

  lemma OrderAll(probs: seq<real>)
    ensures |Order(probs)| == |probs| && Distinct(Order(probs))
    ensures forall i :: 0 <= i < |probs| ==> Order(probs)[i] < |probs|
    ensures forall j: nat :: j < |probs| ==> j in Order(probs)
  {
    var s := Indices(|probs|);
    Sorting.SameMembers(Order(probs), s);
    DistinctPermuted(s, Order(probs));
    forall i | 0 <= i < |probs| ensures Order(probs)[i] < |probs| {
      assert Order(probs)[i] in Order(probs);
    }
    forall j: nat | j < |probs| ensures j in Order(probs) {
      assert s[j] == j;
    }
  }

  // ----- How tight the buckets are -----

  /** No two clauses have a leaf in common. */
  ghost predicate LeafDisjoint(clauses: Clauses) {
    forall i, j :: 0 <= i < j < |clauses| ==> clauses[i] !! clauses[j]
  }

  function Sum(xs: seq<real>): real {
    if xs == [] then 0.0 else Sum(xs[..|xs| - 1]) + xs[|xs| - 1]
  }

  lemma SumMore(xs: seq<real>, x: real)
    ensures Sum(xs + [x]) == Sum(xs) + x
  {
    assert (xs + [x])[..|xs|] == xs;
  }

  lemma {:induction false} SumUpdate(xs: seq<real>, i: nat, x: real)
    requires i < |xs|
    ensures Sum(xs[i := x]) == Sum(xs) - xs[i] + x
  {
    var n := |xs| - 1;
    if i == n {
      assert xs[i := x][..n] == xs[..n];
    } else {
      assert xs[i := x][..n] == xs[..n][i := x];
      SumUpdate(xs[..n], i, x);
    }
  }

  /** The sum over the places in s. */
  ghost function SumAt(xs: seq<real>, s: set<nat>): real {
    if xs == [] then 0.0 else SumAt(xs[..|xs| - 1], s) + if |xs| - 1 in s then xs[|xs| - 1] else 0.0
  }

  lemma {:induction false} SumAtMore(xs: seq<real>, s: set<nat>, i: nat)
    requires i !in s
    ensures SumAt(xs, s + {i}) == SumAt(xs, s) + if i < |xs| then xs[i] else 0.0
  {
    if xs != [] { SumAtMore(xs[..|xs| - 1], s, i); }
  }

  lemma {:induction false} SumAtAll(xs: seq<real>, s: set<nat>)
    requires forall i: nat :: i < |xs| ==> i in s
    ensures SumAt(xs, s) == Sum(xs)
  {
    if xs != [] { SumAtAll(xs[..|xs| - 1], s); }
  }

  lemma {:induction false} SumAtNone(xs: seq<real>)
    ensures SumAt(xs, {}) == 0.0
  {
    if xs != [] { SumAtNone(xs[..|xs| - 1]); }
  }

  /** After k clauses the buckets weigh no more than the clauses, and clauses without
      common leaves share one bucket. */
  ghost predicate Tight(clauses: Clauses, clauseProbs: seq<real>, order: seq<nat>, k: nat, supports: seq<set<nat>>, probs: seq<real>) {
    && k <= |order| && Sum(probs) <= SumAt(clauseProbs, Elements(order[..k]))
    && (LeafDisjoint(clauses) ==> |supports| <= 1)
    && forall b, v :: 0 <= b < |supports| && v in supports[b] ==> PlacedLeaf(clauses, order, k, v)
  }

  ghost predicate PlacedLeaf(clauses: Clauses, order: seq<nat>, k: nat, v: nat) {
    exists i :: 0 <= i < k && i < |order| && order[i] < |clauses| && v in clauses[order[i]]
  }

  lemma TightOpen(clauses: Clauses, clauseProbs: seq<real>, order: seq<nat>, k: nat, supports: seq<set<nat>>, probs: seq<real>)
    requires Tight(clauses, clauseProbs, order, k, supports, probs) && Distinct(order) && k < |order| && order[k] < |clauses|
    requires forall b :: 0 <= b < |supports| ==> !(supports[b] !! clauses[order[k]])
    ensures Tight(clauses, clauseProbs, order, k, supports + [{}], probs + [0.0])
  {
    SumMore(probs, 0.0);
    if LeafDisjoint(clauses) && |supports| == 1 { Avoided(clauses, clauseProbs, order, k, supports, probs, 0); }
  }

  /** Without common leaves the next clause avoids every bucket. */
  lemma Avoided(clauses: Clauses, clauseProbs: seq<real>, order: seq<nat>, k: nat, supports: seq<set<nat>>, probs: seq<real>, b: nat)
    requires Tight(clauses, clauseProbs, order, k, supports, probs) && Distinct(order) && k < |order| && order[k] < |clauses|
    requires LeafDisjoint(clauses) && b < |supports|
    ensures supports[b] !! clauses[order[k]]
  {
    forall v | v in supports[b] ensures v !in clauses[order[k]] {
      assert PlacedLeaf(clauses, order, k, v);
      var i :| 0 <= i < k && order[i] < |clauses| && v in clauses[order[i]];
      assert order[i] != order[k];
    }
  }

  /** An independent-or weighs at most the sum. */
  lemma TightStep(clauses: Clauses, clauseProbs: seq<real>, order: seq<nat>, k: nat, supports: seq<set<nat>>, probs: seq<real>, b: nat)
    requires Tight(clauses, clauseProbs, order, k, supports, probs) && Distinct(order) && k < |order|
    requires order[k] < |clauses| == |clauseProbs| && b < |supports| == |probs|
    requires 0.0 <= probs[b] && 0.0 <= clauseProbs[order[k]]
    ensures var c, x := clauses[order[k]], 1.0 - (1.0 - probs[b]) * (1.0 - clauseProbs[order[k]]);
            Tight(clauses, clauseProbs, order, k + 1, supports[b := supports[b] + c], probs[b := x])
  {
    var c, x := clauses[order[k]], 1.0 - (1.0 - probs[b]) * (1.0 - clauseProbs[order[k]]);
    Product(probs[b], clauseProbs[order[k]]);
    SumUpdate(probs, b, x);
    assert Elements(order[..k + 1]) == Elements(order[..k]) + {order[k]};
    assert order[k] !in Elements(order[..k]);
    SumAtMore(clauseProbs, Elements(order[..k]), order[k]);
    var more := supports[b := supports[b] + c];
    forall a, v | 0 <= a < |more| && v in more[a] ensures PlacedLeaf(clauses, order, k + 1, v) {
      if v in supports[a] {
        assert PlacedLeaf(clauses, order, k, v);
      } else {
        assert v in clauses[order[k]];
      }
    }
  }

  lemma Product(x: real, y: real)
    requires 0.0 <= x && 0.0 <= y
    ensures 1.0 - (1.0 - x) * (1.0 - y) <= x + y
  {
  }

  method Distribute(p: seq<real>, clauses: Clauses, clauseProbs: seq<real>, order: seq<nat>)
    returns (supports: seq<set<nat>>, probs: seq<real>, ghost members: seq<Clauses>)
    requires LeavesOk(p, clauses) && |clauseProbs| == |clauses|
    requires forall i :: 0 <= i < |clauses| ==> clauseProbs[i] == P(p, Present(clauses[i]))
    requires Distinct(order) && forall i :: 0 <= i < |order| ==> order[i] < |clauses|
    ensures Bucketed(p, supports, probs, members) && Placed(members, clauses, order, |order|)
    ensures Tight(clauses, clauseProbs, order, |order|, supports, probs)
  {
    supports, probs, members := [], [], [];
    hide Distinct;
    hide Tight;
    hide DnfPr;
    hide P;
    TightNone(clauses, clauseProbs, order);
    for k := 0 to |order|
      invariant Bucketed(p, supports, probs, members) && Placed(members, clauses, order, k)
      invariant Tight(clauses, clauseProbs, order, k, supports, probs)
    {
      var c := clauses[order[k]];
      var target := FindBucket(supports, c);
      if target == |supports| {
        PlacedOpen(members, clauses, order, k);
        TightOpen(clauses, clauseProbs, order, k, supports, probs);
        OpenBucket(p, supports, probs, members);
        supports, probs, members := supports + [{}], probs + [0.0], members + [[]];
      }
      AddToBucket(p, supports, probs, members, target, c);
      PlacedStep(members, clauses, order, k, target);
      DnfBounds01(p, members[target]);
      ClauseBounds(p, c);
      TightStep(clauses, clauseProbs, order, k, supports, probs, target);
      probs := probs[target := 1.0 - (1.0 - probs[target]) * (1.0 - clauseProbs[order[k]])];
      supports := supports[target := supports[target] + c];
      members := members[target := members[target] + [c]];
    }
  }

  lemma TightNone(clauses: Clauses, clauseProbs: seq<real>, order: seq<nat>)
    ensures Tight(clauses, clauseProbs, order, 0, [], [])
  {
    SumAtNone(clauseProbs);
    assert Elements(order[..0]) == {};
  }

  lemma ClauseBounds(p: seq<real>, c: set<nat>)
    requires Unit(p)
    ensures 0.0 <= P(p, Present(c)) <= 1.0
  {
    BernProb(p);
    hide Pr;
    PrBounds(Bern(p), Present(c));
  }

  lemma OpenBucket(p: seq<real>, supports: seq<set<nat>>, probs: seq<real>, members: seq<Clauses>)
    requires Unit(p) && Bucketed(p, supports, probs, members)
    ensures Bucketed(p, supports + [{}], probs + [0.0], members + [[]])
  {
    hide DnfPr;
    DnfEmpty(p);
    assert Support([]) == {};
  }

  lemma AddToBucket(p: seq<real>, supports: seq<set<nat>>, probs: seq<real>, members: seq<Clauses>, b: nat, c: set<nat>)
    requires Unit(p) && Bucketed(p, supports, probs, members) && b < |members| && supports[b] !! c
    ensures Bucketed(p, supports[b := supports[b] + c], probs[b := 1.0 - (1.0 - probs[b]) * (1.0 - P(p, Present(c)))],
                     members[b := members[b] + [c]])
  {
    hide DnfPr;
    hide P;
    BucketStep(p, members[b], c);
    SupportAppend(members[b], c);
  }

  ghost predicate BelowOne(x: real, probs: seq<real>) {
    exists b :: 0 <= b < |probs| && x <= probs[b]
  }

  /** A clause is no likelier than the bucket it is in. */
  lemma InBucket(p: seq<real>, members: seq<Clauses>, probs: seq<real>, c: set<nat>)
    requires Unit(p) && InSome(members, c) && |probs| == |members|
    requires forall b :: 0 <= b < |members| ==> probs[b] == DnfPr(p, members[b])
    ensures BelowOne(P(p, Present(c)), probs)
  {
    var b :| 0 <= b < |members| && c in members[b];
    var i :| 0 <= i < |members[b]| && members[b][i] == c;
    BernProb(p);
    forall w | Present(c)(w) ensures Satisfied(members[b])(w) {
      assert AllTrue(w, members[b][i]);
    }
    hide Pr;
    PrMono(Bern(p), Present(c), Satisfied(members[b]));
  }

  lemma EachInBucket(p: seq<real>, clauses: Clauses, order: seq<nat>, members: seq<Clauses>, probs: seq<real>)
    requires Unit(p) && Placed(members, clauses, order, |order|) && |probs| == |members|
    requires forall b :: 0 <= b < |members| ==> probs[b] == DnfPr(p, members[b])
    requires forall j: nat :: j < |clauses| ==> j in order
    ensures forall j :: 0 <= j < |clauses| ==> BelowOne(P(p, Present(clauses[j])), probs)
  {
    hide P;
    hide DnfPr;
    forall j | 0 <= j < |clauses| ensures BelowOne(P(p, Present(clauses[j])), probs) {
      assert j in order;
      var i :| 0 <= i < |order| && order[i] == j;
      assert InSome(members, clauses[order[i]]);
      InBucket(p, members, probs, clauses[j]);
    }
  }

  lemma OneBucket(clauses: Clauses, members: seq<Clauses>, order: seq<nat>)
    requires Placed(members, clauses, order, |order|) && |members| <= 1 && clauses != []
    requires forall j: nat :: j < |clauses| ==> j in order
    ensures |members| == 1 && Flat(members, 1) == members[0]
  {
    assert 0 in order;
    var i :| 0 <= i < |order| && order[i] == 0;
    assert InSome(members, clauses[order[i]]);
    assert Flat(members, 1) == Flat(members, 0) + members[0];
  }

  /** A certified interval for the probability of a monotone DNF: it is that probability
      when no two clauses have a leaf in common, and never wider than from the likeliest
      clause to the sum over the clauses. */
  method Bounds(p: seq<real>, clauses: Clauses) returns (lower: real, upper: real)
    requires LeavesOk(p, clauses)
    ensures 0.0 <= lower <= DnfPr(p, clauses) <= upper <= 1.0
    ensures (forall i, j :: 0 <= i < j < |clauses| ==> clauses[i] !! clauses[j]) ==> lower == DnfPr(p, clauses) == upper
    ensures forall i :: 0 <= i < |clauses| ==> P(p, Present(clauses[i])) <= lower
    ensures upper <= Sum(seq(|clauses|, (i: nat) requires i < |clauses| => P(p, Present(clauses[i]))))
  {
    hide DnfPr;
    hide P;
    if clauses == [] {
      DnfEmpty(p);
      return 0.0, 0.0;
    }
    var clauseProbs := ClauseProbs(p, clauses);
    OrderAll(clauseProbs);
    var order := Order(clauseProbs);
    var supports, probs, members := Distribute(p, clauses, clauseProbs, order);
    AllPlaced(members, clauses, order);
    EachInBucket(p, clauses, order, members, probs);
    SumOfAll(p, clauses, clauseProbs, order);
    if LeafDisjoint(clauses) { OneBucket(clauses, members, order); }
    lower, upper := Combine(p, clauses, probs, members);
  }

  lemma SumOfAll(p: seq<real>, clauses: Clauses, clauseProbs: seq<real>, order: seq<nat>)
    requires |clauseProbs| == |clauses| && forall i :: 0 <= i < |clauses| ==> clauseProbs[i] == P(p, Present(clauses[i]))
    requires forall j: nat :: j < |clauses| ==> j in order
    ensures SumAt(clauseProbs, Elements(order[..|order|]))
         == Sum(seq(|clauses|, (i: nat) requires i < |clauses| => P(p, Present(clauses[i]))))
  {
    hide P;
    assert order[..|order|] == order;
    assert clauseProbs == seq(|clauses|, (i: nat) requires i < |clauses| => P(p, Present(clauses[i])));
    SumAtAll(clauseProbs, Elements(order));
  }

  lemma SumNothing()
    ensures Sum([]) == 0.0
  {
  }

  lemma OneMoreBucket(p: seq<real>, clauses: Clauses, probs: seq<real>, members: seq<Clauses>, b: nat)
    requires Unit(p) && |probs| == |members| && b < |members| && probs[b] == DnfPr(p, members[b])
    requires SameFunction(Flat(members, |members|), clauses)
    ensures 0.0 <= probs[b] <= DnfPr(p, clauses) && Sum(probs[..b + 1]) == Sum(probs[..b]) + probs[b]
    ensures DnfPr(p, Flat(members, b + 1)) <= DnfPr(p, Flat(members, b)) + probs[b]
  {
    hide DnfPr;
    hide SameFunction;
    hide Sum;
    PartOfAll(p, members, clauses, b);
    DnfUnion(p, Flat(members, b), members[b]);
    DnfBounds01(p, members[b]);
    SumMore(probs[..b], probs[b]);
    assert probs[..b + 1] == probs[..b] + [probs[b]];
  }

  /** The largest of the bucket probabilities, and their sum. */
  method Combine(p: seq<real>, clauses: Clauses, probs: seq<real>, ghost members: seq<Clauses>) returns (lower: real, upper: real)
    requires Unit(p) && |probs| == |members| && forall b :: 0 <= b < |members| ==> probs[b] == DnfPr(p, members[b])
    requires SameFunction(Flat(members, |members|), clauses)
    ensures 0.0 <= lower <= DnfPr(p, clauses) <= upper <= 1.0
    ensures (forall b :: 0 <= b < |probs| ==> probs[b] <= lower) && upper <= Sum(probs)
    ensures |probs| == 1 ==> lower == probs[0] == upper
  {
    DnfBounds01(p, clauses);
    lower, upper := 0.0, 0.0;
    DnfEmpty(p);
    DnfSame(p, Flat(members, |members|), clauses);
    hide DnfPr;
    hide Sum;
    hide SameFunction;
    hide DnfTrue;
    SumNothing();
    assert probs[..0] == [];
    for b := 0 to |probs|
      invariant 0.0 <= lower <= DnfPr(p, clauses) && forall a :: 0 <= a < b ==> probs[a] <= lower
      invariant DnfPr(p, Flat(members, b)) <= upper && upper == Sum(probs[..b])
      invariant b <= 1 ==> upper == lower
    {
      OneMoreBucket(p, clauses, probs, members, b);
      if probs[b] > lower {
        lower := probs[b];
      }
      upper := upper + probs[b];
    }
    assert probs[..|probs|] == probs;
    upper := if upper > 1.0 then 1.0 else upper;
  }
}
