/** Read-once marginals certified by reference counts. */
module PrivateContributors {
  import opened Reals
  import Sequences
  import opened Worlds
  import opened Probability

  datatype Kind = OneGate | ZeroGate | ValueGate | InputGate | TimesGate | PlusGate | MonusGate | OtherGate

  /** rank witnesses that the wires are acyclic. */
  datatype Formula = Formula(kind: seq<Kind>, wires: seq<seq<nat>>, prob: seq<real>, rank: seq<nat>)

  ghost predicate WellFormed(c: Formula) {
    && |c.kind| == |c.wires| == |c.prob| == |c.rank| && Unit(c.prob)
    && forall g, k {:trigger c.wires[g][k]} :: 0 <= g < |c.kind| && 0 <= k < |c.wires[g]| ==>
         c.wires[g][k] < |c.kind| && c.rank[c.wires[g][k]] < c.rank[g]
  }

  ghost predicate IsGate(c: Formula, g: nat) {
    WellFormed(c) && |c.kind| == |c.wires| == |c.prob| == |c.rank| && g < |c.kind|
  }

  predicate Connective(k: Kind) {
    k == TimesGate || k == PlusGate || k == MonusGate
  }

  /** Whether gate g is present: a difference is present when its first child is and its
      second is not. */
  ghost function Present(c: Formula, g: nat, w: World): bool
    requires IsGate(c, g)
    decreases c.rank[g]
  {
    match c.kind[g]
    case OneGate => true
    case InputGate => True(w, g)
    case TimesGate => forall k :: 0 <= k < |c.wires[g]| ==> Present(c, c.wires[g][k], w)
    case PlusGate => exists k :: 0 <= k < |c.wires[g]| && Present(c, c.wires[g][k], w)
    case MonusGate => |c.wires[g]| == 2 && Present(c, c.wires[g][0], w) && !Present(c, c.wires[g][1], w)
    case _ => false
  }

  ghost function Presence(c: Formula, g: nat): Event
    requires IsGate(c, g)
  {
    w => Present(c, g, w)
  }

  // ----- Reference counts -----

  /** How often gate g is a wire of the first n gates. */
  function References(c: Formula, n: nat, g: nat): nat
    requires n <= |c.wires|
  {
    if n == 0 then 0 else References(c, n - 1, g) + multiset(c.wires[n - 1])[g]
  }

  /** Increments a counter for every wire. */
  method ComputeRefCounts(c: Formula) returns (refs: array<nat>)
    requires WellFormed(c)
    ensures fresh(refs) && refs.Length == |c.kind|
    ensures forall g :: 0 <= g < |c.kind| ==> refs[g] == References(c, |c.wires|, g)
  {
    var nb := |c.kind|;
    refs := new nat[nb](_ => 0);
    for i := 0 to nb
      invariant forall g :: 0 <= g < nb ==> refs[g] == References(c, i, g)
    {
      for k := 0 to |c.wires[i]|
        invariant forall g :: 0 <= g < nb ==> refs[g] == References(c, i, g) + multiset(c.wires[i][..k])[g]
      {
        var idx := c.wires[i][k];
        assert c.wires[i][..k + 1] == c.wires[i][..k] + [idx];
        if idx < refs.Length {
          refs[idx] := refs[idx] + 1;
        }
      }
      assert c.wires[i][..|c.wires[i]|] == c.wires[i];
    }
  }

  lemma {:induction false} SomeReference(c: Formula, n: nat, i: nat, g: nat)
    requires i < n <= |c.wires|
    ensures References(c, n, g) >= References(c, i, g) + multiset(c.wires[i])[g]
  {
    if i < n - 1 { SomeReference(c, n - 1, i, g); }
  }

  /** A gate referenced once has one parent, at one place. */
  lemma OneParent(c: Formula, i: nat, k: nat, j: nat, l: nat)
    requires i < |c.wires| && j < |c.wires| && k < |c.wires[i]| && l < |c.wires[j]| && c.wires[i][k] == c.wires[j][l]
    requires References(c, |c.wires|, c.wires[i][k]) == 1
    ensures i == j && k == l
  {
    var g := c.wires[i][k];
    assert g in multiset(c.wires[i]) && g in multiset(c.wires[j]);
    if i < j {
      SomeReference(c, |c.wires|, j, g);
      SomeReference(c, j, i, g);
    } else if j < i {
      SomeReference(c, |c.wires|, i, g);
      SomeReference(c, i, j, g);
    } else {
      SomeReference(c, |c.wires|, i, g);
      if k < l { Sequences.Repeated(c.wires[i], k, l); } else if l < k { Sequences.Repeated(c.wires[i], l, k); }
    }
  }

  // ----- Private gates -----

  /** All inputs and connectives below g are referenced once. */
  ghost predicate Private(c: Formula, g: nat)
    requires IsGate(c, g)
    decreases c.rank[g]
  {
    match c.kind[g]
    case OneGate => true
    case ZeroGate => true
    case InputGate => References(c, |c.wires|, g) == 1
    case ValueGate | OtherGate => false
    case TimesGate | PlusGate =>
      References(c, |c.wires|, g) == 1 && forall k :: 0 <= k < |c.wires[g]| ==> Private(c, c.wires[g][k])
    case MonusGate =>
      && References(c, |c.wires|, g) == 1 && |c.wires[g]| == 2
      && Private(c, c.wires[g][0]) && Private(c, c.wires[g][1])
  }

  /** The inputs and connectives below g. */
  ghost function Cone(c: Formula, g: nat): set<nat>
    requires IsGate(c, g)
    decreases c.rank[g]
  {
    if c.kind[g] == InputGate then {g}
    else if Connective(c.kind[g]) then {g} + set k, h | 0 <= k < |c.wires[g]| && h in Cone(c, c.wires[g][k]) :: h
    else {}
  }

  lemma {:induction false} ConeBelow(c: Formula, g: nat, h: nat)
    requires IsGate(c, g) && h in Cone(c, g)
    ensures h < |c.kind| && c.rank[h] <= c.rank[g] && (c.kind[h] == InputGate || Connective(c.kind[h]))
    decreases c.rank[g]
  {
    if h != g {
      var k :| 0 <= k < |c.wires[g]| && h in Cone(c, c.wires[g][k]);
      ConeBelow(c, c.wires[g][k], h);
    }
  }

  /** Below g, every gate but g itself has a parent below g. */
  lemma {:induction false} ParentInCone(c: Formula, g: nat, h: nat) returns (p: nat, k: nat)
    requires IsGate(c, g) && h in Cone(c, g) && h != g
    ensures p in Cone(c, g) && p < |c.kind| && Connective(c.kind[p]) && k < |c.wires[p]| && c.wires[p][k] == h
    decreases c.rank[g]
  {
    var i :| 0 <= i < |c.wires[g]| && h in Cone(c, c.wires[g][i]);
    if h == c.wires[g][i] {
      p, k := g, i;
    } else {
      p, k := ParentInCone(c, c.wires[g][i], h);
    }
  }

  lemma {:induction false} PrivateBelow(c: Formula, g: nat, h: nat)
    requires IsGate(c, g) && Private(c, g) && h in Cone(c, g)
    ensures h < |c.kind| && References(c, |c.wires|, h) == 1
    decreases c.rank[g]
  {
    if h != g {
      var k :| 0 <= k < |c.wires[g]| && h in Cone(c, c.wires[g][k]);
      PrivateBelow(c, c.wires[g][k], h);
    }
  }

  /** Two gates that share a gate below them share a parent of it, unless it is one of them. */
  lemma {:induction false} SharedReachesTop(c: Formula, a: nat, b: nat, h: nat)
    requires IsGate(c, a) && IsGate(c, b) && Private(c, a) && Private(c, b) && h in Cone(c, a) && h in Cone(c, b)
    ensures a in Cone(c, b) || b in Cone(c, a)
    requires h < |c.rank| && c.rank[h] <= c.rank[a]
    decreases c.rank[a] - c.rank[h]
  {
    ConeBelow(c, a, h);
    if h != a && h != b {
      var p, k := ParentInCone(c, a, h);
      var q, l := ParentInCone(c, b, h);
      PrivateBelow(c, a, h);
      OneParent(c, p, k, q, l);
      ConeBelow(c, a, p);
      SharedReachesTop(c, a, b, p);
    }
  }

  /** Different places below a connective have nothing in common. */
  lemma ChildrenApart(c: Formula, g: nat, i: nat, j: nat)
    requires IsGate(c, g) && Connective(c.kind[g]) && Private(c, g) && i < |c.wires[g]| && j < |c.wires[g]| && i != j
    ensures Cone(c, c.wires[g][i]) !! Cone(c, c.wires[g][j])
  {
    var a, b := c.wires[g][i], c.wires[g][j];
    forall h | h in Cone(c, a) ensures h !in Cone(c, b) {
      if h in Cone(c, b) {
        ConeBelow(c, a, h);
        SharedReachesTop(c, a, b, h);
        if a in Cone(c, b) { TopBelowSibling(c, g, i, j); } else { TopBelowSibling(c, g, j, i); }
      }
    }
  }

  /** A private child of g is not below another place of g. */
  lemma TopBelowSibling(c: Formula, g: nat, i: nat, j: nat)
    requires IsGate(c, g) && Private(c, g) && Connective(c.kind[g]) && i < |c.wires[g]| && j < |c.wires[g]| && i != j
    ensures c.wires[g][i] !in Cone(c, c.wires[g][j])
  {
    var a, b := c.wires[g][i], c.wires[g][j];
    if a in Cone(c, b) {
      PrivateBelow(c, b, a);
      if a == b {
        OneParent(c, g, i, g, j);
      } else {
        var p, k := ParentInCone(c, b, a);
        ConeBelow(c, b, p);
        OneParent(c, g, i, p, k);
      }
    }
  }

  /** Contributors of an aggregate, each the wire of a gate that is no connective, have
      nothing in common: their presences are independent. */
  lemma ContributorsApart(c: Formula, a: nat, b: nat, i: nat, k: nat, j: nat, l: nat)
    requires IsGate(c, a) && IsGate(c, b) && a != b && Private(c, a) && Private(c, b)
    requires i < |c.wires| && k < |c.wires[i]| && c.wires[i][k] == a && !Connective(c.kind[i])
    requires j < |c.wires| && l < |c.wires[j]| && c.wires[j][l] == b && !Connective(c.kind[j])
    ensures Cone(c, a) !! Cone(c, b)
  {
    forall h | h in Cone(c, a) ensures h !in Cone(c, b) {
      if h in Cone(c, b) {
        ConeBelow(c, a, h);
        SharedReachesTop(c, a, b, h);
        if a in Cone(c, b) { NotBelow(c, a, b, i, k); } else { NotBelow(c, b, a, j, l); }
      }
    }
  }

  lemma NotBelow(c: Formula, a: nat, b: nat, i: nat, k: nat)
    requires IsGate(c, a) && IsGate(c, b) && a != b && Private(c, b)
    requires i < |c.wires| && k < |c.wires[i]| && c.wires[i][k] == a && !Connective(c.kind[i])
    ensures a !in Cone(c, b)
  {
    if a in Cone(c, b) {
      PrivateBelow(c, b, a);
      var p, l := ParentInCone(c, b, a);
      OneParent(c, i, k, p, l);
    }
  }

  // ----- The marginal -----

  lemma {:induction false} PresentReads(c: Formula, g: nat, u: World, w: World)
    requires IsGate(c, g) && forall h :: h in Cone(c, g) ==> True(u, h) == True(w, h)
    ensures Present(c, g, u) == Present(c, g, w)
    decreases c.rank[g]
  {
    if Connective(c.kind[g]) {
      forall k | 0 <= k < |c.wires[g]| ensures Present(c, c.wires[g][k], u) == Present(c, c.wires[g][k], w) {
        PresentReads(c, c.wires[g][k], u, w);
      }
    }
  }

  lemma PresenceDecided(c: Formula, g: nat)
    requires IsGate(c, g)
    ensures DecidedBy(Bern(c.prob), Presence(c, g), Cone(c, g))
  {
    forall u, w | Possible(Bern(c.prob), u) && Possible(Bern(c.prob), w) && Agree(u, w, Cone(c, g))
      ensures Presence(c, g)(u) == Presence(c, g)(w)
    {
      PresentReads(c, g, u, w);
    }
  }

  /** The event that the first n children of g are all as wanted: present, or absent. */
  ghost function FirstAll(c: Formula, g: nat, n: nat, wanted: bool): Event
    requires IsGate(c, g) && n <= |c.wires[g]|
  {
    w => forall k :: 0 <= k < n ==> Present(c, c.wires[g][k], w) == wanted
  }

  ghost function FirstCones(c: Formula, g: nat, n: nat): set<nat>
    requires IsGate(c, g) && n <= |c.wires[g]|
  {
    if n == 0 then {} else FirstCones(c, g, n - 1) + Cone(c, c.wires[g][n - 1])
  }

  lemma {:induction false} FirstApart(c: Formula, g: nat, n: nat, j: nat)
    requires IsGate(c, g) && Connective(c.kind[g]) && Private(c, g) && n <= j < |c.wires[g]|
    ensures FirstCones(c, g, n) !! Cone(c, c.wires[g][j])
  {
    if n > 0 {
      FirstApart(c, g, n - 1, j);
      ChildrenApart(c, g, n - 1, j);
    }
  }

  function Wanted(x: real, wanted: bool): real {
    if wanted then x else 1.0 - x
  }

  /** One more child multiplies in its own probability. */
  lemma {:induction false} FirstMore(c: Formula, g: nat, n: nat, wanted: bool)
    requires IsGate(c, g) && Connective(c.kind[g]) && Private(c, g) && n <= |c.wires[g]|
    ensures DecidedBy(Bern(c.prob), FirstAll(c, g, n, wanted), FirstCones(c, g, n))
    ensures n < |c.wires[g]| ==>
      P(c.prob, FirstAll(c, g, n + 1, wanted))
      == Mul(P(c.prob, FirstAll(c, g, n, wanted)), Wanted(P(c.prob, Presence(c, c.wires[g][n])), wanted))
  {
    if n > 0 { FirstMore(c, g, n - 1, wanted); }
    FirstDecided(c, g, n, wanted);
    if n < |c.wires[g]| {
      FirstTimes(c, g, n, wanted);
    }
  }

  lemma {:induction false} FirstDecided(c: Formula, g: nat, n: nat, wanted: bool)
    requires IsGate(c, g) && n <= |c.wires[g]|
    ensures DecidedBy(Bern(c.prob), FirstAll(c, g, n, wanted), FirstCones(c, g, n))
  {
    var d, e := Bern(c.prob), FirstAll(c, g, n, wanted);
    forall u, w | Possible(d, u) && Possible(d, w) && Agree(u, w, FirstCones(c, g, n)) ensures e(u) == e(w) {
      forall k | 0 <= k < n ensures Present(c, c.wires[g][k], u) == Present(c, c.wires[g][k], w) {
        InFirst(c, g, n, k);
        PresentReads(c, c.wires[g][k], u, w);
      }
    }
  }

  lemma {:induction false} InFirst(c: Formula, g: nat, n: nat, k: nat)
    requires IsGate(c, g) && k < n <= |c.wires[g]|
    ensures Cone(c, c.wires[g][k]) <= FirstCones(c, g, n)
  {
    if k < n - 1 { InFirst(c, g, n - 1, k); }
  }

  /** A presence, or an absence. */
  ghost function PresenceIs(c: Formula, g: nat, wanted: bool): Event
    requires IsGate(c, g)
  {
    w => Present(c, g, w) == wanted
  }

  lemma PresenceIsPr(c: Formula, g: nat, wanted: bool)
    requires IsGate(c, g)
    ensures P(c.prob, PresenceIs(c, g, wanted)) == Wanted(P(c.prob, Presence(c, g)), wanted)
    ensures DecidedBy(Bern(c.prob), PresenceIs(c, g, wanted), Cone(c, g))
  {
    var d := Bern(c.prob);
    BernProb(c.prob);
    PresenceDecided(c, g);
    DecidedAnd(d, Presence(c, g), Presence(c, g), Cone(c, g));
    hide Pr;
    if wanted {
      PrSame(d, Presence(c, g), PresenceIs(c, g, true));
      DecidedSame(d, Presence(c, g), PresenceIs(c, g, true), Cone(c, g));
    } else {
      PrNot(d, Presence(c, g), PresenceIs(c, g, false));
      DecidedSame(d, Not(Presence(c, g)), PresenceIs(c, g, false), Cone(c, g));
    }
  }

  lemma FirstTimes(c: Formula, g: nat, n: nat, wanted: bool)
    requires IsGate(c, g) && Connective(c.kind[g]) && Private(c, g) && n < |c.wires[g]|
    ensures P(c.prob, FirstAll(c, g, n + 1, wanted))
         == Mul(P(c.prob, FirstAll(c, g, n, wanted)), Wanted(P(c.prob, Presence(c, c.wires[g][n])), wanted))
  {
    var h := c.wires[g][n];
    BernProb(c.prob);
    FirstDecided(c, g, n, wanted);
    PresenceIsPr(c, h, wanted);
    FirstApart(c, g, n, n);
    hide Pr;
    hide Present;
    hide Cone;
    hide FirstCones;
    hide DecidedBy;
    PrIndepMul(Bern(c.prob), FirstAll(c, g, n, wanted), FirstCones(c, g, n), PresenceIs(c, h, wanted), Cone(c, h),
               FirstAll(c, g, n + 1, wanted));
  }

  lemma NoneFirst(c: Formula, g: nat, wanted: bool)
    requires IsGate(c, g)
    ensures P(c.prob, FirstAll(c, g, 0, wanted)) == 1.0
  {
    BernProb(c.prob);
    hide Pr;
    PrSure(Bern(c.prob), FirstAll(c, g, 0, wanted));
  }

  /** The probability of a connective from the running product over its children. */
  lemma ConnectivePr(c: Formula, g: nat)
    requires IsGate(c, g)
    ensures c.kind[g] == TimesGate ==> P(c.prob, Presence(c, g)) == P(c.prob, FirstAll(c, g, |c.wires[g]|, true))
    ensures c.kind[g] == PlusGate ==> P(c.prob, Presence(c, g)) == 1.0 - P(c.prob, FirstAll(c, g, |c.wires[g]|, false))
  {
    BernProb(c.prob);
    hide Pr;
    if c.kind[g] == TimesGate {
      PrSame(Bern(c.prob), Presence(c, g), FirstAll(c, g, |c.wires[g]|, true));
    }
    if c.kind[g] == PlusGate {
      PrNot(Bern(c.prob), FirstAll(c, g, |c.wires[g]|, false), Presence(c, g));
    }
  }

  lemma MonusPr(c: Formula, g: nat)
    requires IsGate(c, g) && c.kind[g] == MonusGate && Private(c, g)
    ensures P(c.prob, Presence(c, g)) == P(c.prob, Presence(c, c.wires[g][0])) * (1.0 - P(c.prob, Presence(c, c.wires[g][1])))
  {
    var a, b := c.wires[g][0], c.wires[g][1];
    BernProb(c.prob);
    PresenceDecided(c, a);
    PresenceIsPr(c, b, false);
    ChildrenApart(c, g, 0, 1);
    hide Pr;
    PrIndep(Bern(c.prob), Presence(c, a), Cone(c, a), PresenceIs(c, b, false), Cone(c, b), Presence(c, g));
  }

  lemma LeafPr(c: Formula, g: nat)
    requires IsGate(c, g)
    ensures c.kind[g] == OneGate ==> P(c.prob, Presence(c, g)) == 1.0
    ensures c.kind[g] == ZeroGate ==> P(c.prob, Presence(c, g)) == 0.0
    ensures c.kind[g] == InputGate ==> P(c.prob, Presence(c, g)) == c.prob[g]
  {
    BernProb(c.prob);
    Marginal(c.prob, g);
    var e: Event := w => True(w, g);
    hide Pr;
    if c.kind[g] == InputGate { PrSame(Bern(c.prob), Presence(c, g), e); }
    PrSure(Bern(c.prob), Presence(c, g));
  }

  /** The exact probability of a contributor, exactly when all of it is private. */
  method ContributorProb(c: Formula, g: nat, refs: array<nat>) returns (pr: real, ok: bool)
    requires IsGate(c, g) && refs.Length == |c.kind|
    requires forall h :: 0 <= h < |c.kind| ==> refs[h] == References(c, |c.wires|, h)
    ensures ok <==> Private(c, g)
    ensures ok ==> pr == P(c.prob, Presence(c, g))
    decreases c.rank[g]
  {
    LeafPr(c, g);
    ConnectivePr(c, g);
    hide P;
    match c.kind[g] {
      case OneGate => return 1.0, true;
      case ZeroGate => return 0.0, true;
      case InputGate =>
        if refs[g] != 1 { return 0.0, false; }
        return c.prob[g], true;
      case TimesGate =>
        if refs[g] != 1 { return 0.0, false; }
        pr, ok := ChildrenProduct(c, g, refs, true);
        if !ok { return 0.0, false; }
      case PlusGate =>
        if refs[g] != 1 { return 0.0, false; }
        pr, ok := ChildrenProduct(c, g, refs, false);
        if !ok { return 0.0, false; }
        pr := 1.0 - pr;
      case MonusGate =>
        if refs[g] != 1 || |c.wires[g]| != 2 { return 0.0, false; }
        var pa, pb;
        pa, ok := ContributorProb(c, c.wires[g][0], refs);
        if !ok { return 0.0, false; }
        pb, ok := ContributorProb(c, c.wires[g][1], refs);
        if !ok { return 0.0, false; }
        MonusPr(c, g);
        pr := pa * (1.0 - pb);
      case ValueGate | OtherGate => return 0.0, false;
    }
  }

  /** The running product over the children's presences, or absences. */
  method ChildrenProduct(c: Formula, g: nat, refs: array<nat>, wanted: bool) returns (q: real, ok: bool)
    requires IsGate(c, g) && refs.Length == |c.kind| && (c.kind[g] == TimesGate || c.kind[g] == PlusGate)
    requires (forall h :: 0 <= h < |c.kind| ==> refs[h] == References(c, |c.wires|, h)) && refs[g] == 1
    ensures ok <==> Private(c, g)
    ensures ok ==> q == P(c.prob, FirstAll(c, g, |c.wires[g]|, wanted))
    decreases c.rank[g], 0
  {
    q, ok := 1.0, true;
    NoneFirst(c, g, wanted);
    hide P;
    hide FirstAll;
    for k := 0 to |c.wires[g]|
      invariant forall i :: 0 <= i < k ==> Private(c, c.wires[g][i])
      invariant Private(c, g) ==> q == P(c.prob, FirstAll(c, g, k, wanted))
    {
      var x;
      x, ok := ContributorProb(c, c.wires[g][k], refs);
      if !ok { return 0.0, false; }
      if Private(c, g) { FirstTimes(c, g, k, wanted); }
      q := q * if wanted then x else 1.0 - x;
    }
  }
}
