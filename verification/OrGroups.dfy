/** The children of a disjunction in groups: alternatives of one key variable together,
    every other child on its own.  Groups fail independently.  */
module OrGroups {
  import opened Reals
  import opened Worlds
  import opened Probability
  import opened Categorical
  import opened BooleanCircuit
  import opened ReadOnce
  import opened GateEvents

  /** The key of an alternative, or the child itself. */
  ghost function GroupOf(c: Circuit, h: nat): nat
    requires IsGate(c, h)
  {
    if c.kind[h] == MulInGate then c.wires[h][0] else h
  }

  /** Some child among the first k in group q is true. */
  ghost function GroupTrue(c: Circuit, g: nat, k: nat, q: nat): Event
    requires IsGate(c, g) && k <= |c.wires[g]|
  {
    w => exists i :: 0 <= i < k && GroupOf(c, Child(c, g, i)) == q && Eval(c, Child(c, g, i), w)
  }

  lemma GroupTrueStep(c: Circuit, g: nat, k: nat, q: nat, w: World)
    requires IsGate(c, g) && k < |c.wires[g]|
    ensures GroupTrue(c, g, k + 1, q)(w)
         == (GroupTrue(c, g, k, q)(w) || (GroupOf(c, Child(c, g, k)) == q && Eval(c, Child(c, g, k), w)))
  {
  }

  predicate TakesAny(w: World, q: nat, infos: set<nat>) {
    exists o :: o in infos && Takes(w, q, o + 1)
  }

  /** Key q's group is true exactly for the picked infos. */
  ghost predicate IsPicked(c: Circuit, g: nat, k: nat, q: nat, infos: set<nat>)
    requires IsGate(c, g) && k <= |c.wires[g]|
  {
    forall w :: GroupTrue(c, g, k, q)(w) <==> TakesAny(w, q, infos)
  }

  /** Group q's probability and variables: of a key, by the infos picked; of any other
      child, its own. */
  ghost predicate GroupOk(c: Circuit, d: Space, g: nat, k: nat, q: nat, x: real, us: set<nat>, infos: set<nat>)
    requires IsGate(c, g) && k <= |c.wires[g]|
  {
    && IsGate(c, q) && Known(d, GroupTrue(c, g, k, q), x, us)
    && (c.kind[q] == MulVarGate ==> us == {q} && IsPicked(c, g, k, q, infos))
    && (c.kind[q] != MulVarGate ==> forall w :: GroupTrue(c, g, k, q)(w) == Eval(c, q, w))
  }

  function Picked(infos: map<nat, set<nat>>, q: nat): set<nat> {
    if q in infos then infos[q] else {}
  }

  /** The state of the grouping after k children. */
  ghost predicate Grouped(c: Circuit, d: Space, g: nat, k: nat, groups: map<nat, real>, vs: map<nat, set<nat>>, infos: map<nat, set<nat>>,
                          added: set<nat>)
    requires IsGate(c, g) && k <= |c.wires[g]|
  {
    && groups.Keys == vs.Keys && Covers(c, g, k, groups.Keys) && Apart(vs) && KeyedBy(c, infos.Keys, groups.Keys)
    && forall q :: q in groups ==> GroupOk(c, d, g, k, q, groups[q], vs[q], Picked(infos, q)) && vs[q] <= added
  }

  /** Each of the first k children has a group. */
  ghost predicate Covers(c: Circuit, g: nat, k: nat, qs: set<nat>)
    requires IsGate(c, g) && k <= |c.wires[g]|
  {
    forall i :: 0 <= i < k ==> GroupOf(c, Child(c, g, i)) in qs
  }

  /** Groups have no variables in common. */
  ghost predicate Apart(vs: map<nat, set<nat>>) {
    forall q, r :: q in vs && r in vs && q != r ==> vs[q] !! vs[r]
  }

  /** The groups of key variables have their alternatives recorded. */
  ghost predicate KeyedBy(c: Circuit, ks: set<nat>, qs: set<nat>) {
    forall q :: q in ks <==> q in qs && IsKey(c, q)
  }

  predicate IsKey(c: Circuit, q: nat) {
    q < |c.kind| && c.kind[q] == MulVarGate
  }

  lemma GroupedStart(c: Circuit, d: Space, g: nat)
    requires IsGate(c, g)
    ensures Grouped(c, d, g, 0, map[], map[], map[], {})
  {
  }

  /** A group that the next child does not belong to keeps its event. */
  lemma OtherGroup(c: Circuit, d: Space, g: nat, k: nat, q: nat, x: real, vs: set<nat>)
    requires IsGate(c, g) && k < |c.wires[g]| && GroupOf(c, Child(c, g, k)) != q && Weights(d)
    requires Known(d, GroupTrue(c, g, k, q), x, vs)
    ensures Known(d, GroupTrue(c, g, k + 1, q), x, vs)
  {
    var a, b := GroupTrue(c, g, k, q), GroupTrue(c, g, k + 1, q);
    forall w ensures a(w) == b(w) { GroupTrueStep(c, g, k, q, w); }
    hide Known;
    KnownSame(d, a, b, x, vs);
  }

  lemma OtherPicked(c: Circuit, g: nat, k: nat, q: nat, infos: set<nat>)
    requires IsGate(c, g) && k < |c.wires[g]| && GroupOf(c, Child(c, g, k)) != q && IsPicked(c, g, k, q, infos)
    ensures IsPicked(c, g, k + 1, q, infos)
  {
    forall w ensures GroupTrue(c, g, k + 1, q)(w) == GroupTrue(c, g, k, q)(w) { GroupTrueStep(c, g, k, q, w); }
  }

  // ----- A child of its own -----

  /** The group of a child that is no alternative is that child. */
  lemma OwnGroup(c: Circuit, d: Space, g: nat, k: nat, h: nat, x: real, us: set<nat>)
    requires IsGate(c, g) && k < |c.wires[g]| && h == Child(c, g, k) && c.kind[h] != MulInGate && c.kind[h] != MulVarGate
    requires IsSpaceOf(c, d) && Known(d, Holds(c, h), x, us)
    ensures Known(d, GroupTrue(c, g, k + 1, h), x, us)
    ensures forall w :: GroupTrue(c, g, k + 1, h)(w) == Eval(c, h, w)
  {
    var b := GroupTrue(c, g, k + 1, h);
    forall i, w | 0 <= i < k + 1 && GroupOf(c, Child(c, g, i)) == h ensures Eval(c, Child(c, g, i), w) == Eval(c, h, w) {
      if c.kind[Child(c, g, i)] == MulInGate { KeysAreKeys(c, d, Child(c, g, i)); }
    }
    forall w ensures b(w) == Eval(c, h, w) {
      GroupTrueStep(c, g, k, h, w);
    }
    hide Known;
    KnownSame(d, Holds(c, h), b, x, us);
  }

  lemma KeysAreKeys(c: Circuit, d: Space, h: nat)
    requires IsSpaceOf(c, d) && IsGate(c, h) && c.kind[h] == MulInGate
    ensures GroupOf(c, h) < |c.kind| && c.kind[GroupOf(c, h)] == MulVarGate
  {
    assert IsAlternative(c, d, h);
  }

  /** A group that the next child does not belong to is as before. */
  lemma OthersKept(c: Circuit, d: Space, g: nat, k: nat, q: nat, x: real, us: set<nat>, infos: set<nat>)
    requires IsGate(c, g) && k < |c.wires[g]| && Weights(d) && GroupOk(c, d, g, k, q, x, us, infos)
    requires q != GroupOf(c, Child(c, g, k))
    ensures GroupOk(c, d, g, k + 1, q, x, us, infos)
  {
    hide WellFormed;
    hide Eval;
    hide Known;
    hide IsPicked;
    OtherGroup(c, d, g, k, q, x, us);
    if c.kind[q] == MulVarGate {
      OtherPicked(c, g, k, q, infos);
    } else {
      forall w ensures GroupTrue(c, g, k + 1, q)(w) == Eval(c, q, w) { GroupTrueStep(c, g, k, q, w); }
    }
  }

  /** The next child's group gets a new value; all the others are as before. */
  lemma Regroup(c: Circuit, d: Space, g: nat, k: nat, groups: map<nat, real>, vs: map<nat, set<nat>>, infos: map<nat, set<nat>>,
                added: set<nat>, q: nat, x: real, us: set<nat>, infos': map<nat, set<nat>>, more: set<nat>)
    requires IsGate(c, g) && k < |c.wires[g]| && Weights(d) && Grouped(c, d, g, k, groups, vs, infos, added)
    requires added <= more && us <= more && q == GroupOf(c, Child(c, g, k))
    requires GroupOk(c, d, g, k + 1, q, x, us, Picked(infos', q))
    requires if q in groups then us == vs[q] else us !! added
    requires infos'.Keys == (if IsKey(c, q) then infos.Keys + {q} else infos.Keys)
    requires forall r :: r in infos && r != q ==> infos'[r] == infos[r]
    ensures Grouped(c, d, g, k + 1, groups[q := x], vs[q := us], infos', more)
  {
    hide WellFormed;
    hide GroupOk;
    hide Weights;
    hide GroupOf;
    hide IsKey;
    DisjointUpdate(vs, q, us, added);
    CoverUpdate(c, g, k, groups.Keys, q);
    hide Covers;
    hide Apart;
    assert KeyedBy(c, infos'.Keys, groups.Keys + {q});
    hide KeyedBy;
    assert groups[q := x].Keys == groups.Keys + {q};
    forall r | r in groups && r != q ensures GroupOk(c, d, g, k + 1, r, groups[r], vs[r], Picked(infos', r)) {
      assert Picked(infos', r) == Picked(infos, r);
      OthersKept(c, d, g, k, r, groups[r], vs[r], Picked(infos, r));
    }
  }

  lemma CoverUpdate(c: Circuit, g: nat, k: nat, qs: set<nat>, q: nat)
    requires IsGate(c, g) && k < |c.wires[g]| && Covers(c, g, k, qs) && q == GroupOf(c, Child(c, g, k))
    ensures Covers(c, g, k + 1, qs + {q})
  {
  }

  lemma DisjointUpdate(vs: map<nat, set<nat>>, q: nat, us: set<nat>, added: set<nat>)
    requires Apart(vs) && forall a :: a in vs ==> vs[a] <= added
    requires if q in vs then us == vs[q] else us !! added
    ensures Apart(vs[q := us])
  {
  }

  lemma OwnStep(c: Circuit, d: Space, g: nat, k: nat, groups: map<nat, real>, vs: map<nat, set<nat>>, infos: map<nat, set<nat>>,
                added: set<nat>, h: nat, x: real, us: set<nat>)
    requires IsGate(c, g) && k < |c.wires[g]| && IsSpaceOf(c, d) && Grouped(c, d, g, k, groups, vs, infos, added)
    requires h == Child(c, g, k) && c.kind[h] != MulInGate && c.kind[h] != MulVarGate && Known(d, Holds(c, h), x, us) && us !! added
    ensures Grouped(c, d, g, k + 1, groups[h := x], vs[h := if h in vs then vs[h] else us], infos, added + us)
  {
    hide WellFormed;
    hide Eval;
    OwnGroup(c, d, g, k, h, x, us);
    if h in groups {
      assert GroupOk(c, d, g, k, h, groups[h], vs[h], Picked(infos, h));
      AgainKnown(c, d, g, k, h, x, us, groups[h], vs[h]);
    }
    hide Known;
    hide GroupTrue;
    var now := if h in vs then vs[h] else us;
    assert GroupOk(c, d, g, k + 1, h, x, now, Picked(infos, h));
    hide GroupOk;
    Regroup(c, d, g, k, groups, vs, infos, added, h, x, now, infos, added + us);
  }

  /** A repeated child has the same probability, and is decided as before. */
  lemma AgainKnown(c: Circuit, d: Space, g: nat, k: nat, h: nat, x: real, us: set<nat>, y: real, vs: set<nat>)
    requires IsGate(c, g) && k < |c.wires[g]| && IsSpaceOf(c, d) && IsGate(c, h)
    requires Known(d, GroupTrue(c, g, k + 1, h), x, us) && Known(d, GroupTrue(c, g, k, h), y, vs)
    requires forall w :: GroupTrue(c, g, k + 1, h)(w) == Eval(c, h, w)
    requires forall w :: GroupTrue(c, g, k, h)(w) == Eval(c, h, w)
    ensures Known(d, GroupTrue(c, g, k + 1, h), x, vs)
  {
    hide Pr;
    DecidedSame(d, GroupTrue(c, g, k, h), GroupTrue(c, g, k + 1, h), vs);
  }

  // ----- An alternative of a key variable -----

  /** One more alternative of key q: its weight adds up unless it was already counted. */
  lemma KeyStep(c: Circuit, d: Space, g: nat, k: nat, groups: map<nat, real>, vs: map<nat, set<nat>>, infos: map<nat, set<nat>>,
                added: set<nat>, h: nat, q: nat)
    requires IsGate(c, g) && k < |c.wires[g]| && IsSpaceOf(c, d) && Grouped(c, d, g, k, groups, vs, infos, added)
    requires h == Child(c, g, k) && c.kind[h] == MulInGate && q == GroupOf(c, h)
    requires q !in groups ==> q !in added
    ensures Grouped(c, d, g, k + 1, groups[q := NewWeight(c, groups, infos, h, q)], vs[q := {q}],
                    infos[q := Picked(infos, q) + {c.info[h]}], added + {q})
  {
    hide WellFormed;
    hide Eval;
    KeyGroupOk(c, d, g, k, groups, vs, infos, added, h, q);
    KeysAreKeys(c, d, h);
    var infos' := infos[q := Picked(infos, q) + {c.info[h]}];
    assert Picked(infos', q) == Picked(infos, q) + {c.info[h]};
    hide Known;
    hide IsPicked;
    hide GroupTrue;
    if q in groups { KeyAlone(c, d, g, k, groups, vs, infos, added, q); }
    hide GroupOk;
    Regroup(c, d, g, k, groups, vs, infos, added, q, NewWeight(c, groups, infos, h, q), {q}, infos', added + {q});
  }

  lemma KeyAlone(c: Circuit, d: Space, g: nat, k: nat, groups: map<nat, real>, vs: map<nat, set<nat>>, infos: map<nat, set<nat>>,
                 added: set<nat>, q: nat)
    requires IsGate(c, g) && k < |c.wires[g]| && Grouped(c, d, g, k, groups, vs, infos, added) && q in groups
    requires q < |c.kind| && c.kind[q] == MulVarGate
    ensures vs[q] == {q}
  {
    hide WellFormed;
    assert GroupOk(c, d, g, k, q, groups[q], vs[q], Picked(infos, q));
  }

  lemma KeyGroupOk(c: Circuit, d: Space, g: nat, k: nat, groups: map<nat, real>, vs: map<nat, set<nat>>, infos: map<nat, set<nat>>,
                   added: set<nat>, h: nat, q: nat)
    requires IsGate(c, g) && k < |c.wires[g]| && IsSpaceOf(c, d) && Grouped(c, d, g, k, groups, vs, infos, added)
    requires h == Child(c, g, k) && c.kind[h] == MulInGate && q == GroupOf(c, h)
    ensures GroupOk(c, d, g, k + 1, q, NewWeight(c, groups, infos, h, q), {q}, Picked(infos, q) + {c.info[h]})
  {
    hide WellFormed;
    hide Eval;
    KeysAreKeys(c, d, h);
    var was := if q in groups then groups[q] else 0.0;
    if q in groups {
      assert GroupOk(c, d, g, k, q, groups[q], vs[q], Picked(infos, q));
    } else {
      NewKey(c, d, g, k, q, groups, vs, infos, added);
    }
    hide Grouped;
    PickMore(c, d, g, k, h, was, Picked(infos, q));
  }

  /** The weight of group q once alternative h is counted. */
  function NewWeight(c: Circuit, groups: map<nat, real>, infos: map<nat, set<nat>>, h: nat, q: nat): real
    requires Sized(c) && h < |c.kind|
  {
    var was := if q in groups then groups[q] else 0.0;
    if c.info[h] in Picked(infos, q) then was else was + c.prob[h]
  }

  lemma NewKey(c: Circuit, d: Space, g: nat, k: nat, q: nat, groups: map<nat, real>, vs: map<nat, set<nat>>, infos: map<nat, set<nat>>,
               added: set<nat>)
    requires IsGate(c, g) && k <= |c.wires[g]| && Prob(d) && Grouped(c, d, g, k, groups, vs, infos, added) && q !in groups
    ensures Known(d, GroupTrue(c, g, k, q), 0.0, {q}) && IsPicked(c, g, k, q, {}) && Picked(infos, q) == {}
  {
    hide WellFormed;
    hide Eval;
    forall w ensures !GroupTrue(c, g, k, q)(w) {
      assert forall i :: 0 <= i < k ==> GroupOf(c, Child(c, g, i)) != q;
    }
    hide Known;
    KnownSure(d, GroupTrue(c, g, k, q), false);
    KnownMore(d, GroupTrue(c, g, k, q), 0.0, {}, {q});
  }

  lemma PickMore(c: Circuit, d: Space, g: nat, k: nat, h: nat, was: real, picked: set<nat>)
    requires IsGate(c, g) && k < |c.wires[g]| && IsSpaceOf(c, d) && h == Child(c, g, k) && c.kind[h] == MulInGate
    requires var q := GroupOf(c, h); Known(d, GroupTrue(c, g, k, q), was, {q}) && IsPicked(c, g, k, q, picked)
    ensures var q, o := GroupOf(c, h), c.info[h];
            && Known(d, GroupTrue(c, g, k + 1, q), if o in picked then was else was + c.prob[h], {q})
            && IsPicked(c, g, k + 1, q, picked + {o})
  {
    var q, o := GroupOf(c, h), c.info[h];
    var a, b, e := GroupTrue(c, g, k, q), Holds(c, h), GroupTrue(c, g, k + 1, q);
    forall w ensures e(w) == (a(w) || b(w)) && b(w) == Takes(w, q, o + 1) {
      GroupTrueStep(c, g, k, q, w);
      assert b(w) == Eval(c, h, w);
    }
    AlternativeKnown(c, d, h);
    hide GroupTrue;
    hide Known;
    hide WellFormed;
    forall w ensures e(w) == TakesAny(w, q, picked + {o}) { TakesMore(w, q, picked, o); }
    forall w ensures (o in picked ==> (b(w) ==> a(w))) && (o !in picked ==> !(a(w) && b(w))) { TakesMore(w, q, picked, o); }
    KnownOr(d, a, was, b, c.prob[h], {q}, e);
  }

  lemma TakesMore(w: World, q: nat, picked: set<nat>, o: nat)
    ensures TakesAny(w, q, picked + {o}) == (TakesAny(w, q, picked) || Takes(w, q, o + 1))
    ensures o in picked && Takes(w, q, o + 1) ==> TakesAny(w, q, picked)
    ensures o !in picked ==> !(TakesAny(w, q, picked) && Takes(w, q, o + 1))
  {
  }

  // ----- The disjunction over all groups -----

  /** None of the groups in qs is true. */
  ghost function NoneTrue(c: Circuit, g: nat, k: nat, qs: set<nat>): Event
    requires IsGate(c, g) && k <= |c.wires[g]|
  {
    w => forall q :: q in qs ==> !GroupTrue(c, g, k, q)(w)
  }

  ghost function VarsOf(vs: map<nat, set<nat>>, qs: set<nat>): set<nat> {
    set q, v | q in qs && q in vs && v in vs[q] :: v
  }

  lemma GroupFacts(c: Circuit, d: Space, g: nat, k: nat, groups: map<nat, real>, vs: map<nat, set<nat>>, infos: map<nat, set<nat>>,
                   added: set<nat>, q: nat)
    requires IsGate(c, g) && k <= |c.wires[g]| && Grouped(c, d, g, k, groups, vs, infos, added) && q in groups
    ensures q in vs && Known(d, GroupTrue(c, g, k, q), groups[q], vs[q])
    ensures forall a, b :: a in vs && b in vs && a != b ==> vs[a] !! vs[b]
  {
    assert GroupOk(c, d, g, k, q, groups[q], vs[q], Picked(infos, q));
  }

  lemma VarsApart(vs: map<nat, set<nat>>, done: set<nat>, q: nat)
    requires q in vs && q !in done && forall a, b :: a in vs && b in vs && a != b ==> vs[a] !! vs[b]
    ensures VarsOf(vs, done) !! vs[q] && VarsOf(vs, done + {q}) == VarsOf(vs, done) + vs[q]
  {
  }

  lemma NoneStep(c: Circuit, d: Space, g: nat, k: nat, groups: map<nat, real>, vs: map<nat, set<nat>>, infos: map<nat, set<nat>>,
                 added: set<nat>, done: set<nat>, q: nat, x: real)
    requires IsGate(c, g) && k <= |c.wires[g]| && Prob(d) && Grouped(c, d, g, k, groups, vs, infos, added)
    requires q in groups && q !in done && Known(d, NoneTrue(c, g, k, done), x, VarsOf(vs, done))
    ensures Known(d, NoneTrue(c, g, k, done + {q}), Mul(x, 1.0 - groups[q]), VarsOf(vs, done + {q}))
  {
    hide WellFormed;
    GroupFacts(c, d, g, k, groups, vs, infos, added, q);
    hide *;
    VarsApart(vs, done, q);
    NoneJoin(c, d, g, k, done, q, x, VarsOf(vs, done), groups[q], vs[q]);
  }

  lemma NoneJoin(c: Circuit, d: Space, g: nat, k: nat, done: set<nat>, q: nat, x: real, vs: set<nat>, y: real, us: set<nat>)
    requires IsGate(c, g) && k <= |c.wires[g]| && Prob(d) && vs !! us
    requires Known(d, NoneTrue(c, g, k, done), x, vs) && Known(d, GroupTrue(c, g, k, q), y, us)
    ensures Known(d, NoneTrue(c, g, k, done + {q}), Mul(x, 1.0 - y), vs + us)
  {
    var a, b, e := NoneTrue(c, g, k, done), Not(GroupTrue(c, g, k, q)), NoneTrue(c, g, k, done + {q});
    hide GroupTrue;
    hide Known;
    forall w ensures e(w) == (a(w) && b(w)) {
      assert forall r :: r in done + {q} <==> r in done || r == q;
    }
    KnownNot(d, GroupTrue(c, g, k, q), b, y, us);
    KnownAnd(d, a, x, vs, b, 1.0 - y, us, e);
  }

  lemma NoneEnd(c: Circuit, d: Space, g: nat, groups: map<nat, real>, vs: map<nat, set<nat>>, infos: map<nat, set<nat>>,
                added: set<nat>, x: real)
    requires IsGate(c, g) && c.kind[g] == OrGate && Prob(d) && Grouped(c, d, g, |c.wires[g]|, groups, vs, infos, added)
    requires Known(d, NoneTrue(c, g, |c.wires[g]|, groups.Keys), x, VarsOf(vs, groups.Keys))
    ensures Known(d, Holds(c, g), 1.0 - x, added)
  {
    hide WellFormed;
    hide Eval;
    var k, a, e := |c.wires[g]|, NoneTrue(c, g, |c.wires[g]|, groups.Keys), Holds(c, g);
    VarsInside(c, d, g, groups, vs, infos, added);
    forall i | 0 <= i < k ensures GroupOf(c, Child(c, g, i)) in groups {}
    hide Grouped;
    forall w ensures e(w) == !a(w) { SomeGroupTrue(c, g, groups.Keys, w); }
    hide Known;
    hide GroupTrue;
    hide NoneTrue;
    KnownNot(d, a, e, x, VarsOf(vs, groups.Keys));
    KnownMore(d, e, 1.0 - x, VarsOf(vs, groups.Keys), added);
  }

  lemma VarsInside(c: Circuit, d: Space, g: nat, groups: map<nat, real>, vs: map<nat, set<nat>>, infos: map<nat, set<nat>>, added: set<nat>)
    requires IsGate(c, g) && Grouped(c, d, g, |c.wires[g]|, groups, vs, infos, added)
    ensures VarsOf(vs, groups.Keys) <= added
  {
    hide GroupOk;
  }

  /** A disjunction is true where some group is. */
  lemma SomeGroupTrue(c: Circuit, g: nat, qs: set<nat>, w: World)
    requires IsGate(c, g) && c.kind[g] == OrGate && forall i :: 0 <= i < |c.wires[g]| ==> GroupOf(c, Child(c, g, i)) in qs
    ensures Holds(c, g)(w) == !NoneTrue(c, g, |c.wires[g]|, qs)(w)
  {
    var k := |c.wires[g]|;
    assert Holds(c, g)(w) == Eval(c, g, w);
    if Eval(c, g, w) {
      var i :| 0 <= i < k && Eval(c, c.wires[g][i], w);
      assert Child(c, g, i) == c.wires[g][i];
      assert GroupTrue(c, g, k, GroupOf(c, Child(c, g, i)))(w);
    }
    if q :| q in qs && GroupTrue(c, g, k, q)(w) {
      var i :| 0 <= i < k && GroupOf(c, Child(c, g, i)) == q && Eval(c, Child(c, g, i), w);
      assert Eval(c, c.wires[g][i], w);
    }
  }
}
