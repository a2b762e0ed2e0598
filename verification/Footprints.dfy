/** Which circuits read-once evaluation accepts: the variables that a gate uses, and the
    gates whose parts use them once each.  Inside a marked island gates may be shared; there
    the gates on its border must not have variables in common, except for alternatives of
    one key.  */
module Footprints {
  import opened Sequences
  import opened Worlds
  import opened Probability
  import opened BooleanCircuit
  import opened ReadOnce

  /** Gates an island walk computes from the values of their children. */
  predicate Inner(c: Circuit, g: nat)
    requires Sized(c) && g < |c.kind|
  {
    c.kind[g] == NotGate || Certified(c, g)
  }

  /** The gates at which a walk that starts from g inside an island leaves it. */
  ghost function Border(c: Circuit, g: nat): (r: set<nat>)
    requires IsGate(c, g)
    ensures forall b :: b in r ==> b < |c.kind| && c.rank[b] <= c.rank[g] && !Inner(c, b) && (Inner(c, g) ==> c.rank[b] < c.rank[g])
    decreases c.rank[g]
  {
    if Inner(c, g) then set k, b | 0 <= k < |c.wires[g]| && b in Border(c, c.wires[g][k]) :: b
    else {g}
  }

  /** The variables that the evaluation of g uses up. */
  ghost function VarsAt(c: Circuit, g: nat): set<nat>
    requires IsGate(c, g)
    decreases c.rank[g]
  {
    if Certified(c, g) then set b, v | b in Border(c, g) && v in VarsAt(c, b) :: v
    else match c.kind[g]
      case InGate => if c.prob[g] == 0.0 || c.prob[g] == 1.0 then {} else {g}
      case MulInGate => {c.wires[g][0]}
      case NotGate => VarsAt(c, c.wires[g][0])
      case AndGate | OrGate => set k, v | 0 <= k < |c.wires[g]| && v in VarsAt(c, c.wires[g][k]) :: v
      case _ => {}
  }

  /** a and b may stand side by side; alternatives of one key may if keyed. */
  ghost predicate Share(c: Circuit, a: nat, b: nat, keyed: bool)
    requires IsGate(c, a) && IsGate(c, b)
  {
    VarsAt(c, a) !! VarsAt(c, b) || (keyed && c.kind[a] == MulInGate && c.kind[b] == MulInGate)
  }

  /** No variable is used twice below g. */
  ghost predicate ReadOnceAt(c: Circuit, g: nat)
    requires IsGate(c, g)
    decreases c.rank[g]
  {
    if Certified(c, g) then
      && (forall b :: b in Border(c, g) ==> ReadOnceAt(c, b))
      && (forall a, b :: a in Border(c, g) && b in Border(c, g) && a != b ==> Share(c, a, b, true))
    else match c.kind[g]
      case InGate | MulInGate => true
      case NotGate => ReadOnceAt(c, c.wires[g][0])
      case AndGate | OrGate =>
        && (forall k :: 0 <= k < |c.wires[g]| ==> ReadOnceAt(c, c.wires[g][k]))
        && (forall i, j :: 0 <= i < j < |c.wires[g]| ==> Share(c, c.wires[g][i], c.wires[g][j], c.kind[g] == OrGate))
      case _ => false
  }

  // ----- Gates visited one after the other -----

  ghost predicate Gates(c: Circuit, gs: seq<nat>) {
    WellFormed(c) && Sized(c) && forall i :: 0 <= i < |gs| ==> gs[i] < |c.kind|
  }

  ghost function VarsOfAll(c: Circuit, gs: seq<nat>): set<nat>
    requires Gates(c, gs)
  {
    set i, v | 0 <= i < |gs| && v in VarsAt(c, gs[i]) :: v
  }

  /** gs can be visited one after the other, starting with seen0 used up. */
  ghost predicate Clear(c: Circuit, gs: seq<nat>, keyed: bool, seen0: set<nat>)
    requires Gates(c, gs)
  {
    && (forall i :: 0 <= i < |gs| ==> ReadOnceAt(c, gs[i]))
    && (forall i, j :: 0 <= i < j < |gs| ==> Share(c, gs[i], gs[j], keyed))
    && VarsOfAll(c, gs) !! seen0
  }

  ghost predicate Visited(c: Circuit, gs: seq<nat>, keyed: bool, seen0: set<nat>, seen: set<nat>)
    requires Gates(c, gs)
  {
    Clear(c, gs, keyed, seen0) && seen == seen0 + VarsOfAll(c, gs)
  }

  /** The evaluation of g, with seen0 used up, succeeds as it should and uses up seen. */
  ghost predicate Uses(c: Circuit, g: nat, ok: bool, seen0: set<nat>, seen: set<nat>)
    requires IsGate(c, g)
  {
    (ok <==> ReadOnceAt(c, g) && VarsAt(c, g) !! seen0) && (ok ==> seen == seen0 + VarsAt(c, g))
  }

  lemma MoreVars(c: Circuit, gs: seq<nat>, h: nat)
    requires Gates(c, gs) && IsGate(c, h)
    ensures Gates(c, gs + [h]) && VarsOfAll(c, gs + [h]) == VarsOfAll(c, gs) + VarsAt(c, h)
  {
    hide VarsAt;
    hide WellFormed;
    var hs := gs + [h];
    assert hs[|gs|] == h;
    assert forall i :: 0 <= i < |gs| ==> hs[i] == gs[i];
  }

  lemma NothingVisited(c: Circuit, keyed: bool, seen0: set<nat>)
    requires WellFormed(c) && Sized(c)
    ensures Visited(c, [], keyed, seen0, seen0)
  {
  }

  /** One more gate that is evaluated on its own. */
  lemma VisitOwn(c: Circuit, gs: seq<nat>, keyed: bool, seen0: set<nat>, seen: set<nat>, h: nat, ok: bool, seen': set<nat>)
    requires Gates(c, gs) && Visited(c, gs, keyed, seen0, seen) && IsGate(c, h) && Uses(c, h, ok, seen, seen')
    requires keyed ==> c.kind[h] != MulInGate
    ensures Gates(c, gs + [h])
    ensures ok ==> Visited(c, gs + [h], keyed, seen0, seen')
    ensures !ok ==> !Clear(c, gs + [h], keyed, seen0)
  {
    hide VarsAt;
    hide ReadOnceAt;
    hide WellFormed;
    MoreVars(c, gs, h);
    var hs := gs + [h];
    assert hs[|gs|] == h && forall i :: 0 <= i < |gs| ==> hs[i] == gs[i];
    VarsWithin(c, gs);
    hide VarsOfAll;
    if !ok && ReadOnceAt(c, h) {
      var v :| v in VarsAt(c, h) && v in seen;
      if v !in seen0 {
        assert v in VarsOfAll(c, gs);
        var i := UserOf(c, gs, v);
        assert !Share(c, hs[i], hs[|gs|], keyed);
      }
    }
  }

  lemma VarsWithin(c: Circuit, gs: seq<nat>)
    requires Gates(c, gs)
    ensures forall i :: 0 <= i < |gs| ==> VarsAt(c, gs[i]) <= VarsOfAll(c, gs)
  {
    hide VarsAt;
    hide WellFormed;
  }

  lemma UserOf(c: Circuit, gs: seq<nat>, v: nat) returns (i: nat)
    requires Gates(c, gs) && v in VarsOfAll(c, gs)
    ensures i < |gs| && v in VarsAt(c, gs[i])
  {
    hide VarsAt;
    hide WellFormed;
    i :| 0 <= i < |gs| && v in VarsAt(c, gs[i]);
  }

  /** q is the key of an alternative among gs. */
  ghost predicate KeyAmong(c: Circuit, gs: seq<nat>, q: nat)
    requires Gates(c, gs)
  {
    exists i :: 0 <= i < |gs| && IsAlternativeOf(c, gs[i], q)
  }

  ghost predicate IsAlternativeOf(c: Circuit, h: nat, q: nat)
    requires IsGate(c, h)
  {
    c.kind[h] == MulInGate && c.wires[h][0] == q
  }

  /** An alternative uses its key. */
  lemma AlternativeUses(c: Circuit, h: nat)
    requires IsGate(c, h) && c.kind[h] == MulInGate
    ensures |c.wires[h]| > 0 && VarsAt(c, h) == {c.wires[h][0]} && ReadOnceAt(c, h)
  {
  }

  /** One more alternative, next to others of its key. */
  lemma VisitKey(c: Circuit, gs: seq<nat>, seen0: set<nat>, seen: set<nat>, h: nat, q: nat)
    requires Gates(c, gs) && Visited(c, gs, true, seen0, seen)
    requires IsGate(c, h) && c.kind[h] == MulInGate && VarsAt(c, h) == {q} && ReadOnceAt(c, h)
    ensures Gates(c, gs + [h])
    ensures KeyAmong(c, gs, q) || q !in seen ==> Visited(c, gs + [h], true, seen0, seen + {q})
    ensures !KeyAmong(c, gs, q) && q in seen ==> !Clear(c, gs + [h], true, seen0)
  {
    hide VarsAt;
    hide ReadOnceAt;
    hide WellFormed;
    MoreVars(c, gs, h);
    var hs := gs + [h];
    assert hs[|gs|] == h && forall i :: 0 <= i < |gs| ==> hs[i] == gs[i];
    VarsWithin(c, gs);
    hide VarsOfAll;
    if KeyAmong(c, gs, q) || q !in seen {
      forall i: nat | i < |gs| ensures Share(c, gs[i], h, true) { KeyApart(c, gs, seen0, seen, h, q, i); }
      KeyUsed(c, gs, q);
      assert seen0 + VarsOfAll(c, gs) + {q} == seen0 + VarsOfAll(c, hs);
    } else if q !in seen0 {
      var i := UserOf(c, gs, q);
      if c.kind[gs[i]] == MulInGate { AlternativeUses(c, gs[i]); }
      assert !Share(c, hs[i], hs[|gs|], true);
    }
  }

  lemma KeyUsed(c: Circuit, gs: seq<nat>, q: nat)
    requires Gates(c, gs)
    ensures KeyAmong(c, gs, q) ==> q in VarsOfAll(c, gs)
  {
    VarsWithin(c, gs);
    if KeyAmong(c, gs, q) {
      var m :| 0 <= m < |gs| && IsAlternativeOf(c, gs[m], q);
      AlternativeUses(c, gs[m]);
    }
  }

  lemma KeyApart(c: Circuit, gs: seq<nat>, seen0: set<nat>, seen: set<nat>, h: nat, q: nat, i: nat)
    requires Gates(c, gs) && Visited(c, gs, true, seen0, seen) && IsGate(c, h) && c.kind[h] == MulInGate
    requires VarsAt(c, h) == {q} && (KeyAmong(c, gs, q) || q !in seen) && i < |gs|
    ensures Share(c, gs[i], h, true)
  {
    hide VarsAt;
    hide ReadOnceAt;
    hide WellFormed;
    VarsWithin(c, gs);
    hide VarsOfAll;
    if KeyAmong(c, gs, q) {
      var m :| 0 <= m < |gs| && IsAlternativeOf(c, gs[m], q);
      AlternativeUses(c, gs[m]);
      assert i < m ==> Share(c, gs[i], gs[m], true);
      assert m < i ==> Share(c, gs[m], gs[i], true);
    } else {
      assert VarsAt(c, gs[i]) <= VarsOfAll(c, gs);
    }
  }

  /** Fewer gates are as clear. */
  lemma ClearPrefix(c: Circuit, gs: seq<nat>, k: nat, keyed: bool, seen0: set<nat>)
    requires Gates(c, gs) && k <= |gs| && Clear(c, gs, keyed, seen0)
    ensures Gates(c, gs[..k]) && Clear(c, gs[..k], keyed, seen0)
  {
    hide VarsAt;
    hide ReadOnceAt;
    hide WellFormed;
    var hs := gs[..k];
    assert forall i :: 0 <= i < k ==> hs[i] == gs[i];
    VarsWithin(c, gs);
    forall v | v in VarsOfAll(c, hs) ensures v in VarsOfAll(c, gs) {
      var i := UserOf(c, hs, v);
      assert VarsAt(c, gs[i]) <= VarsOfAll(c, gs);
    }
    hide VarsOfAll;
  }

  // ----- Conjunctions, disjunctions, islands -----

  /** A conjunction or disjunction uses what its children use. */
  lemma ChildrenUse(c: Circuit, g: nat, seen0: set<nat>)
    requires IsGate(c, g) && c.kind[g] in {AndGate, OrGate} && !Certified(c, g)
    ensures Gates(c, c.wires[g]) && VarsAt(c, g) == VarsOfAll(c, c.wires[g])
    ensures ReadOnceAt(c, g) && VarsAt(c, g) !! seen0 <==> Clear(c, c.wires[g], c.kind[g] == OrGate, seen0)
  {
    assert VarsAt(c, g) == VarsOfAll(c, c.wires[g]);
  }

  ghost predicate NoRepeats(gs: seq<nat>) {
    forall i, j :: 0 <= i < j < |gs| ==> gs[i] != gs[j]
  }

  /** An island uses what the gates on its border use. */
  lemma BorderVars(c: Circuit, g: nat, gs: seq<nat>)
    requires IsGate(c, g) && Certified(c, g) && Gates(c, gs) && forall h :: h in gs <==> h in Border(c, g)
    ensures VarsAt(c, g) == VarsOfAll(c, gs)
  {
    hide WellFormed;
    forall v ensures v in VarsAt(c, g) <==> v in VarsOfAll(c, gs) {
      if v in VarsAt(c, g) {
        var b :| b in Border(c, g) && v in VarsAt(c, b);
        var i :| 0 <= i < |gs| && gs[i] == b;
      }
      if v in VarsOfAll(c, gs) {
        var i := UserOf(c, gs, v);
        assert gs[i] in gs;
      }
    }
  }

  lemma BorderUse(c: Circuit, g: nat, gs: seq<nat>, seen0: set<nat>, seen: set<nat>)
    requires IsGate(c, g) && Certified(c, g) && Gates(c, gs) && forall h :: h in gs <==> h in Border(c, g)
    requires Visited(c, gs, true, seen0, seen)
    ensures Uses(c, g, true, seen0, seen)
  {
    BorderVars(c, g, gs);
    forall b | b in Border(c, g) ensures ReadOnceAt(c, b) {
      var i :| 0 <= i < |gs| && gs[i] == b;
    }
    forall a, b | a in Border(c, g) && b in Border(c, g) && a != b ensures Share(c, a, b, true) {
      assert a in gs && b in gs;
      var i :| 0 <= i < |gs| && gs[i] == a;
      var j :| 0 <= j < |gs| && gs[j] == b;
      assert i < j ==> Share(c, gs[i], gs[j], true);
      assert j < i ==> Share(c, gs[j], gs[i], true);
    }
  }

  /** Where an island can be evaluated, so can any gates of its border. */
  lemma BorderClear(c: Circuit, g: nat, gs: seq<nat>, seen0: set<nat>)
    requires IsGate(c, g) && Certified(c, g) && Gates(c, gs) && ReadOnceAt(c, g) && VarsAt(c, g) !! seen0
    requires (forall h :: h in gs ==> h in Border(c, g)) && NoRepeats(gs)
    ensures Clear(c, gs, true, seen0)
  {
    forall i | 0 <= i < |gs| ensures gs[i] in Border(c, g) { assert gs[i] in gs; }
    forall v | v in VarsOfAll(c, gs) ensures v in VarsAt(c, g) {
      var i := UserOf(c, gs, v);
    }
  }

  // ----- Children one after the other -----

  /** The first k children of g have been visited. */
  ghost predicate Progress(c: Circuit, g: nat, k: nat, seen0: set<nat>, seen: set<nat>)
    requires IsGate(c, g) && k <= |c.wires[g]|
  {
    Gates(c, c.wires[g][..k]) && Visited(c, c.wires[g][..k], c.kind[g] == OrGate, seen0, seen)
  }

  lemma ProgressStart(c: Circuit, g: nat, seen0: set<nat>)
    requires IsGate(c, g)
    ensures Progress(c, g, 0, seen0, seen0)
  {
    assert c.wires[g][..0] == [];
    NothingVisited(c, c.kind[g] == OrGate, seen0);
  }

  lemma ProgressOwn(c: Circuit, g: nat, k: nat, seen0: set<nat>, seen: set<nat>, ok: bool, seen': set<nat>)
    requires IsGate(c, g) && c.kind[g] in {AndGate, OrGate} && !Certified(c, g) && k < |c.wires[g]| && c.wires[g][k] < |c.kind|
    requires Progress(c, g, k, seen0, seen) && Uses(c, c.wires[g][k], ok, seen, seen')
    requires c.kind[g] == OrGate ==> c.kind[c.wires[g][k]] != MulInGate
    ensures ok ==> Progress(c, g, k + 1, seen0, seen')
    ensures !ok ==> Uses(c, g, false, seen0, seen')
  {
    VisitOwn(c, c.wires[g][..k], c.kind[g] == OrGate, seen0, seen, c.wires[g][k], ok, seen');
    assert c.wires[g][..k] + [c.wires[g][k]] == c.wires[g][..k + 1];
    hide Visited;
    hide Clear;
    hide ReadOnceAt;
    hide VarsAt;
    hide WellFormed;
    if !ok { ProgressFails(c, g, k, seen0, seen'); }
  }

  lemma ProgressFails(c: Circuit, g: nat, k: nat, seen0: set<nat>, seen: set<nat>)
    requires IsGate(c, g) && c.kind[g] in {AndGate, OrGate} && !Certified(c, g) && k < |c.wires[g]|
    requires Gates(c, c.wires[g][..k + 1]) && !Clear(c, c.wires[g][..k + 1], c.kind[g] == OrGate, seen0)
    ensures Uses(c, g, false, seen0, seen)
  {
    hide Clear;
    ChildrenUse(c, g, seen0);
    if Clear(c, c.wires[g], c.kind[g] == OrGate, seen0) { ClearPrefix(c, c.wires[g], k + 1, c.kind[g] == OrGate, seen0); }
  }

  /** ks are the keys of the alternatives among the first k children. */
  ghost predicate KeysMet(c: Circuit, g: nat, k: nat, ks: set<nat>)
    requires IsGate(c, g) && k <= |c.wires[g]|
  {
    Gates(c, c.wires[g][..k]) && forall q :: q in ks <==> KeyAmong(c, c.wires[g][..k], q)
  }

  lemma NoKeysMet(c: Circuit, g: nat)
    requires IsGate(c, g)
    ensures KeysMet(c, g, 0, {})
  {
  }

  lemma KeysMetStep(c: Circuit, g: nat, k: nat, ks: set<nat>)
    requires IsGate(c, g) && k < |c.wires[g]| && c.wires[g][k] < |c.kind| && KeysMet(c, g, k, ks)
    ensures c.kind[c.wires[g][k]] == MulInGate ==> |c.wires[c.wires[g][k]]| > 0 && KeysMet(c, g, k + 1, ks + {c.wires[c.wires[g][k]][0]})
    ensures c.kind[c.wires[g][k]] != MulInGate ==> KeysMet(c, g, k + 1, ks)
  {
    KeyAdded(c, c.wires[g][..k], c.wires[g][k]);
    assert c.wires[g][..k] + [c.wires[g][k]] == c.wires[g][..k + 1];
  }

  lemma KeyAdded(c: Circuit, gs: seq<nat>, h: nat)
    requires Gates(c, gs) && IsGate(c, h)
    ensures Gates(c, gs + [h]) && forall q :: KeyAmong(c, gs + [h], q) <==> KeyAmong(c, gs, q) || IsAlternativeOf(c, h, q)
  {
    var hs := gs + [h];
    assert hs[|gs|] == h && forall i :: 0 <= i < |gs| ==> hs[i] == gs[i];
    hide WellFormed;
    forall q ensures KeyAmong(c, hs, q) <==> KeyAmong(c, gs, q) || IsAlternativeOf(c, h, q) {
      if KeyAmong(c, gs, q) {
        var i :| 0 <= i < |gs| && IsAlternativeOf(c, gs[i], q);
        assert IsAlternativeOf(c, hs[i], q);
      }
    }
  }

  lemma ProgressKey(c: Circuit, g: nat, k: nat, seen0: set<nat>, seen: set<nat>, ks: set<nat>, q: nat)
    requires IsGate(c, g) && c.kind[g] == OrGate && !Certified(c, g) && k < |c.wires[g]|
    requires IsGate(c, c.wires[g][k]) && IsAlternativeOf(c, c.wires[g][k], q)
    requires Progress(c, g, k, seen0, seen) && KeysMet(c, g, k, ks)
    ensures q in ks || q !in seen ==> Progress(c, g, k + 1, seen0, seen + {q})
    ensures !(q in ks || q !in seen) ==> forall seen' :: Uses(c, g, false, seen0, seen')
  {
    AlternativeUses(c, c.wires[g][k]);
    VisitKey(c, c.wires[g][..k], seen0, seen, c.wires[g][k], q);
    assert c.wires[g][..k] + [c.wires[g][k]] == c.wires[g][..k + 1];
    hide Visited;
    hide Clear;
    hide ReadOnceAt;
    hide VarsAt;
    hide WellFormed;
    if !(q in ks || q !in seen) { ProgressFails(c, g, k, seen0, seen); }
  }

  lemma ProgressEnd(c: Circuit, g: nat, seen0: set<nat>, seen: set<nat>)
    requires IsGate(c, g) && c.kind[g] in {AndGate, OrGate} && !Certified(c, g) && Progress(c, g, |c.wires[g]|, seen0, seen)
    ensures Uses(c, g, true, seen0, seen)
  {
    assert c.wires[g][..|c.wires[g]|] == c.wires[g];
    ChildrenUse(c, g, seen0);
  }

  // ----- Gates that are no conjunction, disjunction or island -----

  lemma OtherUse(c: Circuit, g: nat, seen0: set<nat>, seen: set<nat>)
    requires IsGate(c, g)
    ensures c.kind[g] in {MulVarGate, UndeterminedGate} ==> Uses(c, g, false, seen0, seen)
    ensures c.kind[g] == NotGate && Uses(c, c.wires[g][0], true, seen0, seen) ==> Uses(c, g, true, seen0, seen)
    ensures c.kind[g] == NotGate && Uses(c, c.wires[g][0], false, seen0, seen) ==> Uses(c, g, false, seen0, seen)
    ensures c.kind[g] == InGate ==> ReadOnceAt(c, g) && VarsAt(c, g) == if c.prob[g] == 0.0 || c.prob[g] == 1.0 then {} else {g}
  {
  }

  /** An alternative outside of disjunctions and islands needs its key unused. */
  lemma AlternativeUse(c: Circuit, g: nat, seen: set<nat>)
    requires IsGate(c, g) && c.kind[g] == MulInGate
    ensures c.wires[g][0] !in seen ==> Uses(c, g, true, seen, seen + {c.wires[g][0]})
    ensures c.wires[g][0] in seen ==> forall seen' :: Uses(c, g, false, seen, seen')
  {
    AlternativeUses(c, g);
  }

  /** Remembered gates use no variable. */
  ghost predicate Free(c: Circuit, gs: set<nat>) {
    forall g :: g in gs ==> IsGate(c, g) && ReadOnceAt(c, g) && VarsAt(c, g) == {}
  }

  lemma FreeUses(c: Circuit, gs: set<nat>, g: nat, seen: set<nat>)
    requires Free(c, gs) && g in gs
    ensures IsGate(c, g) && Uses(c, g, true, seen, seen)
  {
  }

  lemma FreePut(c: Circuit, gs: set<nat>, g: nat, seen0: set<nat>, seen: set<nat>)
    requires Free(c, gs) && IsGate(c, g) && Uses(c, g, true, seen0, seen) && seen0 <= seen && |seen| == |seen0|
    ensures seen == seen0 && Free(c, gs + {g})
  {
    SubsetSize(seen0, seen);
    assert VarsAt(c, g) <= seen0;
    assert VarsAt(c, g) == {};
  }

  // ----- Islands -----

  /** The gates of the border of root that a walk has valued, in order, where done are all
      the gates it has valued and keys the keys it has registered.  */
  ghost predicate Crossed(c: Circuit, root: nat, border: seq<nat>, done: set<nat>, keys: set<nat>, seen0: set<nat>, seen: set<nat>)
    requires IsGate(c, root)
  {
    && Gates(c, border) && NoRepeats(border) && Visited(c, border, true, seen0, seen)
    && (forall h :: h in border ==> h in Border(c, root) && h in done)
    && (forall g :: g in done ==> IsGate(c, g) && forall h :: h in Border(c, g) ==> h in border)
    && (forall q :: q in keys <==> KeyAmong(c, border, q))
  }

  lemma CrossedStart(c: Circuit, root: nat, seen0: set<nat>)
    requires IsGate(c, root)
    ensures Crossed(c, root, [], {}, {}, seen0, seen0)
  {
    NothingVisited(c, true, seen0);
  }

  lemma InnerBorder(c: Circuit, g: nat)
    requires IsGate(c, g) && Inner(c, g)
    ensures forall h :: h in c.wires[g] ==> IsGate(c, h) && Border(c, h) <= Border(c, g)
    ensures forall b :: b in Border(c, g) ==> exists h :: h in c.wires[g] && IsGate(c, h) && b in Border(c, h)
  {
    WiresAreGates(c, g);
    forall h | h in c.wires[g] ensures IsGate(c, h) && Border(c, h) <= Border(c, g) {
      var k :| 0 <= k < |c.wires[g]| && c.wires[g][k] == h;
    }
    forall b | b in Border(c, g) ensures exists h :: h in c.wires[g] && IsGate(c, h) && b in Border(c, h) {
      var k :| 0 <= k < |c.wires[g]| && b in Border(c, c.wires[g][k]);
      assert c.wires[g][k] in c.wires[g];
    }
  }

  lemma CrossedInner(c: Circuit, root: nat, border: seq<nat>, done: set<nat>, keys: set<nat>, seen0: set<nat>, seen: set<nat>, g: nat)
    requires IsGate(c, root) && Crossed(c, root, border, done, keys, seen0, seen)
    requires IsGate(c, g) && Inner(c, g) && forall h :: h in c.wires[g] ==> h in done
    ensures Crossed(c, root, border, done + {g}, keys, seen0, seen)
  {
    InnerBorder(c, g);
    hide Border;
    hide WellFormed;
    hide Visited;
    hide KeyAmong;
  }

  lemma CrossedMore(c: Circuit, root: nat, border: seq<nat>, done: set<nat>, keys: set<nat>, seen0: set<nat>, seen: set<nat>,
                    g: nat, keys': set<nat>, seen': set<nat>)
    requires IsGate(c, root) && Crossed(c, root, border, done, keys, seen0, seen)
    requires IsGate(c, g) && !Inner(c, g) && g in Border(c, root) && g !in done
    requires Gates(c, border + [g]) && Visited(c, border + [g], true, seen0, seen')
    requires forall q :: q in keys' <==> q in keys || IsAlternativeOf(c, g, q)
    ensures Crossed(c, root, border + [g], done + {g}, keys', seen0, seen')
  {
    KeyAdded(c, border, g);
    assert Border(c, g) == {g};
    hide Border;
    hide WellFormed;
    hide Visited;
    hide KeyAmong;
    hide IsAlternativeOf;
    assert g !in border;
    assert forall h :: h in border + [g] <==> h in border || h == g;
  }

  lemma CrossedFails(c: Circuit, root: nat, border: seq<nat>, done: set<nat>, keys: set<nat>, seen0: set<nat>, seen: set<nat>,
                     g: nat, seen': set<nat>)
    requires IsGate(c, root) && Certified(c, root) && Crossed(c, root, border, done, keys, seen0, seen)
    requires IsGate(c, g) && g in Border(c, root) && g !in done
    requires Gates(c, border + [g]) && !Clear(c, border + [g], true, seen0)
    ensures Uses(c, root, false, seen0, seen')
  {
    hide Border;
    hide WellFormed;
    hide Visited;
    hide Clear;
    hide KeyAmong;
    hide ReadOnceAt;
    hide VarsAt;
    assert g !in border;
    assert forall h :: h in border + [g] <==> h in border || h == g;
    assert NoRepeats(border + [g]);
    if ReadOnceAt(c, root) && VarsAt(c, root) !! seen0 { BorderClear(c, root, border + [g], seen0); }
  }

  /** A gate of the border that is evaluated on its own. */
  lemma CrossedOwn(c: Circuit, root: nat, border: seq<nat>, done: set<nat>, keys: set<nat>, seen0: set<nat>, seen: set<nat>,
                   g: nat, ok: bool, seen': set<nat>)
    requires IsGate(c, root) && Certified(c, root) && Crossed(c, root, border, done, keys, seen0, seen)
    requires IsGate(c, g) && !Inner(c, g) && g in Border(c, root) && g !in done
    requires c.kind[g] != MulInGate && Uses(c, g, ok, seen, seen')
    ensures ok ==> Crossed(c, root, border + [g], done + {g}, keys, seen0, seen')
    ensures !ok ==> Uses(c, root, false, seen0, seen')
  {
    VisitOwn(c, border, true, seen0, seen, g, ok, seen');
    hide Visited;
    hide Clear;
    hide Crossed;
    hide Border;
    hide WellFormed;
    if ok {
      CrossedMore(c, root, border, done, keys, seen0, seen, g, keys, seen');
    } else {
      CrossedFails(c, root, border, done, keys, seen0, seen, g, seen');
    }
  }

  /** An alternative on the border. */
  lemma CrossedKey(c: Circuit, root: nat, border: seq<nat>, done: set<nat>, keys: set<nat>, seen0: set<nat>, seen: set<nat>, g: nat, q: nat)
    requires IsGate(c, root) && Certified(c, root) && Crossed(c, root, border, done, keys, seen0, seen)
    requires IsGate(c, g) && !Inner(c, g) && g in Border(c, root) && g !in done && IsAlternativeOf(c, g, q)
    ensures q in keys || q !in seen ==> Crossed(c, root, border + [g], done + {g}, keys + {q}, seen0, seen + {q})
    ensures !(q in keys || q !in seen) ==> forall seen' :: Uses(c, root, false, seen0, seen')
  {
    AlternativeUses(c, g);
    VisitKey(c, border, seen0, seen, g, q);
    hide Visited;
    hide Clear;
    hide Border;
    hide WellFormed;
    if q in keys || q !in seen {
      CrossedMore(c, root, border, done, keys, seen0, seen, g, keys + {q}, seen + {q});
    } else {
      CrossedFails(c, root, border, done, keys, seen0, seen, g, seen);
    }
  }

  /** With the root valued, the whole border has been crossed. */
  lemma CrossedEnd(c: Circuit, root: nat, border: seq<nat>, done: set<nat>, keys: set<nat>, seen0: set<nat>, seen: set<nat>)
    requires IsGate(c, root) && Certified(c, root) && Crossed(c, root, border, done, keys, seen0, seen) && root in done
    ensures Uses(c, root, true, seen0, seen)
  {
    hide Border;
    hide WellFormed;
    hide Visited;
    hide KeyAmong;
    BorderUse(c, root, border, seen0, seen);
  }
}
