/** Folding identities of a shared circuit in place, to a fixpoint, without changing the
    value of any gate or of any name.  */
module SemiringFold {
  import opened SemiringAlgebra
  import opened PostOrder
  import opened ProvenanceNet
  import opened FoldMeasure
  import opened FoldRules
  import opened FoldSteps
  import opened FoldGuarantee
  import FoldMarks

  lemma SubstKept<V(!new)>(a: Net, b: Net, rank: seq<nat>, r: Reading<V>, subst: map<nat, nat>)
    requires SameMeaning(a, b, rank, r) && SubstOk(a, rank, r, subst)
    ensures SubstOk(b, rank, r, subst)
  {
  }

  lemma SubstAt<V(!new)>(net: Net, rank: seq<nat>, r: Reading<V>, subst: map<nat, nat>, g: nat)
    requires Ranked(net, rank) && SubstOk(net, rank, r, subst) && g in subst
    ensures g < |net.kind| && subst[g] < |net.kind| && rank[subst[g]] < rank[g]
    ensures Value(net, rank, r, subst[g]) == Value(net, rank, r, g)
  {
  }

  lemma SubstPut<V(!new)>(net: Net, rank: seq<nat>, r: Reading<V>, subst: map<nat, nat>, g: nat, t: nat)
    requires Ranked(net, rank) && SubstOk(net, rank, r, subst) && g < |net.kind| && t < |net.kind|
    requires rank[t] < rank[g] && Value(net, rank, r, t) == Value(net, rank, r, g)
    ensures SubstOk(net, rank, r, subst[g := t])
  {
  }

  lemma SubstUnion<V(!new)>(net: Net, rank: seq<nat>, r: Reading<V>, a: map<nat, nat>, b: map<nat, nat>)
    requires Ranked(net, rank) && SubstOk(net, rank, r, a) && SubstOk(net, rank, r, b)
    ensures SubstOk(net, rank, r, a + b)
  {
  }

  /** Follows substitutions until none applies. */
  method Chase<V(!new)>(subst: map<nat, nat>, redirect: map<nat, nat>, t: nat, ghost net: Net, ghost rank: seq<nat>, ghost r: Reading<V>)
    returns (cur: nat)
    requires Ranked(net, rank) && SubstOk(net, rank, r, subst) && SubstOk(net, rank, r, redirect) && t < |net.kind|
    ensures cur < |net.kind| && cur !in subst && cur !in redirect && cur == End(rank, redirect + subst, t)
    ensures Value(net, rank, r, cur) == Value(net, rank, r, t) && rank[cur] <= rank[t]
  {
    cur := t;
    while cur in subst || cur in redirect
      invariant cur < |net.kind| && Value(net, rank, r, cur) == Value(net, rank, r, t) && rank[cur] <= rank[t]
      invariant End(rank, redirect + subst, cur) == End(rank, redirect + subst, t)
      decreases if cur < |rank| then rank[cur] else 0
    {
      cur := if cur in subst then subst[cur] else redirect[cur];
    }
  }

  /** Replaces every target by the end of its chain. */
  method Resolve<V(!new)>(subst0: map<nat, nat>, redirect: map<nat, nat>, ghost net: Net, ghost rank: seq<nat>, ghost r: Reading<V>)
    returns (subst: map<nat, nat>)
    requires Ranked(net, rank) && SubstOk(net, rank, r, subst0) && SubstOk(net, rank, r, redirect)
    ensures SubstOk(net, rank, r, subst) && subst.Keys == subst0.Keys
    ensures forall g :: g in subst ==> subst[g] !in subst && subst[g] !in redirect && subst[g] == End(rank, redirect + subst0, g)
  {
    hide SubstOk;
    hide Value;
    hide Ranked;
    subst := subst0;
    ghost var all := redirect + subst;
    var rest := subst.Keys;
    while rest != {}
      invariant rest <= subst.Keys == subst0.Keys && SubstOk(net, rank, r, subst)
      invariant forall g :: g in subst.Keys && g !in rest ==> subst[g] !in subst0 && subst[g] !in redirect && subst[g] == End(rank, all, g)
      invariant forall x :: End(rank, redirect + subst, x) == End(rank, all, x)
      decreases rest
    {
      var g :| g in rest;
      SubstAt(net, rank, r, subst, g);
      var cur := Chase(subst, redirect, subst[g], net, rank, r);
      SubstPut(net, rank, r, subst, g, cur);
      Shortened(net, rank, r, redirect, subst, g, cur);
      subst := subst[g := cur];
      rest := rest - {g};
    }
  }

  lemma Shortened<V(!new)>(net: Net, rank: seq<nat>, r: Reading<V>, redirect: map<nat, nat>, subst: map<nat, nat>, g: nat, cur: nat)
    requires Ranked(net, rank) && SubstOk(net, rank, r, subst) && SubstOk(net, rank, r, redirect) && g in subst
    requires cur == End(rank, redirect + subst, subst[g])
    ensures cur == End(rank, redirect + subst, g)
    ensures forall x :: End(rank, redirect + subst[g := cur], x) == End(rank, redirect + subst, x)
  {
    hide Value;
    hide Ranked;
    SubstUnion(net, rank, r, redirect, subst);
    SubstDescends(net, rank, r, redirect + subst);
    assert redirect + subst[g := cur] == (redirect + subst)[g := cur];
    forall x ensures End(rank, redirect + subst[g := cur], x) == End(rank, redirect + subst, x) {
      EndShortened(rank, redirect + subst, g, x);
    }
  }

  /** Keeps the wires whose gate is not of the given kind. */
  method Without(net: Net, ws: seq<nat>, kind: Kind) returns (kept: seq<nat>, ghost marks: seq<bool>)
    requires forall i :: 0 <= i < |ws| ==> ws[i] < |net.kind|
    ensures |marks| == |ws| && kept == Chosen(ws, marks, true)
    ensures forall i :: 0 <= i < |ws| ==> marks[i] == (net.kind[ws[i]] != kind)
  {
    kept, marks := [], [];
    for i := 0 to |ws|
      invariant |marks| == i && kept == Chosen(ws[..i], marks, true)
      invariant forall j :: 0 <= j < i ==> marks[j] == (net.kind[ws[j]] != kind)
    {
      assert ws[..i + 1][..i] == ws[..i];
      ghost var keep := net.kind[ws[i]] != kind;
      assert (marks + [keep])[..i] == marks;
      if net.kind[ws[i]] != kind {
        kept := kept + [ws[i]];
      }
      marks := marks + [keep];
    }
    assert ws[..|ws|] == ws;
  }

  // ----- Fixpoints -----

  /** No sum or product has an identity wire or is empty. */
  ghost predicate NoIdentities(net: Net, k: nat) {
    forall g: nat :: g < k && g < |net.kind| && g < |net.wires| && Combines(net.kind[g]) ==> Plain(net, g)
  }

  ghost predicate Plain(net: Net, g: nat)
    requires g < |net.kind| && g < |net.wires|
  {
    net.wires[g] != [] && forall w :: w in net.wires[g] && w < |net.kind| ==> net.kind[w] != IdentityOf(net.kind[g])
  }

  ghost predicate Collapsible(net: Net, g: nat) {
    exists t :: CollapsesTo(net, g, t)
  }

  /** No rule applies: no identity wires, and no wire that leads to a collapsible gate. */
  ghost predicate Normal(net: Net) {
    && NoIdentities(net, |net.kind|)
    && forall g, w :: 0 <= g < |net.wires| && w in net.wires[g] ==> !Collapsible(net, w)
  }

  lemma {:induction false} NotTouched(net: Net, subst: map<nat, nat>, k: nat)
    requires k <= |net.wires|
    ensures !TouchedTo(net, subst, k) <==> forall g, w :: 0 <= g < k && w in net.wires[g] ==> w !in subst
  {
    if k > 0 {
      NotTouched(net, subst, k - 1);
      if !TouchedTo(net, subst, k) {
        forall w | w in net.wires[k - 1] ensures w !in subst {
          var i :| 0 <= i < |net.wires[k - 1]| && net.wires[k - 1][i] == w;
        }
      }
      if Touched(net, subst, k - 1) {
        var i :| 0 <= i < |net.wires[k - 1]| && net.wires[k - 1][i] in subst;
        assert net.wires[k - 1][i] in net.wires[k - 1];
      }
    }
  }

  /** The descendant a gate collapses to: a zero factor, or the only wire. */
  method CollapseTarget(net: Net, g: nat) returns (found: bool, t: nat)
    requires g < |net.kind| == |net.wires| && Combines(net.kind[g]) && forall i :: 0 <= i < |net.wires[g]| ==> net.wires[g][i] < |net.kind|
    ensures found ==> CollapsesTo(net, g, t)
    ensures !found ==> !Collapsible(net, g)
  {
    var ws := net.wires[g];
    if net.kind[g] == TimesGate {
      for i := 0 to |ws|
        invariant forall j :: 0 <= j < i ==> net.kind[ws[j]] != ZeroGate
      {
        if net.kind[ws[i]] == ZeroGate {
          return true, ws[i];
        }
      }
    }
    if |ws| == 1 {
      assert ws == [ws[0]];
      return true, ws[0];
    }
    return false, 0;
  }

  /** The collapses of this round: every gate not collapsed before that can be. */
  method CollectCollapses<V(!new)>(net: Net, redirect: map<nat, nat>, ghost rank: seq<nat>, ghost r: Reading<V>) returns (subst: map<nat, nat>)
    requires Ranked(net, rank) && IsSemiring(r.semiring)
    ensures SubstOk(net, rank, r, subst) && subst.Keys !! redirect.Keys
    ensures forall g: nat :: g < |net.kind| && g !in redirect && Collapsible(net, g) ==> g in subst
    ensures forall g :: g in subst ==> CollapsesTo(net, g, subst[g])
  {
    subst := map[];
    hide SubstOk;
    hide Value;
    hide IsSemiring;
    NoSubst(net, rank, r);
    for g := 0 to |net.kind|
      invariant SubstOk(net, rank, r, subst) && subst.Keys !! redirect.Keys
      invariant forall h: nat :: h < g && h !in redirect && Collapsible(net, h) ==> h in subst
      invariant forall h :: h in subst ==> CollapsesTo(net, h, subst[h])
    {
      if g !in redirect && Combines(net.kind[g]) {
        assert Below(rank, net.wires[g], rank[g]);
        var found, t := CollapseTarget(net, g);
        if found {
          CollapseValue(net, rank, r, g, t);
          SubstPut(net, rank, r, subst, g, t);
          subst := subst[g := t];
        }
      }
    }
  }

  lemma NoSubst<V(!new)>(net: Net, rank: seq<nat>, r: Reading<V>)
    requires Ranked(net, rank)
    ensures SubstOk(net, rank, r, map[])
  {
  }

  lemma SubstDescends<V(!new)>(net: Net, rank: seq<nat>, r: Reading<V>, subst: map<nat, nat>)
    requires Ranked(net, rank) && SubstOk(net, rank, r, subst)
    ensures Descends(rank, subst)
  {
  }

  lemma RewiredAvoids(net: Net, subst: map<nat, nat>, redirect: map<nat, nat>)
    requires Avoids(net, redirect) && forall g :: g in subst ==> subst[g] !in subst && subst[g] !in redirect
    ensures Avoids(RewiredNet(net, subst), redirect + subst)
  {
    var net' := RewiredNet(net, subst);
    forall g, w | 0 <= g < |net'.wires| && w in net'.wires[g] ensures w !in redirect + subst {
      var i :| 0 <= i < |net'.wires[g]| && net'.wires[g][i] == w;
      assert net.wires[g][i] in net.wires[g];
    }
  }

  lemma RewiredUntouched(net: Net, subst: map<nat, nat>)
    requires |net.kind| == |net.wires| && !TouchedTo(net, subst, |net.wires|)
    ensures RewiredNet(net, subst) == net
  {
    NotTouched(net, subst, |net.wires|);
    var net' := RewiredNet(net, subst);
    forall g | 0 <= g < |net.wires| ensures net'.wires[g] == net.wires[g] {
      forall i | 0 <= i < |net.wires[g]| ensures net.wires[g][i] !in subst { assert net.wires[g][i] in net.wires[g]; }
    }
    assert net'.wires == net.wires;
  }

  lemma NormalEnd(net: Net, redirect: map<nat, nat>, subst: map<nat, nat>)
    requires NoIdentities(net, |net.kind|) && Avoids(net, redirect) && |net.kind| == |net.wires|
    requires !TouchedTo(net, subst, |net.wires|)
    requires forall g: nat :: g < |net.kind| && g !in redirect && Collapsible(net, g) ==> g in subst
    ensures Normal(net)
  {
    NotTouched(net, subst, |net.wires|);
  }

  lemma NamesKept<V(!new)>(a: Net, b: Net, rank: seq<nat>, r: Reading<V>, uuid2id: map<Uuid, nat>, id2uuid: map<nat, Uuid>)
    requires SameMeaning(a, b, rank, r) && |a.kind| == |b.kind| && NamesOk(a, rank, r, uuid2id, id2uuid)
    ensures NamesOk(b, rank, r, uuid2id, id2uuid)
  {
    forall g | g in id2uuid ensures NameOk(b, rank, r, uuid2id, id2uuid, g) {
      assert NameOk(a, rank, r, uuid2id, id2uuid, g);
    }
  }

  /** The value read through a name. */
  ghost predicate SameByName<V(!new)>(net: Net, rank: seq<nat>, r: Reading<V>, before: map<Uuid, nat>, after: map<Uuid, nat>)
    requires Ranked(net, rank)
  {
    && before.Keys == after.Keys
    && forall u :: u in before ==> before[u] < |net.kind| && after[u] < |net.kind|
                                   && Value(net, rank, r, after[u]) == Value(net, rank, r, before[u])
  }

  /** Pointing g's name at a gate of the same value. */
  lemma RenameOk<V(!new)>(net: Net, rank: seq<nat>, r: Reading<V>, uuid2id: map<Uuid, nat>, id2uuid: map<nat, Uuid>, g: nat, t: nat)
    requires Ranked(net, rank) && NamesOk(net, rank, r, uuid2id, id2uuid) && g in id2uuid
    requires g < |net.kind| && t < |net.kind| && Value(net, rank, r, t) == Value(net, rank, r, g)
    ensures NamesOk(net, rank, r, uuid2id[id2uuid[g] := t], id2uuid)
  {
    hide Ranked;
    hide Value;
    assert NameOk(net, rank, r, uuid2id, id2uuid, g);
    forall h | h in id2uuid ensures NameOk(net, rank, r, uuid2id[id2uuid[g] := t], id2uuid, h) {
      assert NameOk(net, rank, r, uuid2id, id2uuid, h);
    }
  }

  lemma RenameSame<V(!new)>(net: Net, rank: seq<nat>, r: Reading<V>, first: map<Uuid, nat>, uuid2id: map<Uuid, nat>, u: Uuid, t: nat)
    requires Ranked(net, rank) && SameByName(net, rank, r, first, uuid2id) && u in uuid2id && uuid2id[u] < |net.kind|
    requires t < |net.kind| && Value(net, rank, r, t) == Value(net, rank, r, uuid2id[u])
    ensures SameByName(net, rank, r, first, uuid2id[u := t])
  {
    hide Ranked;
    hide Value;
  }

  lemma PatchName<V(!new)>(net: Net, rank: seq<nat>, r: Reading<V>, first: map<Uuid, nat>, uuid2id: map<Uuid, nat>, id2uuid: map<nat, Uuid>,
                           redirect: map<nat, nat>, g: nat)
    requires Ranked(net, rank) && NamesOk(net, rank, r, uuid2id, id2uuid) && SameByName(net, rank, r, first, uuid2id)
    requires SubstOk(net, rank, r, redirect) && g in redirect && g in id2uuid
    ensures NamesOk(net, rank, r, uuid2id[id2uuid[g] := redirect[g]], id2uuid)
    ensures SameByName(net, rank, r, first, uuid2id[id2uuid[g] := redirect[g]])
  {
    hide Ranked;
    hide Value;
    hide SubstOk;
    hide SameByName;
    assert NameOk(net, rank, r, uuid2id, id2uuid, g);
    SubstAt(net, rank, r, redirect, g);
    RenameOk(net, rank, r, uuid2id, id2uuid, g, redirect[g]);
    RenameSame(net, rank, r, first, uuid2id, id2uuid[g], redirect[g]);
  }

  lemma NameThere<V(!new)>(net: Net, rank: seq<nat>, r: Reading<V>, uuid2id: map<Uuid, nat>, id2uuid: map<nat, Uuid>, g: nat)
    requires Ranked(net, rank) && NamesOk(net, rank, r, uuid2id, id2uuid) && g in id2uuid
    ensures id2uuid[g] in uuid2id
  {
    assert NameOk(net, rank, r, uuid2id, id2uuid, g);
  }

  // ----- The wires that the absorptive and Boolean rules keep -----

  lemma ChosenNext<T>(ws: seq<T>, i: nat, marks: seq<bool>, keep: bool)
    requires i < |ws| && |marks| == i
    ensures Chosen(ws[..i + 1], marks + [keep], true) == Chosen(ws[..i], marks, true) + (if keep then [ws[i]] else [])
  {
    assert ws[..i + 1][..i] == ws[..i] && (marks + [keep])[..i] == marks;
  }

  /** The first occurrence of every wire. */
  method Deduplicate(ws: seq<nat>) returns (kept: seq<nat>, ghost marks: seq<bool>)
    ensures OnlyRepeats(ws, marks) && kept == Chosen(ws, marks, true)
    ensures forall i, j :: 0 <= i < j < |kept| ==> kept[i] != kept[j]
  {
    kept, marks := [], [];
    var seen: set<nat> := {};
    for i := 0 to |ws|
      invariant |marks| == i && kept == Chosen(ws[..i], marks, true)
      invariant forall w :: w in seen <==> w in kept
      invariant forall j :: 0 <= j < i && !marks[j] ==> ws[j] in kept
      invariant forall a, b :: 0 <= a < b < |kept| ==> kept[a] != kept[b]
    {
      var keep := ws[i] !in seen;
      ChosenNext(ws, i, marks, keep);
      if keep {
        seen := seen + {ws[i]};
        kept := kept + [ws[i]];
      }
      marks := marks + [keep];
    }
    assert ws[..|ws|] == ws;
  }

  method Intersects(ws: seq<nat>, siblings: set<nat>) returns (b: bool)
    ensures b <==> exists w :: w in ws && w in siblings
  {
    for i := 0 to |ws|
      invariant forall j :: 0 <= j < i ==> ws[j] !in siblings
    {
      if ws[i] in siblings {
        assert ws[i] in ws;
        return true;
      }
    }
    b := false;
  }

  /** The wires of g that no sibling dominates. */
  method Undominated(net: Net, g: nat) returns (kept: seq<nat>, ghost marks: seq<bool>)
    requires g < |net.kind| == |net.wires| && forall i :: 0 <= i < |net.wires[g]| ==> net.wires[g][i] < |net.kind|
    ensures OnlyDominated(net, g, marks) && kept == Chosen(net.wires[g], marks, true)
    ensures forall i :: 0 <= i < |marks| && marks[i] ==> !Dominated(net, g, net.wires[g][i])
  {
    var ws := net.wires[g];
    var siblings := set w | w in ws;
    kept, marks := [], [];
    for i := 0 to |ws|
      invariant |marks| == i && kept == Chosen(ws[..i], marks, true)
      invariant forall j :: 0 <= j < i ==> marks[j] == !Dominated(net, g, ws[j])
    {
      var absorb := false;
      if net.kind[ws[i]] == Opposite(net.kind[g]) {
        absorb := Intersects(net.wires[ws[i]], siblings);
      }
      assert absorb == Dominated(net, g, ws[i]);
      ChosenNext(ws, i, marks, !absorb);
      if !absorb {
        kept := kept + [ws[i]];
      }
      marks := marks + [!absorb];
    }
    assert ws[..|ws|] == ws;
  }

  method HasOne(net: Net, ws: seq<nat>) returns (found: bool, ghost at: nat)
    requires forall i :: 0 <= i < |ws| ==> ws[i] < |net.kind|
    ensures found ==> at < |ws| && net.kind[ws[at]] == OneGate
    ensures !found ==> forall i :: 0 <= i < |ws| ==> net.kind[ws[i]] != OneGate
  {
    for i := 0 to |ws|
      invariant forall j :: 0 <= j < i ==> net.kind[ws[j]] != OneGate
    {
      if net.kind[ws[i]] == OneGate {
        return true, i;
      }
    }
    found, at := false, 0;
  }

  /** No fold rule of the level applies at g. */
  ghost predicate Ruleless(level: Level, net: Net, g: nat)
    requires g < |net.kind| && g < |net.wires|
  {
    && (Applies(level, net.kind[g]) ==> NoRepeats(net.wires[g]) && NoneDominated(net, g))
    && (net.kind[g] == PlusGate ==> !HasOneWire(net, g))
  }

  ghost predicate NoRepeats(ws: seq<nat>) {
    forall i, j :: 0 <= i < j < |ws| ==> ws[i] != ws[j]
  }

  ghost predicate NoneDominated(net: Net, g: nat)
    requires g < |net.wires|
  {
    |net.wires[g]| >= 2 ==> forall w :: w in net.wires[g] ==> !Dominated(net, g, w)
  }

  /** No fold rule of the level applies anywhere below k. */
  ghost predicate RulelessTo(level: Level, net: Net, k: nat) {
    forall g: nat :: g < k && g < |net.kind| && g < |net.wires| ==> Ruleless(level, net, g)
  }

  lemma DropsRule(net: Net, g: nat, marks: seq<bool>, kept: seq<nat>)
    requires g < |net.kind| == |net.wires| && Combines(net.kind[g]) && |marks| == |net.wires[g]| && kept == Chosen(net.wires[g], marks, true)
    requires OnlyRepeats(net.wires[g], marks) || (|net.wires[g]| >= 2 && OnlyDominated(net, g, marks))
    ensures |kept| != |net.wires[g]| ==> RuleAt(net, WithGate(net, g, net.kind[g], kept), g)
  {
    var b := WithGate(net, g, net.kind[g], kept);
    assert DropsAt(net, b, g, marks);
    assert b.wires[g] == kept;
  }

  lemma UnitsDropped(a: Net, b: Net, rank: seq<nat>, g: nat, marks: seq<bool>)
    requires UnitsAt(a, b, g, marks)
    ensures b.kind == a.kind && |b.wires| == |a.wires| && b.wires[g] == Chosen(a.wires[g], marks, true)
    ensures if |b.wires[g]| != |a.wires[g]| then Cost(b, rank) < Cost(a, rank) else b == a
    ensures forall w :: w in b.wires[g] && w < |a.kind| ==> a.kind[w] != IdentityOf(a.kind[g])
    ensures forall h, w :: 0 <= h < |b.wires| && w in b.wires[h] ==> w in a.wires[h]
  {
    var kept: seq<nat> := Chosen(a.wires[g], marks, true);
    ChosenCost(rank, a.wires[g], marks);
    GateShrinks(a, rank, g, a.kind[g], kept);
    hide Cost;
    assert b == WithGate(a, g, a.kind[g], kept);
    assert b.wires[g] == kept && b.kind == a.kind;
    if |kept| == |a.wires[g]| { assert b.wires == a.wires; }
    forall w: nat | w in kept && w < |a.kind| ensures a.kind[w] != IdentityOf(a.kind[g]) {
      InChosen(a.wires[g], marks, true, w);
    }
  }

  /** Up to three rules at g. */
  ghost predicate RulesAt(a: Net, b: Net, g: nat) {
    exists m, n :: MaybeRule(a, m, g) && MaybeRule(m, n, g) && MaybeRule(n, b, g)
  }

  ghost predicate MaybeRule(a: Net, b: Net, g: nat) {
    a == b || RuleAt(a, b, g)
  }

  lemma RuleRanked(a: Net, b: Net, rank: seq<nat>, g: nat)
    requires Ranked(a, rank) && RuleAt(a, b, g)
    ensures Ranked(b, rank) && g < |a.kind| && (b.kind[g] == a.kind[g] || (a.kind[g] == PlusGate && b.kind[g] == OneGate)) && Combines(a.kind[g])
  {
    if marks :| DropsAt(a, b, g, marks) {
      forall h: nat | h < |b.kind| ensures Below(rank, b.wires[h], rank[h]) {
        assert Below(rank, a.wires[h], rank[h]);
        if h == g {
          forall i | 0 <= i < |b.wires[g]| ensures b.wires[g][i] < |rank| && rank[b.wires[g][i]] < rank[g] {
            InChosen(a.wires[g], marks, true, b.wires[g][i]);
          }
        }
      }
    } else {
      forall h: nat | h < |b.kind| ensures Below(rank, b.wires[h], rank[h]) {
        assert Below(rank, a.wires[h], rank[h]);
      }
    }
  }

  /** One rule more, after some of the same gate or none. */
  lemma RuleMore(rank: seq<nat>, id2uuid: map<nat, Uuid>, a: FoldState, m: Net, n: Net, g: nat)
    requires Ranked(m, rank) && g < |a.net.kind| && RuleAt(m, n, g) && a.redirect == map[] && Good(rank, a)
    requires m.kind[g] == a.net.kind[g] && (m == a.net || Reaches(rank, id2uuid, a, Marked(a, g).(net := m)))
    ensures Ranked(n, rank) && Reaches(rank, id2uuid, a, Marked(a, g).(net := n))
  {
    RuleRanked(m, n, rank, g);
    hide RuleAt;
    hide Reaches;
    var s, t := if m == a.net then a else Marked(a, g).(net := m), Marked(a, g).(net := n);
    assert t == Marked(s, g).(net := n);
    RuleReaches(rank, id2uuid, s, t, g);
    if m != a.net { ReachesTrans(rank, id2uuid, a, s, t); }
  }

  /** The rules at a gate, with its mark. */
  lemma RulesReach(rank: seq<nat>, id2uuid: map<nat, Uuid>, a: FoldState, b: Net, g: nat)
    requires Good(rank, a) && a.redirect == map[] && g < |a.net.kind| && RulesAt(a.net, b, g)
    ensures Reaches(rank, id2uuid, a, if b == a.net then a else Marked(a, g).(net := b))
  {
    hide RuleAt;
    hide Reaches;
    ReachesSelf(rank, id2uuid, a);
    var m, n :| MaybeRule(a.net, m, g) && MaybeRule(m, n, g) && MaybeRule(n, b, g);
    if RuleAt(a.net, m, g) {
      RuleRanked(a.net, m, rank, g);
      RuleMore(rank, id2uuid, a, a.net, m, g);
    }
    if RuleAt(m, n, g) {
      RuleRanked(m, n, rank, g);
      RuleMore(rank, id2uuid, a, m, n, g);
    }
    if RuleAt(n, b, g) {
      RuleRanked(n, b, rank, g);
      RuleMore(rank, id2uuid, a, n, b, g);
    }
  }

  /** What the marks promise, for every reading. */
  lemma AllProtected<V(!new)>(rank: seq<nat>, id2uuid: map<nat, Uuid>, a: FoldState, b: FoldState)
    requires Reaches(rank, id2uuid, a, b) && a.redirect == b.redirect == map[] && Ranked(a.net, rank)
    ensures forall s: Reading<V> :: IsAbsorptive(s.semiring) ==> Protected(a.net, b.net, rank, s, b.boolean)
    ensures forall s: Reading<V> :: IsSemiring(s.semiring) && FoldMarks.OnesAreOne(a.net, rank, s) ==>
              Protected(a.net, b.net, rank, s, b.boolean + b.absorptive)
    ensures forall s: Reading<V> :: IsAbsorptive(s.semiring) && NamesOk(a.net, rank, s, a.names, id2uuid) ==>
              NamesProtected(a.net, b.net, rank, s, a.names, b.names, b.boolean)
    ensures forall s: Reading<V> ::
              IsSemiring(s.semiring) && FoldMarks.OnesAreOne(a.net, rank, s) && NamesOk(a.net, rank, s, a.names, id2uuid) ==>
                NamesProtected(a.net, b.net, rank, s, a.names, b.names, b.boolean + b.absorptive)
  {
    hide *;
    forall s: Reading<V>
      ensures IsAbsorptive(s.semiring) ==> Protected(a.net, b.net, rank, s, b.boolean)
      ensures IsSemiring(s.semiring) && FoldMarks.OnesAreOne(a.net, rank, s) ==> Protected(a.net, b.net, rank, s, b.boolean + b.absorptive)
      ensures NamesOk(a.net, rank, s, a.names, id2uuid) ==>
                && (IsAbsorptive(s.semiring) ==> NamesProtected(a.net, b.net, rank, s, a.names, b.names, b.boolean))
                && (IsSemiring(s.semiring) && FoldMarks.OnesAreOne(a.net, rank, s) ==>
                      NamesProtected(a.net, b.net, rank, s, a.names, b.names, b.boolean + b.absorptive))
    {
      MarksProtect(rank, id2uuid, a, b, s);
      if NamesOk(a.net, rank, s, a.names, id2uuid) { MarksProtectNames(rank, id2uuid, a, b, s); }
    }
  }

  lemma PatchReaches(rank: seq<nat>, id2uuid: map<nat, Uuid>, s0: FoldState, a: FoldState, b: FoldState)
    requires Reaches(rank, id2uuid, s0, a) && Patches(rank, id2uuid, a, b)
    ensures Reaches(rank, id2uuid, s0, b)
  {
    ReachesGood(rank, id2uuid, s0, a);
    assert Good(rank, b);
    hide Patches;
    ReachesOne(rank, id2uuid, a, b);
    ReachesTrans(rank, id2uuid, s0, a, b);
  }

  class FoldCircuit<V(!new)> {
    var net: Net
    var uuid2id: map<Uuid, nat>
    var id2uuid: map<nat, Uuid>
    var booleanAssumed: set<nat>
    var absorptiveAssumed: set<nat>
    ghost const rank: seq<nat>
    ghost const r: Reading<V>

    constructor (net: Net, uuid2id: map<Uuid, nat>, id2uuid: map<nat, Uuid>, ghost rank: seq<nat>, ghost r: Reading<V>)
      requires Ranked(net, rank) && IsSemiring(r.semiring)
      ensures Valid() && this.net == net && this.uuid2id == uuid2id && this.id2uuid == id2uuid && this.rank == rank && this.r == r
      ensures booleanAssumed == absorptiveAssumed == {}
    {
      this.net := net;
      this.uuid2id := uuid2id;
      this.id2uuid := id2uuid;
      this.booleanAssumed := {};
      this.absorptiveAssumed := {};
      this.rank := rank;
      this.r := r;
    }

    ghost predicate Valid()
      reads this
    {
      Ranked(net, rank) && IsSemiring(r.semiring)
    }

    /** The state, with the redirections so far. */
    ghost function At(redirect: map<nat, nat>): FoldState
      reads this
    {
      FoldState(net, uuid2id, booleanAssumed, absorptiveAssumed, redirect)
    }

    /** Valid, with every name leading to its gate's value. */
    ghost predicate Named()
      reads this
    {
      Valid() && NamesOk(net, rank, r, uuid2id, id2uuid)
    }

    /** Phase 1 at one gate: drop identity wires. */
    method DropUnitsAt(g: nat, ghost redirect: map<nat, nat>) returns (changed: bool)
      requires Valid() && g < |net.kind| && Combines(net.kind[g]) && Descends(rank, redirect) && Avoids(net, redirect)
      modifies this`net
      ensures Reaches(rank, id2uuid, old(At(redirect)), At(redirect))
      ensures Valid() && SameMeaning(old(net), net, rank, r) && net.kind == old(net).kind
      ensures if changed then Cost(net, rank) < Cost(old(net), rank) else net == old(net)
      ensures forall w :: w in net.wires[g] && w < |net.kind| ==> net.kind[w] != IdentityOf(net.kind[g])
      ensures forall h, w :: 0 <= h < |net.wires| && w in net.wires[h] ==> w in old(net).wires[h]
    {
      ghost var s := At(redirect);
      ReachesSelf(rank, id2uuid, s);
      hide Reaches;
      hide Value;
      hide Cost;
      hide IsSemiring;
      var t := net.kind[g];
      assert Below(rank, net.wires[g], rank[g]);
      var kept;
      ghost var marks;
      kept, marks := Without(net, net.wires[g], IdentityOf(t));
      DropIdentities(net, rank, r, g, marks);
      UnitsDropped(net, WithGate(net, g, t, kept), rank, g, marks);
      hide UnitsAt;
      changed := |kept| != |net.wires[g]|;
      if changed {
        net := WithGate(net, g, t, kept);
        TidyReaches(rank, id2uuid, s, At(redirect), g, marks);
      }
    }

    /** Phase 1 at one gate: drop identity wires, and collapse an empty gate to its constant. */
    method DropIdentitiesAt(g: nat, ghost redirect: map<nat, nat>) returns (changed: bool)
      requires Valid() && g < |net.kind| && Combines(net.kind[g]) && Descends(rank, redirect) && Avoids(net, redirect)
      modifies this`net
      ensures Reaches(rank, id2uuid, old(At(redirect)), At(redirect))
      ensures Valid() && SameMeaning(old(net), net, rank, r) && |net.kind| == |old(net).kind|
      ensures if changed then Cost(net, rank) < Cost(old(net), rank) else net == old(net) && Plain(net, g)
      ensures forall h, w :: 0 <= h < |net.wires| && w in net.wires[h] ==> w in old(net).wires[h]
    {
      hide Reaches;
      hide Value;
      hide Cost;
      hide IsSemiring;
      var t := net.kind[g];
      ghost var net0, s0 := net, At(redirect);
      changed := DropUnitsAt(g, redirect);
      ghost var net1, s1 := net, At(redirect);
      if net.wires[g] == [] {
        CollapseEmpty(net, rank, r, g);
        GateShrinks(net, rank, g, IdentityOf(t), []);
        net := WithGate(net, g, IdentityOf(t), []);
        SameTrans(net0, net1, net, rank, r);
        changed := true;
        TidyReaches(rank, id2uuid, s1, At(redirect), g, []);
        ReachesTrans(rank, id2uuid, s0, s1, At(redirect));
      }
    }

    /** Phase 1 at every gate. */
    method DropIdentityWires(ghost redirect: map<nat, nat>) returns (changed: bool)
      requires Valid() && Avoids(net, redirect) && Descends(rank, redirect)
      modifies this`net
      ensures Valid() && SameMeaning(old(net), net, rank, r) && |net.kind| == |old(net).kind| && Avoids(net, redirect)
      ensures Reaches(rank, id2uuid, old(At(redirect)), At(redirect))
      ensures if changed then Cost(net, rank) < Cost(old(net), rank) else net == old(net) && NoIdentities(net, |net.kind|)
    {
      changed := false;
      ghost var net0, s0 := net, At(redirect);
      ReachesSelf(rank, id2uuid, s0);
      hide IsSemiring;
      hide Value;
      hide Cost;
      hide Reaches;
      for g := 0 to |net.kind|
        invariant Valid() && |net.kind| == |net0.kind| && SameMeaning(net0, net, rank, r) && Avoids(net, redirect)
        invariant if changed then Cost(net, rank) < Cost(net0, rank) else net == net0 && NoIdentities(net, g)
        invariant Reaches(rank, id2uuid, s0, At(redirect))
      {
        if Combines(net.kind[g]) {
          ghost var net1, s1 := net, At(redirect);
          var now := DropIdentitiesAt(g, redirect);
          ReachesTrans(rank, id2uuid, s0, s1, At(redirect));
          SameTrans(net0, net1, net, rank, r);
          changed := changed || now;
        }
      }
    }

    /** Phases 2 and 3: collapse gates to single descendants and rewire every parent. */
    method CollapseOnce(redirect: map<nat, nat>) returns (changed: bool, redirect': map<nat, nat>)
      requires Valid() && Avoids(net, redirect) && SubstOk(net, rank, r, redirect)
      modifies this`net
      ensures Valid() && SameMeaning(old(net), net, rank, r) && |net.kind| == |old(net).kind|
      ensures SubstOk(net, rank, r, redirect') && Avoids(net, redirect')
      ensures if changed then Cost(net, rank) < Cost(old(net), rank) else net == old(net)
      ensures !changed && NoIdentities(net, |net.kind|) ==> Normal(net)
      ensures Descends(rank, redirect) && Descends(rank, redirect') && Reaches(rank, id2uuid, old(At(redirect)), At(redirect'))
    {
      ghost var net0, s0 := net, At(redirect);
      hide IsSemiring;
      hide Value;
      hide SubstOk;
      var subst := CollectCollapses(net, redirect, rank, r);
      SubstDescends(net, rank, r, subst);
      ghost var found := subst;
      subst := Resolve(subst, redirect, net, rank, r);
      changed := TouchedTo(net, subst, |net.wires|);
      SubstDescends(net, rank, r, subst);
      RewireKeeps(net, rank, r, subst);
      RewiredCosts(net, rank, subst, |net.kind|);
      RewiredAvoids(net, subst, redirect);
      if !changed {
        RewiredUntouched(net, subst);
        if NoIdentities(net, |net.kind|) { NormalEnd(net, redirect, subst); }
      }
      SubstUnion(net, rank, r, redirect, subst);
      net := RewiredNet(net, subst);
      redirect' := redirect + subst;
      SubstDescends(net0, rank, r, redirect);
      SubstDescends(net0, rank, r, redirect');
      CollapseReaches(rank, id2uuid, s0, At(redirect'), found, subst);
      SubstKept(net0, net, rank, r, redirect');
    }

    /** Folds to a fixpoint; reports whether anything changed. */
    method FoldWires() returns (ever: bool, redirect: map<nat, nat>)
      requires Valid()
      modifies this`net
      ensures Valid() && SameMeaning(old(net), net, rank, r) && |net.kind| == |old(net).kind| && Normal(net)
      ensures SubstOk(net, rank, r, redirect) && Avoids(net, redirect)
      ensures Descends(rank, redirect) && Reaches(rank, id2uuid, old(At(map[])), At(redirect))
      ensures if ever then Cost(net, rank) < Cost(old(net), rank) else net == old(net)
    {
      ghost var net0, s0 := net, At(map[]);
      redirect, ever := map[], false;
      ReachesSelf(rank, id2uuid, s0);
      NoSubst(net, rank, r);
      hide IsSemiring;
      hide Value;
      hide SubstOk;
      hide Normal;
      hide Cost;
      hide Reaches;
      var changed := true;
      while changed
        invariant Valid() && |net.kind| == |net0.kind| && SameMeaning(net0, net, rank, r)
        invariant SubstOk(net, rank, r, redirect) && Avoids(net, redirect)
        invariant Descends(rank, redirect) && Reaches(rank, id2uuid, s0, At(redirect))
        invariant if ever then Cost(net, rank) < Cost(net0, rank) else net == net0
        invariant !changed ==> Normal(net)
        decreases Cost(net, rank), changed
      {
        ghost var net1, s1 := net, At(redirect);
        changed := DropIdentityWires(redirect);
        ghost var net2, s2 := net, At(redirect);
        ReachesTrans(rank, id2uuid, s0, s1, s2);
        SubstKept(net1, net2, rank, r, redirect);
        var again;
        again, redirect := CollapseOnce(redirect);
        ReachesTrans(rank, id2uuid, s0, s2, At(redirect));
        SameTrans(net1, net2, net, rank, r);
        SameTrans(net0, net1, net, rank, r);
        changed := changed || again;
        ever := ever || changed;
      }
    }

    /** Names of collapsed gates follow the collapse; their assumption marks go along. */
    method PatchNames(redirect0: map<nat, nat>)
      requires Named() && SubstOk(net, rank, r, redirect0) && Good(rank, At(redirect0))
      modifies this`uuid2id, this`booleanAssumed, this`absorptiveAssumed
      ensures Named() && SameByName(net, rank, r, old(uuid2id), uuid2id)
      ensures old(booleanAssumed) <= booleanAssumed && old(absorptiveAssumed) <= absorptiveAssumed
      ensures Patches(rank, id2uuid, old(At(redirect0)), At(map[]))
    {
      hide SubstOk;
      hide Value;
      hide IsSemiring;
      hide Ranked;
      ghost var first := uuid2id;
      assert SameByName(net, rank, r, first, uuid2id);
      hide SameByName;
      hide NamesOk;
      NoSubst(net, rank, r);
      assert map[] + redirect0 == redirect0;
      var redirect := Resolve(redirect0, map[], net, rank, r);
      NamesPatch(redirect0, redirect, first);
      MarksPatch(redirect0, redirect);
    }

    method NamesPatch(ghost redirect0: map<nat, nat>, redirect: map<nat, nat>, ghost first: map<Uuid, nat>)
      requires Named() && SubstOk(net, rank, r, redirect) && SameByName(net, rank, r, first, uuid2id) && first == uuid2id
      requires redirect.Keys == redirect0.Keys && forall g :: g in redirect ==> redirect[g] == End(rank, redirect0, g)
      modifies this`uuid2id
      ensures Named() && SameByName(net, rank, r, first, uuid2id)
      ensures NamesFollow(rank, id2uuid, redirect0, redirect0.Keys, first, uuid2id)
    {
      hide SubstOk;
      hide Value;
      hide IsSemiring;
      hide SameByName;
      hide NamesOk;
      assert NamesFollow(rank, id2uuid, redirect0, {}, first, uuid2id);
      hide NamesFollow;
      var rest := redirect.Keys;
      assert redirect.Keys - rest == {};
      while rest != {}
        invariant rest <= redirect.Keys && Named() && SameByName(net, rank, r, first, uuid2id)
        invariant NamesFollow(rank, id2uuid, redirect0, redirect.Keys - rest, first, uuid2id)
        decreases rest
      {
        var g :| g in rest;
        NameFollows(rank, id2uuid, redirect0, redirect.Keys - rest, first, uuid2id, g);
        assert redirect.Keys - (rest - {g}) == redirect.Keys - rest + {g};
        if g in id2uuid {
          NameThere(net, rank, r, uuid2id, id2uuid, g);
          PatchName(net, rank, r, first, uuid2id, id2uuid, redirect, g);
          uuid2id := uuid2id[id2uuid[g] := redirect[g]];
        }
        rest := rest - {g};
      }
      assert redirect.Keys - {} == redirect0.Keys;
    }

    method MarksPatch(ghost redirect0: map<nat, nat>, redirect: map<nat, nat>)
      requires Descends(rank, redirect0) && redirect.Keys == redirect0.Keys && forall g :: g in redirect ==> redirect[g] == End(rank, redirect0, g)
      modifies this`booleanAssumed, this`absorptiveAssumed
      ensures booleanAssumed == old(booleanAssumed) + Ends(rank, redirect0, old(booleanAssumed))
      ensures absorptiveAssumed == old(absorptiveAssumed) + Ends(rank, redirect0, old(absorptiveAssumed))
    {
      ghost var B, A, m := booleanAssumed, absorptiveAssumed, redirect0;
      var rest := redirect.Keys;
      assert B * (redirect.Keys - rest) == {} && A * (redirect.Keys - rest) == {};
      assert Ends(rank, m, {}) == {};
      while rest != {}
        invariant rest <= redirect.Keys
        invariant booleanAssumed == B + Ends(rank, m, B * (redirect.Keys - rest))
        invariant absorptiveAssumed == A + Ends(rank, m, A * (redirect.Keys - rest))
        decreases rest
      {
        var g :| g in rest;
        MarkFollows(rank, m, B, redirect.Keys - rest, booleanAssumed, g);
        MarkFollows(rank, m, A, redirect.Keys - rest, absorptiveAssumed, g);
        assert redirect.Keys - (rest - {g}) == redirect.Keys - rest + {g};
        hide Ends;
        if g in booleanAssumed {
          booleanAssumed := booleanAssumed + {redirect[g]};
        }
        if g in absorptiveAssumed {
          absorptiveAssumed := absorptiveAssumed + {redirect[g]};
        }
        rest := rest - {g};
      }
      assert Ends(rank, m, B * (redirect.Keys - {})) == Ends(rank, m, B);
      assert Ends(rank, m, A * (redirect.Keys - {})) == Ends(rank, m, A);
    }

    /** Folds identities that hold in every commutative semiring. */
    method FoldSemiringIdentities() returns (ever: bool)
      requires Named()
      modifies this
      ensures Named() && id2uuid == old(id2uuid) && |net.kind| == |old(net).kind| && Normal(net)
      ensures SameMeaning(old(net), net, rank, r) && SameByName(net, rank, r, old(uuid2id), uuid2id)
      ensures old(booleanAssumed) <= booleanAssumed && old(absorptiveAssumed) <= absorptiveAssumed
      ensures if ever then Cost(net, rank) < Cost(old(net), rank) else net == old(net)
      ensures Reaches(rank, id2uuid, old(At(map[])), At(map[]))
    {
      ghost var net0, s0 := net, At(map[]);
      var redirect;
      ever, redirect := FoldWires();
      NamesKept(net0, net, rank, r, uuid2id, id2uuid);
      ghost var s1 := At(redirect);
      ReachesGood(rank, id2uuid, s0, s1);
      PatchNames(redirect);
      PatchReaches(rank, id2uuid, s0, s1, At(map[]));
    }

    /** The net has changed in a way that keeps all values and makes it smaller, or not at all. */
    twostate predicate Shrunk(fired: bool)
      reads this
    {
      && Valid() && |net.kind| == |old(net).kind| && SameMeaning(old(net), net, rank, r)
      && if fired then Cost(net, rank) < Cost(old(net), rank) else net == old(net)
    }

    /** Rule 1 at gate g: drop repeated wires. */
    method DropRepeatsAt(level: Level, g: nat) returns (fired: bool)
      requires Valid() && Admits(level, r.semiring) && g < |net.kind| && Applies(level, net.kind[g])
      modifies this`net
      ensures Shrunk(fired) && net.kind == old(net).kind
      ensures fired ==> RuleAt(old(net), net, g)
      ensures !fired ==> NoRepeats(net.wires[g])
    {
      hide IsSemiring;
      hide Admits;
      hide Value;
      hide Cost;
      var kept;
      ghost var marks;
      kept, marks := Deduplicate(net.wires[g]);
      ChosenCost(rank, net.wires[g], marks);
      DropRepeats(net, rank, r, level, g, marks);
      DropsRule(net, g, marks, kept);
      hide RuleAt;
      GateShrinks(net, rank, g, net.kind[g], kept);
      fired := |kept| != |net.wires[g]|;
      if fired {
        net := WithGate(net, g, net.kind[g], kept);
      }
    }

    /** Rule 2 at gate g: a sum with a one in it is one. */
    method CollapseOneAt(g: nat) returns (fired: bool)
      requires Valid() && IsAbsorptive(r.semiring) && g < |net.kind| && net.kind[g] == PlusGate
      modifies this`net
      ensures Shrunk(fired) && (!fired ==> net.kind == old(net).kind)
      ensures fired ==> RuleAt(old(net), net, g)
      ensures !fired ==> !HasOneWire(net, g)
    {
      hide IsSemiring;
      hide IsAbsorptive;
      assert Below(rank, net.wires[g], rank[g]);
      ghost var k;
      fired, k := HasOne(net, net.wires[g]);
      if fired {
        OneInSum(net, rank, r, g, k);
        GateShrinks(net, rank, g, OneGate, []);
        net := WithGate(net, g, OneGate, []);
      }
    }

    /** Rule 3 at gate g: drop wires that a sibling dominates. */
    method DropDominatedAt(level: Level, g: nat) returns (fired: bool)
      requires Valid() && Admits(level, r.semiring) && g < |net.kind| && Applies(level, net.kind[g])
      modifies this`net
      ensures Shrunk(fired)
      ensures fired ==> RuleAt(old(net), net, g)
      ensures !fired ==> NoneDominated(net, g)
    {
      hide IsSemiring;
      hide Admits;
      hide Value;
      hide Cost;
      assert Below(rank, net.wires[g], rank[g]);
      hide Below;
      fired := false;
      if |net.wires[g]| >= 2 {
        var kept;
        ghost var marks;
        kept, marks := Undominated(net, g);
        ChosenCost(rank, net.wires[g], marks);
        DropDominated(net, rank, r, level, g, marks);
        DropsRule(net, g, marks, kept);
        GateShrinks(net, rank, g, net.kind[g], kept);
        fired := |kept| != |net.wires[g]|;
        if fired {
          net := WithGate(net, g, net.kind[g], kept);
        }
      }
    }

    /** The three rules at one gate, in order; a gate that became a constant is done. */
    method FireRules(level: Level, g: nat) returns (fired: bool)
      requires Valid() && Admits(level, r.semiring) && g < |net.kind| && Combines(net.kind[g])
      modifies this`net
      ensures Shrunk(fired) && RulesAt(old(net), net, g)
      ensures !fired ==> Ruleless(level, net, g)
    {
      AdmitsSemiring(level, r.semiring, net.kind[g]);
      hide IsSemiring;
      hide IsAbsorptive;
      hide Admits;
      hide Cost;
      hide Value;
      hide RuleAt;
      var t := net.kind[g];
      ghost var net0 := net;
      var first, second, third := false, false, false;
      if Applies(level, t) {
        first := DropRepeatsAt(level, g);
      }
      ghost var net1 := net;
      if t == PlusGate {
        second := CollapseOneAt(g);
      }
      ghost var net2 := net;
      SameTrans(net0, net1, net2, rank, r);
      if Applies(level, t) && net.kind[g] == t {
        third := DropDominatedAt(level, g);
      }
      SameTrans(net0, net2, net, rank, r);
      assert MaybeRule(net0, net1, g) && MaybeRule(net1, net2, g) && MaybeRule(net2, net, g);
      fired := first || second || third;
    }

    /** The rules at one gate, which is marked when one fires: a sum as folded by rules of
        absorptive semirings, a product by rules of lattices. */
    method FoldGate(level: Level, g: nat) returns (fired: bool)
      requires Valid() && Admits(level, r.semiring) && g < |net.kind| && Combines(net.kind[g])
      modifies this`net, this`booleanAssumed, this`absorptiveAssumed
      ensures Shrunk(fired)
      ensures old(booleanAssumed) <= booleanAssumed && old(absorptiveAssumed) <= absorptiveAssumed
      ensures Reaches(rank, id2uuid, old(At(map[])), At(map[]))
      ensures !fired ==> Ruleless(level, net, g)
    {
      hide IsSemiring;
      hide Admits;
      hide Reaches;
      hide RulesAt;
      hide Ruleless;
      hide Value;
      var t := net.kind[g];
      ghost var s := At(map[]);
      fired := FireRules(level, g);
      RulesReach(rank, id2uuid, s, net, g);
      if fired {
        if t == PlusGate {
          absorptiveAssumed := absorptiveAssumed + {g};
        } else {
          booleanAssumed := booleanAssumed + {g};
        }
      }
    }

    /** One pass of the rules over all gates. */
    method ApplyFoldRuleSweep(level: Level) returns (fired: bool)
      requires Named() && Admits(level, r.semiring)
      modifies this`net, this`booleanAssumed, this`absorptiveAssumed
      ensures Named() && Shrunk(fired)
      ensures old(booleanAssumed) <= booleanAssumed && old(absorptiveAssumed) <= absorptiveAssumed
      ensures Reaches(rank, id2uuid, old(At(map[])), At(map[]))
      ensures !fired ==> RulelessTo(level, net, |net.kind|)
    {
      ghost var net0, s0 := net, At(map[]);
      ReachesSelf(rank, id2uuid, s0);
      fired := false;
      hide IsSemiring;
      hide Admits;
      hide Cost;
      hide Value;
      hide Reaches;
      for g := 0 to |net.kind|
        invariant Valid() && |net.kind| == |net0.kind| && SameMeaning(net0, net, rank, r)
        invariant if fired then Cost(net, rank) < Cost(net0, rank) else net == net0
        invariant old(booleanAssumed) <= booleanAssumed && old(absorptiveAssumed) <= absorptiveAssumed
        invariant Reaches(rank, id2uuid, s0, At(map[])) && (!fired ==> RulelessTo(level, net, g))
      {
        if Combines(net.kind[g]) {
          ghost var net1, s1 := net, At(map[]);
          var now := FoldGate(level, g);
          ReachesTrans(rank, id2uuid, s0, s1, At(map[]));
          SameTrans(net0, net1, net, rank, r);
          fired := fired || now;
        }
      }
      NamesKept(net0, net, rank, r, uuid2id, id2uuid);
    }

    /** The rules of the given level and the semiring collapses, to a joint fixpoint. */
    method FoldToFixpoint(level: Level)
      requires Named() && Admits(level, r.semiring)
      modifies this
      ensures Named() && id2uuid == old(id2uuid) && |net.kind| == |old(net).kind| && Normal(net)
      ensures SameMeaning(old(net), net, rank, r) && SameByName(net, rank, r, old(uuid2id), uuid2id)
      ensures old(booleanAssumed) <= booleanAssumed && old(absorptiveAssumed) <= absorptiveAssumed
      ensures RulelessTo(level, net, |net.kind|) && Reaches(rank, id2uuid, old(At(map[])), At(map[]))
      ensures forall s: Reading<V> :: IsAbsorptive(s.semiring) ==> Protected(old(net), net, rank, s, booleanAssumed)
      ensures forall s: Reading<V> :: IsSemiring(s.semiring) && FoldMarks.OnesAreOne(old(net), rank, s) ==>
        Protected(old(net), net, rank, s, booleanAssumed + absorptiveAssumed)
      ensures forall s: Reading<V> :: IsAbsorptive(s.semiring) && NamesOk(old(net), rank, s, old(uuid2id), id2uuid) ==>
        NamesProtected(old(net), net, rank, s, old(uuid2id), uuid2id, booleanAssumed)
      ensures forall s: Reading<V> ::
        IsSemiring(s.semiring) && FoldMarks.OnesAreOne(old(net), rank, s) && NamesOk(old(net), rank, s, old(uuid2id), id2uuid) ==>
          NamesProtected(old(net), net, rank, s, old(uuid2id), uuid2id, booleanAssumed + absorptiveAssumed)
    {
      ghost var net0, names0, s0 := net, uuid2id, At(map[]);
      ReachesSelf(rank, id2uuid, s0);
      assert SameByName(net, rank, r, names0, uuid2id);
      hide IsSemiring;
      hide Admits;
      hide Cost;
      hide Value;
      hide Normal;
      hide NamesOk;
      hide SameByName;
      hide Reaches;
      hide RulelessTo;
      var changed := true;
      while changed
        invariant id2uuid == old(id2uuid) && Reaches(rank, id2uuid, s0, At(map[])) && (!changed ==> RulelessTo(level, net, |net.kind|))
        invariant Named() && |net.kind| == |net0.kind| && SameMeaning(net0, net, rank, r)
        invariant SameByName(net, rank, r, names0, uuid2id) && (!changed ==> Normal(net))
        invariant old(booleanAssumed) <= booleanAssumed && old(absorptiveAssumed) <= absorptiveAssumed
        decreases Cost(net, rank), changed
      {
        ghost var net1, names1, s1 := net, uuid2id, At(map[]);
        changed := ApplyFoldRuleSweep(level);
        ghost var net2, s2 := net, At(map[]);
        ReachesTrans(rank, id2uuid, s0, s1, s2);
        NamesAcross(net1, net2, rank, r, names0, names1);
        var again := FoldSemiringIdentities();
        ReachesTrans(rank, id2uuid, s0, s2, At(map[]));
        SameTrans(net1, net2, net, rank, r);
        SameTrans(net0, net1, net, rank, r);
        NamesAcross(net2, net, rank, r, names0, names1);
        NamesTrans(net, rank, r, names0, names1, uuid2id);
        changed := changed || again;
      }
      AllProtected<V>(rank, id2uuid, s0, At(map[]));
    }
  }

  lemma NamesAcross<V(!new)>(a: Net, b: Net, rank: seq<nat>, r: Reading<V>, before: map<Uuid, nat>, after: map<Uuid, nat>)
    requires SameMeaning(a, b, rank, r) && |a.kind| == |b.kind| && SameByName(a, rank, r, before, after)
    ensures SameByName(b, rank, r, before, after)
  {
  }

  lemma NamesTrans<V(!new)>(net: Net, rank: seq<nat>, r: Reading<V>, a: map<Uuid, nat>, b: map<Uuid, nat>, c: map<Uuid, nat>)
    requires Ranked(net, rank) && SameByName(net, rank, r, a, b) && SameByName(net, rank, r, b, c)
    ensures SameByName(net, rank, r, a, c)
  {
  }
}
