/** What the assumption marks guarantee after any run of fold steps, in every semiring. */
module FoldGuarantee {
  import opened SemiringAlgebra
  import opened PostOrder
  import opened ProvenanceNet
  import opened FoldSteps
  import opened FoldMarks
  import opened FoldProtection

  /** No gate of marks feeds g, itself included. */
  ghost predicate Clear(net: Net, rank: seq<nat>, marks: set<nat>, g: nat)
    requires Ranked(net, rank) && g < |net.kind|
    decreases rank[g]
  {
    assert Below(rank, net.wires[g], rank[g]);
    g !in marks && forall i :: 0 <= i < |net.wires[g]| ==> Clear(net, rank, marks, net.wires[g][i])
  }

  // ----- The beginning -----

  lemma StartExact<V(!new)>(v: View<V>, st: FoldState, g: nat)
    requires ViewOk(v) && Fits(v, st.net) && st.net == v.before && g < |st.net.kind|
    ensures Exact(v, st, g)
  {
  }

  lemma StartOrdered<V(!new)>(v: View<V>, st: FoldState, g: nat)
    requires ViewOk(v) && Fits(v, st.net) && st.net == v.before && g < |st.net.kind| && !v.both
    ensures Ordered(v, st, g)
  {
    hide ViewOk;
    hide IsAbsorptive;
    hide IsMonoid;
    hide WireWas;
    AbsorptiveView(v);
    AdditiveMonoid(v.r.semiring);
    var ws, vals := st.net.wires[g], WireWas(v, st.net, g);
    AbsorbsSelf(v.r.semiring, Was(v, g));
    WasLocal(v, st, g);
    hide Was;
    forall w | w in ws
      ensures w < |st.net.kind|
      ensures st.net.kind[g] == TimesGate ==> Absorbs(Add(v), Was(v, w), Was(v, g))
      ensures st.net.kind[g] == PlusGate ==> Absorbs(Add(v), Was(v, g), Was(v, w))
    {
      var i :| 0 <= i < |ws| && ws[i] == w;
      TermOrder(v, st, g, i);
    }
  }

  lemma WasLocal<V(!new)>(v: View<V>, st: FoldState, g: nat)
    requires Fits(v, st.net) && st.net == v.before && g < |st.net.kind|
    ensures Was(v, g) == Local(v.r, st.net.kind[g], g, WireWas(v, st.net, g))
  {
  }

  lemma TermOrder<V(!new)>(v: View<V>, st: FoldState, g: nat, i: nat)
    requires Fits(v, st.net) && st.net == v.before && g < |st.net.kind| && IsAbsorptive(v.r.semiring) && i < |st.net.wires[g]|
    ensures st.net.kind[g] == TimesGate ==> Absorbs(Add(v), WireWas(v, st.net, g)[i], Was(v, g))
    ensures st.net.kind[g] == PlusGate ==> Absorbs(Add(v), Was(v, g), WireWas(v, st.net, g)[i])
  {
    hide IsAbsorptive;
    hide IsMonoid;
    hide WireWas;
    WasLocal(v, st, g);
    hide Was;
    var vals, s := WireWas(v, st.net, g), v.r.semiring;
    AdditiveMonoid(s);
    if st.net.kind[g] == PlusGate {
      AbsorbsSelf(s, vals[i]);
      FoldAbsorbs(Add(v), vals, vals[i], vals[i]);
    } else if st.net.kind[g] == TimesGate {
      AbsorptiveMonoids(s);
      var rest := FoldContains(s.Multiplicative(), vals, vals[i]);
      AbsorptiveLaws(s, vals[i], rest);
    }
  }

  lemma AbsorptiveMonoids<V(!new)>(s: Semiring<V>)
    requires IsAbsorptive(s)
    ensures IsSemiring(s) && IsMonoid(s.Multiplicative())
  {
  }

  lemma StartInv<V(!new)>(v: View<V>, names: map<Uuid, nat>, st: FoldState)
    requires ViewOk(v) && Good(v.rank, st) && st.net == v.before && st.redirect == map[]
    requires names == map[] || (names == st.names && forall u :: u in names ==> names[u] < |st.net.kind|)
    ensures Inv(v, names, st)
  {
    hide ViewOk;
    hide Exact;
    hide Ordered;
    hide Value;
    forall g: nat | g < |st.net.kind| ensures Exact(v, st, g) && (!v.both ==> Ordered(v, st, g)) {
      StartExact(v, st, g);
      if !v.both { StartOrdered(v, st, g); }
    }
  }

  lemma {:induction false} RunInv<V(!new)>(v: View<V>, id2uuid: map<nat, Uuid>, names: map<Uuid, nat>, run: seq<FoldState>, i: nat)
    requires IsRun(v.rank, id2uuid, run) && i < |run| && Inv(v, names, run[0]) && NamesOver(v, names, id2uuid)
    ensures Inv(v, names, run[i])
  {
    hide Inv;
    hide Step;
    hide NamesOver;
    if i > 0 {
      RunInv(v, id2uuid, names, run, i - 1);
      assert Step(v.rank, id2uuid, run[i - 1], run[i - 1 + 1]);
      StepInv(v, id2uuid, names, run[i - 1], run[i]);
    }
  }

  lemma ReachedInv<V(!new)>(v: View<V>, id2uuid: map<nat, Uuid>, names: map<Uuid, nat>, a: FoldState, b: FoldState)
    requires Reaches(v.rank, id2uuid, a, b) && Inv(v, names, a) && NamesOver(v, names, id2uuid)
    ensures Inv(v, names, b)
  {
    hide Inv;
    hide NamesOver;
    var run :| IsRun(v.rank, id2uuid, run) && run[0] == a && run[|run| - 1] == b;
    RunInv(v, id2uuid, names, run, |run| - 1);
  }

  // ----- The end -----

  /** Once all redirections are done, a gate that no minded mark feeds has its old value. */
  lemma {:induction false} ClearKept<V(!new)>(v: View<V>, st: FoldState, g: nat)
    requires Fits(v, st.net) && AllExact(v, st) && st.redirect == map[] && g < |st.net.kind| && Clear(st.net, v.rank, Minded(v, st), g)
    ensures Value(st.net, v.rank, v.r, g) == Was(v, g)
    decreases v.rank[g]
  {
    hide Minded;
    var ws := st.net.wires[g];
    assert Below(v.rank, ws, v.rank[g]);
    forall i | 0 <= i < |ws| ensures Value(st.net, v.rank, v.r, ws[i]) == Was(v, ws[i]) && !Doubtful(v, st, ws[i]) {
      assert Clear(st.net, v.rank, Minded(v, st), ws[i]);
      ClearKept(v, st, ws[i]);
      NoRedirect(v, st, ws[i]);
    }
    assert Exact(v, st, g) && Firm(v, st, g);
    assert Values(st.net, v.rank, v.r, ws, v.rank[g]) == WireWas(v, st.net, g);
  }

  lemma NoRedirect<V(!new)>(v: View<V>, st: FoldState, k: nat)
    requires st.redirect == map[]
    ensures Tainted(v, st, k) <==> k in Minded(v, st)
  {
    forall g ensures End(v.rank, st.redirect, g) == g {
    }
  }

  /** Gates that no gate of marks feeds keep their values. */
  ghost predicate Protected<V(!new)>(a: Net, b: Net, rank: seq<nat>, r: Reading<V>, marks: set<nat>) {
    && Ranked(a, rank) && Ranked(b, rank)
    && forall g: nat :: g < |b.kind| && Clear(b, rank, marks, g) ==> Value(b, rank, r, g) == Value(a, rank, r, g)
  }

  /** Names of gates that no gate of marks feeds keep their values. */
  ghost predicate NamesProtected<V(!new)>(a: Net, b: Net, rank: seq<nat>, r: Reading<V>, before: map<Uuid, nat>, after: map<Uuid, nat>, marks: set<nat>) {
    && Ranked(a, rank) && Ranked(b, rank) && before.Keys <= after.Keys
    && (forall u :: u in before ==> before[u] < |a.kind| && after[u] < |b.kind|)
    && forall u :: u in before && Clear(b, rank, marks, after[u]) ==> Value(b, rank, r, after[u]) == Value(a, rank, r, before[u])
  }

  lemma Guaranteed<V(!new)>(rank: seq<nat>, id2uuid: map<nat, Uuid>, a: FoldState, b: FoldState, v: View<V>, names: map<Uuid, nat>)
    requires Reaches(rank, id2uuid, a, b) && a.redirect == b.redirect == map[] && v.rank == rank && v.before == a.net
    requires ViewOk(v) && NamesOver(v, names, id2uuid)
    requires names == map[] || (names == a.names && forall u :: u in names ==> names[u] < |a.net.kind|)
    ensures Protected(a.net, b.net, rank, v.r, Minded(v, b))
    ensures NamesProtected(a.net, b.net, rank, v.r, names, b.names, Minded(v, b))
  {
    hide ViewOk;
    hide NamesOver;
    hide Good;
    ReachesGood(rank, id2uuid, a, b);
    StartInv(v, names, a);
    ReachedInv(v, id2uuid, names, a, b);
    InvEnd(v, names, b);
  }

  lemma InvEnd<V(!new)>(v: View<V>, names: map<Uuid, nat>, b: FoldState)
    requires Inv(v, names, b) && b.redirect == map[]
    ensures Protected(v.before, b.net, v.rank, v.r, Minded(v, b))
    ensures NamesProtected(v.before, b.net, v.rank, v.r, names, b.names, Minded(v, b))
  {
    hide ViewOk;
    hide Constants;
    hide AllOrdered;
    hide Exact;
    hide Minded;
    hide Value;
    InvFits(v, names, b);
    ViewRanked(v);
    forall g: nat | g < |b.net.kind| && Clear(b.net, v.rank, Minded(v, b), g) ensures Value(b.net, v.rank, v.r, g) == Was(v, g) {
      ClearKept(v, b, g);
    }
    forall u | u in names ensures u in b.names && NameKept(v, b, names, u) {
    }
  }

  /** In every absorptive semiring the Boolean marks suffice, and in every semiring in which
      the gates that are always one are one, both kinds do. */
  lemma MarksProtect<V(!new)>(rank: seq<nat>, id2uuid: map<nat, Uuid>, a: FoldState, b: FoldState, r: Reading<V>)
    requires Reaches(rank, id2uuid, a, b) && a.redirect == b.redirect == map[] && Ranked(a.net, rank)
    ensures IsAbsorptive(r.semiring) ==> Protected(a.net, b.net, rank, r, b.boolean)
    ensures IsSemiring(r.semiring) && OnesAreOne(a.net, rank, r) ==> Protected(a.net, b.net, rank, r, b.boolean + b.absorptive)
  {
    hide IsAbsorptive;
    hide IsSemiring;
    hide OnesAreOne;
    if IsAbsorptive(r.semiring) {
      AbsorptiveViewOk(a.net, rank, r);
      Guaranteed(rank, id2uuid, a, b, View(a.net, rank, r, false), map[]);
    }
    if IsSemiring(r.semiring) && OnesAreOne(a.net, rank, r) {
      Guaranteed(rank, id2uuid, a, b, View(a.net, rank, r, true), map[]);
    }
  }

  lemma AbsorptiveViewOk<V(!new)>(net: Net, rank: seq<nat>, r: Reading<V>)
    requires Ranked(net, rank) && IsAbsorptive(r.semiring)
    ensures ViewOk(View(net, rank, r, false))
  {
    AbsorptiveMonoids(r.semiring);
    hide IsSemiring;
    hide IsAbsorptive;
    forall g: nat | g < |net.kind| && AlwaysOne(net, rank, g) ensures Value(net, rank, r, g) == r.semiring.one {
      OneInAbsorptive(net, rank, r, g);
    }
  }

  /** The same for names. */
  lemma MarksProtectNames<V(!new)>(rank: seq<nat>, id2uuid: map<nat, Uuid>, a: FoldState, b: FoldState, r: Reading<V>)
    requires Reaches(rank, id2uuid, a, b) && a.redirect == b.redirect == map[] && Ranked(a.net, rank)
    requires NamesOk(a.net, rank, r, a.names, id2uuid)
    ensures IsAbsorptive(r.semiring) ==> NamesProtected(a.net, b.net, rank, r, a.names, b.names, b.boolean)
    ensures IsSemiring(r.semiring) && OnesAreOne(a.net, rank, r) ==>
              NamesProtected(a.net, b.net, rank, r, a.names, b.names, b.boolean + b.absorptive)
  {
    hide IsAbsorptive;
    hide IsSemiring;
    hide OnesAreOne;
    if IsAbsorptive(r.semiring) {
      AbsorptiveViewOk(a.net, rank, r);
      Guaranteed(rank, id2uuid, a, b, View(a.net, rank, r, false), a.names);
    }
    if IsSemiring(r.semiring) && OnesAreOne(a.net, rank, r) {
      Guaranteed(rank, id2uuid, a, b, View(a.net, rank, r, true), a.names);
    }
  }
}
