/** Provenance circuits read in a semiring: sums, products, the constants, and opaque gates
    whose value depends only on the values of their children.  */
module ProvenanceNet {
  import opened SemiringAlgebra
  import opened PostOrder

  datatype Kind = PlusGate | TimesGate | ZeroGate | OneGate | OtherGate

  datatype Net = Net(kind: seq<Kind>, wires: seq<seq<nat>>)

  /** How gates are read: the semiring, and what each opaque gate makes of its children. */
  datatype Reading<!V> = Reading(semiring: Semiring<V>, other: (nat, seq<V>) -> V)

  /** rank falls along every wire. */
  ghost predicate Ranked(net: Net, rank: seq<nat>) {
    && |net.wires| == |rank| == |net.kind|
    && forall g :: 0 <= g < |net.kind| ==> Below(rank, net.wires[g], rank[g])
  }

  ghost function Local<V>(r: Reading<V>, kind: Kind, g: nat, vals: seq<V>): V {
    match kind
    case PlusGate => Fold(r.semiring.Additive(), vals)
    case TimesGate => Fold(r.semiring.Multiplicative(), vals)
    case ZeroGate => r.semiring.zero
    case OneGate => r.semiring.one
    case OtherGate => r.other(g, vals)
  }

  /** The value of gate g. */
  ghost function Value<V>(net: Net, rank: seq<nat>, r: Reading<V>, g: nat): V
    requires Ranked(net, rank) && g < |net.kind|
    decreases rank[g], 1, 0
  {
    Local(r, net.kind[g], g, Values(net, rank, r, net.wires[g], rank[g]))
  }

  ghost function Values<V>(net: Net, rank: seq<nat>, r: Reading<V>, ws: seq<nat>, top: nat): (vals: seq<V>)
    requires Ranked(net, rank) && Below(rank, ws, top)
    ensures |vals| == |ws|
    ensures forall i :: 0 <= i < |ws| ==> ws[i] < |net.kind| && vals[i] == Value(net, rank, r, ws[i])
    decreases top, 0, |ws|
  {
    if ws == [] then []
    else Values(net, rank, r, ws[..|ws| - 1], top) + [Value(net, rank, r, ws[|ws| - 1])]
  }

  lemma ValuesSame<V(!new)>(net: Net, rank: seq<nat>, r: Reading<V>, ws: seq<nat>, top: nat, net': Net, ws': seq<nat>, top': nat)
    requires Ranked(net, rank) && Ranked(net', rank) && Below(rank, ws, top) && Below(rank, ws', top') && |ws| == |ws'|
    requires forall i :: 0 <= i < |ws| ==> Value(net, rank, r, ws[i]) == Value(net', rank, r, ws'[i])
    ensures Values(net, rank, r, ws, top) == Values(net', rank, r, ws', top')
  {
  }

  // ----- Rewriting keeps meaning -----

  /** Gate h of net', over the old values of its new children, has its old value. */
  ghost predicate KeepsLocally<V(!new)>(net: Net, net': Net, rank: seq<nat>, r: Reading<V>, h: nat)
    requires Ranked(net, rank) && Ranked(net', rank) && h < |net.kind|
  {
    Local(r, net'.kind[h], h, Values(net, rank, r, net'.wires[h], rank[h])) == Value(net, rank, r, h)
  }

  /** Gates rewritten to agree with their old values over the old values of their new
      children all keep their values: shared gates are seen through any parent alike. */
  lemma {:induction false} RewriteKeeps<V(!new)>(net: Net, net': Net, rank: seq<nat>, r: Reading<V>, g: nat)
    requires Ranked(net, rank) && Ranked(net', rank) && g < |net.kind|
    requires forall h: nat :: h < |net.kind| ==> KeepsLocally(net, net', rank, r, h)
    ensures Value(net', rank, r, g) == Value(net, rank, r, g)
    decreases rank[g]
  {
    var ws := net'.wires[g];
    assert Below(rank, ws, rank[g]);
    forall i | 0 <= i < |ws| ensures Value(net', rank, r, ws[i]) == Value(net, rank, r, ws[i]) {
      RewriteKeeps(net, net', rank, r, ws[i]);
    }
    ValuesSame(net, rank, r, ws, rank[g], net', ws, rank[g]);
    assert KeepsLocally(net, net', rank, r, g);
  }

  ghost predicate SameMeaning<V(!new)>(net: Net, net': Net, rank: seq<nat>, r: Reading<V>) {
    && Ranked(net, rank) && Ranked(net', rank)
    && forall g: nat :: g < |net.kind| ==> Value(net', rank, r, g) == Value(net, rank, r, g)
  }

  lemma SameTrans<V(!new)>(a: Net, b: Net, c: Net, rank: seq<nat>, r: Reading<V>)
    requires SameMeaning(a, b, rank, r) && SameMeaning(b, c, rank, r)
    ensures SameMeaning(a, c, rank, r)
  {
  }

  function WithGate(net: Net, g: nat, kind: Kind, ws: seq<nat>): Net
    requires g < |net.kind| == |net.wires|
  {
    Net(net.kind[g := kind], net.wires[g := ws])
  }

  /** Rewriting a single gate. */
  lemma RewriteGate<V(!new)>(net: Net, rank: seq<nat>, r: Reading<V>, g: nat, kind: Kind, ws: seq<nat>)
    requires Ranked(net, rank) && g < |net.kind| && Below(rank, ws, rank[g])
    requires Local(r, kind, g, Values(net, rank, r, ws, rank[g])) == Value(net, rank, r, g)
    ensures SameMeaning(net, WithGate(net, g, kind, ws), rank, r)
  {
    var net' := WithGate(net, g, kind, ws);
    forall h: nat | h < |net.kind| ensures Below(rank, net'.wires[h], rank[h]) {
      if h != g { assert net'.wires[h] == net.wires[h]; }
    }
    forall h: nat | h < |net.kind| ensures KeepsLocally(net, net', rank, r, h) {
      if h != g { assert net'.wires[h] == net.wires[h] && net'.kind[h] == net.kind[h]; }
    }
    forall h: nat | h < |net.kind| ensures Value(net', rank, r, h) == Value(net, rank, r, h) {
      RewriteKeeps(net, net', rank, r, h);
    }
  }

  // ----- Dropping wires of a sum or a product -----

  function MonoidOf<V>(s: Semiring<V>, kind: Kind): Monoid<V> {
    if kind == PlusGate then s.Additive() else s.Multiplicative()
  }

  predicate Combines(kind: Kind) {
    kind == PlusGate || kind == TimesGate
  }

  lemma {:induction false} ChosenValues<V(!new)>(net: Net, rank: seq<nat>, r: Reading<V>, ws: seq<nat>, top: nat, marks: seq<bool>)
    requires Ranked(net, rank) && Below(rank, ws, top) && |marks| == |ws|
    ensures Below(rank, Chosen(ws, marks, true), top)
    ensures Values(net, rank, r, Chosen(ws, marks, true), top) == Chosen(Values(net, rank, r, ws, top), marks, true)
    decreases |ws|
  {
    if ws != [] {
      var n := |ws| - 1;
      ChosenValues(net, rank, r, ws[..n], top, marks[..n]);
      var kept := Chosen(ws[..n], marks[..n], true);
      if marks[n] {
        assert (kept + [ws[n]])[..|kept|] == kept;
      }
    }
  }

  /** Wires may go whose values the remaining ones absorb. */
  lemma DropWires<V(!new)>(net: Net, rank: seq<nat>, r: Reading<V>, g: nat, marks: seq<bool>)
    requires Ranked(net, rank) && g < |net.kind| && Combines(net.kind[g]) && IsSemiring(r.semiring) && |marks| == |net.wires[g]|
    requires forall i :: 0 <= i < |marks| && !marks[i] ==>
               var m := MonoidOf(r.semiring, net.kind[g]);
               Absorbs(m, Fold(m, Chosen(Values(net, rank, r, net.wires[g], rank[g]), marks, true)), Value(net, rank, r, net.wires[g][i]))
    ensures Below(rank, Chosen(net.wires[g], marks, true), rank[g])
    ensures SameMeaning(net, WithGate(net, g, net.kind[g], Chosen(net.wires[g], marks, true)), rank, r)
  {
    var ws, m := net.wires[g], MonoidOf(r.semiring, net.kind[g]);
    var vals := Values(net, rank, r, ws, rank[g]);
    ChosenValues(net, rank, r, ws, rank[g], marks);
    assert IsMonoid(m);
    hide IsMonoid;
    hide IsSemiring;
    DropAbsorbed(m, vals, marks);
    RewriteGate(net, rank, r, g, net.kind[g], Chosen(ws, marks, true));
  }

  /** The constant that contributes nothing to a sum, or to a product. */
  function IdentityOf(kind: Kind): Kind {
    if kind == PlusGate then ZeroGate else OneGate
  }

  lemma IdentityValue<V(!new)>(net: Net, rank: seq<nat>, r: Reading<V>, kind: Kind, h: nat)
    requires Ranked(net, rank) && h < |net.kind| && net.kind[h] == IdentityOf(kind)
    ensures Value(net, rank, r, h) == MonoidOf(r.semiring, kind).unit
  {
  }

  /** Identity wires may be dropped. */
  lemma DropIdentities<V(!new)>(net: Net, rank: seq<nat>, r: Reading<V>, g: nat, marks: seq<bool>)
    requires Ranked(net, rank) && g < |net.kind| && Combines(net.kind[g]) && IsSemiring(r.semiring) && |marks| == |net.wires[g]|
    requires forall i :: 0 <= i < |marks| ==> net.wires[g][i] < |net.kind| && marks[i] == (net.kind[net.wires[g][i]] != IdentityOf(net.kind[g]))
    ensures SameMeaning(net, WithGate(net, g, net.kind[g], Chosen(net.wires[g], marks, true)), rank, r)
  {
    var m, ws := MonoidOf(r.semiring, net.kind[g]), net.wires[g];
    var x := Fold(m, Chosen(Values(net, rank, r, ws, rank[g]), marks, true));
    assert IsMonoid(m);
    hide IsSemiring;
    hide IsMonoid;
    forall i | 0 <= i < |marks| && !marks[i] ensures Absorbs(m, x, Value(net, rank, r, ws[i])) {
      IdentityValue(net, rank, r, net.kind[g], ws[i]);
      Unit(m, x);
    }
    DropWires(net, rank, r, g, marks);
  }

  /** An empty sum or product is its constant. */
  lemma CollapseEmpty<V(!new)>(net: Net, rank: seq<nat>, r: Reading<V>, g: nat)
    requires Ranked(net, rank) && g < |net.kind| && Combines(net.kind[g]) && net.wires[g] == []
    ensures SameMeaning(net, WithGate(net, g, IdentityOf(net.kind[g]), []), rank, r)
  {
    RewriteGate(net, rank, r, g, IdentityOf(net.kind[g]), []);
  }

  // ----- Collapsing to a single descendant -----

  /** g can be read at its child t: its only wire, or a zero factor. */
  ghost predicate CollapsesTo(net: Net, g: nat, t: nat) {
    && g < |net.kind| == |net.wires| && t < |net.kind| && Combines(net.kind[g])
    && (net.wires[g] == [t] || (net.kind[g] == TimesGate && t in net.wires[g] && net.kind[t] == ZeroGate))
  }

  lemma CollapseValue<V(!new)>(net: Net, rank: seq<nat>, r: Reading<V>, g: nat, t: nat)
    requires Ranked(net, rank) && IsSemiring(r.semiring) && CollapsesTo(net, g, t)
    ensures Value(net, rank, r, t) == Value(net, rank, r, g) && rank[t] < rank[g]
  {
    var ws := net.wires[g];
    assert Below(rank, ws, rank[g]);
    var vals := Values(net, rank, r, ws, rank[g]);
    if ws == [t] {
      var m := MonoidOf(r.semiring, net.kind[g]);
      assert vals == [Value(net, rank, r, t)];
      assert IsMonoid(m);
      SingleFold(m, vals[0]);
    } else {
      var i :| 0 <= i < |ws| && ws[i] == t;
      assert vals[i] == r.semiring.zero;
      ZeroFactor(r.semiring, vals);
    }
  }

  lemma SingleFold<V(!new)>(m: Monoid<V>, x: V)
    requires IsMonoid(m)
    ensures Fold(m, [x]) == x
  {
    hide IsMonoid;
    assert Fold(m, [x][..0]) == m.unit;
    Commute(m, m.unit, x);
    Unit(m, x);
  }

  // ----- Rewiring parents -----

  function Rewired(ws: seq<nat>, subst: map<nat, nat>): (s: seq<nat>)
    ensures |s| == |ws| && forall i :: 0 <= i < |ws| ==> s[i] == if ws[i] in subst then subst[ws[i]] else ws[i]
  {
    seq(|ws|, i requires 0 <= i < |ws| => if ws[i] in subst then subst[ws[i]] else ws[i])
  }

  function RewiredNet(net: Net, subst: map<nat, nat>): (n: Net)
    ensures n.kind == net.kind && |n.wires| == |net.wires|
    ensures forall g :: 0 <= g < |net.wires| ==> n.wires[g] == Rewired(net.wires[g], subst)
  {
    net.(wires := seq(|net.wires|, g requires 0 <= g < |net.wires| => Rewired(net.wires[g], subst)))
  }

  /** Each substituted gate has a target of lower rank and equal value. */
  ghost predicate SubstOk<V(!new)>(net: Net, rank: seq<nat>, r: Reading<V>, subst: map<nat, nat>)
    requires Ranked(net, rank)
  {
    forall g :: g in subst ==>
      g < |net.kind| && subst[g] < |net.kind| && rank[subst[g]] < rank[g] && Value(net, rank, r, subst[g]) == Value(net, rank, r, g)
  }

  lemma RewireKeeps<V(!new)>(net: Net, rank: seq<nat>, r: Reading<V>, subst: map<nat, nat>)
    requires Ranked(net, rank) && SubstOk(net, rank, r, subst)
    ensures SameMeaning(net, RewiredNet(net, subst), rank, r)
  {
    var net' := RewiredNet(net, subst);
    forall h: nat | h < |net.kind| ensures Below(rank, net'.wires[h], rank[h]) {
      assert Below(rank, net.wires[h], rank[h]);
    }
    forall h: nat | h < |net.kind| ensures KeepsLocally(net, net', rank, r, h) {
      assert Below(rank, net.wires[h], rank[h]);
      ValuesSame(net, rank, r, net.wires[h], rank[h], net, net'.wires[h], rank[h]);
    }
    forall h: nat | h < |net.kind| ensures Value(net', rank, r, h) == Value(net, rank, r, h) {
      RewriteKeeps(net, net', rank, r, h);
    }
  }
}
