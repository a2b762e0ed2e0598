/** Why the absorptive and the Boolean fold rules keep the value of a gate. */
module FoldRules {
  import opened SemiringAlgebra
  import opened PostOrder
  import opened ProvenanceNet

  /** Which rules may fire: those of absorptive semirings, or of lattices too. */
  datatype Level = AbsorptiveLevel | BooleanLevel

  ghost predicate Admits<V(!new)>(level: Level, s: Semiring<V>) {
    if level == BooleanLevel then IsLattice(s) else IsAbsorptive(s)
  }

  /** The rules at this level apply to sums, and at the Boolean level to products too. */
  predicate Applies(level: Level, kind: Kind) {
    kind == PlusGate || (kind == TimesGate && level == BooleanLevel)
  }

  function Opposite(kind: Kind): Kind {
    if kind == PlusGate then TimesGate else PlusGate
  }

  lemma AdmitsSemiring<V(!new)>(level: Level, s: Semiring<V>, kind: Kind)
    requires Admits(level, s)
    ensures IsSemiring(s) && IsAbsorptive(s) && IsMonoid(MonoidOf(s, kind))
  {
  }

  /** x absorbs itself, and any combination of the opposite kind that contains it. */
  lemma KindLaws<V(!new)>(level: Level, s: Semiring<V>, kind: Kind, x: V, y: V)
    requires Admits(level, s) && Applies(level, kind)
    ensures Absorbs(MonoidOf(s, kind), x, x)
    ensures Absorbs(MonoidOf(s, kind), x, MonoidOf(s, Opposite(kind)).op(x, y))
  {
    hide IsSemiring;
    hide IsMonoid;
    if kind == PlusGate {
      AdmitsSemiring(level, s, kind);
      AbsorptiveLaws(s, x, y);
    } else {
      LatticeLaws(s, x, y);
    }
  }

  lemma AbsorbsTrans<V(!new)>(m: Monoid<V>, x: V, y: V, z: V)
    requires IsMonoid(m) && Absorbs(m, x, y) && Absorbs(m, y, z)
    ensures Absorbs(m, x, z)
  {
    hide IsMonoid;
    Regroup(m, x, y, z);
  }

  // ----- Repeated wires -----

  /** Every wire set aside is also kept. */
  ghost predicate OnlyRepeats(ws: seq<nat>, marks: seq<bool>) {
    |marks| == |ws| && forall i :: 0 <= i < |ws| && !marks[i] ==> ws[i] in Chosen(ws, marks, true)
  }

  lemma KeptAbsorbs<V(!new)>(net: Net, rank: seq<nat>, r: Reading<V>, g: nat, marks: seq<bool>, k: nat, y: V)
    requires Ranked(net, rank) && g < |net.kind| && Combines(net.kind[g]) && IsMonoid(MonoidOf(r.semiring, net.kind[g]))
    requires |marks| == |net.wires[g]| && k < |marks| && marks[k] && net.wires[g][k] < |net.kind|
    requires Absorbs(MonoidOf(r.semiring, net.kind[g]), Value(net, rank, r, net.wires[g][k]), y)
    ensures Absorbs(MonoidOf(r.semiring, net.kind[g]),
                    Fold(MonoidOf(r.semiring, net.kind[g]), Chosen(Values(net, rank, r, net.wires[g], rank[g]), marks, true)), y)
  {
    hide IsMonoid;
    hide Absorbs;
    var m, vals := MonoidOf(r.semiring, net.kind[g]), Values(net, rank, r, net.wires[g], rank[g]);
    InChosen(vals, marks, true, vals[k]);
    FoldAbsorbs(m, Chosen(vals, marks, true), vals[k], y);
  }

  lemma DropRepeats<V(!new)>(net: Net, rank: seq<nat>, r: Reading<V>, level: Level, g: nat, marks: seq<bool>)
    requires Ranked(net, rank) && g < |net.kind| && Admits(level, r.semiring) && Applies(level, net.kind[g])
    requires OnlyRepeats(net.wires[g], marks)
    ensures SameMeaning(net, WithGate(net, g, net.kind[g], Chosen(net.wires[g], marks, true)), rank, r)
  {
    hide IsSemiring;
    hide IsAbsorptive;
    hide IsLattice;
    hide IsMonoid;
    hide Admits;
    var ws, kind := net.wires[g], net.kind[g];
    var m := MonoidOf(r.semiring, kind);
    AdmitsSemiring(level, r.semiring, kind);
    assert Below(rank, ws, rank[g]);
    forall i | 0 <= i < |marks| && !marks[i]
      ensures Absorbs(m, Fold(m, Chosen(Values(net, rank, r, ws, rank[g]), marks, true)), Value(net, rank, r, ws[i]))
    {
      InChosen(ws, marks, true, ws[i]);
      var k :| 0 <= k < |ws| && marks[k] && ws[k] == ws[i];
      var x := Value(net, rank, r, ws[i]);
      KindLaws(level, r.semiring, kind, x, x);
      KeptAbsorbs(net, rank, r, g, marks, k, x);
    }
    DropWires(net, rank, r, g, marks);
  }

  // ----- One in a sum -----

  lemma OneInSum<V(!new)>(net: Net, rank: seq<nat>, r: Reading<V>, g: nat, k: nat)
    requires Ranked(net, rank) && g < |net.kind| && IsAbsorptive(r.semiring) && net.kind[g] == PlusGate
    requires k < |net.wires[g]| && net.wires[g][k] < |net.kind| && net.kind[net.wires[g][k]] == OneGate
    ensures SameMeaning(net, WithGate(net, g, OneGate, []), rank, r)
  {
    hide IsAbsorptive;
    var vals := Values(net, rank, r, net.wires[g], rank[g]);
    assert vals[k] == r.semiring.one;
    OneTerm(r.semiring, vals);
    RewriteGate(net, rank, r, g, OneGate, []);
  }

  // ----- Absorption -----

  /** Child c combines, the opposite way, some sibling in ws. */
  ghost predicate Dominated(net: Net, g: nat, c: nat) {
    && g < |net.kind| == |net.wires| && c < |net.kind| && net.kind[c] == Opposite(net.kind[g])
    && exists w :: w in net.wires[c] && w in net.wires[g]
  }

  /** Every wire set aside is dominated by a sibling, which may be set aside itself. */
  ghost predicate OnlyDominated(net: Net, g: nat, marks: seq<bool>) {
    && g < |net.kind| == |net.wires| && |marks| == |net.wires[g]|
    && forall i :: 0 <= i < |marks| && !marks[i] ==> Dominated(net, g, net.wires[g][i])
  }

  /** A dominated wire is absorbed by one that is kept: domination goes down in rank. */
  lemma {:induction false} KeptDominator<V(!new)>(net: Net, rank: seq<nat>, r: Reading<V>, level: Level, g: nat, marks: seq<bool>, i: nat)
    returns (k: nat)
    requires Ranked(net, rank) && g < |net.kind| && Admits(level, r.semiring) && Applies(level, net.kind[g])
    requires OnlyDominated(net, g, marks) && i < |marks| && net.wires[g][i] < |rank|
    ensures k < |marks| && marks[k] && net.wires[g][k] < |net.kind|
    ensures marks[i] || Absorbs(MonoidOf(r.semiring, net.kind[g]), Value(net, rank, r, net.wires[g][k]), Value(net, rank, r, net.wires[g][i]))
    ensures marks[i] ==> k == i
    decreases rank[net.wires[g][i]]
  {
    hide IsSemiring;
    hide IsAbsorptive;
    hide IsLattice;
    hide IsMonoid;
    hide Admits;
    if marks[i] {
      k := i;
    } else {
      var ws, c := net.wires[g], net.wires[g][i];
      assert Dominated(net, g, c);
      var w :| w in net.wires[c] && w in ws;
      var j :| 0 <= j < |ws| && ws[j] == w;
      WireAbsorbs(net, rank, r, level, g, c, w);
      k := KeptDominator(net, rank, r, level, g, marks, j);
      if !marks[j] {
        AdmitsSemiring(level, r.semiring, net.kind[g]);
        AbsorbsTrans(MonoidOf(r.semiring, net.kind[g]), Value(net, rank, r, ws[k]), Value(net, rank, r, w), Value(net, rank, r, c));
      }
    }
  }

  /** A value absorbs, in one operation, any combination of it in the other. */
  lemma WireAbsorbs<V(!new)>(net: Net, rank: seq<nat>, r: Reading<V>, level: Level, g: nat, c: nat, w: nat)
    requires Ranked(net, rank) && g < |net.kind| && c < |net.kind| && Admits(level, r.semiring) && Applies(level, net.kind[g])
    requires net.kind[c] == Opposite(net.kind[g]) && w in net.wires[c]
    ensures w < |net.kind| && rank[w] < rank[c]
    ensures Absorbs(MonoidOf(r.semiring, net.kind[g]), Value(net, rank, r, w), Value(net, rank, r, c))
  {
    hide IsSemiring;
    hide IsAbsorptive;
    hide IsLattice;
    hide IsMonoid;
    hide Admits;
    hide Absorbs;
    assert Below(rank, net.wires[c], rank[c]);
    var vals := Values(net, rank, r, net.wires[c], rank[c]);
    var i :| 0 <= i < |net.wires[c]| && net.wires[c][i] == w;
    assert vals[i] == Value(net, rank, r, w);
    AdmitsSemiring(level, r.semiring, net.kind[c]);
    var rest := FoldContains(MonoidOf(r.semiring, net.kind[c]), vals, vals[i]);
    KindLaws(level, r.semiring, net.kind[g], vals[i], rest);
  }

  lemma DropDominated<V(!new)>(net: Net, rank: seq<nat>, r: Reading<V>, level: Level, g: nat, marks: seq<bool>)
    requires Ranked(net, rank) && g < |net.kind| && Admits(level, r.semiring) && Applies(level, net.kind[g])
    requires OnlyDominated(net, g, marks)
    ensures SameMeaning(net, WithGate(net, g, net.kind[g], Chosen(net.wires[g], marks, true)), rank, r)
  {
    hide IsSemiring;
    hide IsAbsorptive;
    hide IsLattice;
    hide IsMonoid;
    hide Admits;
    var ws, kind := net.wires[g], net.kind[g];
    var m := MonoidOf(r.semiring, kind);
    AdmitsSemiring(level, r.semiring, kind);
    assert Below(rank, ws, rank[g]);
    forall i | 0 <= i < |marks| && !marks[i]
      ensures Absorbs(m, Fold(m, Chosen(Values(net, rank, r, ws, rank[g]), marks, true)), Value(net, rank, r, ws[i]))
    {
      var k := KeptDominator(net, rank, r, level, g, marks, i);
      KeptAbsorbs(net, rank, r, g, marks, k, Value(net, rank, r, ws[i]));
    }
    DropWires(net, rank, r, g, marks);
  }
}
