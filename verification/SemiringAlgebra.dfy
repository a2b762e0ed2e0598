/** Commutative monoids and semirings over any carrier, and which terms of a finite sum or
    product may be dropped.  */
module SemiringAlgebra {

  datatype Monoid<!V> = Monoid(op: (V, V) -> V, unit: V)

  ghost predicate IsMonoid<V(!new)>(m: Monoid<V>) {
    Commutes(m) && Associates(m) && forall a :: m.op(a, m.unit) == a
  }

  ghost predicate Commutes<V(!new)>(m: Monoid<V>) {
    forall a, b :: m.op(a, b) == m.op(b, a)
  }

  ghost predicate Associates<V(!new)>(m: Monoid<V>) {
    forall a, b, c :: m.op(m.op(a, b), c) == m.op(a, m.op(b, c))
  }

  lemma Commute<V(!new)>(m: Monoid<V>, a: V, b: V)
    requires IsMonoid(m)
    ensures m.op(a, b) == m.op(b, a)
  {
  }

  lemma Regroup<V(!new)>(m: Monoid<V>, a: V, b: V, c: V)
    requires IsMonoid(m)
    ensures m.op(m.op(a, b), c) == m.op(a, m.op(b, c))
  {
  }

  lemma Unit<V(!new)>(m: Monoid<V>, a: V)
    requires IsMonoid(m)
    ensures m.op(a, m.unit) == a
  {
  }

  /** The combination of a list of values; the unit for the empty list. */
  function Fold<V>(m: Monoid<V>, s: seq<V>): V {
    if s == [] then m.unit else m.op(Fold(m, s[..|s| - 1]), s[|s| - 1])
  }

  datatype Semiring<!V> = Semiring(zero: V, one: V, plus: (V, V) -> V, times: (V, V) -> V) {
    function Additive(): Monoid<V> {
      Monoid(plus, zero)
    }

    function Multiplicative(): Monoid<V> {
      Monoid(times, one)
    }
  }

  /** A commutative semiring. */
  ghost predicate IsSemiring<V(!new)>(s: Semiring<V>) {
    IsMonoid(s.Additive()) && IsMonoid(s.Multiplicative()) && Distributes(s) && forall a :: s.times(a, s.zero) == s.zero
  }

  ghost predicate Distributes<V(!new)>(s: Semiring<V>) {
    forall a, b, c :: s.times(a, s.plus(b, c)) == s.plus(s.times(a, b), s.times(a, c))
  }

  /** One absorbs under addition. */
  ghost predicate IsAbsorptive<V(!new)>(s: Semiring<V>) {
    IsSemiring(s) && forall a :: s.plus(s.one, a) == s.one
  }

  /** A bounded distributive lattice. */
  ghost predicate IsLattice<V(!new)>(s: Semiring<V>) {
    IsAbsorptive(s) && forall a :: s.times(a, a) == a
  }

  /** Combining y adds nothing to x. */
  ghost predicate Absorbs<V>(m: Monoid<V>, x: V, y: V) {
    m.op(x, y) == x
  }

  lemma AbsorbsMore<V(!new)>(m: Monoid<V>, x: V, y: V, z: V)
    requires IsMonoid(m) && Absorbs(m, x, y)
    ensures Absorbs(m, m.op(x, z), y) && Absorbs(m, m.op(z, x), y)
  {
    hide IsMonoid;
    Regroup(m, x, z, y);
    Commute(m, z, y);
    Regroup(m, x, y, z);
    Commute(m, x, z);
  }

  lemma {:induction false} FoldAbsorbs<V(!new)>(m: Monoid<V>, s: seq<V>, x: V, y: V)
    requires IsMonoid(m) && x in s && Absorbs(m, x, y)
    ensures Absorbs(m, Fold(m, s), y)
  {
    hide IsMonoid;
    hide Absorbs;
    var init, last := s[..|s| - 1], s[|s| - 1];
    if last == x {
      AbsorbsMore(m, x, y, Fold(m, init));
    } else {
      FoldAbsorbs(m, init, x, y);
      AbsorbsMore(m, Fold(m, init), y, last);
    }
  }

  /** Whatever is absorbed one at a time is absorbed together. */
  lemma {:induction false} FoldAbsorbsAll<V(!new)>(m: Monoid<V>, x: V, s: seq<V>)
    requires IsMonoid(m) && forall y :: y in s ==> Absorbs(m, x, y)
    ensures Absorbs(m, x, Fold(m, s))
  {
    hide IsMonoid;
    Unit(m, x);
    if s != [] {
      var init, last := s[..|s| - 1], s[|s| - 1];
      assert forall y :: y in init ==> y in s;
      FoldAbsorbsAll(m, x, init);
      Regroup(m, x, Fold(m, init), last);
      assert last in s;
    }
  }

  /** Keeping some terms and setting the others aside does not change the combination. */
  lemma {:induction false} FoldSplit<V(!new)>(m: Monoid<V>, s: seq<V>, kept: seq<bool>)
    requires IsMonoid(m) && |kept| == |s|
    ensures Fold(m, s) == m.op(Fold(m, Chosen(s, kept, true)), Fold(m, Chosen(s, kept, false)))
  {
    hide IsMonoid;
    Unit(m, m.unit);
    if s != [] {
      var n := |s| - 1;
      var init, last, k := s[..n], s[n], kept[..n];
      FoldSplit(m, init, k);
      var a, b := Fold(m, Chosen(init, k, true)), Fold(m, Chosen(init, k, false));
      FoldLast(m, Chosen(init, k, true), last);
      FoldLast(m, Chosen(init, k, false), last);
      Regroup(m, a, b, last);
      Regroup(m, a, last, b);
      Commute(m, last, b);
    }
  }

  lemma FoldLast<V>(m: Monoid<V>, s: seq<V>, x: V)
    ensures Fold(m, s + [x]) == m.op(Fold(m, s), x)
  {
    assert (s + [x])[..|s|] == s;
  }

  /** The elements whose mark is b, in order. */
  function Chosen<T>(s: seq<T>, marks: seq<bool>, b: bool): seq<T>
    requires |marks| == |s|
  {
    if s == [] then []
    else
      var rest := Chosen(s[..|s| - 1], marks[..|s| - 1], b);
      if marks[|s| - 1] == b then rest + [s[|s| - 1]] else rest
  }

  lemma {:induction false} InChosen<T>(s: seq<T>, marks: seq<bool>, b: bool, x: T)
    requires |marks| == |s|
    ensures x in Chosen(s, marks, b) <==> exists i :: 0 <= i < |s| && marks[i] == b && s[i] == x
  {
    if s != [] {
      var n := |s| - 1;
      InChosen(s[..n], marks[..n], b, x);
      assert forall i :: 0 <= i < n ==> s[..n][i] == s[i] && marks[..n][i] == marks[i];
    }
  }

  lemma ChosenIn<T>(s: seq<T>, marks: seq<bool>, i: nat)
    requires |marks| == |s| && i < |s| && marks[i]
    ensures s[i] in Chosen(s, marks, true)
  {
    InChosen(s, marks, true, s[i]);
    assert marks[i] == true && s[i] == s[i];
  }

  /** Terms that some kept combination absorbs may be dropped. */
  lemma DropAbsorbed<V(!new)>(m: Monoid<V>, s: seq<V>, marks: seq<bool>)
    requires IsMonoid(m) && |marks| == |s|
    requires forall i :: 0 <= i < |s| && !marks[i] ==> Absorbs(m, Fold(m, Chosen(s, marks, true)), s[i])
    ensures Fold(m, s) == Fold(m, Chosen(s, marks, true))
  {
    FoldSplit(m, s, marks);
    forall y | y in Chosen(s, marks, false) ensures Absorbs(m, Fold(m, Chosen(s, marks, true)), y) {
      InChosen(s, marks, false, y);
    }
    FoldAbsorbsAll(m, Fold(m, Chosen(s, marks, true)), Chosen(s, marks, false));
  }

  // ----- The laws behind the rules -----

  lemma Annihilate<V(!new)>(s: Semiring<V>, a: V)
    requires IsSemiring(s)
    ensures s.times(a, s.zero) == s.zero == s.times(s.zero, a)
  {
    Commute(s.Multiplicative(), a, s.zero);
  }

  lemma OneAbsorbs<V(!new)>(s: Semiring<V>, a: V)
    requires IsAbsorptive(s)
    ensures s.plus(s.one, a) == s.one == s.plus(a, s.one)
  {
    Commute(s.Additive(), a, s.one);
  }

  lemma {:induction false} ZeroFactor<V(!new)>(s: Semiring<V>, vals: seq<V>)
    requires IsSemiring(s) && s.zero in vals
    ensures Fold(s.Multiplicative(), vals) == s.zero
  {
    hide IsSemiring;
    var m, init, last := s.Multiplicative(), vals[..|vals| - 1], vals[|vals| - 1];
    Annihilate(s, last);
    Annihilate(s, Fold(m, init));
    if last != s.zero { ZeroFactor(s, init); }
  }

  lemma {:induction false} OneTerm<V(!new)>(s: Semiring<V>, vals: seq<V>)
    requires IsAbsorptive(s) && s.one in vals
    ensures Fold(s.Additive(), vals) == s.one
  {
    hide IsAbsorptive;
    var m, init, last := s.Additive(), vals[..|vals| - 1], vals[|vals| - 1];
    OneAbsorbs(s, last);
    OneAbsorbs(s, Fold(m, init));
    if last != s.one { OneTerm(s, init); }
  }

  /** a + a = a, and a + ab = a, in every absorptive semiring. */
  lemma AbsorptiveLaws<V(!new)>(s: Semiring<V>, a: V, b: V)
    requires IsAbsorptive(s)
    ensures Absorbs(s.Additive(), a, a) && Absorbs(s.Additive(), a, s.times(a, b))
  {
    hide IsMonoid;
    assert s.times(a, s.plus(s.one, b)) == s.plus(s.times(a, s.one), s.times(a, b));
    assert s.times(a, s.plus(s.one, s.one)) == s.plus(s.times(a, s.one), s.times(a, s.one));
    Unit(s.Multiplicative(), a);
  }

  /** a a = a, and a (a + b) = a, in every bounded distributive lattice. */
  lemma LatticeLaws<V(!new)>(s: Semiring<V>, a: V, b: V)
    requires IsLattice(s)
    ensures Absorbs(s.Multiplicative(), a, a) && Absorbs(s.Multiplicative(), a, s.plus(a, b))
  {
    AbsorptiveLaws(s, a, b);
    assert s.times(a, s.plus(a, b)) == s.plus(s.times(a, a), s.times(a, b));
  }

  /** A combination of values is a combination of any one of them with something. */
  lemma {:induction false} FoldContains<V(!new)>(m: Monoid<V>, s: seq<V>, x: V) returns (rest: V)
    requires IsMonoid(m) && x in s
    ensures Fold(m, s) == m.op(x, rest)
  {
    hide IsMonoid;
    var init, last := s[..|s| - 1], s[|s| - 1];
    if last == x {
      rest := Fold(m, init);
      Commute(m, x, rest);
    } else {
      var r := FoldContains(m, init, x);
      rest := m.op(r, last);
      Regroup(m, x, r, last);
    }
  }
}
