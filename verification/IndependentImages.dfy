/** Worlds computed from other worlds: if each coordinate of the image is computed from
    its own variables and has the right distribution, so has the whole image. */
module IndependentImages {
  import opened Reals
  import opened Worlds
  import opened Probability

  /** The event that coordinate i of the image is k. */
  function Yields(F: World -> World, i: nat, k: nat): Event {
    w => i < |F(w)| && F(w)[i] == k
  }

  /** The event e, read through F. */
  function Through(F: World -> World, e: Event): Event {
    w => e(F(w))
  }

  /** F maps possible worlds of q to worlds of d, coordinate i being computed from the
      variables us[i] with the distribution d[i]. */
  ghost predicate Represents(q: Space, d: Space, F: World -> World, us: seq<set<nat>>) {
    && Prob(q) && Prob(d) && |us| == |d|
    && (forall w :: Possible(q, w) ==> InSpace(d, F(w)))
    && (forall i, j :: 0 <= i < j < |us| ==> us[i] !! us[j])
    && (forall i: nat, k: nat :: i < |d| ==> DecidedBy(q, Yields(F, i, k), us[i]))
    && (forall i: nat, k: nat :: i < |d| && k < |d[i]| ==> Pr(q, Yields(F, i, k)) == d[i][k])
  }

  ghost predicate InSpace(d: Space, u: World) {
    |u| == |d| && forall i :: 0 <= i < |d| ==> u[i] < |d[i]|
  }

  // ----- Expectations ignore the coordinates they sum over -----

  lemma {:induction false} FromPrefix(d: Space, i: nat, j: nat, X: World -> real, u: World, w: World)
    requires i <= |d| == |u| == |w| && u[..i] == w[..i]
    ensures E(d, i, j, X, u) == E(d, i, j, X, w)
    decreases |d| - i, if i < |d| then |d[i]| - j else 0
  {
    if i == |d| {
      assert u == u[..i] && w == w[..i];
    } else if j < |d[i]| {
      hide Mul;
      FromPrefix(d, i, j + 1, X, u, w);
      assert u[i := j][..i + 1] == u[..i] + [j] == w[i := j][..i + 1];
      FromPrefix(d, i + 1, 0, X, u[i := j], w[i := j]);
    }
  }

  /** The expectation over the coordinates from i on, outcomes from j on, at the image of w. */
  ghost function Tail(d: Space, i: nat, j: nat, X: World -> real, F: World -> World): World -> real
    requires i <= |d|
  {
    w => if |F(w)| == |d| then E(d, i, j, X, F(w)) else 0.0
  }

  /** The same with coordinate i fixed to k. */
  ghost function Fixed(d: Space, i: nat, k: nat, X: World -> real, F: World -> World): World -> real
    requires i < |d|
  {
    w => if |F(w)| == |d| then E(d, i + 1, 0, X, F(w)[i := k]) else 0.0
  }

  /** The worlds whose image has coordinate i among j, j+1, ... */
  ghost function Row(d: Space, i: nat, j: nat, X: World -> real, F: World -> World): World -> real
    requires i < |d|
  {
    w => if |F(w)| == |d| && F(w)[i] >= j then E(d, i + 1, 0, X, F(w)) else 0.0
  }

  /** The variables behind the first n coordinates. */
  ghost function Behind(us: seq<set<nat>>, n: nat): set<nat>
    requires n <= |us|
  {
    set i, v | 0 <= i < n && v in us[i] :: v
  }

  lemma FixedDepends(q: Space, d: Space, F: World -> World, us: seq<set<nat>>, i: nat, k: nat, X: World -> real)
    requires Represents(q, d, F, us) && i < |d|
    ensures Depends(q, Fixed(d, i, k, X, F), Behind(us, i)) && Behind(us, i) !! us[i]
  {
    var Y := Fixed(d, i, k, X, F);
    forall u, w | Possible(q, u) && Possible(q, w) && Agree(u, w, Behind(us, i)) ensures Y(u) == Y(w) {
      assert InSpace(d, F(u)) && InSpace(d, F(w));
      forall v: nat | v < i ensures F(u)[v] == F(w)[v] {
        assert DecidedBy(q, Yields(F, v, F(u)[v]), us[v]);
        assert Agree(u, w, us[v]);
        assert Yields(F, v, F(u)[v])(u) == Yields(F, v, F(u)[v])(w);
      }
      assert F(u)[i := k][..i + 1] == F(w)[i := k][..i + 1];
      FromPrefix(d, i + 1, 0, X, F(u)[i := k], F(w)[i := k]);
    }
  }

  lemma CoordinateLaw(q: Space, d: Space, F: World -> World, us: seq<set<nat>>, i: nat, k: nat)
    requires Represents(q, d, F, us) && i < |d| && k < |d[i]|
    ensures Prob(q) && |us| == |d| && Depends(q, Ind(Yields(F, i, k)), us[i]) && Ex(q, Ind(Yields(F, i, k))) == d[i][k]
  {
    DecidedDepends(q, Yields(F, i, k), us[i]);
    assert Pr(q, Yields(F, i, k)) == d[i][k];
  }

  lemma ImagesInSpace(q: Space, d: Space, F: World -> World, us: seq<set<nat>>)
    requires Represents(q, d, F, us)
    ensures Prob(q) && forall w :: Possible(q, w) ==> InSpace(d, F(w))
  {
  }

  lemma IndepMul(d: Space, X: World -> real, xs: set<nat>, Y: World -> real, ys: set<nat>, Z: World -> real)
    requires Prob(d) && Depends(d, X, xs) && Depends(d, Y, ys) && xs !! ys
    requires forall u :: Z(u) == Times(X, Y)(u)
    ensures Ex(d, Z) == Mul(Ex(d, X), Ex(d, Y))
  {
    hide Ex;
    hide Depends;
    Indep(d, X, xs, Y, ys, Z);
  }

  lemma ScaleMul(d: Space, a: real, X: World -> real)
    requires Weights(d)
    ensures Ex(d, Scaled(a, X)) == Mul(a, Ex(d, X))
  {
    hide Ex;
    Scale(d, a, X, Scaled(a, X));
  }

  /** One outcome of coordinate i: independent of the earlier coordinates. */
  lemma OneOutcome(q: Space, d: Space, F: World -> World, us: seq<set<nat>>, i: nat, k: nat, X: World -> real)
    requires Represents(q, d, F, us) && i < |d| && k < |d[i]|
    ensures Ex(q, Times(Ind(Yields(F, i, k)), Fixed(d, i, k, X, F))) == Mul(d[i][k], Ex(q, Fixed(d, i, k, X, F)))
  {
    FixedDepends(q, d, F, us, i, k, X);
    CoordinateLaw(q, d, F, us, i, k);
    var A, Y := Ind(Yields(F, i, k)), Fixed(d, i, k, X, F);
    hide *;
    IndepMul(q, A, us[i], Y, Behind(us, i), Times(A, Y));
  }

  /** The worlds with coordinate i at least j contribute as the outcomes from j on. */
  lemma {:induction false} RowIsTail(q: Space, d: Space, F: World -> World, us: seq<set<nat>>, i: nat, j: nat, X: World -> real)
    requires Represents(q, d, F, us) && i < |d|
    ensures Ex(q, Row(d, i, j, X, F)) == Ex(q, Tail(d, i, j, X, F))
    decreases |d[i]| - j
  {
    if j >= |d[i]| {
      NoOutcome(q, d, F, us, i, j, X);
    } else {
      hide Represents;
      hide Ex;
      hide Mul;
      RowIsTail(q, d, F, us, i, j + 1, X);
      OneOutcome(q, d, F, us, i, j, X);
      RowSplit(q, d, F, us, i, j, X);
      TailSplit(q, d, F, us, i, j, X);
    }
  }

  lemma NoOutcome(q: Space, d: Space, F: World -> World, us: seq<set<nat>>, i: nat, j: nat, X: World -> real)
    requires Represents(q, d, F, us) && i < |d| <= |us| && j >= |d[i]|
    ensures Ex(q, Row(d, i, j, X, F)) == Ex(q, Tail(d, i, j, X, F))
  {
    forall w | Possible(q, w) ensures Row(d, i, j, X, F)(w) == Tail(d, i, j, X, F)(w) {
      assert InSpace(d, F(w));
    }
    hide Ex;
    Same(q, Row(d, i, j, X, F), Tail(d, i, j, X, F));
  }

  lemma RowSplit(q: Space, d: Space, F: World -> World, us: seq<set<nat>>, i: nat, j: nat, X: World -> real)
    requires Represents(q, d, F, us) && i < |d| && j < |d[i]|
    ensures Ex(q, Row(d, i, j, X, F))
         == Ex(q, Times(Ind(Yields(F, i, j)), Fixed(d, i, j, X, F))) + Ex(q, Row(d, i, j + 1, X, F))
  {
    var A, B, C := Times(Ind(Yields(F, i, j)), Fixed(d, i, j, X, F)), Row(d, i, j + 1, X, F), Row(d, i, j, X, F);
    forall w | Possible(q, w) ensures C(w) == Plus(A, B)(w) {
      assert InSpace(d, F(w));
      hide E;
      if F(w)[i] == j { assert F(w)[i := j] == F(w); }
    }
    hide Ex;
    Add(q, A, B, C);
  }

  lemma TailSplit(q: Space, d: Space, F: World -> World, us: seq<set<nat>>, i: nat, j: nat, X: World -> real)
    requires Represents(q, d, F, us) && i < |d| && j < |d[i]|
    ensures Ex(q, Tail(d, i, j, X, F)) == Mul(d[i][j], Ex(q, Fixed(d, i, j, X, F))) + Ex(q, Tail(d, i, j + 1, X, F))
  {
    hide Represents;
    ImagesInSpace(q, d, F, us);
    var A, B, C := Scaled(d[i][j], Fixed(d, i, j, X, F)), Tail(d, i, j + 1, X, F), Tail(d, i, j, X, F);
    forall w | Possible(q, w) ensures C(w) == Plus(A, B)(w) {
      hide *;
      OneStep(d, i, j, X, F, w);
    }
    hide *;
    Add(q, A, B, C);
    ScaleMul(q, d[i][j], Fixed(d, i, j, X, F));
  }

  lemma OneStep(d: Space, i: nat, j: nat, X: World -> real, F: World -> World, w: World)
    requires i < |d| && j < |d[i]| && InSpace(d, F(w))
    ensures Tail(d, i, j, X, F)(w) == Plus(Scaled(d[i][j], Fixed(d, i, j, X, F)), Tail(d, i, j + 1, X, F))(w)
  {
  }

  lemma {:induction false} TailIsAll(q: Space, d: Space, F: World -> World, us: seq<set<nat>>, i: nat, X: World -> real)
    requires Represents(q, d, F, us) && i <= |d|
    ensures Ex(q, Tail(d, i, 0, X, F)) == Ex(d, X)
    decreases i
  {
    if i == 0 {
      forall w | Possible(q, w) ensures Tail(d, 0, 0, X, F)(w) == Ex(d, X) {
        assert InSpace(d, F(w));
        FromPrefix(d, 0, 0, X, F(w), Base(d));
      }
      hide Ex;
      Const(q, Ex(d, X), Tail(d, 0, 0, X, F));
    } else {
      TailIsAll(q, d, F, us, i - 1, X);
      RowIsTail(q, d, F, us, i - 1, 0, X);
      forall w | Possible(q, w) ensures Row(d, i - 1, 0, X, F)(w) == Tail(d, i, 0, X, F)(w) {
        assert InSpace(d, F(w));
      }
      hide Ex;
      Same(q, Row(d, i - 1, 0, X, F), Tail(d, i, 0, X, F));
    }
  }

  /** An event has the same probability over d as, read through F, over q. */
  lemma ImagePr(q: Space, d: Space, F: World -> World, us: seq<set<nat>>, e: Event)
    requires Represents(q, d, F, us)
    ensures Pr(q, Through(F, e)) == Pr(d, e)
  {
    TailIsAll(q, d, F, us, |d|, Ind(e));
    forall w | Possible(q, w) ensures Tail(d, |d|, 0, Ind(e), F)(w) == Ind(Through(F, e))(w) {
      assert InSpace(d, F(w));
    }
    hide Ex;
    Same(q, Tail(d, |d|, 0, Ind(e), F), Ind(Through(F, e)));
  }

  // ----- The remaining outcome -----

  /** The event that coordinate i of the image is at least k. */
  function AtLeast(F: World -> World, i: nat, k: nat): Event {
    w => i < |F(w)| && F(w)[i] >= k
  }

  lemma {:induction false} AtLeastTotal(q: Space, ws: seq<real>, F: World -> World, i: nat, k: nat)
    requires Prob(q) && k <= |ws|
    requires forall w :: Possible(q, w) ==> i < |F(w)| && F(w)[i] < |ws|
    requires forall j: nat :: k <= j < |ws| ==> Pr(q, Yields(F, i, j)) == ws[j]
    ensures Pr(q, AtLeast(F, i, k)) == Total(ws, k)
    decreases |ws| - k
  {
    hide Pr;
    if k == |ws| {
      PrSure(q, AtLeast(F, i, k));
    } else {
      AtLeastTotal(q, ws, F, i, k + 1);
      PrSplit(q, Yields(F, i, k), AtLeast(F, i, k + 1), AtLeast(F, i, k));
    }
  }

  /** If all outcomes but the first have the right probability, so has the first. */
  lemma FirstOutcome(q: Space, ws: seq<real>, F: World -> World, i: nat)
    requires Prob(q) && |ws| > 0 && Total(ws, 0) == 1.0
    requires forall w :: Possible(q, w) ==> i < |F(w)| && F(w)[i] < |ws|
    requires forall j: nat :: 1 <= j < |ws| ==> Pr(q, Yields(F, i, j)) == ws[j]
    ensures Pr(q, Yields(F, i, 0)) == ws[0]
  {
    hide Pr;
    AtLeastTotal(q, ws, F, i, 1);
    PrSure(q, AtLeast(F, i, 0));
    PrSplit(q, Yields(F, i, 0), AtLeast(F, i, 1), AtLeast(F, i, 0));
  }
}
