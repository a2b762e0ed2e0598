/** Finite product measures: the reference meaning of every probability below.

    A world gives each variable an outcome; a space gives each outcome of each
    variable a weight.  Expectations are plain sums over all worlds.  */
module Worlds {
  import opened Reals

  type World = seq<nat>
  type Space = seq<seq<real>>
  type Event = World -> bool

  // ----- Spaces and worlds -----

  function Total(ws: seq<real>, j: nat): real
    decreases |ws| - j
  {
    if j >= |ws| then 0.0 else ws[j] + Total(ws, j + 1)
  }

  ghost predicate Weights(d: Space) {
    forall v, j :: 0 <= v < |d| && 0 <= j < |d[v]| ==> 0.0 <= d[v][j]
  }

  /** A probability space: non-negative weights that sum to one at every variable. */
  ghost predicate Prob(d: Space) {
    Weights(d) && forall v :: 0 <= v < |d| ==> Total(d[v], 0) == 1.0
  }

  /** The first n coordinates of w are outcomes of positive weight. */
  ghost predicate PossibleTo(d: Space, n: nat, w: World) {
    n <= |d| == |w| && forall v :: 0 <= v < n ==> w[v] < |d[v]| && d[v][w[v]] > 0.0
  }

  ghost predicate Possible(d: Space, w: World) {
    PossibleTo(d, |d|, w)
  }

  // ----- Expectation -----

  /** The expectation of X over variables i, i+1, ..., with variable i restricted to
      outcomes j, j+1, ...; earlier variables are read off w. */
  ghost function E(d: Space, i: nat, j: nat, X: World -> real, w: World): real
    requires i <= |d| == |w|
    decreases |d| - i, if i < |d| then |d[i]| - j else 0
  {
    if i == |d| then X(w)
    else if j >= |d[i]| then 0.0
    else Mul(d[i][j], E(d, i + 1, 0, X, w[i := j])) + E(d, i, j + 1, X, w)
  }

  function Base(d: Space): (w: World)
    ensures |w| == |d|
  {
    seq(|d|, _ => 0)
  }

  ghost function Ex(d: Space, X: World -> real): real {
    E(d, 0, 0, X, Base(d))
  }

  function Ind(e: Event): World -> real {
    w => if e(w) then 1.0 else 0.0
  }

  /** The probability of an event: the total weight of its worlds. */
  ghost function Pr(d: Space, e: Event): real {
    Ex(d, Ind(e))
  }

  // ----- Linearity and monotonicity -----

  lemma {:induction false} Mono(d: Space, i: nat, j: nat, X: World -> real, Y: World -> real, w: World)
    requires Weights(d) && PossibleTo(d, i, w)
    requires forall u :: Possible(d, u) ==> X(u) <= Y(u)
    ensures E(d, i, j, X, w) <= E(d, i, j, Y, w)
    decreases |d| - i, if i < |d| then |d[i]| - j else 0
  {
    if i == |d| {
      assert Possible(d, w);
    } else if j < |d[i]| {
      hide Mul;
      Mono(d, i, j + 1, X, Y, w);
      var x, y := E(d, i + 1, 0, X, w[i := j]), E(d, i + 1, 0, Y, w[i := j]);
      if d[i][j] > 0.0 {
        Mono(d, i + 1, 0, X, Y, w[i := j]);
        MulMono(d[i][j], x, y);
      } else {
        MulZero(x);
        MulZero(y);
      }
    }
  }

  /** Only possible worlds count. */
  lemma Same(d: Space, X: World -> real, Y: World -> real)
    requires Weights(d)
    requires forall u :: Possible(d, u) ==> X(u) == Y(u)
    ensures Ex(d, X) == Ex(d, Y)
  {
    Mono(d, 0, 0, X, Y, Base(d));
    Mono(d, 0, 0, Y, X, Base(d));
  }

  function Plus(X: World -> real, Y: World -> real): World -> real {
    u => X(u) + Y(u)
  }

  lemma {:induction false} AddStep(d: Space, i: nat, j: nat, X: World -> real, Y: World -> real, w: World)
    requires i <= |d| == |w|
    ensures E(d, i, j, Plus(X, Y), w) == E(d, i, j, X, w) + E(d, i, j, Y, w)
    decreases |d| - i, if i < |d| then |d[i]| - j else 0
  {
    if i < |d| && j < |d[i]| {
      hide Mul;
      AddStep(d, i, j + 1, X, Y, w);
      AddStep(d, i + 1, 0, X, Y, w[i := j]);
      MulAdd(d[i][j], E(d, i + 1, 0, X, w[i := j]), E(d, i + 1, 0, Y, w[i := j]));
    }
  }

  lemma Add(d: Space, X: World -> real, Y: World -> real, Z: World -> real)
    requires Weights(d)
    requires forall u :: Possible(d, u) ==> Z(u) == Plus(X, Y)(u)
    ensures Ex(d, Z) == Ex(d, X) + Ex(d, Y)
  {
    hide E;
    Same(d, Z, Plus(X, Y));
    AddStep(d, 0, 0, X, Y, Base(d));
  }

  function Scaled(a: real, X: World -> real): World -> real {
    u => a * X(u)
  }

  lemma {:induction false} ScaleStep(d: Space, i: nat, j: nat, a: real, X: World -> real, w: World)
    requires i <= |d| == |w|
    ensures E(d, i, j, Scaled(a, X), w) == Mul(a, E(d, i, j, X, w))
    decreases |d| - i, if i < |d| then |d[i]| - j else 0
  {
    if i < |d| {
      hide Mul;
      if j < |d[i]| {
        ScaleStep(d, i, j + 1, a, X, w);
        ScaleStep(d, i + 1, 0, a, X, w[i := j]);
        MulMove(a, d[i][j], E(d, i + 1, 0, X, w[i := j]));
        MulAdd(a, Mul(d[i][j], E(d, i + 1, 0, X, w[i := j])), E(d, i, j + 1, X, w));
      } else {
        MulZero(a);
      }
    }
  }

  lemma Scale(d: Space, a: real, X: World -> real, Z: World -> real)
    requires Weights(d)
    requires forall u :: Possible(d, u) ==> Z(u) == Scaled(a, X)(u)
    ensures Ex(d, Z) == a * Ex(d, X)
  {
    hide E;
    Same(d, Z, Scaled(a, X));
    ScaleStep(d, 0, 0, a, X, Base(d));
  }

  lemma {:induction false} ConstStep(d: Space, i: nat, j: nat, a: real, X: World -> real, w: World)
    requires Prob(d) && PossibleTo(d, i, w)
    requires forall u :: Possible(d, u) ==> X(u) == a
    ensures E(d, i, j, X, w) == if i == |d| then a else Mul(Total(d[i], j), a)
    decreases |d| - i, if i < |d| then |d[i]| - j else 0
  {
    hide Mul;
    if i == |d| {
      assert Possible(d, w);
    } else if j < |d[i]| {
      ConstStep(d, i, j + 1, a, X, w);
      var e := E(d, i + 1, 0, X, w[i := j]);
      if d[i][j] > 0.0 {
        ConstStep(d, i + 1, 0, a, X, w[i := j]);
        MulOne(a);
      } else {
        MulZero(e);
        MulZero(a);
      }
      MulAdd(a, d[i][j], Total(d[i], j + 1));
    } else {
      MulZero(a);
    }
  }

  /** What has the same value in every possible world has that expectation. */
  lemma Const(d: Space, a: real, X: World -> real)
    requires Prob(d)
    requires forall u :: Possible(d, u) ==> X(u) == a
    ensures Ex(d, X) == a
  {
    ConstStep(d, 0, 0, a, X, Base(d));
  }

  // ----- Dependence and independence -----

  ghost predicate Agree(u: World, w: World, vs: set<nat>) {
    forall v :: v in vs && v < |u| && v < |w| ==> u[v] == w[v]
  }

  /** On possible worlds, X is a function of the variables vs alone. */
  ghost predicate Depends(d: Space, X: World -> real, vs: set<nat>) {
    forall u, w {:trigger X(u), X(w)} ::
      Possible(d, u) && Possible(d, w) && Agree(u, w, vs) ==> X(u) == X(w)
  }

  lemma {:induction false} Local(d: Space, i: nat, j: nat, X: World -> real, vs: set<nat>, u: World, w: World)
    requires Weights(d) && PossibleTo(d, i, u) && PossibleTo(d, i, w)
    requires Depends(d, X, vs)
    requires forall v :: v in vs && v < i ==> u[v] == w[v]
    ensures E(d, i, j, X, u) == E(d, i, j, X, w)
    decreases |d| - i, if i < |d| then |d[i]| - j else 0
  {
    if i == |d| {
      assert Possible(d, u) && Possible(d, w) && Agree(u, w, vs);
    } else if j < |d[i]| {
      hide Mul;
      Local(d, i, j + 1, X, vs, u, w);
      if d[i][j] > 0.0 {
        Local(d, i + 1, 0, X, vs, u[i := j], w[i := j]);
      } else {
        MulZero(E(d, i + 1, 0, X, u[i := j]));
        MulZero(E(d, i + 1, 0, X, w[i := j]));
      }
    }
  }

  lemma {:induction false} SomeOutcome(ws: seq<real>, j: nat) returns (k: nat)
    requires Total(ws, j) > 0.0
    ensures j <= k < |ws| && ws[k] > 0.0
    decreases |ws| - j
  {
    if ws[j] > 0.0 { k := j; } else { k := SomeOutcome(ws, j + 1); }
  }

  /** A variable outside vs does not matter: any possible outcome k of it may be fixed. */
  lemma {:induction false} Skip(d: Space, i: nat, j: nat, X: World -> real, vs: set<nat>, w: World, k: nat)
    requires Prob(d) && i < |d| && PossibleTo(d, i, w)
    requires Depends(d, X, vs) && i !in vs
    requires k < |d[i]| && d[i][k] > 0.0
    ensures E(d, i, j, X, w) == Mul(Total(d[i], j), E(d, i + 1, 0, X, w[i := k]))
    decreases |d[i]| - j
  {
    hide Mul;
    var e := E(d, i + 1, 0, X, w[i := k]);
    if j < |d[i]| {
      Skip(d, i, j + 1, X, vs, w, k);
      if d[i][j] > 0.0 {
        Local(d, i + 1, 0, X, vs, w[i := j], w[i := k]);
      } else {
        MulZero(E(d, i + 1, 0, X, w[i := j]));
        MulZero(e);
      }
      MulAdd(e, d[i][j], Total(d[i], j + 1));
    } else {
      MulZero(e);
    }
  }

  function Times(X: World -> real, Y: World -> real): World -> real {
    u => X(u) * Y(u)
  }

  lemma {:induction false} IndepStep(d: Space, i: nat, X: World -> real, xs: set<nat>, Y: World -> real, ys: set<nat>, w: World)
    requires Prob(d) && PossibleTo(d, i, w)
    requires Depends(d, X, xs) && Depends(d, Y, ys) && xs !! ys
    ensures E(d, i, 0, Times(X, Y), w) == Mul(E(d, i, 0, X, w), E(d, i, 0, Y, w))
    decreases |d| - i, 1, 0
  {
    if i < |d| {
      hide Mul;
      var k := SomeOutcome(d[i], 0);
      var x, y := E(d, i + 1, 0, X, w[i := k]), E(d, i + 1, 0, Y, w[i := k]);
      if i in xs {
        Skip(d, i, 0, Y, ys, w, k);
        IndepLeft(d, i, 0, X, xs, Y, ys, w, k);
        MulOne(y);
        MulComm(E(d, i, 0, X, w), y);
      } else {
        Skip(d, i, 0, X, xs, w, k);
        IndepRight(d, i, 0, X, xs, Y, ys, w, k);
        MulOne(x);
      }
    }
  }

  lemma {:induction false} IndepLeft(d: Space, i: nat, j: nat, X: World -> real, xs: set<nat>,
                                     Y: World -> real, ys: set<nat>, w: World, k: nat)
    requires Prob(d) && i < |d| && PossibleTo(d, i, w)
    requires Depends(d, X, xs) && Depends(d, Y, ys) && xs !! ys && i !in ys
    requires k < |d[i]| && d[i][k] > 0.0
    ensures E(d, i, j, Times(X, Y), w) == Mul(E(d, i + 1, 0, Y, w[i := k]), E(d, i, j, X, w))
    decreases |d| - i, 0, |d[i]| - j
  {
    hide Mul;
    var y := E(d, i + 1, 0, Y, w[i := k]);
    if j < |d[i]| {
      IndepLeft(d, i, j + 1, X, xs, Y, ys, w, k);
      var u := w[i := j];
      var x := E(d, i + 1, 0, X, u);
      if d[i][j] > 0.0 {
        IndepStep(d, i + 1, X, xs, Y, ys, u);
        Local(d, i + 1, 0, Y, ys, u, w[i := k]);
        MulComm(x, y);
        MulMove(d[i][j], y, x);
      } else {
        MulZero(E(d, i + 1, 0, Times(X, Y), u));
        MulZero(x);
        MulZero(y);
      }
      MulAdd(y, Mul(d[i][j], x), E(d, i, j + 1, X, w));
    } else {
      MulZero(y);
    }
  }

  lemma {:induction false} IndepRight(d: Space, i: nat, j: nat, X: World -> real, xs: set<nat>,
                                      Y: World -> real, ys: set<nat>, w: World, k: nat)
    requires Prob(d) && i < |d| && PossibleTo(d, i, w)
    requires Depends(d, X, xs) && Depends(d, Y, ys) && xs !! ys && i !in xs
    requires k < |d[i]| && d[i][k] > 0.0
    ensures E(d, i, j, Times(X, Y), w) == Mul(E(d, i + 1, 0, X, w[i := k]), E(d, i, j, Y, w))
    decreases |d| - i, 0, |d[i]| - j
  {
    hide Mul;
    var x := E(d, i + 1, 0, X, w[i := k]);
    if j < |d[i]| {
      IndepRight(d, i, j + 1, X, xs, Y, ys, w, k);
      var u := w[i := j];
      var y := E(d, i + 1, 0, Y, u);
      if d[i][j] > 0.0 {
        IndepStep(d, i + 1, X, xs, Y, ys, u);
        Local(d, i + 1, 0, X, xs, u, w[i := k]);
        MulMove(d[i][j], x, y);
      } else {
        MulZero(E(d, i + 1, 0, Times(X, Y), u));
        MulZero(x);
        MulZero(y);
      }
      MulAdd(x, Mul(d[i][j], y), E(d, i, j + 1, Y, w));
    } else {
      MulZero(x);
    }
  }

  /** Independence: expectations multiply over disjoint variable sets. */
  lemma Indep(d: Space, X: World -> real, xs: set<nat>, Y: World -> real, ys: set<nat>, Z: World -> real)
    requires Prob(d)
    requires Depends(d, X, xs) && Depends(d, Y, ys) && xs !! ys
    requires forall u :: Possible(d, u) ==> Z(u) == Times(X, Y)(u)
    ensures Ex(d, Z) == Ex(d, X) * Ex(d, Y)
  {
    hide E;
    hide Depends;
    hide Times;
    IndepStep(d, 0, X, xs, Y, ys, Base(d));
    Same(d, Z, Times(X, Y));
  }

  /** X depends on vs alone, in the same way in the possible worlds of both spaces. */
  ghost predicate DependsAcross(d: Space, d': Space, X: World -> real, vs: set<nat>) {
    forall u, w {:trigger X(u), X(w)} ::
      Possible(d, u) && Possible(d', w) && Agree(u, w, vs) ==> X(u) == X(w)
  }

  lemma {:induction false} TransferStep(d: Space, d': Space, i: nat, X: World -> real, vs: set<nat>, u: World, w: World)
    requires Prob(d) && Prob(d') && |d| == |d'| && PossibleTo(d, i, u) && PossibleTo(d', i, w)
    requires Depends(d, X, vs) && Depends(d', X, vs) && DependsAcross(d, d', X, vs)
    requires forall v :: v in vs && v < |d| ==> d[v] == d'[v]
    requires forall v :: v in vs && v < i ==> u[v] == w[v]
    ensures E(d, i, 0, X, u) == E(d', i, 0, X, w)
    decreases |d| - i, 1, 0
  {
    hide Mul;
    if i == |d| {
      assert Possible(d, u) && Possible(d', w) && Agree(u, w, vs);
    } else if i in vs {
      TransferOutcomes(d, d', i, 0, X, vs, u, w);
    } else {
      var k := SomeOutcome(d[i], 0);
      var k' := SomeOutcome(d'[i], 0);
      Skip(d, i, 0, X, vs, u, k);
      Skip(d', i, 0, X, vs, w, k');
      MulOne(E(d, i + 1, 0, X, u[i := k]));
      MulOne(E(d', i + 1, 0, X, w[i := k']));
      TransferStep(d, d', i + 1, X, vs, u[i := k], w[i := k']);
    }
  }

  lemma {:induction false} TransferOutcomes(d: Space, d': Space, i: nat, j: nat, X: World -> real, vs: set<nat>, u: World, w: World)
    requires Prob(d) && Prob(d') && i < |d| == |d'| && PossibleTo(d, i, u) && PossibleTo(d', i, w)
    requires Depends(d, X, vs) && Depends(d', X, vs) && DependsAcross(d, d', X, vs)
    requires forall v :: v in vs && v < |d| ==> d[v] == d'[v]
    requires forall v :: v in vs && v < i ==> u[v] == w[v]
    requires i in vs
    ensures E(d, i, j, X, u) == E(d', i, j, X, w)
    decreases |d| - i, 0, |d[i]| - j
  {
    hide Mul;
    if j < |d[i]| {
      TransferOutcomes(d, d', i, j + 1, X, vs, u, w);
      if d[i][j] > 0.0 {
        TransferStep(d, d', i + 1, X, vs, u[i := j], w[i := j]);
      } else {
        MulZero(E(d, i + 1, 0, X, u[i := j]));
        MulZero(E(d', i + 1, 0, X, w[i := j]));
      }
    }
  }

  /** The weights of variables that X does not depend on may change freely. */
  lemma Transfer(d: Space, d': Space, X: World -> real, vs: set<nat>)
    requires Prob(d) && Prob(d') && |d| == |d'|
    requires Depends(d, X, vs) && Depends(d', X, vs) && DependsAcross(d, d', X, vs)
    requires forall v :: v in vs && v < |d| ==> d[v] == d'[v]
    ensures Ex(d, X) == Ex(d', X)
  {
    hide E;
    TransferStep(d, d', 0, X, vs, Base(d), Base(d'));
  }

  // ----- Mixing two spaces at one variable -----

  ghost predicate MixAt(d: Space, x: nat, a: real, d1: Space, b: real, d0: Space) {
    && x < |d| == |d1| == |d0| && |d[x]| == |d1[x]| == |d0[x]|
    && (forall v :: 0 <= v < |d| && v != x ==> d[v] == d1[v] == d0[v])
    && (forall j :: 0 <= j < |d[x]| ==> d[x][j] == Mul(a, d1[x][j]) + Mul(b, d0[x][j]))
  }

  lemma {:induction false} SameTail(d: Space, d': Space, i: nat, j: nat, X: World -> real, w: World)
    requires i <= |d| == |d'| == |w| && forall v :: i <= v < |d| ==> d[v] == d'[v]
    ensures E(d, i, j, X, w) == E(d', i, j, X, w)
    decreases |d| - i, if i < |d| then |d[i]| - j else 0
  {
    if i < |d| && j < |d[i]| {
      SameTail(d, d', i, j + 1, X, w);
      SameTail(d, d', i + 1, 0, X, w[i := j]);
    }
  }

  /** Conditioning on variable x: the expectation is linear in the weights of x. */
  lemma {:induction false} Mix(d: Space, i: nat, j: nat, x: nat, a: real, d1: Space, b: real, d0: Space, X: World -> real, w: World)
    requires MixAt(d, x, a, d1, b, d0) && i <= x && |w| == |d|
    ensures E(d, i, j, X, w) == Mul(a, E(d1, i, j, X, w)) + Mul(b, E(d0, i, j, X, w))
    decreases |d| - i, |d[i]| - j
  {
    hide Mul;
    if j < |d[i]| {
      Mix(d, i, j + 1, x, a, d1, b, d0, X, w);
      var u := w[i := j];
      var e, e1, e0 := E(d, i + 1, 0, X, u), E(d1, i + 1, 0, X, u), E(d0, i + 1, 0, X, u);
      if i < x {
        Mix(d, i + 1, 0, x, a, d1, b, d0, X, u);
        MulAdd(d[i][j], Mul(a, e1), Mul(b, e0));
        MulMove(d[i][j], a, e1);
        MulMove(d[i][j], b, e0);
      } else {
        SameTail(d, d1, i + 1, 0, X, u);
        SameTail(d, d0, i + 1, 0, X, u);
        MulAdd(e, Mul(a, d1[i][j]), Mul(b, d0[i][j]));
        MulMove(a, d1[i][j], e);
        MulMove(b, d0[i][j], e);
      }
      MulAdd(a, Mul(d1[i][j], e1), E(d1, i, j + 1, X, w));
      MulAdd(b, Mul(d0[i][j], e0), E(d0, i, j + 1, X, w));
    } else {
      MulZero(a);
      MulZero(b);
    }
  }
}
