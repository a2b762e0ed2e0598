/** Variables with more than two outcomes, and spaces extended by further variables. */
module Categorical {
  import opened Reals
  import opened Worlds
  import opened Probability

  /** Fills coordinates i, i+1, ... of w with possible outcomes. */
  lemma {:induction false} Complete(d: Space, i: nat, w: World) returns (u: World)
    requires Prob(d) && PossibleTo(d, i, w)
    ensures Possible(d, u) && u[..i] == w[..i]
    decreases |d| - i
  {
    if i == |d| {
      u := w;
    } else {
      var k := SomeOutcome(d[i], 0);
      u := Complete(d, i + 1, w[i := k]);
      assert u[..i] == u[..i + 1][..i] == w[..i];
    }
  }

  /** Once all the variables X depends on are fixed, its expectation is its value. */
  lemma {:induction false} Settled(d: Space, i: nat, X: World -> real, vs: set<nat>, w: World, u: World)
    requires Prob(d) && PossibleTo(d, i, w) && Depends(d, X, vs)
    requires Possible(d, u) && u[..i] == w[..i] && forall v :: v in vs ==> v < i
    ensures E(d, i, 0, X, w) == X(u)
    decreases |d| - i
  {
    if i == |d| {
      assert u == u[..i] && w == w[..i];
    } else {
      hide Mul;
      Skip(d, i, 0, X, vs, w, u[i]);
      MulOne(E(d, i + 1, 0, X, w[i := u[i]]));
      Settled(d, i + 1, X, vs, w[i := u[i]], u);
    }
  }

  /** The event that variable x has outcome k. */
  function Outcome(x: nat, k: nat): Event {
    w => x < |w| && w[x] == k
  }

  lemma OutcomeDecided(d: Space, x: nat, k: nat)
    ensures DecidedBy(d, Outcome(x, k), {x})
  {
  }

  lemma {:induction false} OutcomeRow(d: Space, x: nat, k: nat, j: nat, w: World)
    requires Prob(d) && x < |d| && PossibleTo(d, x, w)
    ensures E(d, x, j, Ind(Outcome(x, k)), w) == if j <= k < |d[x]| then d[x][k] else 0.0
    decreases |d[x]| - j
  {
    hide Mul;
    var X := Ind(Outcome(x, k));
    OutcomeDecided(d, x, k);
    DecidedDepends(d, Outcome(x, k), {x});
    if j < |d[x]| {
      OutcomeRow(d, x, k, j + 1, w);
      var v := w[x := j];
      if d[x][j] > 0.0 {
        var u := Complete(d, x + 1, v);
        assert u[x] == u[..x + 1][x] == v[..x + 1][x] == j;
        Settled(d, x + 1, X, {x}, v, u);
        MulOne(d[x][j]);
        MulComm(d[x][j], 1.0);
        MulZero(d[x][j]);
      } else {
        MulZero(E(d, x + 1, 0, X, v));
      }
    }
  }

  lemma {:induction false} OutcomeFrom(d: Space, x: nat, k: nat, i: nat, w: World)
    requires Prob(d) && i <= x < |d| && PossibleTo(d, i, w)
    ensures E(d, i, 0, Ind(Outcome(x, k)), w) == if k < |d[x]| then d[x][k] else 0.0
    decreases x - i
  {
    if i == x {
      OutcomeRow(d, x, k, 0, w);
    } else {
      hide Mul;
      OutcomeDecided(d, x, k);
      DecidedDepends(d, Outcome(x, k), {x});
      var j := SomeOutcome(d[i], 0);
      Skip(d, i, 0, Ind(Outcome(x, k)), {x}, w, j);
      MulOne(E(d, i + 1, 0, Ind(Outcome(x, k)), w[i := j]));
      OutcomeFrom(d, x, k, i + 1, w[i := j]);
    }
  }

  /** Each outcome of a variable has its own weight as probability. */
  lemma OutcomePr(d: Space, x: nat, k: nat)
    requires Prob(d) && x < |d|
    ensures Pr(d, Outcome(x, k)) == if k < |d[x]| then d[x][k] else 0.0
  {
    OutcomeFrom(d, x, k, 0, Base(d));
  }

  // ----- Further variables -----

  lemma ExtendProb(d: Space, more: Space)
    requires Prob(d) && Prob(more)
    ensures Prob(d + more)
  {
  }

  /** X looks only at the first variables. */
  ghost predicate OnPrefix(d: Space, more: Space, X: World -> real, vs: set<nat>) {
    && Depends(d + more, X, vs) && (forall v :: v in vs ==> v < |d|)
    && forall u :: Possible(d + more, u) ==> X(u) == X(u[..|d|])
  }

  lemma {:induction false} ExtendStep(d: Space, more: Space, i: nat, X: World -> real, vs: set<nat>, w: World)
    requires Prob(d) && Prob(more) && PossibleTo(d + more, i, w) && i <= |d| && OnPrefix(d, more, X, vs)
    ensures E(d + more, i, 0, X, w) == E(d, i, 0, X, w[..|d|])
    decreases |d| - i, 1, 0
  {
    var D := d + more;
    ExtendProb(d, more);
    if i == |d| {
      var u := Complete(D, i, w);
      Settled(D, i, X, vs, w, u);
    } else {
      ExtendRow(d, more, i, 0, X, vs, w);
    }
  }

  lemma {:induction false} ExtendRow(d: Space, more: Space, i: nat, j: nat, X: World -> real, vs: set<nat>, w: World)
    requires Prob(d) && Prob(more) && PossibleTo(d + more, i, w) && i < |d| && OnPrefix(d, more, X, vs)
    ensures E(d + more, i, j, X, w) == E(d, i, j, X, w[..|d|])
    decreases |d| - i, 0, |d[i]| - j
  {
    hide Mul;
    hide OnPrefix;
    var D := d + more;
    if j < |d[i]| {
      ExtendRow(d, more, i, j + 1, X, vs, w);
      if d[i][j] > 0.0 {
        ExtendStep(d, more, i + 1, X, vs, w[i := j]);
        assert w[i := j][..|d|] == w[..|d|][i := j];
      } else {
        MulZero(E(D, i + 1, 0, X, w[i := j]));
        MulZero(E(d, i + 1, 0, X, w[..|d|][i := j]));
      }
    }
  }

  /** Variables that an event does not look at can be added freely. */
  lemma ExtendPr(d: Space, more: Space, e: Event, vs: set<nat>)
    requires Prob(d) && Prob(more) && DecidedBy(d + more, e, vs) && forall v :: v in vs ==> v < |d|
    requires forall u :: Possible(d + more, u) ==> e(u) == e(u[..|d|])
    ensures Pr(d + more, e) == Pr(d, e)
  {
    DecidedDepends(d + more, e, vs);
    assert Base(d + more)[..|d|] == Base(d);
    hide E;
    ExtendStep(d, more, 0, Ind(e), vs, Base(d + more));
  }
}
