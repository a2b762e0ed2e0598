/** Values that vary with the world: their distributions, and how distributions of
    independent values combine.  */
module RandomValues {
  import opened Reals
  import opened Worlds
  import opened Probability

  function Is<T(==)>(X: World -> T, k: T): Event {
    w => X(w) == k
  }

  ghost function Mass<T>(p: seq<real>, X: World -> T, k: T): real {
    P(p, Is(X, k))
  }

  /** X looks only at the truth of the variables vs. */
  ghost predicate Reads<T(!new)>(X: World -> T, vs: set<nat>) {
    forall u, w {:trigger X(u), X(w)} :: (forall v :: v in vs ==> True(u, v) == True(w, v)) ==> X(u) == X(w)
  }

  lemma ReadsDecided<T(!new)>(p: seq<real>, X: World -> T, vs: set<nat>, k: T)
    requires Reads(X, vs)
    ensures DecidedBy(Bern(p), Is(X, k), vs)
  {
    var e := Is(X, k);
    assert ReadsOnly(e, vs);
    ReadsDepends(Bern(p), Bern(p), e, vs);
  }

  lemma MassBounds<T>(p: seq<real>, X: World -> T, k: T)
    requires Unit(p)
    ensures 0.0 <= Mass(p, X, k) <= 1.0
  {
    BernProb(p);
    hide Pr;
    PrBounds(Bern(p), Is(X, k));
  }

  lemma SameMass<T>(p: seq<real>, X: World -> T, Y: World -> T, k: T)
    requires Unit(p) && forall w :: X(w) == Y(w)
    ensures Mass(p, X, k) == Mass(p, Y, k)
  {
    SameEvent(p, Is(X, k), Is(Y, k));
  }

  /** Independent values: joint masses multiply. */
  lemma JointMass<S(!new), T(!new)>(p: seq<real>, X: World -> S, vs: set<nat>, Y: World -> T, us: set<nat>, a: S, b: T, e: Event)
    requires Unit(p) && Reads(X, vs) && Reads(Y, us) && vs !! us
    requires forall w :: e(w) == (X(w) == a && Y(w) == b)
    ensures P(p, e) == Mass(p, X, a) * Mass(p, Y, b)
  {
    BernProb(p);
    ReadsDecided(p, X, vs, a);
    ReadsDecided(p, Y, us, b);
    hide Pr;
    hide DecidedBy;
    PrIndep(Bern(p), Is(X, a), vs, Is(Y, b), us, e);
  }

  lemma SplitEvent(p: seq<real>, a: Event, b: Event, c: Event)
    requires Unit(p)
    requires forall w :: c(w) == (a(w) || b(w)) && !(a(w) && b(w))
    ensures P(p, c) == P(p, a) + P(p, b)
  {
    BernProb(p);
    hide Pr;
    PrSplit(Bern(p), a, b, c);
  }

  lemma SameEvent(p: seq<real>, a: Event, b: Event)
    requires Unit(p)
    requires forall w :: a(w) == b(w)
    ensures P(p, a) == P(p, b)
  {
    BernProb(p);
    hide Pr;
    PrSame(Bern(p), a, b);
  }

  lemma NoEvent(p: seq<real>, a: Event)
    requires Unit(p)
    requires forall w :: !a(w)
    ensures P(p, a) == 0.0
  {
    BernProb(p);
    hide Pr;
    PrSure(Bern(p), a);
  }

  lemma SureEvent(p: seq<real>, a: Event)
    requires Unit(p)
    requires forall w :: a(w)
    ensures P(p, a) == 1.0
  {
    BernProb(p);
    hide Pr;
    PrSure(Bern(p), a);
  }

  lemma ComplementEvent(p: seq<real>, a: Event, b: Event)
    requires Unit(p)
    requires forall w :: b(w) == !a(w)
    ensures P(p, b) == 1.0 - P(p, a)
  {
    BernProb(p);
    hide Pr;
    PrNot(Bern(p), a, b);
  }

  // ----- Probability vectors of bounded counts -----

  /** r[c] is the probability that X is c, and X is always an index of r. */
  ghost predicate IsPmf(p: seq<real>, r: seq<real>, X: World -> nat) {
    && (forall w :: X(w) < |r|)
    && (forall c: nat :: c < |r| ==> r[c] == Mass(p, X, c))
  }

  function AtLeast(X: World -> nat, c: nat): Event {
    w => X(w) >= c
  }

  lemma {:induction false} TailMass(p: seq<real>, r: seq<real>, X: World -> nat, c: nat)
    requires Unit(p) && IsPmf(p, r, X) && c <= |r|
    ensures Total(r, c) == P(p, AtLeast(X, c))
    decreases |r| - c
  {
    hide P;
    if c == |r| {
      NoEvent(p, AtLeast(X, c));
    } else {
      TailMass(p, r, X, c + 1);
      SplitEvent(p, Is(X, c), AtLeast(X, c + 1), AtLeast(X, c));
    }
  }

  /** The entries of a count distribution are probabilities that sum to one. */
  lemma PmfTotal(p: seq<real>, r: seq<real>, X: World -> nat)
    requires Unit(p) && IsPmf(p, r, X)
    ensures Total(r, 0) == 1.0 && forall c: nat :: c < |r| ==> 0.0 <= r[c] <= 1.0
  {
    TailMass(p, r, X, 0);
    SureEvent(p, AtLeast(X, 0));
    forall c: nat | c < |r| ensures 0.0 <= r[c] <= 1.0 { MassBounds(p, X, c); }
  }

  // ----- Combining two count vectors -----

  /** Row i of the double sum: the products a[i] * b[j] with op(i, j) == k, over j < m. */
  ghost function Row(op: (nat, nat) -> nat, a: seq<real>, b: seq<real>, k: nat, i: nat, m: nat): real
    requires i < |a| && m <= |b|
  {
    if m == 0 then 0.0
    else Row(op, a, b, k, i, m - 1) + (if op(i, m - 1) == k then a[i] * b[m - 1] else 0.0)
  }

  ghost function Rows(op: (nat, nat) -> nat, a: seq<real>, b: seq<real>, k: nat, n: nat): real
    requires n <= |a|
  {
    if n == 0 then 0.0 else Rows(op, a, b, k, n - 1) + Row(op, a, b, k, n - 1, |b|)
  }

  lemma {:induction false} ZeroRow(op: (nat, nat) -> nat, a: seq<real>, b: seq<real>, k: nat, i: nat, m: nat)
    requires i < |a| && m <= |b| && a[i] == 0.0
    ensures Row(op, a, b, k, i, m) == 0.0
  {
    if m > 0 { ZeroRow(op, a, b, k, i, m - 1); }
  }

  function HitTo(op: (nat, nat) -> nat, X: World -> nat, Y: World -> nat, k: nat, n: nat): Event {
    w => op(X(w), Y(w)) == k && X(w) < n
  }

  function HitIn(op: (nat, nat) -> nat, X: World -> nat, Y: World -> nat, k: nat, i: nat, m: nat): Event {
    w => op(X(w), Y(w)) == k && X(w) == i && Y(w) < m
  }

  lemma {:induction false} RowMass(p: seq<real>, op: (nat, nat) -> nat, a: seq<real>, X: World -> nat, vs: set<nat>,
                                   b: seq<real>, Y: World -> nat, us: set<nat>, k: nat, i: nat, m: nat)
    requires Unit(p) && IsPmf(p, a, X) && IsPmf(p, b, Y) && Reads(X, vs) && Reads(Y, us) && vs !! us
    requires i < |a| && m <= |b|
    ensures Row(op, a, b, k, i, m) == P(p, HitIn(op, X, Y, k, i, m))
  {
    hide P;
    hide Reads;
    if m == 0 {
      NoEvent(p, HitIn(op, X, Y, k, i, m));
    } else {
      RowMass(p, op, a, X, vs, b, Y, us, k, i, m - 1);
      var e: Event := w => op(X(w), Y(w)) == k && X(w) == i && Y(w) == m - 1;
      if op(i, m - 1) == k {
        JointMass<nat, nat>(p, X, vs, Y, us, i, m - 1, e);
      } else {
        NoEvent(p, e);
      }
      SplitEvent(p, HitIn(op, X, Y, k, i, m - 1), e,
                 HitIn(op, X, Y, k, i, m));
    }
  }

  lemma {:induction false} RowsMass(p: seq<real>, op: (nat, nat) -> nat, a: seq<real>, X: World -> nat, vs: set<nat>,
                                    b: seq<real>, Y: World -> nat, us: set<nat>, k: nat, n: nat)
    requires Unit(p) && IsPmf(p, a, X) && IsPmf(p, b, Y) && Reads(X, vs) && Reads(Y, us) && vs !! us
    requires n <= |a|
    ensures Rows(op, a, b, k, n) == P(p, HitTo(op, X, Y, k, n))
  {
    hide P;
    hide Reads;
    if n == 0 {
      NoEvent(p, HitTo(op, X, Y, k, n));
    } else {
      RowsMass(p, op, a, X, vs, b, Y, us, k, n - 1);
      RowMass(p, op, a, X, vs, b, Y, us, k, n - 1, |b|);
      SplitEvent(p, HitTo(op, X, Y, k, n - 1),
                 HitIn(op, X, Y, k, n - 1, |b|),
                 HitTo(op, X, Y, k, n));
    }
  }

  /** The double sum is the distribution of the combined value. */
  lemma CombinedPmf(p: seq<real>, op: (nat, nat) -> nat, a: seq<real>, X: World -> nat, vs: set<nat>,
                    b: seq<real>, Y: World -> nat, us: set<nat>, r: seq<real>, Z: World -> nat)
    requires Unit(p) && IsPmf(p, a, X) && IsPmf(p, b, Y) && Reads(X, vs) && Reads(Y, us) && vs !! us
    requires forall w :: Z(w) == op(X(w), Y(w)) < |r|
    requires forall k: nat :: k < |r| ==> r[k] == Rows(op, a, b, k, |a|)
    ensures IsPmf(p, r, Z)
  {
    hide P;
    hide Reads;
    forall k: nat | k < |r| ensures r[k] == Mass(p, Z, k) {
      RowsMass(p, op, a, X, vs, b, Y, us, k, |a|);
      SameEvent(p, HitTo(op, X, Y, k, |a|), Is(Z, k));
    }
  }

  // ----- A value gated by a shared event -----

  /** Z is Y where everything in root is true, and zero elsewhere. */
  lemma GatedMass<T(!new)>(p: seq<real>, root: set<nat>, Y: World -> T, us: set<nat>, Z: World -> T, zero: T, k: T)
    requires Unit(p) && Reads(Y, us) && root !! us
    requires forall w :: Z(w) == if AllTrue(w, root) then Y(w) else zero
    ensures Mass(p, Z, k) == P(p, Present(root)) * Mass(p, Y, k) + (if k == zero then 1.0 - P(p, Present(root)) else 0.0)
  {
    var d := Bern(p);
    BernProb(p);
    var on, off: Event := w => AllTrue(w, root) && Y(w) == k, w => !AllTrue(w, root) && zero == k;
    ReadsDecided(p, Y, us, k);
    DecidedTrue(d, root);
    hide Pr;
    hide DecidedBy;
    hide Reads;
    PrIndep(d, Present(root), root, Is(Y, k), us, on);
    PrSplit(d, on, off, Is(Z, k));
    if k == zero {
      PrNot(d, Present(root), off);
    } else {
      PrSure(d, off);
    }
  }
}
