/** Sparse distributions: a map from the values a random value can take to their
    probabilities, and the loops that combine such maps.  */
module Distributions {
  import opened Reals
  import opened Worlds
  import opened Probability
  import opened RandomValues

  /** m lists every value X takes in a possible world, each with its probability. */
  ghost predicate IsDist<K(!new)>(p: seq<real>, m: map<K, real>, X: World -> K) {
    && (forall w :: Possible(Bern(p), w) ==> X(w) in m)
    && (forall k :: k in m ==> m[k] == Mass(p, X, k))
  }

  /** Adds v at k, where an absent key counts as zero. */
  function AddAt<K(==)>(m: map<K, real>, k: K, v: real): (r: map<K, real>)
    ensures r.Keys == m.Keys + {k}
    ensures forall x :: x in r ==> r[x] == (if x in m then m[x] else 0.0) + (if x == k then v else 0.0)
  {
    m[k := (if k in m then m[k] else 0.0) + v]
  }

  // ----- Pushing a distribution through a function -----

  /** n holds the distribution of f(X) where X is one of the values in done. */
  ghost predicate Pushed<A(!new), B(!new)>(p: seq<real>, X: World -> A, f: A -> B, done: set<A>, n: map<B, real>) {
    && (forall x :: x in done ==> f(x) in n)
    && (forall k :: k in n ==> n[k] == P(p, Through(X, f, done, k)))
    && (forall k :: k !in n ==> P(p, Through(X, f, done, k)) == 0.0)
  }

  function Through<A(==), B(==)>(X: World -> A, f: A -> B, done: set<A>, k: B): Event {
    w => X(w) in done && f(X(w)) == k
  }

  lemma PushedStart<A(!new), B(!new)>(p: seq<real>, X: World -> A, f: A -> B)
    requires Unit(p)
    ensures Pushed(p, X, f, {}, map[])
  {
    forall k ensures P(p, Through(X, f, {}, k)) == 0.0 { NoEvent(p, Through(X, f, {}, k)); }
  }

  lemma PushedStep<A(!new), B(!new)>(p: seq<real>, X: World -> A, f: A -> B, done: set<A>, n: map<B, real>, x: A, v: real)
    requires Unit(p) && Pushed(p, X, f, done, n) && x !in done && v == Mass(p, X, x)
    ensures Pushed(p, X, f, done + {x}, AddAt(n, f(x), v))
  {
    hide P;
    var more := AddAt(n, f(x), v);
    forall k ensures P(p, Through(X, f, done + {x}, k)) == P(p, Through(X, f, done, k)) + (if k == f(x) then v else 0.0) {
      if k == f(x) {
        SplitEvent(p, Through(X, f, done, k), Is(X, x), Through(X, f, done + {x}, k));
      } else {
        SameEvent(p, Through(X, f, done, k), Through(X, f, done + {x}, k));
      }
    }
  }

  lemma PushedEnd<A(!new), B(!new)>(p: seq<real>, X: World -> A, f: A -> B, done: set<A>, n: map<B, real>, Z: World -> B)
    requires Unit(p) && Pushed(p, X, f, done, n) && forall w :: Z(w) == f(X(w))
    requires forall w :: Possible(Bern(p), w) ==> X(w) in done
    ensures IsDist(p, n, Z)
  {
    BernProb(p);
    forall k | k in n ensures n[k] == Mass(p, Z, k) {
      hide Pr;
      PrSame(Bern(p), Through(X, f, done, k), Is(Z, k));
    }
  }

  /** The distribution of f(X): entries that f maps to the same value add up. */
  method Push<A(!new, ==), B(!new, ==)>(f: A -> B, m: map<A, real>, ghost p: seq<real>, ghost X: World -> A, ghost Z: World -> B,
                                        ghost exact: bool) returns (n: map<B, real>)
    requires exact ==> Unit(p) && IsDist(p, m, X) && forall w :: Z(w) == f(X(w))
    ensures exact ==> IsDist(p, n, Z)
    ensures forall k :: k in n ==> exists x :: x in m && f(x) == k
  {
    n := map[];
    var rest := m.Keys;
    if exact { PushedStart(p, X, f); }
    hide IsDist;
    hide Pushed;
    assert m.Keys - rest == {};
    while rest != {}
      invariant rest <= m.Keys && (exact ==> Pushed(p, X, f, m.Keys - rest, n))
      invariant forall k :: k in n ==> exists x :: x in m && f(x) == k
      decreases rest
    {
      var x :| x in rest;
      if exact {
        DistAt(p, m, X, x);
        PushedStep(p, X, f, m.Keys - rest, n, x, m[x]);
      }
      assert m.Keys - (rest - {x}) == (m.Keys - rest) + {x};
      n := AddAt(n, f(x), m[x]);
      rest := rest - {x};
    }
    assert m.Keys - rest == m.Keys;
    if exact {
      DistCovers(p, m, X);
      PushedEnd(p, X, f, m.Keys, n, Z);
    }
  }

  lemma DistAt<K(!new)>(p: seq<real>, m: map<K, real>, X: World -> K, k: K)
    requires IsDist(p, m, X) && k in m
    ensures m[k] == Mass(p, X, k)
  {
  }

  lemma DistCovers<K(!new)>(p: seq<real>, m: map<K, real>, X: World -> K)
    requires IsDist(p, m, X)
    ensures forall w :: Possible(Bern(p), w) ==> X(w) in m.Keys
  {
  }

  // ----- Combining two independent distributions -----

  function Pair<A, B>(X: World -> A, Y: World -> B): World -> (A, B) {
    w => (X(w), Y(w))
  }

  function Uncurried<A, B, C>(op: (A, B) -> C): ((A, B)) -> C {
    (xy: (A, B)) => op(xy.0, xy.1)
  }

  /** X and Y look at different variables, and Z combines them. */
  ghost predicate Combines<A(!new), B(!new), C(!new)>(p: seq<real>, op: (A, B) -> C, a: map<A, real>, X: World -> A, vs: set<nat>,
                                                      b: map<B, real>, Y: World -> B, us: set<nat>, Z: World -> C) {
    && Unit(p) && IsDist(p, a, X) && IsDist(p, b, Y) && Reads(X, vs) && Reads(Y, us) && vs !! us
    && (forall w :: Z(w) == op(X(w), Y(w)))
  }

  lemma CombinesStep<A(!new), B(!new), C(!new)>(p: seq<real>, op: (A, B) -> C, a: map<A, real>, X: World -> A, vs: set<nat>,
                                                b: map<B, real>, Y: World -> B, us: set<nat>, Z: World -> C,
                                                done: set<(A, B)>, n: map<C, real>, x: A, y: B)
    requires Combines(p, op, a, X, vs, b, Y, us, Z) && x in a && y in b && (x, y) !in done
    requires Pushed(p, Pair(X, Y), Uncurried(op), done, n)
    ensures Pushed(p, Pair(X, Y), Uncurried(op), done + {(x, y)}, AddAt(n, op(x, y), a[x] * b[y]))
  {
    hide P;
    hide Reads;
    hide Pushed;
    JointMass(p, X, vs, Y, us, x, y, Is(Pair(X, Y), (x, y)));
    PushedStep(p, Pair(X, Y), Uncurried(op), done, n, (x, y), a[x] * b[y]);
  }

  lemma CombinesEnd<A(!new), B(!new), C(!new)>(p: seq<real>, op: (A, B) -> C, a: map<A, real>, X: World -> A, vs: set<nat>,
                                               b: map<B, real>, Y: World -> B, us: set<nat>, Z: World -> C,
                                               done: set<(A, B)>, n: map<C, real>)
    requires Combines(p, op, a, X, vs, b, Y, us, Z) && Pushed(p, Pair(X, Y), Uncurried(op), done, n)
    requires forall x, y :: x in a && y in b ==> (x, y) in done
    ensures IsDist(p, n, Z)
  {
    hide Pushed;
    PushedEnd(p, Pair(X, Y), Uncurried(op), done, n, Z);
  }

  /** Every listed value combines one of xs with one of ys. */
  ghost predicate Combined<A(!new), B(!new), C(!new)>(op: (A, B) -> C, xs: set<A>, ys: set<B>, zs: set<C>) {
    forall k :: k in zs ==> exists x, y :: x in xs && y in ys && k == op(x, y)
  }

  lemma CombinedStep<A(!new), B(!new), C(!new)>(op: (A, B) -> C, xs: set<A>, ys: set<B>, zs: set<C>, x: A, y: B)
    requires Combined(op, xs, ys, zs) && x in xs && y in ys
    ensures Combined(op, xs, ys, zs + {op(x, y)})
  {
  }

  /** The distribution of a combination: every pair of entries adds its product. */
  method Combine<A(!new, ==), B(!new, ==), C(!new, ==)>(op: (A, B) -> C, a: map<A, real>, b: map<B, real>, ghost p: seq<real>,
      ghost X: World -> A, ghost vs: set<nat>, ghost Y: World -> B, ghost us: set<nat>, ghost Z: World -> C, ghost exact: bool)
    returns (n: map<C, real>)
    requires exact ==> Combines(p, op, a, X, vs, b, Y, us, Z)
    ensures exact ==> IsDist(p, n, Z)
    ensures Combined(op, a.Keys, b.Keys, n.Keys)
  {
    n := map[];
    assert Combined(op, a.Keys, b.Keys, n.Keys);
    hide Combined;
    ghost var done: set<(A, B)> := {};
    if exact { PushedStart(p, Pair(X, Y), Uncurried(op)); }
    hide IsDist;
    hide Pushed;
    hide Combines;
    hide Reads;
    var rest := a.Keys;
    while rest != {}
      invariant rest <= a.Keys && Combined(op, a.Keys, b.Keys, n.Keys) && (exact ==> Pushed(p, Pair(X, Y), Uncurried(op), done, n))
      invariant forall x, y :: (x, y) in done <==> x in a.Keys - rest && y in b
      decreases rest
    {
      var x :| x in rest;
      var restB := b.Keys;
      while restB != {}
        invariant restB <= b.Keys && Combined(op, a.Keys, b.Keys, n.Keys) && (exact ==> Pushed(p, Pair(X, Y), Uncurried(op), done, n))
        invariant forall u, y :: (u, y) in done <==> (u in a.Keys - rest && y in b) || (u == x && y in b.Keys - restB)
        decreases restB
      {
        var y :| y in restB;
        CombinedStep(op, a.Keys, b.Keys, n.Keys, x, y);
        if exact { CombinesStep(p, op, a, X, vs, b, Y, us, Z, done, n, x, y); }
        n := AddAt(n, op(x, y), a[x] * b[y]);
        done := done + {(x, y)};
        restB := restB - {y};
      }
      rest := rest - {x};
    }
    if exact { CombinesEnd(p, op, a, X, vs, b, Y, us, Z, done, n); }
  }

  // ----- Elementary distributions -----

  /** A value that is k where all of c is true, and zero elsewhere. */
  lemma SingleDist<K(!new)>(p: seq<real>, c: set<nat>, q: real, zero: K, k: K, X: World -> K)
    requires Unit(p) && q == P(p, Present(c)) && forall w :: X(w) == if AllTrue(w, c) then k else zero
    ensures IsDist(p, AddAt(AddAt(map[], zero, 1.0 - q), k, q), X)
  {
    hide P;
    var n := AddAt(AddAt(map[], zero, 1.0 - q), k, q);
    if k == zero {
      SureEvent(p, Is(X, k));
    } else {
      SameEvent(p, Present(c), Is(X, k));
      ComplementEvent(p, Present(c), Is(X, zero));
    }
  }

  function Weighted<K>(m: map<K, real>, a: real): map<K, real> {
    map k | k in m :: a * m[k]
  }

  /** Two arms of a shared root: zero where it is absent, the inner value where it is present. */
  lemma GatedDist<K(!new)>(p: seq<real>, root: set<nat>, inner: map<K, real>, Y: World -> K, us: set<nat>, zero: K, Z: World -> K)
    requires Unit(p) && IsDist(p, inner, Y) && Reads(Y, us) && root !! us
    requires forall w :: Z(w) == if AllTrue(w, root) then Y(w) else zero
    ensures IsDist(p, AddAt(Weighted(inner, P(p, Present(root))), zero, 1.0 - P(p, Present(root))), Z)
  {
    hide P;
    hide Reads;
    var n := AddAt(Weighted(inner, P(p, Present(root))), zero, 1.0 - P(p, Present(root)));
    forall k | k in n ensures n[k] == Mass(p, Z, k) {
      GatedMass(p, root, Y, us, Z, zero, k);
      if k !in inner { NotListed(p, inner, Y, k); }
    }
  }

  lemma NotListed<K(!new)>(p: seq<real>, m: map<K, real>, X: World -> K, k: K)
    requires Unit(p) && IsDist(p, m, X) && k !in m
    ensures Mass(p, X, k) == 0.0
  {
    BernProb(p);
    hide Pr;
    PrSure(Bern(p), Is(X, k));
  }

  /** A value that is the same in every world. */
  lemma ConstantDist<K(!new)>(p: seq<real>, k: K, X: World -> K)
    requires Unit(p) && forall w :: X(w) == k
    ensures IsDist(p, map[k := 1.0], X)
  {
    SureEvent(p, Is(X, k));
  }

  lemma SameDist<K(!new)>(p: seq<real>, m: map<K, real>, X: World -> K, Y: World -> K)
    requires Unit(p) && IsDist(p, m, X) && forall w :: X(w) == Y(w)
    ensures IsDist(p, m, Y)
  {
    forall k ensures Mass(p, X, k) == Mass(p, Y, k) { SameMass(p, X, Y, k); }
  }

  // ----- Count vectors as sparse distributions -----

  function Listed(pmf: seq<real>): (m: map<int, real>)
    ensures forall c: int :: c in m <==> 0 <= c < |pmf| && pmf[c] != 0.0
    ensures forall c :: c in m ==> m[c] == pmf[c]
  {
    map c: int | 0 <= c < |pmf| && pmf[c] != 0.0 :: pmf[c]
  }

  lemma ListedDist(p: seq<real>, pmf: seq<real>, N: World -> nat, X: World -> int)
    requires Unit(p) && IsPmf(p, pmf, N) && forall w :: X(w) == N(w)
    ensures IsDist(p, Listed(pmf), X)
  {
    var m := Listed(pmf);
    hide P;
    forall c: int | c in m ensures m[c] == Mass(p, X, c) {
      SameEvent(p, Is<nat>(N, c), Is<int>(X, c));
    }
    forall w | Possible(Bern(p), w) ensures X(w) in m {
      PossiblePositive(p, N, w);
    }
  }

  lemma PossiblePositive(p: seq<real>, N: World -> nat, w: World)
    requires Unit(p) && Possible(Bern(p), w)
    ensures Mass(p, N, N(w)) > 0.0
  {
    BernProb(p);
    PositivePr(Bern(p), Is(N, N(w)), w);
  }

  // ----- The probability of a test -----

  function Passes<K>(X: World -> K, test: K -> bool): Event {
    w => test(X(w))
  }

  /** The total of the entries whose key passes the test. */
  method SumWhere<K(!new, ==)>(test: K -> bool, m: map<K, real>, ghost p: seq<real>, ghost X: World -> K, ghost exact: bool)
    returns (pr: real)
    requires exact ==> Unit(p) && IsDist(p, m, X)
    ensures exact ==> pr == P(p, Passes(X, test))
  {
    pr := 0.0;
    var rest := m.Keys;
    hide IsDist;
    hide P;
    assert m.Keys - rest == {};
    if exact { NoEvent(p, Through(X, test, {}, true)); }
    while rest != {}
      invariant rest <= m.Keys && (exact ==> pr == P(p, Through(X, test, m.Keys - rest, true)))
      decreases rest
    {
      var x :| x in rest;
      ghost var done := m.Keys - rest;
      assert m.Keys - (rest - {x}) == done + {x};
      if exact { TestStep(p, m, X, test, done, x); }
      if test(x) {
        pr := pr + m[x];
      }
      rest := rest - {x};
    }
    assert m.Keys - rest == m.Keys;
    if exact {
      DistCovers(p, m, X);
      BernProb(p);
      hide Pr;
      TestEnd(p, X, test, m.Keys);
    }
  }

  lemma TestStep<K(!new)>(p: seq<real>, m: map<K, real>, X: World -> K, test: K -> bool, done: set<K>, x: K)
    requires Unit(p) && IsDist(p, m, X) && x in m && x !in done
    ensures P(p, Through(X, test, done + {x}, true)) == P(p, Through(X, test, done, true)) + (if test(x) then m[x] else 0.0)
  {
    hide P;
    if test(x) {
      SplitEvent(p, Through(X, test, done, true), Is(X, x), Through(X, test, done + {x}, true));
    } else {
      SameEvent(p, Through(X, test, done, true), Through(X, test, done + {x}, true));
    }
  }

  lemma TestEnd<K(!new)>(p: seq<real>, X: World -> K, test: K -> bool, done: set<K>)
    requires Unit(p) && forall w :: Possible(Bern(p), w) ==> X(w) in done
    ensures P(p, Through(X, test, done, true)) == P(p, Passes(X, test))
  {
    BernProb(p);
    hide Pr;
    PrSame(Bern(p), Through(X, test, done, true), Passes(X, test));
  }
}
