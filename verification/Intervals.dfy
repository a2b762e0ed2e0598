/** Probability intervals: what products, mixtures and complements do to them. */
module Intervals {
  import opened Reals

  datatype Interval = Interval(lower: real, upper: real)

  /** x lies in r, and r lies in [0, 1]. */
  ghost predicate Encloses(r: Interval, x: real) {
    0.0 <= r.lower <= x <= r.upper <= 1.0
  }

  /** The width a request for w may leave: negative requests mean exact. */
  function Target(w: real): real {
    if w > 0.0 then w else 0.0
  }

  function Width(r: Interval): real {
    r.upper - r.lower
  }

  function Complement(r: Interval): Interval {
    Interval(1.0 - r.upper, 1.0 - r.lower)
  }

  function Product(r: Interval, s: Interval): Interval {
    Interval(Mul(r.lower, s.lower), Mul(r.upper, s.upper))
  }

  function Mean(p: real, x: real, y: real): real {
    Mul(p, x) + Mul(1.0 - p, y)
  }

  function Mixed(p: real, r: Interval, s: Interval): Interval {
    Interval(Mean(p, r.lower, s.lower), Mean(p, r.upper, s.upper))
  }

  /** A product of enclosed values is enclosed, and widths at most add up. */
  lemma ProductStep(r: Interval, x: real, s: Interval, y: real)
    requires Encloses(r, x) && Encloses(s, y)
    ensures Encloses(Product(r, s), Mul(x, y))
    ensures Width(Product(r, s)) <= Width(r) + Width(s)
  {
    hide Mul;
    MulZero(r.lower);
    MulMono(r.lower, 0.0, s.lower);
    MulMono(r.lower, s.lower, y);
    MulMono(y, r.lower, x);
    MulMono(x, y, s.upper);
    MulMono(s.upper, x, r.upper);
    MulOne(r.upper);
    MulOne(s.upper);
    MulMono(r.upper, s.upper, 1.0);
    MulComm(r.upper, 1.0);
    var dr, ds := Width(r), Width(s);
    MulAdd(s.upper, r.lower, dr);
    MulAdd(r.lower, s.lower, ds);
    MulMono(dr, s.upper, 1.0);
    MulMono(ds, r.lower, 1.0);
    MulComm(dr, 1.0);
    MulOne(dr);
    MulComm(ds, r.lower);
    MulOne(ds);
  }

  lemma MeanOrder(p: real, x: real, y: real, x': real, y': real)
    requires 0.0 <= p <= 1.0 && x <= x' && y <= y'
    ensures Mean(p, x, y) <= Mean(p, x', y')
  {
    hide Mul;
    MulMono(p, x, x');
    MulMono(1.0 - p, y, y');
  }

  lemma MeanSame(p: real, x: real)
    ensures Mean(p, x, x) == x
  {
    hide Mul;
    MulAdd(x, p, 1.0 - p);
    MulOne(x);
  }

  lemma MeanShift(p: real, x: real, y: real, dx: real, dy: real)
    ensures Mean(p, x + dx, y + dy) == Mean(p, x, y) + Mean(p, dx, dy)
  {
    hide Mul;
    MulAdd(p, x, dx);
    MulAdd(1.0 - p, y, dy);
  }

  /** A mixture of enclosed values is enclosed, and no wider than its widest arm. */
  lemma Mixture(p: real, r: Interval, x: real, s: Interval, y: real, w: real)
    requires 0.0 <= p <= 1.0 && Encloses(r, x) && Encloses(s, y)
    requires Width(r) <= w && Width(s) <= w
    ensures Encloses(Mixed(p, r, s), Mean(p, x, y))
    ensures Width(Mixed(p, r, s)) <= w
  {
    hide Mean;
    MeanSame(p, 0.0);
    MeanOrder(p, 0.0, 0.0, r.lower, s.lower);
    MeanOrder(p, r.lower, s.lower, x, y);
    MeanOrder(p, x, y, r.upper, s.upper);
    MeanOrder(p, r.upper, s.upper, 1.0, 1.0);
    MeanSame(p, 1.0);
    MeanShift(p, r.lower, s.lower, Width(r), Width(s));
    MeanOrder(p, Width(r), Width(s), w, w);
    MeanSame(p, w);
  }

  /** r encloses x and is as narrow as a request for w asks. */
  ghost predicate Within(r: Interval, x: real, w: real) {
    Encloses(r, x) && Width(r) <= Target(w)
  }

  lemma PointWithin(x: real, w: real)
    requires 0.0 <= x <= 1.0
    ensures Within(Interval(x, x), x, w)
  {
  }

  lemma NarrowWithin(r: Interval, x: real, w: real)
    requires Encloses(r, x) && 0.0 < w && Width(r) <= w
    ensures Within(r, x, w)
  {
  }

  /** An exact request leaves a point. */
  lemma ExactWithin(r: Interval, x: real, w: real)
    requires Within(r, x, w) && w <= 0.0
    ensures r.lower == x == r.upper
  {
  }

  lemma MixtureWithin(p: real, r: Interval, x: real, s: Interval, y: real, w: real)
    requires 0.0 <= p <= 1.0 && Within(r, x, w) && Within(s, y, w)
    ensures Within(Mixed(p, r, s), Mean(p, x, y), w)
  {
    Mixture(p, r, x, s, y, Target(w));
  }

  // ----- Sharing a width among components -----

  /** k shares of width. */
  function Spent(k: nat, share: real): real {
    Mul(k as real, Target(share))
  }

  lemma SpentStep(k: nat, share: real)
    ensures Spent(0, share) == 0.0
    ensures Spent(k + 1, share) == Spent(k, share) + Target(share)
  {
    MulAdd(Target(share), k as real, 1.0);
    MulOne(Target(share));
    MulZero(Target(share));
  }

  lemma ShareOut(w: real, n: nat)
    requires n > 0
    ensures Spent(n, w / n as real) == Target(w)
  {
    var m := n as real;
    assert m * (w / m) == w;
    if w > 0.0 { assert w / m > 0.0; } else { assert w / m <= 0.0; }
  }
}
