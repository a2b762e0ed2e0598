/** Monotone DNFs as lists of clause supports: their function, their probability,
    subsumption, a canonical form, and cofactors.  */
module MonotoneDnf {
  import opened Reals
  import opened Worlds
  import opened Probability
  import opened SeqSums

  /** A clause is the conjunction of its leaves; a list of clauses is their disjunction. */
  type Clauses = seq<set<nat>>

  predicate DnfTrue(cls: Clauses, w: World) {
    exists i :: 0 <= i < |cls| && AllTrue(w, cls[i])
  }

  function Satisfied(cls: Clauses): Event {
    w => DnfTrue(cls, w)
  }

  ghost function DnfPr(p: seq<real>, cls: Clauses): real {
    P(p, Satisfied(cls))
  }

  /** Two lists of clauses denote the same Boolean function. */
  ghost predicate SameFunction(a: Clauses, b: Clauses) {
    forall w :: DnfTrue(a, w) == DnfTrue(b, w)
  }

  ghost predicate LeavesOk(p: seq<real>, cls: Clauses) {
    Unit(p) && forall i, v :: 0 <= i < |cls| && v in cls[i] ==> v < |p|
  }

  ghost function Support(cls: Clauses): set<nat> {
    set i, v | 0 <= i < |cls| && v in cls[i] :: v
  }

  lemma SupportAppend(a: Clauses, c: set<nat>)
    ensures Support(a + [c]) == Support(a) + c
  {
    forall v ensures v in Support(a + [c]) <==> v in Support(a) + c {
      if v in Support(a) {
        var i :| 0 <= i < |a| && v in a[i];
        assert (a + [c])[i] == a[i];
      }
      if v in c { assert (a + [c])[|a|] == c; }
    }
  }

  function Size(): set<nat> -> int {
    c => |c|
  }

  /** The total number of literals. */
  ghost function Literals(cls: Clauses): (n: int)
    ensures n >= 0
  {
    SumNonNegative(cls, Size());
    SumOf(cls, Size())
  }

  // ----- Probability of a DNF -----

  lemma DnfBounds01(p: seq<real>, cls: Clauses)
    requires Unit(p)
    ensures 0.0 <= DnfPr(p, cls) <= 1.0
  {
    BernProb(p);
    hide Pr;
    PrBounds(Bern(p), Satisfied(cls));
  }

  lemma DnfSame(p: seq<real>, a: Clauses, b: Clauses)
    requires Unit(p) && SameFunction(a, b)
    ensures DnfPr(p, a) == DnfPr(p, b)
  {
    BernProb(p);
    hide Pr;
    PrSame(Bern(p), Satisfied(a), Satisfied(b));
  }

  lemma DnfEmpty(p: seq<real>)
    requires Unit(p)
    ensures DnfPr(p, []) == 0.0
  {
    BernProb(p);
    hide Pr;
    PrSure(Bern(p), Satisfied([]));
  }

  lemma DnfTop(p: seq<real>, cls: Clauses, i: nat)
    requires Unit(p) && i < |cls| && cls[i] == {}
    ensures DnfPr(p, cls) == 1.0
  {
    BernProb(p);
    assert forall w :: AllTrue(w, cls[i]);
    hide Pr;
    PrSure(Bern(p), Satisfied(cls));
  }

  lemma DnfReads(cls: Clauses)
    ensures ReadsOnly(Satisfied(cls), Support(cls))
  {
    forall u, w | forall v :: v in Support(cls) ==> True(u, v) == True(w, v)
      ensures Satisfied(cls)(u) == Satisfied(cls)(w)
    {
      forall i | 0 <= i < |cls| ensures AllTrue(u, cls[i]) == AllTrue(w, cls[i]) {
        assert cls[i] <= Support(cls);
      }
    }
  }

  lemma DnfDecided(p: seq<real>, cls: Clauses)
    ensures DecidedBy(Bern(p), Satisfied(cls), Support(cls))
  {
    DnfReads(cls);
    ReadsDepends(Bern(p), Bern(p), Satisfied(cls), Support(cls));
  }

  /** Sub-DNFs over disjoint leaves fail independently. */
  lemma DnfIndependent(p: seq<real>, a: Clauses, b: Clauses)
    requires Unit(p) && Support(a) !! Support(b)
    ensures 1.0 - DnfPr(p, a + b) == (1.0 - DnfPr(p, a)) * (1.0 - DnfPr(p, b))
  {
    var d, ea, eb, eab := Bern(p), Satisfied(a), Satisfied(b), Satisfied(a + b);
    BernProb(p);
    DnfDecided(p, a);
    DnfDecided(p, b);
    DecidedAnd(d, ea, ea, Support(a));
    DecidedAnd(d, eb, eb, Support(b));
    forall w ensures DnfTrue(a + b, w) == (DnfTrue(a, w) || DnfTrue(b, w)) { DnfAppend(a, b, w); }
    hide Pr;
    hide DecidedBy;
    PrNot(d, ea, Not(ea));
    PrNot(d, eb, Not(eb));
    PrNot(d, eab, Not(eab));
    PrIndep(d, Not(ea), Support(a), Not(eb), Support(b), Not(eab));
  }

  lemma DnfAppend(a: Clauses, b: Clauses, w: World)
    ensures DnfTrue(a + b, w) == (DnfTrue(a, w) || DnfTrue(b, w))
  {
    if DnfTrue(a, w) {
      var i :| 0 <= i < |a| && AllTrue(w, a[i]);
      assert (a + b)[i] == a[i];
    }
    if DnfTrue(b, w) {
      var i :| 0 <= i < |b| && AllTrue(w, b[i]);
      assert (a + b)[|a| + i] == b[i];
    }
  }

  /** A sub-disjunction is no likelier; a disjunction is at most the sum. */
  lemma DnfUnion(p: seq<real>, a: Clauses, b: Clauses)
    requires Unit(p)
    ensures DnfPr(p, a) <= DnfPr(p, a + b) && DnfPr(p, b) <= DnfPr(p, a + b)
    ensures DnfPr(p, a + b) <= DnfPr(p, a) + DnfPr(p, b)
  {
    var d := Bern(p);
    BernProb(p);
    forall w ensures DnfTrue(a + b, w) == (DnfTrue(a, w) || DnfTrue(b, w)) { DnfAppend(a, b, w); }
    hide Pr;
    PrMono(d, Satisfied(a), Satisfied(a + b));
    PrMono(d, Satisfied(b), Satisfied(a + b));
    PrOr(d, Satisfied(a), Satisfied(b));
    PrBounds(d, And(Satisfied(a), Satisfied(b)));
    PrSame(d, Satisfied(a + b), Or(Satisfied(a), Satisfied(b)));
  }

  /** Same clauses, whatever the order: the same function. */
  lemma SameClauses(a: Clauses, b: Clauses)
    requires forall c :: c in a <==> c in b
    ensures SameFunction(a, b)
  {
    forall w ensures DnfTrue(a, w) == DnfTrue(b, w) {
      if DnfTrue(a, w) {
        var i :| 0 <= i < |a| && AllTrue(w, a[i]);
        assert a[i] in b;
      }
      if DnfTrue(b, w) {
        var i :| 0 <= i < |b| && AllTrue(w, b[i]);
        assert b[i] in a;
      }
    }
  }

  // ----- Cofactors -----

  /** The clauses under x = true: x is struck out. */
  function Positive(cls: Clauses, x: nat): (r: Clauses)
    ensures |r| == |cls| && forall i :: 0 <= i < |cls| ==> r[i] == cls[i] - {x}
  {
    seq(|cls|, i requires 0 <= i < |cls| => cls[i] - {x})
  }

  /** The clauses under x = false: those without x survive. */
  function Negative(cls: Clauses, x: nat): (r: Clauses)
    ensures forall c :: c in r <==> c in cls && x !in c
  {
    if cls == [] then []
    else
      var init := cls[..|cls| - 1];
      var last := cls[|cls| - 1];
      assert cls == init + [last];
      if x in last then Negative(init, x) else Negative(init, x) + [last]
  }

  /** Fixing x leaves the cofactor, under the original marginals. */
  lemma CofactorPr(p: seq<real>, cls: Clauses, cof: Clauses, x: nat, b: bool)
    requires Unit(p) && x < |p| && IsCofactor(cls, cof, x, b)
    ensures P(p[x := if b then 1.0 else 0.0], Satisfied(cls)) == DnfPr(p, cof)
  {
    var q := p[x := if b then 1.0 else 0.0];
    BernProb(q);
    forall w | Possible(Bern(q), w) ensures Satisfied(cls)(w) == Satisfied(cof)(w) {
      assert Bern(q)[x] == [1.0 - q[x], q[x]];
      assert True(w, x) == b;
    }
    DnfReads(cof);
    hide Pr;
    PrSame(Bern(q), Satisfied(cls), Satisfied(cof));
    PrTransfer(p, q, Satisfied(cof), Support(cof));
  }

  /** Shannon expansion of a monotone DNF. */
  lemma DnfShannon(p: seq<real>, cls: Clauses, x: nat)
    requires Unit(p) && x < |p|
    ensures DnfPr(p, cls) == p[x] * DnfPr(p, Positive(cls, x)) + (1.0 - p[x]) * DnfPr(p, Negative(cls, x))
  {
    CofactorsAre(cls, x);
    hide P;
    hide IsCofactor;
    Shannon(p, x, Satisfied(cls));
    CofactorPr(p, cls, Positive(cls, x), x, true);
    CofactorPr(p, cls, Negative(cls, x), x, false);
  }

  ghost predicate IsCofactor(cls: Clauses, cof: Clauses, x: nat, b: bool) {
    x !in Support(cof) && forall w :: True(w, x) == b ==> DnfTrue(cls, w) == DnfTrue(cof, w)
  }

  lemma CofactorsAre(cls: Clauses, x: nat)
    ensures IsCofactor(cls, Positive(cls, x), x, true)
    ensures IsCofactor(cls, Negative(cls, x), x, false)
  {
    var pos, neg := Positive(cls, x), Negative(cls, x);
    forall w | True(w, x) ensures DnfTrue(cls, w) == DnfTrue(pos, w) {
      forall i | 0 <= i < |cls| ensures AllTrue(w, cls[i]) == AllTrue(w, pos[i]) {
        assert forall v :: v in cls[i] <==> v in pos[i] || (v == x && x in cls[i]);
      }
    }
    forall i, v | 0 <= i < |neg| && v in neg[i] ensures v != x { assert neg[i] in neg; }
    forall w | !True(w, x) ensures DnfTrue(cls, w) == DnfTrue(neg, w) {
      if DnfTrue(cls, w) {
        var i :| 0 <= i < |cls| && AllTrue(w, cls[i]);
        assert cls[i] in neg;
      }
      if DnfTrue(neg, w) {
        var i :| 0 <= i < |neg| && AllTrue(w, neg[i]);
        assert neg[i] in neg && neg[i] in cls;
      }
    }
  }

  // ----- The world of one clause -----

  function MaxOf(s: set<nat>): (m: nat)
    requires s != {}
    ensures m in s && forall y :: y in s ==> y <= m
  {
    MaxExists(s);
    var m :| m in s && forall y :: y in s ==> y <= m;
    m
  }

  lemma {:induction false} MaxExists(s: set<nat>)
    requires s != {}
    ensures exists m :: m in s && forall y :: y in s ==> y <= m
  {
    var x :| x in s;
    var rest := s - {x};
    if rest == {} {
      assert s == {x};
    } else {
      MaxExists(rest);
      var m :| m in rest && forall y :: y in rest ==> y <= m;
      assert forall y :: y in s ==> y == x || y in rest;
      var most := if x > m then x else m;
      assert most in s;
    }
  }

  function Above(c: set<nat>): (n: nat)
    ensures forall v :: v in c ==> v < n
  {
    if c == {} then 0 else MaxOf(c) + 1
  }

  /** The world in which exactly the leaves of c are true. */
  function Just(c: set<nat>): (w: World)
    ensures forall v: nat :: True(w, v) <==> v in c
  {
    seq(Above(c), v => if v in c then 1 else 0)
  }

  lemma JustTrue(c: set<nat>, x: set<nat>)
    ensures AllTrue(Just(c), x) <==> x <= c
  {
  }
}
