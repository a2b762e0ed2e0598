/** Subsumption reduction and the canonical clause order: the memo key of the DNF d-tree
    identifies exactly the clause lists that denote the same function.  */
module DnfCanonical {
  import opened Worlds
  import opened Probability
  import opened MonotoneDnf
  import opened SeqSums
  import opened Sequences
  import Sorting

  // ----- Subsumption -----

  /** No clause contains another, and none occurs twice. */
  ghost predicate Antichain(cls: Clauses) {
    forall i, j :: 0 <= i < |cls| && 0 <= j < |cls| && i != j ==> !(cls[i] <= cls[j])
  }

  predicate BySize(a: set<nat>, b: set<nat>) {
    |a| <= |b|
  }

  /** c is implied by a clause of kept. */
  ghost predicate Implied(kept: Clauses, c: set<nat>) {
    exists j :: 0 <= j < |kept| && kept[j] <= c
  }

  ghost predicate Covers(kept: Clauses, cls: Clauses) {
    forall i :: 0 <= i < |cls| ==> Implied(kept, cls[i])
  }

  lemma TrueImplied(kept: Clauses, cls: Clauses, w: World)
    requires Covers(kept, cls) && DnfTrue(cls, w)
    ensures DnfTrue(kept, w)
  {
    var i :| 0 <= i < |cls| && AllTrue(w, cls[i]);
    assert Implied(kept, cls[i]);
    var j :| 0 <= j < |kept| && kept[j] <= cls[i];
    assert AllTrue(w, kept[j]);
  }

  lemma TrueAmong(kept: Clauses, cls: Clauses, w: World)
    requires (forall k :: k in kept ==> k in cls) && DnfTrue(kept, w)
    ensures DnfTrue(cls, w)
  {
    var i :| 0 <= i < |kept| && AllTrue(w, kept[i]);
    assert kept[i] in cls;
    var j :| 0 <= j < |cls| && cls[j] == kept[i];
  }

  /** Covered clauses are redundant. */
  lemma CoversSame(kept: Clauses, cls: Clauses)
    requires Covers(kept, cls) && forall k :: k in kept ==> k in cls
    ensures SameFunction(kept, cls)
  {
    forall w ensures DnfTrue(kept, w) == DnfTrue(cls, w) {
      if DnfTrue(cls, w) { TrueImplied(kept, cls, w); }
      if DnfTrue(kept, w) { TrueAmong(kept, cls, w); }
    }
  }

  lemma SubsetEqual(a: set<nat>, b: set<nat>)
    requires a <= b && |b| <= |a|
    ensures a == b
  {
    assert |b| == |a| + |b - a| by { assert b == a + (b - a); }
    assert b - a == {};
  }

  /** The state of the reduction: kept is an antichain that covers the clauses seen. */
  ghost predicate Reduced(kept: Clauses, seen: Clauses) {
    && Antichain(kept) && Covers(kept, seen) && (forall k :: k in kept ==> k in seen)
    && Literals(kept) <= Literals(seen)
  }

  lemma ReducedSkip(kept: Clauses, seen: Clauses, c: set<nat>)
    requires Reduced(kept, seen) && Implied(kept, c)
    ensures Reduced(kept, seen + [c])
  {
    SumAppend(seen, c, Size());
  }

  lemma ReducedKeep(kept: Clauses, seen: Clauses, c: set<nat>)
    requires Reduced(kept, seen) && forall j :: 0 <= j < |kept| ==> !(kept[j] <= c) && |kept[j]| <= |c|
    ensures Reduced(kept + [c], seen + [c])
  {
    SumAppend(seen, c, Size());
    SumAppend(kept, c, Size());
    var next := kept + [c];
    forall i, j | 0 <= i < |next| && 0 <= j < |next| && i != j ensures !(next[i] <= next[j]) {
      if i == |kept| && next[i] <= next[j] { SubsetEqual(c, kept[j]); }
    }
    assert next[|kept|] == c;
    forall i | 0 <= i < |seen + [c]| ensures Implied(next, (seen + [c])[i]) {
      if i < |seen| {
        assert Implied(kept, seen[i]);
        var j :| 0 <= j < |kept| && kept[j] <= seen[i];
        assert next[j] <= seen[i];
      }
    }
  }

  method FindImplied(kept: Clauses, c: set<nat>) returns (subsumed: bool)
    ensures subsumed == Implied(kept, c)
  {
    for j := 0 to |kept|
      invariant forall a :: 0 <= a < j ==> !(kept[a] <= c)
    {
      if kept[j] <= c {
        return true;
      }
    }
    return false;
  }

  /** Drops subsumed clauses: an antichain of the same function, with no more literals. */
  method RemoveSubsumed(clauses: Clauses) returns (kept: Clauses)
    ensures Antichain(kept) && SameFunction(kept, clauses)
    ensures forall k :: k in kept ==> k in clauses
    ensures Literals(kept) <= Literals(clauses)
  {
    var sorted := Sorting.Sort(BySize, clauses);
    Sorting.SortSorted(BySize, clauses);
    kept := [];
    for i := 0 to |sorted|
      invariant Reduced(kept, sorted[..i])
    {
      var c := sorted[i];
      assert sorted[..i + 1] == sorted[..i] + [c];
      var subsumed := FindImplied(kept, c);
      if subsumed {
        ReducedSkip(kept, sorted[..i], c);
      } else {
        Smaller(kept, sorted, i);
        ReducedKeep(kept, sorted[..i], c);
        kept := kept + [c];
      }
    }
    assert sorted[..|sorted|] == sorted;
    ReducedAll(kept, sorted, clauses);
  }

  lemma Smaller(kept: Clauses, sorted: Clauses, i: nat)
    requires i < |sorted| && Reduced(kept, sorted[..i]) && Sorting.Sorted(BySize, sorted)
    ensures forall j :: 0 <= j < |kept| ==> |kept[j]| <= |sorted[i]|
  {
    forall j | 0 <= j < |kept| ensures |kept[j]| <= |sorted[i]| {
      assert kept[j] in sorted[..i];
      var m :| 0 <= m < i && sorted[m] == kept[j];
      assert BySize(sorted[m], sorted[i]);
    }
  }

  lemma ReducedAll(kept: Clauses, sorted: Clauses, clauses: Clauses)
    requires Reduced(kept, sorted) && multiset(sorted) == multiset(clauses)
    ensures Antichain(kept) && SameFunction(kept, clauses)
    ensures forall k :: k in kept ==> k in clauses
    ensures Literals(kept) <= Literals(clauses)
  {
    Sorting.SameMembers(sorted, clauses);
    CoversSame(kept, sorted);
    SameClauses(sorted, clauses);
    SumPermuted(sorted, clauses, Size());
  }

  // ----- The canonical order on clauses -----

  lemma {:induction false} MinExists(s: set<nat>)
    requires s != {}
    ensures exists m :: m in s && forall y :: y in s ==> m <= y
  {
    var x :| x in s;
    var rest := s - {x};
    if rest == {} {
      assert s == {x};
    } else {
      MinExists(rest);
      var m :| m in rest && forall y :: y in rest ==> m <= y;
      assert forall y :: y in s ==> y == x || y in rest;
      var least := if x < m then x else m;
      assert least in s;
    }
  }

  function Min(s: set<nat>): (m: nat)
    requires s != {}
    ensures m in s && forall y :: y in s ==> m <= y
  {
    MinExists(s);
    var m :| m in s && forall y :: y in s ==> m <= y;
    m
  }

  /** Lexicographic order on the increasing listings of two clauses. */
  predicate LexLeq(a: set<nat>, b: set<nat>)
    decreases |a|
  {
    if a == {} then true
    else if b == {} then false
    else
      var x, y := Min(a), Min(b);
      x < y || (x == y && LexLeq(a - {x}, b - {y}))
  }

  lemma {:induction false} LexTotal(a: set<nat>, b: set<nat>)
    ensures LexLeq(a, b) || LexLeq(b, a)
    decreases |a|
  {
    if a != {} && b != {} && Min(a) == Min(b) { LexTotal(a - {Min(a)}, b - {Min(b)}); }
  }

  lemma {:induction false} LexTrans(a: set<nat>, b: set<nat>, c: set<nat>)
    requires LexLeq(a, b) && LexLeq(b, c)
    ensures LexLeq(a, c)
    decreases |a|
  {
    if a != {} && b != {} && c != {} && Min(a) == Min(b) == Min(c) {
      LexTrans(a - {Min(a)}, b - {Min(b)}, c - {Min(c)});
    }
  }

  lemma {:induction false} LexAntisym(a: set<nat>, b: set<nat>)
    requires LexLeq(a, b) && LexLeq(b, a)
    ensures a == b
    decreases |a|
  {
    if a != {} && b != {} {
      LexAntisym(a - {Min(a)}, b - {Min(b)});
      assert a == (a - {Min(a)}) + {Min(a)} && b == (b - {Min(b)}) + {Min(b)};
    }
  }

  lemma LexOrder()
    ensures Sorting.TotalPreorder(LexLeq)
    ensures forall x, y :: LexLeq(x, y) && LexLeq(y, x) ==> x == y
  {
    forall x, y ensures LexLeq(x, y) || LexLeq(y, x) { LexTotal(x, y); }
    forall x, y, z | LexLeq(x, y) && LexLeq(y, z) ensures LexLeq(x, z) { LexTrans(x, y, z); }
    forall x, y | LexLeq(x, y) && LexLeq(y, x) ensures x == y { LexAntisym(x, y); }
  }

  // ----- Canonical clause lists -----

  ghost predicate Canonical(key: Clauses) {
    Antichain(key) && Sorting.Sorted(LexLeq, key)
  }

  /** Reduce, then sort: the form under which subproblems are memoised. */
  method Canonicalise(clauses: Clauses) returns (key: Clauses)
    ensures Canonical(key) && SameFunction(key, clauses)
    ensures forall c :: c in key ==> c in clauses
    ensures Literals(key) <= Literals(clauses)
  {
    var kept := RemoveSubsumed(clauses);
    key := Sorting.Sort(LexLeq, kept);
    LexOrder();
    Sorting.SortSorted(LexLeq, kept);
    Sorting.SameMembers(key, kept);
    SameClauses(key, kept);
    SumPermuted(key, kept, Size());
    AntichainPermuted(kept, key);
  }

  lemma AntichainPermuted(a: Clauses, b: Clauses)
    requires Antichain(a) && multiset(a) == multiset(b)
    ensures Antichain(b)
  {
    Sorting.SameMembers(a, b);
    NoRepeats(a);
    forall i, j | 0 <= i < |b| && 0 <= j < |b| && i != j ensures !(b[i] <= b[j]) {
      assert b[i] in a && b[j] in a;
      var m :| 0 <= m < |a| && a[m] == b[i];
      var n :| 0 <= n < |a| && a[n] == b[j];
      if m == n { Repeated(b, if i < j then i else j, if i < j then j else i); }
    }
  }

  /** A clause of one form is contained in, hence equal to, a clause of the other. */
  lemma ClauseShared(a: Clauses, b: Clauses, i: nat)
    requires Antichain(a) && SameFunction(a, b) && i < |a|
    ensures a[i] in b
  {
    var w := Just(a[i]);
    JustTrue(a[i], a[i]);
    assert DnfTrue(a, w) && DnfTrue(b, w);
    var j :| 0 <= j < |b| && AllTrue(w, b[j]);
    JustTrue(a[i], b[j]);
    var u := Just(b[j]);
    JustTrue(b[j], b[j]);
    assert DnfTrue(b, u) && DnfTrue(a, u);
    var k :| 0 <= k < |a| && AllTrue(u, a[k]);
    JustTrue(b[j], a[k]);
    assert a[k] <= a[i];
    assert a[i] == b[j];
  }

  /** Equal keys if and only if equal functions. */
  lemma CanonicalKey(a: Clauses, b: Clauses)
    requires Canonical(a) && Canonical(b)
    ensures a == b <==> SameFunction(a, b)
  {
    if SameFunction(a, b) {
      forall c ensures c in a <==> c in b {
        if c in a { var i :| 0 <= i < |a| && a[i] == c; ClauseShared(a, b, i); }
        if c in b { var i :| 0 <= i < |b| && b[i] == c; ClauseShared(b, a, i); }
      }
      NoRepeats(a);
      NoRepeats(b);
      assert multiset(a) == multiset(b);
      LexOrder();
      Sorting.SortedUnique(LexLeq, a, b);
    }
  }
}
