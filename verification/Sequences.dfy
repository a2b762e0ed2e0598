/** Sequences without repetitions, lists of lists, and permutations. */
module Sequences {

  ghost predicate Distinct<T>(s: seq<T>) {
    forall i, j :: 0 <= i < j < |s| ==> s[i] != s[j]
  }

  function Indices(n: nat): (s: seq<nat>)
    ensures |s| == n && forall i :: 0 <= i < n ==> s[i] == i
  {
    seq(n, i requires 0 <= i => i)
  }

  lemma NoRepeats<T>(a: seq<T>)
    requires Distinct(a)
    ensures forall x :: multiset(a)[x] == if x in a then 1 else 0
  {
    forall x ensures multiset(a)[x] == if x in a then 1 else 0 {
      if x in a {
        var i :| 0 <= i < |a| && a[i] == x;
        assert a == a[..i] + [x] + a[i + 1..];
        assert x !in a[..i] && x !in a[i + 1..];
        assert multiset(a) == multiset(a[..i]) + multiset{x} + multiset(a[i + 1..]);
      }
    }
  }

  lemma Repeated<T>(b: seq<T>, i: nat, j: nat)
    requires i < j < |b| && b[i] == b[j]
    ensures multiset(b)[b[i]] >= 2
  {
    assert b == b[..i] + [b[i]] + b[i + 1..j] + [b[j]] + b[j + 1..];
    assert multiset(b) == multiset(b[..i]) + multiset{b[i]} + multiset(b[i + 1..j]) + multiset{b[j]} + multiset(b[j + 1..]);
  }

  lemma DistinctPermuted<T>(a: seq<T>, b: seq<T>)
    requires Distinct(a) && multiset(a) == multiset(b)
    ensures Distinct(b)
  {
    NoRepeats(a);
    forall i, j | 0 <= i < j < |b| ensures b[i] != b[j] {
      if b[i] == b[j] { Repeated(b, i, j); }
    }
  }

  /** Two lists of the same elements, neither with repetitions, are permutations of each other. */
  lemma SameElements<T(!new)>(a: seq<T>, b: seq<T>)
    requires Distinct(a) && Distinct(b) && forall x :: x in a <==> x in b
    ensures multiset(a) == multiset(b)
  {
    NoRepeats(a);
    NoRepeats(b);
  }

  function Elements<T(==)>(s: seq<T>): set<T> {
    set x | x in s
  }

  lemma {:induction false} DistinctSize<T>(s: seq<T>)
    requires Distinct(s)
    ensures |Elements(s)| == |s|
  {
    if s != [] {
      var init, last := s[..|s| - 1], s[|s| - 1];
      assert s == init + [last];
      DistinctSize(init);
      assert Elements(s) == Elements(init) + {last};
    }
  }

  /** The numbers below k. */
  function FirstVars(k: nat): (s: set<nat>)
    ensures forall v: nat :: v in s <==> v < k
  {
    if k == 0 then {} else FirstVars(k - 1) + {k - 1}
  }

  lemma Member<T>(s: set<T>) returns (x: T)
    requires s != {}
    ensures x in s
  {
    x :| x in s;
  }

  lemma SubsetSize<T>(a: set<T>, b: set<T>)
    requires a <= b
    ensures |a| <= |b| && (|a| == |b| ==> a == b)
  {
    assert b == a + (b - a);
    assert |b| == |a| + |b - a|;
  }

  /** The first k lists, one after the other. */
  function Flat<T>(groups: seq<seq<T>>, k: nat): seq<T>
    requires k <= |groups|
  {
    if k == 0 then [] else Flat(groups, k - 1) + groups[k - 1]
  }

  lemma {:induction false} InFlat<T>(groups: seq<seq<T>>, k: nat, x: T)
    requires k <= |groups|
    ensures x in Flat(groups, k) <==> exists b :: 0 <= b < k && x in groups[b]
  {
    if k > 0 { InFlat(groups, k - 1, x); }
  }

  lemma {:induction false} FlatDistinct<T>(groups: seq<seq<T>>, k: nat)
    requires k <= |groups| && forall b :: 0 <= b < k ==> Distinct(groups[b])
    requires forall b, c, x :: 0 <= b < c < k && x in groups[b] ==> x !in groups[c]
    ensures Distinct(Flat(groups, k))
  {
    if k > 0 {
      FlatDistinct(groups, k - 1);
      var a, b := Flat(groups, k - 1), groups[k - 1];
      forall i, j | 0 <= i < j < |a + b| ensures (a + b)[i] != (a + b)[j] {
        if i < |a| <= j {
          InFlat(groups, k - 1, a[i]);
          assert a[i] in a && b[j - |a|] in b;
        }
      }
    }
  }
}
