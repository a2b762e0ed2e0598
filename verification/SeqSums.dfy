/** Sums over sequences, and their independence of the order of the terms. */
module SeqSums {

  ghost function SumOf<T(!new)>(s: seq<T>, f: T -> int): int {
    if s == [] then 0 else SumOf(s[..|s| - 1], f) + f(s[|s| - 1])
  }

  lemma SumAppend<T(!new)>(s: seq<T>, x: T, f: T -> int)
    ensures SumOf(s + [x], f) == SumOf(s, f) + f(x)
  {
    assert (s + [x])[..|s|] == s;
  }

  lemma {:induction false} SumConcat<T(!new)>(a: seq<T>, b: seq<T>, f: T -> int)
    ensures SumOf(a + b, f) == SumOf(a, f) + SumOf(b, f)
  {
    if b == [] {
      assert a + b == a;
    } else {
      var init, last := b[..|b| - 1], b[|b| - 1];
      assert a + b == (a + init) + [last];
      SumAppend(a + init, last, f);
      SumConcat(a, init, f);
    }
  }

  function Without<T>(s: seq<T>, j: nat): seq<T>
    requires j < |s|
  {
    s[..j] + s[j + 1..]
  }

  lemma MultisetWithout<T>(s: seq<T>, j: nat)
    requires j < |s|
    ensures multiset(s) == multiset(Without(s, j)) + multiset{s[j]}
  {
    assert s == s[..j] + ([s[j]] + s[j + 1..]);
  }

  lemma SplitAt<T>(s: seq<T>, j: nat)
    requires j < |s|
    ensures s == (s[..j] + [s[j]]) + s[j + 1..]
  {
  }

  lemma SumWithout<T(!new)>(s: seq<T>, j: nat, f: T -> int)
    requires j < |s|
    ensures SumOf(s, f) == SumOf(Without(s, j), f) + f(s[j])
  {
    var a, b := s[..j], s[j + 1..];
    hide SumOf;
    SplitAt(s, j);
    SumConcat(a + [s[j]], b, f);
    SumAppend(a, s[j], f);
    SumConcat(a, b, f);
  }

  lemma {:induction false} SumPermuted<T(!new)>(a: seq<T>, b: seq<T>, f: T -> int)
    requires multiset(a) == multiset(b)
    ensures SumOf(a, f) == SumOf(b, f)
    decreases |a|
  {
    if a == [] {
      assert |multiset(b)| == 0;
    } else {
      var last := a[|a| - 1];
      assert a == a[..|a| - 1] + [last];
      assert last in multiset(a);
      assert last in b;
      var j :| 0 <= j < |b| && b[j] == last;
      SumWithout(b, j, f);
      MultisetWithout(b, j);
      assert multiset(a[..|a| - 1]) == multiset(a) - multiset{last};
      SumPermuted(a[..|a| - 1], Without(b, j), f);
    }
  }

  lemma {:induction false} SumNonNegative<T(!new)>(s: seq<T>, f: T -> int)
    requires forall x :: x in s ==> f(x) >= 0
    ensures SumOf(s, f) >= 0
  {
    if s != [] {
      var init := s[..|s| - 1];
      assert forall x :: x in init ==> x in s;
      SumNonNegative(init, f);
      assert s[|s| - 1] in s;
    }
  }

  lemma {:induction false} SumAtMost<T(!new)>(s: seq<T>, f: T -> int)
    requires forall x :: x in s ==> f(x) <= 1
    ensures SumOf(s, f) <= |s|
  {
    if s != [] {
      var init := s[..|s| - 1];
      assert forall x :: x in init ==> x in s;
      SumAtMost(init, f);
      assert s[|s| - 1] in s;
    }
  }

  lemma {:induction false} SumEqual<T(!new)>(s: seq<T>, f: T -> int, g: T -> int)
    requires forall x :: x in s ==> f(x) == g(x)
    ensures SumOf(s, f) == SumOf(s, g)
  {
    if s != [] {
      var init := s[..|s| - 1];
      assert forall x :: x in init ==> x in s;
      SumEqual(init, f, g);
      assert s[|s| - 1] in s;
    }
  }

  lemma {:induction false} SumPlus<T(!new)>(s: seq<T>, f: T -> int, g: T -> int, h: T -> int)
    requires forall x :: x in s ==> h(x) == f(x) + g(x)
    ensures SumOf(s, h) == SumOf(s, f) + SumOf(s, g)
  {
    if s != [] {
      var init := s[..|s| - 1];
      assert forall x :: x in init ==> x in s;
      SumPlus(init, f, g, h);
      assert s[|s| - 1] in s;
    }
  }

  lemma {:induction false} SumTimes<T(!new)>(s: seq<T>, a: int, f: T -> int, h: T -> int)
    requires forall x :: x in s ==> h(x) == a * f(x)
    ensures SumOf(s, h) == a * SumOf(s, f)
  {
    if s != [] {
      var init := s[..|s| - 1];
      assert forall x :: x in init ==> x in s;
      SumTimes(init, a, f, h);
      assert s[|s| - 1] in s;
    }
  }

  /** A sum over images. */
  lemma {:induction false} SumMapped<S(!new), T(!new)>(s: seq<S>, t: seq<T>, f: S -> int, g: T -> int)
    requires |s| == |t| && forall i :: 0 <= i < |s| ==> f(s[i]) == g(t[i])
    ensures SumOf(s, f) == SumOf(t, g)
  {
    if s != [] { SumMapped(s[..|s| - 1], t[..|t| - 1], f, g); }
  }
}
