/** The textual memo key of the circuit d-tree, and why two problems never share one. */
module KeyText {

  function Digit(d: nat): char
    requires d < 10
  {
    "0123456789"[d]
  }

  predicate IsDigit(ch: char) {
    '0' <= ch <= '9'
  }

  function Decimal(n: nat): (s: string)
    ensures s != [] && forall k :: 0 <= k < |s| ==> IsDigit(s[k])
  {
    if n < 10 then [Digit(n)] else Decimal(n / 10) + [Digit(n % 10)]
  }

  predicate EndsOutsideNumber(s: string) {
    s == [] || !IsDigit(s[|s| - 1])
  }

  lemma DropLast(x: string, y: string, a: char, b: char)
    requires x + [a] == y + [b]
    ensures x == y && a == b
  {
    assert (x + [a])[..|x|] == x && (y + [b])[..|y|] == y;
    assert (x + [a])[|x|] == a && (y + [b])[|y|] == b;
  }

  lemma {:induction false} DecimalInjective(m: nat, k: nat)
    requires Decimal(m) == Decimal(k)
    ensures m == k
  {
    if m >= 10 && k >= 10 {
      DropLast(Decimal(m / 10), Decimal(k / 10), Digit(m % 10), Digit(k % 10));
      DecimalInjective(m / 10, k / 10);
    }
  }

  /** The last number of a text is determined by the text. */
  lemma LastNumber(x: string, m: nat, y: string, k: nat)
    requires EndsOutsideNumber(x) && EndsOutsideNumber(y)
    requires x + Decimal(m) == y + Decimal(k)
    ensures x == y && m == k
  {
    var dm, dk := Decimal(m), Decimal(k);
    hide Decimal;
    var s := x + dm;
    assert forall j :: |x| <= j < |s| ==> s[j] == dm[j - |x|];
    assert forall j :: |y| <= j < |s| ==> s[j] == dk[j - |y|];
    assert y != [] ==> s[|y| - 1] == y[|y| - 1];
    assert x != [] ==> s[|x| - 1] == x[|x| - 1];
    assert |x| == |y|;
    assert s[..|x|] == x && s[..|y|] == y && s[|x|..] == dm && s[|y|..] == dk;
    DecimalInjective(m, k);
  }

  // ----- The two halves of a key -----

  function GatesText(gs: seq<nat>): (s: string)
    ensures s == "" <==> gs == []
  {
    if gs == [] then "" else GatesText(gs[..|gs| - 1]) + ":" + Decimal(gs[|gs| - 1])
  }

  function Flag(b: bool): char {
    if b then '=' else '#'
  }

  /** The assigned variables below n that lie in foot, in increasing order. */
  function AssignedText(foot: set<nat>, A: map<nat, bool>, n: nat): string {
    if n == 0 then ""
    else if n - 1 in foot && n - 1 in A then AssignedText(foot, A, n - 1) + Decimal(n - 1) + [Flag(A[n - 1])]
    else AssignedText(foot, A, n - 1)
  }

  function Key(disjunction: bool, gs: seq<nat>, foot: set<nat>, A: map<nat, bool>, n: nat): string {
    ("G" + (if disjunction then "O" else "A")) + GatesText(gs) + "|" + AssignedText(foot, A, n)
  }

  lemma {:induction false} NoBarInGates(gs: seq<nat>)
    ensures '|' !in GatesText(gs)
  {
    if gs != [] { NoBarInGates(gs[..|gs| - 1]); }
  }

  lemma {:induction false} NoBarInAssigned(foot: set<nat>, A: map<nat, bool>, n: nat)
    ensures '|' !in AssignedText(foot, A, n) && EndsOutsideNumber(AssignedText(foot, A, n))
  {
    if n > 0 { NoBarInAssigned(foot, A, n - 1); }
  }

  lemma {:induction false} GatesInjective(gs: seq<nat>, hs: seq<nat>)
    requires GatesText(gs) == GatesText(hs)
    ensures gs == hs
  {
    if gs != [] && hs != [] {
      var gi, hi := gs[..|gs| - 1], hs[..|hs| - 1];
      LastNumber(GatesText(gi) + ":", gs[|gs| - 1], GatesText(hi) + ":", hs[|hs| - 1]);
      DropLast(GatesText(gi), GatesText(hi), ':', ':');
      GatesInjective(gi, hi);
      assert gs == gi + [gs[|gs| - 1]] && hs == hi + [hs[|hs| - 1]];
    }
  }

  /** The largest number listed is below n. */
  lemma {:induction false} LastAssigned(foot: set<nat>, A: map<nat, bool>, n: nat) returns (x: string, m: nat, ch: char)
    requires AssignedText(foot, A, n) != ""
    ensures m < n && EndsOutsideNumber(x) && AssignedText(foot, A, n) == x + Decimal(m) + [ch]
  {
    hide Decimal;
    if n - 1 in foot && n - 1 in A {
      NoBarInAssigned(foot, A, n - 1);
      x, m, ch := AssignedText(foot, A, n - 1), n - 1, Flag(A[n - 1]);
    } else {
      x, m, ch := LastAssigned(foot, A, n - 1);
    }
  }

  lemma NotListed(foot: set<nat>, A: map<nat, bool>, B: map<nat, bool>, n: nat)
    requires n > 0 && n - 1 in foot && n - 1 in A && n - 1 !in B
    ensures AssignedText(foot, A, n) != AssignedText(foot, B, n)
  {
    hide Decimal;
    var a := AssignedText(foot, A, n - 1);
    NoBarInAssigned(foot, A, n - 1);
    if AssignedText(foot, A, n) == AssignedText(foot, B, n - 1) {
      var x, m, ch := LastAssigned(foot, B, n - 1);
      DropLast(a + Decimal(n - 1), x + Decimal(m), Flag(A[n - 1]), ch);
      LastNumber(a, n - 1, x, m);
      assert false;
    }
  }

  lemma {:induction false} AssignedInjective(foot: set<nat>, A: map<nat, bool>, B: map<nat, bool>, n: nat)
    requires AssignedText(foot, A, n) == AssignedText(foot, B, n)
    ensures forall v: nat :: v < n && v in foot ==> (v in A <==> v in B) && (v in A ==> A[v] == B[v])
  {
    hide Decimal;
    if n > 0 {
      if n - 1 in foot && n - 1 in A && n - 1 !in B { NotListed(foot, A, B, n); assert false; }
      if n - 1 in foot && n - 1 in B && n - 1 !in A { NotListed(foot, B, A, n); assert false; }
      var a, b := AssignedText(foot, A, n - 1), AssignedText(foot, B, n - 1);
      if n - 1 in foot && n - 1 in A {
        DropLast(a + Decimal(n - 1), b + Decimal(n - 1), Flag(A[n - 1]), Flag(B[n - 1]));
        NoBarInAssigned(foot, A, n - 1);
        NoBarInAssigned(foot, B, n - 1);
        LastNumber(a, n - 1, b, n - 1);
      }
      AssignedInjective(foot, A, B, n - 1);
    }
  }

  lemma SplitAtBar(x: string, y: string, x': string, y': string)
    requires x + "|" + y == x' + "|" + y' && '|' !in y && '|' !in y'
    ensures x == x' && y == y'
  {
    var s := x + "|" + y;
    assert s[|x|] == '|' && s[|x'|] == '|';
    assert forall j :: |x| < j < |s| ==> s[j] == y[j - |x| - 1] && s[j] in y;
    assert forall j :: |x'| < j < |s| ==> s[j] == y'[j - |x'| - 1] && s[j] in y';
    assert |x| == |x'|;
    assert s[..|x|] == x && s[..|x'|] == x';
    assert s[|x| + 1..] == y && s[|x'| + 1..] == y';
  }

  /** Equal keys mean equal operator and gates, and equal assignments on the footprint. */
  lemma KeyInjective(or1: bool, gs: seq<nat>, f1: set<nat>, A: map<nat, bool>, or2: bool, hs: seq<nat>, f2: set<nat>, B: map<nat, bool>, n: nat)
    requires Key(or1, gs, f1, A, n) == Key(or2, hs, f2, B, n)
    requires gs == hs ==> f1 == f2
    ensures or1 == or2 && gs == hs
    ensures forall v: nat :: v < n && v in f1 ==> (v in A <==> v in B) && (v in A ==> A[v] == B[v])
  {
    var h1, h2 := "G" + (if or1 then "O" else "A"), "G" + (if or2 then "O" else "A");
    NoBarInAssigned(f1, A, n);
    NoBarInAssigned(f2, B, n);
    SplitAtBar(h1 + GatesText(gs), AssignedText(f1, A, n), h2 + GatesText(hs), AssignedText(f2, B, n));
    var t1, t2 := h1 + GatesText(gs), h2 + GatesText(hs);
    assert t1[..2] == h1 && t2[..2] == h2 && t1[2..] == GatesText(gs) && t2[2..] == GatesText(hs);
    assert h1[1] == h2[1];
    GatesInjective(gs, hs);
    AssignedInjective(f1, A, B, n);
  }
}
