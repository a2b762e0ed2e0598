/** The number of successes in independent trials with different success probabilities:
    rolled forward in place, and summed over whichever tail is shorter.  */
module PoissonBinomial {

  /** One more trial, of success probability x: stay at fail, or move up from succeed. */
  function Roll(stay: real, move: real, x: real): real {
    stay * (1.0 - x) + move * x
  }

  lemma RollFacts(a: real, b: real, x: real)
    ensures Roll(a, b, 1.0 - x) == Roll(b, a, x) && Roll(0.0, 0.0, x) == 0.0 && Roll(a, 0.0, x) == a * (1.0 - x)
  {
  }

  /** The probability that exactly j of the first i independent trials succeed. */
  ghost function Trials(p: seq<real>, i: nat, j: int): real
    requires i <= |p|
  {
    if j < 0 then 0.0
    else if i == 0 then (if j == 0 then 1.0 else 0.0)
    else Roll(Trials(p, i - 1, j), Trials(p, i - 1, j - 1), p[i - 1])
  }

  lemma {:induction false} NoMoreThanTrials(p: seq<real>, i: nat, j: int)
    requires i <= |p| && j > i
    ensures Trials(p, i, j) == 0.0
  {
    if i > 0 {
      NoMoreThanTrials(p, i - 1, j);
      NoMoreThanTrials(p, i - 1, j - 1);
      hide Roll;
      RollFacts(0.0, 0.0, p[i - 1]);
    }
  }

  /** Trials with success and failure exchanged. */
  function Inverted(p: seq<real>): (q: seq<real>)
    ensures |q| == |p| && forall i :: 0 <= i < |p| ==> q[i] == 1.0 - p[i]
  {
    seq(|p|, i requires 0 <= i < |p| => 1.0 - p[i])
  }

  lemma {:induction false} InvertedTrials(p: seq<real>, i: nat, j: int)
    requires i <= |p|
    ensures Trials(Inverted(p), i, j) == Trials(p, i, i - j)
  {
    hide Roll;
    if j < 0 {
      NoMoreThanTrials(p, i, i - j);
    } else if i > 0 {
      InvertedTrials(p, i - 1, j);
      InvertedTrials(p, i - 1, j - 1);
      RollFacts(Trials(p, i - 1, i - 1 - j), Trials(p, i - 1, i - j), p[i - 1]);
    }
  }

  /** Rolls the vector of exact counts forward, one trial at a time, in place. */
  method PartialPmf(p: seq<real>, jmax0: nat) returns (dp: array<real>)
    ensures fresh(dp) && dp.Length == (if jmax0 < |p| then jmax0 else |p|) + 1
    ensures forall j :: 0 <= j < dp.Length ==> dp[j] == Trials(p, |p|, j)
  {
    var jmax := if jmax0 < |p| then jmax0 else |p|;
    dp := new real[jmax + 1](j => if j == 0 then 1.0 else 0.0);
    for i := 0 to |p|
      invariant forall j :: 0 <= j <= jmax ==> dp[j] == Trials(p, i, j)
    {
      hide Roll;
      var upper := if jmax < i + 1 then jmax else i + 1;
      forall j | upper < j <= jmax ensures Trials(p, i + 1, j) == 0.0 == Trials(p, i, j) {
        NoMoreThanTrials(p, i, j);
        NoMoreThanTrials(p, i + 1, j);
      }
      var j := upper;
      while j >= 1
        invariant 0 <= j <= upper
        invariant forall k :: 0 <= k <= j ==> dp[k] == Trials(p, i, k)
        invariant forall k :: j < k <= jmax ==> dp[k] == Trials(p, i + 1, k)
      {
        dp[j] := Roll(dp[j], dp[j - 1], p[i]);
        j := j - 1;
      }
      RollFacts(dp[0], 0.0, p[i]);
      dp[0] := dp[0] * (1.0 - p[i]);
    }
  }

  /** The probability that fewer than c of the first i trials succeed. */
  ghost function Fewer(p: seq<real>, i: nat, c: nat): real
    requires i <= |p|
  {
    if c == 0 then 0.0 else Fewer(p, i, c - 1) + Trials(p, i, c - 1)
  }

  lemma RollAdd(a: real, b: real, c: real, d: real, x: real)
    ensures Roll(a + c, b + d, x) == Roll(a, b, x) + Roll(c, d, x)
  {
  }

  lemma {:induction false} FewerStep(p: seq<real>, i: nat, c: nat)
    requires i < |p|
    ensures Fewer(p, i + 1, c + 1) == Roll(Fewer(p, i, c + 1), Fewer(p, i, c), p[i])
  {
    hide Roll;
    if c == 0 {
      assert Trials(p, i, -1) == 0.0;
      assert Fewer(p, i + 1, 1) == Trials(p, i + 1, 0);
    } else {
      FewerStep(p, i, c - 1);
      RollAdd(Fewer(p, i, c), Fewer(p, i, c - 1), Trials(p, i, c), Trials(p, i, c - 1), p[i]);
    }
  }

  /** The exact counts exhaust all cases. */
  lemma {:induction false} FewerAll(p: seq<real>, i: nat)
    requires i <= |p|
    ensures Fewer(p, i, i + 1) == 1.0
  {
    if i > 0 {
      FewerAll(p, i - 1);
      FewerStep(p, i - 1, i);
      NoMoreThanTrials(p, i - 1, i);
    } else {
      assert Fewer(p, 0, 0) == 0.0;
    }
  }

  /** Few failures are many successes. */
  lemma {:induction false} FewerInverted(p: seq<real>, c: nat)
    requires c <= |p| + 1
    ensures Fewer(Inverted(p), |p|, c) == 1.0 - Fewer(p, |p|, |p| + 1 - c)
  {
    if c == 0 {
      FewerAll(p, |p|);
    } else {
      FewerInverted(p, c - 1);
      InvertedTrials(p, |p|, c - 1);
    }
  }

  lemma {:induction false} FewerBeyond(p: seq<real>, c: nat)
    requires c > |p|
    ensures Fewer(p, |p|, c) == 1.0
  {
    if c == |p| + 1 {
      FewerAll(p, |p|);
    } else {
      FewerBeyond(p, c - 1);
      NoMoreThanTrials(p, |p|, c - 1);
    }
  }

  /** The probability that no trial succeeds. */
  method ProbZero(p: seq<real>) returns (q: real)
    ensures q == Trials(p, |p|, 0)
  {
    q := 1.0;
    for i := 0 to |p|
      invariant q == Trials(p, i, 0)
    {
      q := q * (1.0 - p[i]);
    }
  }

  method SumFirst(p: seq<real>, dp: array<real>, c: nat) returns (sum: real)
    requires c <= dp.Length && forall j :: 0 <= j < dp.Length ==> dp[j] == Trials(p, |p|, j)
    ensures sum == Fewer(p, |p|, c)
  {
    sum := 0.0;
    for j := 0 to c
      invariant sum == Fewer(p, |p|, j)
    {
      sum := sum + dp[j];
    }
  }

  function Clip(t: int): nat {
    if t < 0 then 0 else t
  }

  /** At least t successes, summing whichever tail is shorter. */
  method ProbAtLeast(p: seq<real>, t: int) returns (r: real)
    ensures r == 1.0 - Fewer(p, |p|, Clip(t))
  {
    var n := |p|;
    if t <= 0 {
      return 1.0;
    }
    if t > n {
      FewerBeyond(p, t);
      return 0.0;
    }
    if t - 1 <= n - t {
      var dp := PartialPmf(p, t - 1);
      var sum := SumFirst(p, dp, t);
      return 1.0 - sum;
    } else {
      var q := Inverted(p);
      var dp := PartialPmf(q, n - t);
      r := SumFirst(q, dp, n - t + 1);
      FewerInverted(p, n - t + 1);
    }
  }

  /** At most t successes, summing whichever tail is shorter. */
  method ProbAtMost(p: seq<real>, t: int) returns (r: real)
    ensures r == Fewer(p, |p|, Clip(t + 1))
  {
    var n := |p|;
    if t < 0 {
      return 0.0;
    }
    if t >= n {
      FewerBeyond(p, t + 1);
      return 1.0;
    }
    if t <= n - 1 - t {
      var dp := PartialPmf(p, t);
      r := SumFirst(p, dp, t + 1);
    } else {
      var q := Inverted(p);
      var dp := PartialPmf(q, n - 1 - t);
      var sum := SumFirst(q, dp, n - t);
      FewerInverted(p, n - t);
      return 1.0 - sum;
    }
  }

  /** Exactly t successes. */
  method ProbEqual(p: seq<real>, t: int) returns (r: real)
    ensures r == Trials(p, |p|, t)
  {
    var n := |p|;
    if t < 0 || t > n {
      if t > n { NoMoreThanTrials(p, n, t); }
      return 0.0;
    }
    if t <= n - t {
      var dp := PartialPmf(p, t);
      r := dp[t];
    } else {
      var q := Inverted(p);
      InvertedTrials(p, n, n - t);
      var dp := PartialPmf(q, n - t);
      r := dp[n - t];
    }
  }
}
