/** Cartesian products of families of leaf sets: one union per choice of a part from
    each family.  Sums over a product of what factorises are products of sums.  */
module CrossProducts {
  import opened Worlds
  import opened Probability
  import opened Sequences
  import opened SeqSums
  import opened MonotoneDnf
  import opened ClauseBlocks
  import opened Contributors

  function Extended(us: Clauses, q: set<nat>): (s: Clauses)
    ensures |s| == |us| && forall i :: 0 <= i < |us| ==> s[i] == us[i] + q
  {
    seq(|us|, i requires 0 <= i < |us| => us[i] + q)
  }

  /** Every element of us joined with every element of qs. */
  function Joins(us: Clauses, qs: Clauses): Clauses {
    if qs == [] then [] else Joins(us, qs[..|qs| - 1]) + Extended(us, qs[|qs| - 1])
  }

  /** The unions of one part from each of the first k families. */
  function Cross(parts: seq<Clauses>, k: nat): Clauses
    requires k <= |parts|
  {
    if k == 0 then [{}] else Joins(Cross(parts, k - 1), parts[k - 1])
  }

  function Sizes(parts: seq<Clauses>, k: nat): nat
    requires k <= |parts|
  {
    if k == 0 then 1 else Sizes(parts, k - 1) * |parts[k - 1]|
  }

  lemma {:induction false} JoinsSize(us: Clauses, qs: Clauses)
    ensures |Joins(us, qs)| == |us| * |qs|
  {
    if qs != [] {
      JoinsSize(us, qs[..|qs| - 1]);
      Distribute(|us|, |qs| - 1, 1);
    }
  }

  lemma {:induction false} CrossSize(parts: seq<Clauses>, k: nat)
    requires k <= |parts|
    ensures |Cross(parts, k)| == Sizes(parts, k)
  {
    if k > 0 {
      CrossSize(parts, k - 1);
      JoinsSize(Cross(parts, k - 1), parts[k - 1]);
    }
  }

  // ----- Sums over products -----

  /** Over the elements of us, F after joining q is G times b. */
  ghost predicate Splits(us: Clauses, q: set<nat>, F: set<nat> -> int, G: set<nat> -> int, b: int) {
    forall u :: u in us ==> F(u + q) == G(u) * b
  }

  lemma ExtendedSum(us: Clauses, q: set<nat>, F: set<nat> -> int, G: set<nat> -> int, b: int)
    requires Splits(us, q, F, G, b)
    ensures SumOf(Extended(us, q), F) == SumOf(us, G) * b
  {
    var H: set<nat> -> int := u => b * G(u);
    SumMapped(us, Extended(us, q), H, F);
    SumTimes(us, b, G, H);
  }

  lemma Distribute(x: int, y: int, z: int)
    ensures x * (y + z) == x * y + x * z
  {
  }

  /** What factorises over the two sides sums to a product. */
  lemma {:induction false} JoinSum(us: Clauses, qs: Clauses, F: set<nat> -> int, G: set<nat> -> int, H: set<nat> -> int)
    requires forall q :: q in qs ==> Splits(us, q, F, G, H(q))
    ensures SumOf(Joins(us, qs), F) == SumOf(us, G) * SumOf(qs, H)
  {
    hide Splits;
    if qs != [] {
      var init, q := qs[..|qs| - 1], qs[|qs| - 1];
      assert qs == init + [q];
      JoinSum(us, init, F, G, H);
      ExtendedSum(us, q, F, G, H(q));
      hide SumOf;
      SumConcat(Joins(us, init), Extended(us, q), F);
      SumAppend(init, q, H);
      Distribute(SumOf(us, G), SumOf(init, H), H(q));
    }
  }

  lemma JoinProduct(us: Clauses, qs: Clauses, F: set<nat> -> int, G: set<nat> -> int, H: set<nat> -> int)
    requires forall u, q :: u in us && q in qs ==> F(u + q) == G(u) * H(q)
    ensures SumOf(Joins(us, qs), F) == SumOf(us, G) * SumOf(qs, H)
  {
    JoinSum(us, qs, F, G, H);
  }

  /** Present members of a product are the choices of present parts. */
  lemma CountJoins(us: Clauses, qs: Clauses, w: World)
    ensures Count(Joins(us, qs), w) == Count(us, w) * Count(qs, w)
  {
    forall q | q in qs ensures Splits(us, q, Here(w), Here(w), Here(w)(q)) {
      assert forall u :: AllTrue(w, u + q) == (AllTrue(w, u) && AllTrue(w, q));
    }
    JoinSum(us, qs, Here(w), Here(w), Here(w));
  }

  lemma CountNothing(w: World)
    ensures Count([{}], w) == 1
  {
    var none: Clauses := [];
    SumAppend(none, {}, Here(w));
    assert none + [{}] == [{}];
  }

  // ----- Membership and repetitions -----

  lemma {:induction false} InJoins(us: Clauses, qs: Clauses, x: set<nat>)
    ensures x in Joins(us, qs) <==> exists u, q :: u in us && q in qs && x == u + q
  {
    if qs != [] {
      var init, last := qs[..|qs| - 1], qs[|qs| - 1];
      assert qs == init + [last];
      InJoins(us, init, x);
      assert x in Extended(us, last) <==> exists u :: u in us && x == u + last;
    }
  }

  lemma JoinedIn(us: Clauses, qs: Clauses, u: set<nat>, q: set<nat>)
    requires u in us && q in qs
    ensures u + q in Joins(us, qs)
  {
    InJoins(us, qs, u + q);
  }

  /** Elements of us lie in a, elements of qs in b, and a and b are apart. */
  ghost predicate Apart(us: Clauses, a: set<nat>, qs: Clauses, b: set<nat>) {
    a !! b && (forall u :: u in us ==> u <= a) && (forall q :: q in qs ==> q <= b)
  }

  lemma SplitUnion(a: set<nat>, b: set<nat>, u: set<nat>, q: set<nat>)
    requires a !! b && u <= a && q <= b
    ensures (u + q) * a == u && (u + q) * b == q
  {
  }

  lemma {:induction false} JoinsDistinct(us: Clauses, a: set<nat>, qs: Clauses, b: set<nat>)
    requires Apart(us, a, qs, b) && Distinct(us) && Distinct(qs)
    ensures Distinct(Joins(us, qs))
  {
    if qs != [] {
      var init, last := qs[..|qs| - 1], qs[|qs| - 1];
      assert qs == init + [last];
      JoinsDistinct(us, a, init, b);
      var xs, ys := Joins(us, init), Extended(us, last);
      forall i, j | 0 <= i < j < |ys| ensures ys[i] != ys[j] {
        SplitUnion(a, b, us[i], last);
        SplitUnion(a, b, us[j], last);
      }
      forall x, j | x in xs && 0 <= j < |ys| ensures x != ys[j] {
        InJoins(us, init, x);
        var u, q :| u in us && q in init && x == u + q;
        SplitUnion(a, b, u, q);
        SplitUnion(a, b, us[j], last);
      }
      var all := xs + ys;
      forall i, j | 0 <= i < j < |all| ensures all[i] != all[j] {
        if i < |xs| <= j { assert xs[i] in xs; }
      }
    }
  }

  lemma {:induction false} CrossWithin(parts: seq<Clauses>, k: nat)
    requires k <= |parts|
    ensures forall x :: x in Cross(parts, k) ==> x <= Support(Flat(parts, k))
  {
    if k > 0 {
      CrossWithin(parts, k - 1);
      var us, qs := Cross(parts, k - 1), parts[k - 1];
      SupportOf(Flat(parts, k), Flat(parts, k - 1));
      forall x | x in Cross(parts, k) ensures x <= Support(Flat(parts, k)) {
        InJoins(us, qs, x);
        var u, q :| u in us && q in qs && x == u + q;
        var all := Flat(parts, k);
        assert q in all;
        MembersWithin(all);
        assert q <= Support(all);
      }
    }
  }

  lemma MembersWithin(cls: Clauses)
    ensures forall c :: c in cls ==> c <= Support(cls)
  {
  }

  lemma {:induction false} CrossDistinct(parts: seq<Clauses>, k: nat)
    requires k <= |parts| && PairwiseApart(parts) && forall f :: 0 <= f < |parts| ==> Distinct(parts[f])
    ensures Distinct(Cross(parts, k))
  {
    if k > 0 {
      CrossDistinct(parts, k - 1);
      CrossWithin(parts, k - 1);
      PrefixApart(parts, k - 1);
      MembersWithin(parts[k - 1]);
      JoinsDistinct(Cross(parts, k - 1), Support(Flat(parts, k - 1)), parts[k - 1], Support(parts[k - 1]));
    }
  }
}
