/** Contributors to an aggregate: sets of leaves, each present when all its leaves are
    true.  How many are present, what they add up to, and how both split over
    independence blocks and over a shared root.  */
module Contributors {
  import opened Worlds
  import opened Probability
  import opened RandomValues
  import opened Sequences
  import opened SeqSums
  import opened MonotoneDnf
  import opened Connectivity
  import opened Blocks

  // ----- Counting -----

  function Here(w: World): set<nat> -> int {
    c => if AllTrue(w, c) then 1 else 0
  }

  /** Contributors that share no leaf. */
  ghost predicate LeafDisjoint(contribs: Clauses) {
    forall i, j :: 0 <= i < j < |contribs| ==> contribs[i] !! contribs[j]
  }

  /** How many contributors are present in w. */
  ghost function Count(contribs: Clauses, w: World): (n: nat)
    ensures n <= |contribs|
  {
    SumNonNegative(contribs, Here(w));
    SumAtMost(contribs, Here(w));
    SumOf(contribs, Here(w))
  }

  ghost function CountOf(contribs: Clauses): World -> nat {
    w => Count(contribs, w)
  }

  lemma HereReads(contribs: Clauses, u: World, w: World)
    requires forall v :: v in Support(contribs) ==> True(u, v) == True(w, v)
    ensures forall c :: c in contribs ==> Here(u)(c) == Here(w)(c)
  {
    forall c | c in contribs ensures Here(u)(c) == Here(w)(c) {
      var i :| 0 <= i < |contribs| && contribs[i] == c;
      assert c <= Support(contribs);
    }
  }

  lemma CountReads(contribs: Clauses)
    ensures Reads(CountOf(contribs), Support(contribs))
  {
    forall u, w | forall v :: v in Support(contribs) ==> True(u, v) == True(w, v)
      ensures CountOf(contribs)(u) == CountOf(contribs)(w)
    {
      HereReads(contribs, u, w);
      SumEqual(contribs, Here(u), Here(w));
    }
  }

  lemma CountPositive(contribs: Clauses, w: World)
    ensures Count(contribs, w) > 0 <==> DnfTrue(contribs, w)
    decreases |contribs|
  {
    if contribs != [] {
      var init, last := contribs[..|contribs| - 1], contribs[|contribs| - 1];
      assert contribs == init + [last];
      CountPositive(init, w);
      SumAppend(init, last, Here(w));
      DnfAppend(init, [last], w);
      assert [last][0] == last;
    }
  }

  /** The counts in all worlds determine the contributors, repetitions included. */
  lemma {:induction false} CountsDetermine(a: Clauses, b: Clauses)
    requires forall w :: Count(a, w) == Count(b, w)
    ensures multiset(a) == multiset(b)
    decreases |a|
  {
    if a + b == [] {
      assert a == [] && b == [];
    } else {
      var k := Smallest(a + b);
      var x := (a + b)[k];
      SmallestCounted(a, x);
      SmallestCounted(b, x);
      assert x in a && x in b;
      var i :| 0 <= i < |a| && a[i] == x;
      var j :| 0 <= j < |b| && b[j] == x;
      forall w ensures Count(Without(a, i), w) == Count(Without(b, j), w) {
        assert Count(a, w) == Count(b, w);
        SumWithout(a, i, Here(w));
        SumWithout(b, j, Here(w));
      }
      MultisetWithout(a, i);
      MultisetWithout(b, j);
      hide Count;
      CountsDetermine(Without(a, i), Without(b, j));
    }
  }

  lemma {:induction false} Smallest(s: Clauses) returns (k: nat)
    requires s != []
    ensures k < |s| && forall c :: c in s ==> |c| >= |s[k]|
  {
    if |s| == 1 {
      k := 0;
    } else {
      var init, last := s[..|s| - 1], s[|s| - 1];
      assert s == init + [last];
      k := Smallest(init);
      if |last| < |s[k]| { k := |s| - 1; }
    }
  }

  /** Where nothing is smaller than x, only x itself is present in the world of x. */
  lemma SmallestCounted(s: Clauses, x: set<nat>)
    requires forall c :: c in s ==> |c| >= |x|
    ensures Count(s, Just(x)) > 0 <==> x in s
  {
    CountPositive(s, Just(x));
    if x in s {
      var i :| 0 <= i < |s| && s[i] == x;
      JustTrue(x, x);
    }
    if DnfTrue(s, Just(x)) {
      var i :| 0 <= i < |s| && AllTrue(Just(x), s[i]);
      JustTrue(x, s[i]);
      SubsetSize(s[i], x);
    }
  }

  // ----- Splitting over blocks -----

  function At<T(!new)>(items: seq<T>, f: T -> int): nat -> int {
    (i: nat) => if i < |items| then f(items[i]) else 0
  }

  lemma BlockIndices(keys: seq<set<nat>>, blocks: seq<seq<nat>>)
    requires IsBlocks(keys, blocks)
    ensures multiset(Flat(blocks, |blocks|)) == multiset(Indices(|keys|))
  {
    hide Linked;
    var all, s := Flat(blocks, |blocks|), Indices(|keys|);
    forall i: nat ensures i in all <==> i in s {
      InFlat(blocks, |blocks|, i);
      if i < |keys| {
        assert Covered(blocks, i);
        assert s[i] == i;
      }
    }
    FlatDistinct(blocks, |blocks|);
    SameElements(all, s);
  }

  lemma {:induction false} PickFlat<T(!new)>(items: seq<T>, blocks: seq<seq<nat>>, k: nat, f: T -> int)
    requires k <= |blocks| && forall b, i :: 0 <= b < |blocks| && i in blocks[b] ==> i < |items|
    ensures SumOf(Flat(PickAll(items, blocks), k), f) == SumOf(Flat(blocks, k), At(items, f))
  {
    if k > 0 {
      PickFlat(items, blocks, k - 1, f);
      var b := blocks[k - 1];
      SumConcat(Flat(PickAll(items, blocks), k - 1), Pick(items, b), f);
      SumConcat(Flat(blocks, k - 1), b, At(items, f));
      SumMapped(Pick(items, b), b, f, At(items, f));
    }
  }

  /** A sum over all items is the sum over the blocks, one after the other. */
  lemma SumBlocks<T(!new)>(keys: seq<set<nat>>, blocks: seq<seq<nat>>, items: seq<T>, f: T -> int)
    requires IsBlocks(keys, blocks) && |items| == |keys|
    ensures SumOf(items, f) == SumOf(Flat(PickAll(items, blocks), |blocks|), f)
  {
    hide Linked;
    hide SumOf;
    BlockIndices(keys, blocks);
    PickFlat(items, blocks, |blocks|, f);
    SumPermuted(Flat(blocks, |blocks|), Indices(|items|), At(items, f));
    SumMapped(items, Indices(|items|), f, At(items, f));
  }
}
