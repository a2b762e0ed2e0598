/** Why repeated contributors must be ruled out: a block in which every contributor occurs
    twice that is accepted as a product of three factors although it is not one.  */
module ProductDuplicates {
  import opened Worlds
  import opened Probability
  import opened Sequences
  import opened MonotoneDnf
  import opened Connectivity
  import opened Contributors
  import opened CrossProducts
  import opened ProductBlocks

  /** Four of the eight combinations of {0, 1}, {2, 3} and {4, 5}. */
  const HALF: Clauses := [{0, 2, 4}, {0, 3, 5}, {1, 2, 5}, {1, 3, 4}]

  const TWICE: Clauses := HALF + HALF

  const FACTORS: Decomposition :=
    Decomposition(map[0 := 0, 1 := 0, 2 := 1, 3 := 1, 4 := 2, 5 := 2], [[{0}, {1}], [{2}, {3}], [{4}, {5}]])

  lemma Members(c: set<nat>)
    ensures c in TWICE <==> c in {{0, 2, 4}, {0, 3, 5}, {1, 2, 5}, {1, 3, 4}}
  {
    assert TWICE[0] == {0, 2, 4} && TWICE[1] == {0, 3, 5} && TWICE[2] == {1, 2, 5} && TWICE[3] == {1, 3, 4};
  }

  lemma Leaves()
    ensures Support(TWICE) == {0, 1, 2, 3, 4, 5}
  {
    assert TWICE[0] == {0, 2, 4} && TWICE[1] == {0, 3, 5} && TWICE[2] == {1, 2, 5};
    forall v | v in Support(TWICE) ensures v in {0, 1, 2, 3, 4, 5} {
      var i :| 0 <= i < |TWICE| && v in TWICE[i];
      assert TWICE[i] in TWICE;
      Members(TWICE[i]);
    }
  }

  /** Two leaves occur together unless they belong to the same factor. */
  lemma Meetings(a: nat, b: nat)
    requires a < 6 && b < 6 && a != b
    ensures Together(TWICE, a, b) <==> FACTORS.factor[a] != FACTORS.factor[b]
  {
    assert TWICE[0] == {0, 2, 4} && TWICE[1] == {0, 3, 5} && TWICE[2] == {1, 2, 5} && TWICE[3] == {1, 3, 4};
    if Together(TWICE, a, b) {
      var i :| 0 <= i < |TWICE| && a in TWICE[i] && b in TWICE[i];
      assert TWICE[i] in TWICE;
      Members(TWICE[i]);
    }
  }

  lemma AreItsClasses()
    ensures Classes(TWICE, 6, FACTORS.factor, 3)
  {
    Leaves();
    var factor, edge := FACTORS.factor, NeverTogether(TWICE);
    assert factor[0] == 0 && factor[2] == 1 && factor[4] == 2;
    forall a: nat, b: nat ensures edge(a, b) <==> a in factor && b in factor && a != b && factor[a] == factor[b] {
      if a < 6 && b < 6 && a != b { Meetings(a, b); }
    }
    var color := (l: nat) => if l in factor then factor[l] else 0;
    forall a, b | a in factor && b in factor ensures factor[a] == factor[b] <==> Linked(edge, 6, a, b) {
      if a == b {
        LinkedSelf(edge, 6, a);
      } else if factor[a] == factor[b] {
        LinkedStep(edge, 6, a, b);
      } else if Linked(edge, 6, a, b) {
        LinkedSame(edge, 6, color, a, b);
      }
    }
  }

  lemma PartsOfFactor(f: nat)
    requires f < 3
    ensures PartsOf(TWICE, FACTORS.factor, f, FACTORS.parts[f])
    ensures forall c :: c in TWICE ==> Projection(c, FACTORS.factor, f) != {}
  {
    var factor := FACTORS.factor;
    var low, high := {2 * f}, {2 * f + 1};
    assert FACTORS.parts[f] == [low, high];
    forall c | c in TWICE ensures Projection(c, factor, f) in [low, high] {
      Members(c);
      assert Projection(c, factor, f) == if 2 * f in c then low else high;
      assert [low, high][0] == low && [low, high][1] == high;
    }
    assert HALF[0] in TWICE && HALF[3] in TWICE by { Members(HALF[0]); Members(HALF[3]); }
    assert Projection(HALF[0], factor, f) == low;
    var c := if f == 2 then HALF[1] else HALF[3];
    Members(c);
    assert Projection(c, factor, f) == high;
  }

  lemma ItsSizes()
    ensures Sizes(FACTORS.parts, 3) == 8
  {
    assert Sizes(FACTORS.parts, 1) == 2;
    assert Sizes(FACTORS.parts, 2) == 4;
  }

  lemma ItMeetsAll()
    ensures MeetsAll(TWICE, FACTORS.factor, 3)
  {
    PartsOfFactor(0);
    PartsOfFactor(1);
    PartsOfFactor(2);
    hide Projection;
    hide PartsOf;
  }

  lemma TheseAreItsParts()
    ensures IsParts(TWICE, FACTORS.factor, FACTORS.parts)
  {
    forall f: nat | f < 3 ensures PartsOf(TWICE, FACTORS.factor, f, FACTORS.parts[f]) { PartsOfFactor(f); }
    hide PartsOf;
  }

  lemma IsItsDecomposition()
    ensures IsDecomposition(TWICE, FACTORS)
  {
    Leaves();
    ItsSizes();
    ItMeetsAll();
    TheseAreItsParts();
    hide MeetsAll;
    hide IsParts;
    hide Sizes;
    hide Support;
  }

  /** The block passes every test of the decomposition, yet in some world its count is not
      the product of the counts of the factors. */
  lemma DuplicatesRefuteProduct()
    ensures Classes(TWICE, 6, FACTORS.factor, 3) && IsDecomposition(TWICE, FACTORS)
    ensures exists w :: Count(TWICE, w) != ProductOfCounts(FACTORS.parts, 3, w)
  {
    AreItsClasses();
    IsItsDecomposition();
    assert TWICE[0] == TWICE[4];
    assert !Distinct(TWICE);
    hide *;
    CountIsProductIff(TWICE, FACTORS);
  }
}
