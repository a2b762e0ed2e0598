/** The probability that no contributor is present, by the same recursion as the count. */
module AllAbsent {
  import opened Reals
  import opened Worlds
  import opened Probability
  import opened RandomValues
  import opened Sequences
  import opened SeqSums
  import opened MonotoneDnf
  import opened ClauseBlocks
  import opened Contributors
  import opened SharedRoots
  import opened CrossProducts
  import opened ProductBlocks
  import opened ProductDecomposition
  import opened Acceptance
  import opened BlockAcceptance
  import opened CountMarginals
  import Blocks
  import Connectivity

  ghost function Absent(p: seq<real>, contribs: Clauses): real {
    1.0 - DnfPr(p, contribs)
  }

  lemma AbsentNothing(p: seq<real>)
    requires Unit(p)
    ensures Absent(p, []) == 1.0
  {
    DnfEmpty(p);
  }

  lemma AbsentSingle(p: seq<real>, c: set<nat>)
    requires Unit(p)
    ensures Absent(p, [c]) == 1.0 - P(p, Present(c))
  {
    hide P;
    forall w ensures Satisfied([c])(w) == Present(c)(w) { assert [c][0] == c; }
    SameEvent(p, Satisfied([c]), Present(c));
  }

  lemma AbsentSame(p: seq<real>, a: Clauses, b: Clauses)
    requires Unit(p) && SameFunction(a, b)
    ensures Absent(p, a) == Absent(p, b)
  {
    DnfSame(p, a, b);
  }

  /** With a shared root: the root is absent, or it is present and all residuals are absent. */
  lemma AbsentGated(p: seq<real>, contribs: Clauses, common: set<nat>)
    requires Unit(p) && SharedBy(contribs, common)
    ensures Absent(p, contribs)
         == (1.0 - P(p, Present(common))) + P(p, Present(common)) * Absent(p, Residuals(contribs, common))
  {
    var res := Residuals(contribs, common);
    var X, Y: World -> bool := Satisfied(contribs), Satisfied(res);
    DnfReads(res);
    assert Reads(Y, Support(res));
    ResidualSupport(contribs, common);
    forall w ensures X(w) == if AllTrue(w, common) then Y(w) else false {
      CountPositive(contribs, w);
      CountPositive(res, w);
      GatedCount(contribs, common, w);
    }
    hide P;
    hide Reads;
    GatedMass<bool>(p, common, Y, Support(res), X, false, true);
    SameEvent(p, X, Is(X, true));
    SameEvent(p, Y, Is(Y, true));
  }

  /** Some combination is present where every factor has a present part. */
  lemma PresentJoins(p: seq<real>, parts: seq<Clauses>, k: nat)
    requires Unit(p) && PairwiseApart(parts) && k < |parts|
    ensures DnfPr(p, Cross(parts, k + 1)) == Mul(DnfPr(p, Cross(parts, k)), DnfPr(p, parts[k]))
  {
    var us, qs := Cross(parts, k), parts[k];
    PrefixApart(parts, k);
    CrossSupport(parts, k);
    BernProb(p);
    DnfDecided(p, us);
    DnfDecided(p, qs);
    forall w ensures Satisfied(Joins(us, qs))(w) == (Satisfied(us)(w) && Satisfied(qs)(w)) {
      CountJoins(us, qs, w);
      CountPositive(us, w);
      CountPositive(qs, w);
      CountPositive(Joins(us, qs), w);
      PositiveProduct(Count(us, w), Count(qs, w));
    }
    hide Pr;
    hide DecidedBy;
    PrIndep(Bern(p), Satisfied(us), Support(us), Satisfied(qs), Support(qs), Satisfied(Joins(us, qs)));
  }

  lemma PositiveProduct(a: nat, b: nat)
    ensures a * b > 0 <==> a > 0 && b > 0
  {
  }

  /** A factor is present where it is not absent. */
  lemma PresentFactor(p: seq<real>, parts: seq<Clauses>, k: nat, prodPresent: real, fa: real)
    requires Unit(p) && PairwiseApart(parts) && k < |parts|
    requires prodPresent == DnfPr(p, Cross(parts, k)) && fa == Absent(p, parts[k])
    ensures Mul(prodPresent, 1.0 - fa) == DnfPr(p, Cross(parts, k + 1))
  {
    hide DnfPr;
    PresentJoins(p, parts, k);
  }

  lemma NoFactor(p: seq<real>, parts: seq<Clauses>)
    requires Unit(p)
    ensures DnfPr(p, Cross(parts, 0)) == 1.0
  {
    DnfTop(p, Cross(parts, 0), 0);
  }

  lemma ProductAbsent(p: seq<real>, group: Clauses, parts: seq<Clauses>)
    requires Unit(p) && multiset(Cross(parts, |parts|)) == multiset(group)
    ensures 1.0 - DnfPr(p, Cross(parts, |parts|)) == Absent(p, group)
  {
    var all := Cross(parts, |parts|);
    forall c ensures c in all <==> c in group {
      assert c in multiset(all) <==> c in multiset(group);
    }
    SameClauses(all, group);
    DnfSame(p, all, group);
  }

  lemma WholeAbsent(p: seq<real>, contribs: Clauses, blocks: seq<seq<nat>>)
    requires Unit(p) && Blocks.IsBlocks(contribs, blocks)
    ensures Absent(p, Flat(Blocks.PickAll(contribs, blocks), |blocks|)) == Absent(p, contribs)
  {
    var all := Flat(Blocks.PickAll(contribs, blocks), |blocks|);
    forall c ensures c in all <==> c in contribs { GroupMembers(contribs, blocks, c); }
    SameClauses(all, contribs);
    AbsentSame(p, all, contribs);
  }

  lemma AbsentStep(p: seq<real>, groups: seq<Clauses>, k: nat)
    requires Unit(p) && PairwiseApart(groups) && k < |groups|
    ensures Absent(p, Flat(groups, k + 1)) == Mul(Absent(p, Flat(groups, k)), Absent(p, groups[k]))
  {
    PrefixApart(groups, k);
    DnfIndependent(p, Flat(groups, k), groups[k]);
  }

  lemma StrictGroups(groups: seq<Clauses>, k: nat)
    requires k < |groups|
    ensures AllAccept(groups, |groups|, Unrepeated) ==> BlockAccepts(groups[k], Unrepeated) && BlockAccepts(groups[k], Any)
  {
    hide BlockAccepts;
    if AllAccept(groups, |groups|, Unrepeated) { BlockAcceptsMore(groups[k], Unrepeated, Any); }
  }

  /** The probability that no contributor is present, or refusal: the contributors accepted
      are those that CountPmf accepts.  */
  method PAllAbsent(p: seq<real>, contribs: Clauses) returns (r: real, ok: bool)
    requires LeavesOk(p, contribs)
    ensures ok <==> Accepts(contribs, Any)
    ensures Accepts(contribs, Unrepeated) ==> r == Absent(p, contribs)
    ensures ok && Distinct(contribs) ==> r == Absent(p, contribs)
    ensures LeafDisjoint(contribs) ==> ok
    decreases Support(contribs), 2
  {
    hide Absent;
    hide Accepts;
    hide BlockAccepts;
    hide AllAccept;
    hide PairwiseApart;
    hide Mul;
    hide Connectivity.Linked;
    AbsentNothing(p);
    NothingAccepts(contribs);
    ApartAccepts(contribs);
    r := 1.0;
    if contribs == [] {
      return r, true;
    }
    var blocks := Blocks.Partition(contribs);
    var groups := Blocks.PickAll(contribs, blocks);
    hide Blocks.IsBlocks;
    GroupsApart(contribs, blocks);
    WholeAbsent(p, contribs, blocks);
    BlocksDecide(contribs, blocks, Any);
    BlocksDecide(contribs, blocks, Unrepeated);
    for k := 0 to |groups|
      invariant AllAccept(groups, k, Any)
      invariant Accepts(contribs, Unrepeated) ==> r == Absent(p, Flat(groups, k))
    {
      NextAccepts(groups, k, Any);
      StrictGroups(groups, k);
      BlockFacts(p, contribs, blocks, k);
      AbsentStep(p, groups, k);
      var block;
      block, ok := BlockAbsent(p, groups[k]);
      if !ok {
        return 0.0, false;
      }
      r := Mul(r, block);
    }
    if Distinct(contribs) { DistinctPart(contribs); }
    ok := true;
  }

  method BlockAbsent(p: seq<real>, group: Clauses) returns (r: real, ok: bool)
    requires LeavesOk(p, group) && group != []
    ensures ok <==> BlockAccepts(group, Any)
    ensures BlockAccepts(group, Unrepeated) ==> r == Absent(p, group)
    decreases Support(group), 1
  {
    hide Absent;
    hide Accepts;
    hide BlockAccepts;
    SingleAccepts(group);
    if |group| == 1 {
      var q := LeafProduct(p, group[0]);
      AbsentSingle(p, group[0]);
      assert group == [group[0]];
      return 1.0 - q, true;
    }
    var common := CommonLeaves(group);
    CommonIs(group, common);
    if common != {} {
      CommonFacts(p, group, common);
      RootAccepted(group, common, Any);
      RootAccepted(group, common, Unrepeated);
      var root := LeafProduct(p, common);
      var residuals := ResidualsOf(group, common);
      var inner;
      inner, ok := PAllAbsent(p, residuals);
      if !ok {
        if Accepts(residuals, Unrepeated) { StrictPart(residuals); }
        return 0.0, false;
      }
      r := (1.0 - root) + root * inner;
      AbsentGated(p, group, common);
    } else {
      r, ok := ProductAbsence(p, group);
    }
  }

  /** Without a shared root: some factor is entirely absent. */
  method ProductAbsence(p: seq<real>, group: Clauses) returns (r: real, ok: bool)
    requires LeavesOk(p, group) && NeedsProduct(group)
    ensures ok <==> BlockAccepts(group, Any)
    ensures BlockAccepts(group, Unrepeated) ==> r == Absent(p, group)
    decreases Support(group), 0
  {
    hide DnfPr;
    hide Absent;
    hide Accepts;
    hide BlockAccepts;
    hide PartsAccept;
    hide PairwiseApart;
    hide Mul;
    var parts;
    parts, ok := FactorsOf(p, group);
    if !ok {
      return 0.0, false;
    }
    NextPart(p, group, parts, 0);
    hide Factored;
    var prodPresent := 1.0;
    NoFactor(p, parts);
    for f := 0 to |parts|
      invariant prodPresent == DnfPr(p, Cross(parts, f))
      invariant PartsAccept(parts, f, Any)
    {
      NextPart(p, group, parts, f);
      var fa;
      fa, ok := PAllAbsent(p, parts[f]);
      if !ok {
        return 0.0, false;
      }
      PresentFactor(p, parts, f, prodPresent, fa);
      prodPresent := Mul(prodPresent, 1.0 - fa);
    }
    if Distinct(group) { ProductAbsent(p, group, parts); }
    return 1.0 - prodPresent, true;
  }

  /** The count distribution and the absence recursion agree on the empty group. */
  lemma AbsentIsZeroCount(p: seq<real>, contribs: Clauses, pmf: seq<real>)
    requires LeavesOk(p, contribs) && IsPmf(p, pmf, CountOf(contribs))
    ensures pmf != [] && pmf[0] == Absent(p, contribs)
  {
    LengthPositive(p, pmf, CountOf(contribs));
    var X := CountOf(contribs);
    forall w ensures Is(X, 0)(w) == !Satisfied(contribs)(w) { CountPositive(contribs, w); }
    hide P;
    ComplementEvent(p, Satisfied(contribs), Is(X, 0));
  }

  /** The two recursions accept the same contributors, and where the count is right the
      absence probability is its mass at zero.  */
  method AbsentAgreesWithCount(p: seq<real>, contribs: Clauses)
      returns (pmf: seq<real>, counted: bool, absent: real, answered: bool)
    requires LeavesOk(p, contribs)
    ensures counted <==> answered
    ensures counted && (Distinct(contribs) || Accepts(contribs, Unrepeated)) ==> pmf != [] && absent == pmf[0]
  {
    hide Accepts;
    hide IsPmf;
    hide Absent;
    pmf, counted := CountPmf(p, contribs);
    absent, answered := PAllAbsent(p, contribs);
    if counted && (Distinct(contribs) || Accepts(contribs, Unrepeated)) { AbsentIsZeroCount(p, contribs, pmf); }
  }
}
