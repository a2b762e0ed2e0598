/** Leaves common to all contributors of a block, and the contributors without them. */
module SharedRoots {
  import opened Worlds
  import opened Probability
  import opened RandomValues
  import opened Sequences
  import opened SeqSums
  import opened MonotoneDnf
  import opened Contributors

  /** The leaves common to every contributor. */
  method CommonLeaves(contribs: Clauses) returns (common: set<nat>)
    requires contribs != []
    ensures forall v :: v in common <==> forall i :: 0 <= i < |contribs| ==> v in contribs[i]
  {
    common := contribs[0];
    var i := 1;
    while i < |contribs| && common != {}
      invariant 1 <= i <= |contribs|
      invariant forall v :: v in common <==> forall j :: 0 <= j < i ==> v in contribs[j]
    {
      common := common * contribs[i];
      i := i + 1;
    }
  }

  function Residuals(contribs: Clauses, common: set<nat>): (r: Clauses)
    ensures |r| == |contribs| && forall i :: 0 <= i < |contribs| ==> r[i] == contribs[i] - common
  {
    seq(|contribs|, i requires 0 <= i < |contribs| => contribs[i] - common)
  }

  method ResidualsOf(contribs: Clauses, common: set<nat>) returns (r: Clauses)
    ensures r == Residuals(contribs, common)
  {
    r := [];
    for i := 0 to |contribs|
      invariant r == Residuals(contribs, common)[..i]
    {
      r := r + [contribs[i] - common];
    }
  }

  ghost predicate SharedBy(contribs: Clauses, common: set<nat>) {
    forall i :: 0 <= i < |contribs| ==> common <= contribs[i]
  }

  lemma ResidualSupport(contribs: Clauses, common: set<nat>)
    ensures Support(Residuals(contribs, common)) == Support(contribs) - common
  {
    forall v | v in Support(contribs) - common ensures v in Support(Residuals(contribs, common)) {
      var i :| 0 <= i < |contribs| && v in contribs[i];
      assert v in Residuals(contribs, common)[i];
    }
  }

  lemma ResidualsDistinct(contribs: Clauses, common: set<nat>)
    requires SharedBy(contribs, common) && Distinct(contribs)
    ensures Distinct(Residuals(contribs, common))
  {
    forall i, j | 0 <= i < j < |contribs| ensures contribs[i] - common != contribs[j] - common {
      assert contribs[i] == (contribs[i] - common) + common;
      assert contribs[j] == (contribs[j] - common) + common;
    }
  }

  /** A contributor is present where the root is and its residual is. */
  lemma RootAndRest(c: set<nat>, common: set<nat>, w: World)
    requires common <= c
    ensures AllTrue(w, c) == (AllTrue(w, common) && AllTrue(w, c - common))
  {
  }

  /** The count of a block with a shared root is gated by the root. */
  lemma GatedCount(contribs: Clauses, common: set<nat>, w: World)
    requires SharedBy(contribs, common)
    ensures Count(contribs, w) == if AllTrue(w, common) then Count(Residuals(contribs, common), w) else 0
  {
    forall i | 0 <= i < |contribs|
      ensures Here(w)(contribs[i]) == if AllTrue(w, common) then Here(w)(contribs[i] - common) else 0
    {
      RootAndRest(contribs[i], common, w);
    }
    var res := Residuals(contribs, common);
    if AllTrue(w, common) {
      SumMapped(contribs, res, Here(w), Here(w));
    } else {
      SumMapped(contribs, res, Here(w), (c: set<nat>) => 0 * Here(w)(c));
      SumTimes(res, 0, Here(w), (c: set<nat>) => 0 * Here(w)(c));
    }
  }
}
