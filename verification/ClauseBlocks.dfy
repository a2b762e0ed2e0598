/** Clause lists split into independence blocks: blocks share no leaf. */
module ClauseBlocks {
  import opened Sequences
  import opened MonotoneDnf
  import Blocks

  ghost predicate PairwiseApart(comps: seq<Clauses>) {
    forall a, b :: 0 <= a < b < |comps| ==> Support(comps[a]) !! Support(comps[b])
  }

  lemma GroupMembers(cls: Clauses, blocks: seq<seq<nat>>, c: set<nat>)
    requires Blocks.IsBlocks(cls, blocks)
    ensures c in Flat(Blocks.PickAll(cls, blocks), |blocks|) <==> c in cls
  {
    var comps := Blocks.PickAll(cls, blocks);
    InFlat(comps, |comps|, c);
    if c in cls {
      var i :| 0 <= i < |cls| && cls[i] == c;
      assert Blocks.Covered(blocks, i);
      var b :| 0 <= b < |blocks| && i in blocks[b];
      var k :| 0 <= k < |blocks[b]| && blocks[b][k] == i;
      assert comps[b][k] == c;
    }
    if b :| 0 <= b < |comps| && c in comps[b] {
      var k :| 0 <= k < |comps[b]| && comps[b][k] == c;
    }
  }

  lemma GroupApart(cls: Clauses, blocks: seq<seq<nat>>, a: nat, b: nat, v: nat)
    requires Blocks.IsBlocks(cls, blocks) && a < b < |blocks| && v in Support(Blocks.PickAll(cls, blocks)[a])
    ensures v !in Support(Blocks.PickAll(cls, blocks)[b])
  {
    var comps := Blocks.PickAll(cls, blocks);
    var i :| 0 <= i < |comps[a]| && v in comps[a][i];
    forall k | 0 <= k < |comps[b]| ensures v !in comps[b][k] {
      assert blocks[a][i] in blocks[a] && blocks[b][k] in blocks[b];
      assert cls[blocks[a][i]] !! cls[blocks[b][k]];
    }
  }

  lemma GroupsApart(cls: Clauses, blocks: seq<seq<nat>>)
    requires Blocks.IsBlocks(cls, blocks)
    ensures PairwiseApart(Blocks.PickAll(cls, blocks))
  {
    var comps := Blocks.PickAll(cls, blocks);
    forall a, b | 0 <= a < b < |comps| ensures Support(comps[a]) !! Support(comps[b]) {
      forall v | v in Support(comps[a]) ensures v !in Support(comps[b]) { GroupApart(cls, blocks, a, b, v); }
    }
  }

  lemma {:induction false} FlatSupport(comps: seq<Clauses>, k: nat)
    requires k <= |comps|
    ensures forall v :: v in Support(Flat(comps, k)) ==> exists b :: 0 <= b < k && v in Support(comps[b])
  {
    var all := Flat(comps, k);
    forall v | v in Support(all) ensures exists b :: 0 <= b < k && v in Support(comps[b]) {
      var i :| 0 <= i < |all| && v in all[i];
      InFlat(comps, k, all[i]);
      var b :| 0 <= b < k && all[i] in comps[b];
      var m :| 0 <= m < |comps[b]| && comps[b][m] == all[i];
      assert v in Support(comps[b]);
    }
  }

  lemma PrefixApart(comps: seq<Clauses>, k: nat)
    requires PairwiseApart(comps) && k < |comps|
    ensures Support(Flat(comps, k)) !! Support(comps[k])
  {
    FlatSupport(comps, k);
    forall v | v in Support(Flat(comps, k)) ensures v !in Support(comps[k]) {
      var b :| 0 <= b < k && v in Support(comps[b]);
      assert Support(comps[b]) !! Support(comps[k]);
    }
  }

  lemma SupportOf(cls: Clauses, part: Clauses)
    requires forall c :: c in part ==> c in cls
    ensures Support(part) <= Support(cls)
  {
    forall v | v in Support(part) ensures v in Support(cls) {
      var i :| 0 <= i < |part| && v in part[i];
      assert part[i] in cls;
      var j :| 0 <= j < |cls| && cls[j] == part[i];
    }
  }

  lemma GroupWithin(cls: Clauses, block: seq<nat>)
    requires forall i :: i in block ==> i < |cls|
    ensures forall c :: c in Blocks.Pick(cls, block) ==> c in cls
    ensures Support(Blocks.Pick(cls, block)) <= Support(cls)
  {
    SupportOf(cls, Blocks.Pick(cls, block));
  }
}
