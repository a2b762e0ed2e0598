/** Independence blocks by union-find: items that share a key, directly or through
    others, end up in one block; items of different blocks share nothing.  */
module Blocks {
  import opened Connectivity

  // ----- What a partition into blocks must satisfy -----

  /** Items i and j share a key. */
  function Overlap(keys: seq<set<nat>>): Edges {
    (i: nat, j: nat) => i < |keys| && j < |keys| && !(keys[i] !! keys[j])
  }

  ghost predicate Increasing(s: seq<nat>) {
    forall a, b :: 0 <= a < b < |s| ==> s[a] < s[b]
  }

  ghost predicate Covered(blocks: seq<seq<nat>>, i: nat) {
    exists b :: 0 <= b < |blocks| && i in blocks[b]
  }

  ghost predicate IsBlocks(keys: seq<set<nat>>, blocks: seq<seq<nat>>) {
    && (forall b :: 0 <= b < |blocks| ==> blocks[b] != [] && Increasing(blocks[b]))
    && (forall b, i :: 0 <= b < |blocks| && i in blocks[b] ==> i < |keys|)
    && (forall i :: 0 <= i < |keys| ==> Covered(blocks, i))
    && (forall b, c, i :: 0 <= b < |blocks| && 0 <= c < |blocks| && b != c && i in blocks[b] ==> i !in blocks[c])
    && (forall b, c, i, j :: 0 <= b < |blocks| && 0 <= c < |blocks| && b != c && i in blocks[b] && j in blocks[c] ==>
          keys[i] !! keys[j])
    && (forall b, i, j :: 0 <= b < |blocks| && i in blocks[b] && j in blocks[b] ==> Linked(Overlap(keys), |keys|, i, j))
  }

  // ----- Grouping -----

  /** The elements below n whose representative is r, in increasing order. */
  function Members(root: seq<nat>, r: nat, n: nat): (s: seq<nat>)
    requires n <= |root|
    ensures forall x: nat :: x in s <==> x < n && root[x] == r
    ensures Increasing(s)
    ensures s != [] ==> s[0] in s
  {
    if n == 0 then []
    else
      var s := Members(root, r, n - 1);
      if root[n - 1] == r then
        assert forall k :: 0 <= k < |s| ==> s[k] in s;
        s + [n - 1]
      else s
  }

  // ----- Reading off the items of a block -----

  function Pick<T>(items: seq<T>, block: seq<nat>): (s: seq<T>)
    requires forall i :: i in block ==> i < |items|
    ensures |s| == |block| && forall k :: 0 <= k < |block| ==> block[k] < |items| && s[k] == items[block[k]]
  {
    assert forall k :: 0 <= k < |block| ==> block[k] in block;
    seq(|block|, k requires 0 <= k < |block| && block[k] < |items| => items[block[k]])
  }

  function PickAll<T>(items: seq<T>, blocks: seq<seq<nat>>): (groups: seq<seq<T>>)
    requires forall b, i :: 0 <= b < |blocks| && i in blocks[b] ==> i < |items|
    ensures |groups| == |blocks| && forall b :: 0 <= b < |blocks| ==> groups[b] == Pick(items, blocks[b])
  {
    seq(|blocks|, b requires 0 <= b < |blocks| => Pick(items, blocks[b]))
  }

  /** Each key seen so far has an owner, in the same class as every item carrying it. */
  ghost predicate Owned(keys: seq<set<nat>>, root: seq<nat>, owner: map<nat, nat>, seen: set<(nat, nat)>) {
    && |root| == |keys|
    && (forall v :: v in owner ==> owner[v] < |keys| && v in keys[owner[v]])
    && (forall p :: p in seen ==> p.0 < |root| && p.1 in owner && root[p.0] == root[owner[p.1]])
  }

  ghost predicate SeenTo(keys: seq<set<nat>>, n: nat, seen: set<(nat, nat)>) {
    n <= |keys| && forall j, v :: 0 <= j < n && v in keys[j] ==> (j, v) in seen
  }

  lemma OwnedNew(keys: seq<set<nat>>, root: seq<nat>, owner: map<nat, nat>, seen: set<(nat, nat)>, i: nat, v: nat)
    requires Owned(keys, root, owner, seen) && i < |keys| && v in keys[i] && v !in owner
    ensures Owned(keys, root, owner[v := i], seen + {(i, v)})
  {
  }

  lemma OwnedUnite(keys: seq<set<nat>>, root: seq<nat>, owner: map<nat, nat>, seen: set<(nat, nat)>, i: nat, v: nat)
    requires Owned(keys, root, owner, seen) && i < |keys| && v in keys[i] && v in owner
    ensures Owned(keys, Joined(root, root[i], root[owner[v]]), owner, seen + {(i, v)})
  {
  }

  lemma Done(keys: seq<set<nat>>, root: seq<nat>, owner: map<nat, nat>, seen: set<(nat, nat)>)
    requires Owned(keys, root, owner, seen) && SeenTo(keys, |keys|, seen)
    ensures Separated(keys, root)
  {
    forall i, j | 0 <= i < |keys| && 0 <= j < |keys| && root[i] != root[j] ensures keys[i] !! keys[j] {
      forall v | v in keys[i] ensures v !in keys[j] {
        assert (i, v) in seen;
      }
    }
  }

  ghost predicate Separated(keys: seq<set<nat>>, root: seq<nat>) {
    |root| == |keys| && forall i, j :: 0 <= i < |keys| && 0 <= j < |keys| && root[i] != root[j] ==> keys[i] !! keys[j]
  }

  /** Unites item i with the owner of each of its keys; unowned keys become its own. */
  method Absorb(keys: seq<set<nat>>, i: nat, uf: UnionFind, owner0: map<nat, nat>, ghost seen0: set<(nat, nat)>)
    returns (owner: map<nat, nat>, ghost seen: set<(nat, nat)>)
    requires i < |keys| && uf.Valid() && Sound(Overlap(keys), uf.root)
    requires Owned(keys, uf.root, owner0, seen0) && SeenTo(keys, i, seen0)
    modifies uf, uf.parent
    ensures uf.Valid() && Sound(Overlap(keys), uf.root)
    ensures Owned(keys, uf.root, owner, seen) && SeenTo(keys, i + 1, seen)
  {
    owner, seen := owner0, seen0;
    var rest := keys[i];
    hide Forest;
    hide Sound;
    hide Joined;
    while rest != {}
      invariant rest <= keys[i] && uf.Valid() && Sound(Overlap(keys), uf.root)
      invariant Owned(keys, uf.root, owner, seen) && seen0 <= seen
      invariant forall v :: v in keys[i] - rest ==> (i, v) in seen
      decreases rest
    {
      var v :| v in rest;
      rest := rest - {v};
      if v in owner {
        OwnedUnite(keys, uf.root, owner, seen, i, v);
        SoundUnite(Overlap(keys), uf.root, i, owner[v]);
        uf.Unite(i, owner[v]);
      } else {
        OwnedNew(keys, uf.root, owner, seen, i, v);
        owner := owner[v := i];
      }
      seen := seen + {(i, v)};
    }
  }

  /** Partitions the items into independence blocks, in order of their representatives. */
  method Partition(keys: seq<set<nat>>) returns (blocks: seq<seq<nat>>)
    ensures IsBlocks(keys, blocks)
  {
    var uf := new UnionFind(|keys|);
    SoundStart(Overlap(keys), uf.root);
    var owner: map<nat, nat> := map[];
    ghost var seen: set<(nat, nat)> := {};
    hide Forest;
    hide Sound;
    for i := 0 to |keys|
      invariant uf.Valid() && fresh(uf) && fresh(uf.parent) && Sound(Overlap(keys), uf.root)
      invariant Owned(keys, uf.root, owner, seen) && SeenTo(keys, i, seen)
    {
      owner, seen := Absorb(keys, i, uf, owner, seen);
    }
    Done(keys, uf.root, owner, seen);
    blocks := Collect(keys, uf);
  }

  /** groups holds, for each representative of an item below i, its members below i. */
  ghost predicate Grouped(root: seq<nat>, i: nat, groups: map<nat, seq<nat>>) {
    && i <= |root|
    && (forall r :: r in groups ==> groups[r] == Members(root, r, i) && groups[r] != [])
    && (forall j :: 0 <= j < i ==> root[j] in groups)
  }

  lemma GroupedStep(root: seq<nat>, i: nat, groups: map<nat, seq<nat>>, r: nat)
    requires Grouped(root, i, groups) && i < |root| && r == root[i]
    ensures Grouped(root, i + 1, AddTo(groups, r, i))
  {
    assert r !in groups ==> Members(root, r, i) == [];
  }

  /** The blocks listed so far are the groups of the representatives in roots. */
  ghost predicate Listed(groups: map<nat, seq<nat>>, r: nat, roots: seq<nat>, blocks: seq<seq<nat>>) {
    && |roots| == |blocks| && Increasing(roots)
    && (forall b :: 0 <= b < |roots| ==> roots[b] < r && roots[b] in groups && blocks[b] == groups[roots[b]])
    && (forall q :: q in groups && q < r ==> q in roots)
  }

  lemma ListedBlocks(keys: seq<set<nat>>, root: seq<nat>, groups: map<nat, seq<nat>>, roots: seq<nat>, blocks: seq<seq<nat>>)
    requires Sound(Overlap(keys), root) && Separated(keys, root)
    requires Grouped(root, |root|, groups) && Listed(groups, |root|, roots, blocks)
    requires forall i :: 0 <= i < |root| ==> root[i] < |root|
    ensures IsBlocks(keys, blocks)
  {
    hide Linked;
    forall b, i | 0 <= b < |blocks| && i in blocks[b] ensures i < |keys| && root[i] == roots[b] {
      assert blocks[b] == Members(root, roots[b], |root|);
    }
    forall i | 0 <= i < |keys| ensures Covered(blocks, i) {
      assert root[i] in groups && root[i] in roots;
      var b :| 0 <= b < |roots| && roots[b] == root[i];
      assert i in blocks[b];
    }
    RootedBlocks(keys, root, roots, blocks);
  }

  /** Blocks of items that have a representative in common, one block for each. */
  lemma RootedBlocks(keys: seq<set<nat>>, root: seq<nat>, roots: seq<nat>, blocks: seq<seq<nat>>)
    requires Sound(Overlap(keys), root) && Separated(keys, root)
    requires Increasing(roots) && |roots| == |blocks|
    requires forall b :: 0 <= b < |blocks| ==> blocks[b] != [] && Increasing(blocks[b])
    requires forall b, i {:trigger i in blocks[b]} :: 0 <= b < |blocks| && i in blocks[b] ==> i < |keys| && root[i] == roots[b]
    requires forall i :: 0 <= i < |keys| ==> Covered(blocks, i)
    ensures IsBlocks(keys, blocks)
  {
    hide Linked;
  }

  /** The representative of every item. */
  method Roots(n: nat, uf: UnionFind) returns (roots: seq<nat>)
    requires uf.Valid() && n == |uf.root|
    modifies uf.parent
    ensures roots == uf.root
  {
    roots := [];
    for i := 0 to n
      invariant uf.Valid() && roots == uf.root[..i]
    {
      var r := uf.Find(i);
      roots := roots + [r];
    }
  }

  method GroupBy(n: nat, root: seq<nat>) returns (groups: map<nat, seq<nat>>)
    requires n == |root|
    ensures Grouped(root, n, groups)
  {
    groups := map[];
    for i := 0 to n
      invariant Grouped(root, i, groups)
    {
      GroupedStep(root, i, groups, root[i]);
      groups := AddTo(groups, root[i], i);
    }
  }

  function AddTo(groups: map<nat, seq<nat>>, r: nat, i: nat): map<nat, seq<nat>> {
    if r in groups then groups[r := groups[r] + [i]] else groups[r := [i]]
  }

  method ListGroups(n: nat, groups: map<nat, seq<nat>>) returns (blocks: seq<seq<nat>>, ghost roots: seq<nat>)
    ensures Listed(groups, n, roots, blocks)
  {
    blocks := [];
    roots := [];
    for r := 0 to n
      invariant Listed(groups, r, roots, blocks)
    {
      if r in groups {
        blocks := blocks + [groups[r]];
        roots := roots + [r];
      }
    }
  }

  /** Groups the items by representative, listing the groups in increasing order of it. */
  method Collect(keys: seq<set<nat>>, uf: UnionFind) returns (blocks: seq<seq<nat>>)
    requires uf.Valid() && Sound(Overlap(keys), uf.root) && Separated(keys, uf.root)
    modifies uf.parent
    ensures IsBlocks(keys, blocks)
  {
    assert forall i :: 0 <= i < |keys| ==> uf.root[i] < |keys|;
    hide *;
    var root := Roots(|keys|, uf);
    var groups := GroupBy(|keys|, root);
    ghost var roots;
    blocks, roots := ListGroups(|keys|, groups);
    ListedBlocks(keys, root, groups, roots, blocks);
  }
}
