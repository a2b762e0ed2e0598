/** Connected components by a disjoint-set forest with path halving. */
module Connectivity {

  type Edges = (nat, nat) -> bool

  ghost predicate IsChain(edge: Edges, n: nat, path: seq<nat>) {
    && |path| > 0 && (forall k :: 0 <= k < |path| ==> path[k] < n)
    && (forall k :: 0 < k < |path| ==> edge(path[k - 1], path[k]))
  }

  /** Below n, i reaches j along edges. */
  ghost predicate Linked(edge: Edges, n: nat, i: nat, j: nat) {
    exists path :: IsChain(edge, n, path) && path[0] == i && path[|path| - 1] == j
  }

  ghost predicate Symmetric(edge: Edges) {
    forall i, j :: edge(i, j) ==> edge(j, i)
  }

  lemma LinkedSelf(edge: Edges, n: nat, i: nat)
    requires i < n
    ensures Linked(edge, n, i, i)
  {
    assert IsChain(edge, n, [i]) && [i][0] == i;
  }

  lemma LinkedStep(edge: Edges, n: nat, i: nat, j: nat)
    requires i < n && j < n && edge(i, j)
    ensures Linked(edge, n, i, j)
  {
    var path := [i, j];
    assert IsChain(edge, n, path) && path[0] == i && path[|path| - 1] == j;
  }

  lemma LinkedTrans(edge: Edges, n: nat, i: nat, j: nat, k: nat)
    requires Linked(edge, n, i, j) && Linked(edge, n, j, k)
    ensures Linked(edge, n, i, k)
  {
    var p :| IsChain(edge, n, p) && p[0] == i && p[|p| - 1] == j;
    var q :| IsChain(edge, n, q) && q[0] == j && q[|q| - 1] == k;
    var r := p + q[1..];
    assert IsChain(edge, n, r) && r[0] == i && r[|r| - 1] == k;
  }

  // ----- Disjoint-set forest with path halving -----

  /** Parent links lead to a representative: depth falls along them, root does not change. */
  ghost predicate Forest(parent: seq<nat>, root: seq<nat>, depth: seq<nat>) {
    && |root| == |depth| == |parent|
    && (forall x {:trigger root[x]} :: 0 <= x < |root| ==> root[x] < |root| && root[root[x]] == root[x])
    && (forall x {:trigger parent[x]} :: 0 <= x < |parent| ==>
          && parent[x] < |parent| && root[parent[x]] == root[x]
          && (parent[x] == x <==> root[x] == x)
          && (parent[x] != x ==> depth[parent[x]] < depth[x]))
  }

  lemma HalveKeeps(parent: seq<nat>, root: seq<nat>, depth: seq<nat>, x: nat)
    requires Forest(parent, root, depth) && x < |parent| && parent[x] != x
    ensures Forest(parent[x := parent[parent[x]]], root, depth)
  {
    var y := parent[x];
    assert parent[y] < |parent|;
  }

  /** The representatives after the class of ra is attached to rb. */
  function Joined(root: seq<nat>, ra: nat, rb: nat): (r: seq<nat>)
    ensures |r| == |root| && forall x :: 0 <= x < |root| ==> r[x] == if root[x] == ra then rb else root[x]
  {
    seq(|root|, x requires 0 <= x < |root| => if root[x] == ra then rb else root[x])
  }

  function Deepened(root: seq<nat>, depth: seq<nat>, ra: nat, more: nat): (d: seq<nat>)
    requires |root| == |depth|
    ensures |d| == |root| && forall x :: 0 <= x < |root| ==> d[x] == if root[x] == ra then depth[x] + more else depth[x]
  {
    seq(|root|, x requires 0 <= x < |root| == |depth| => if root[x] == ra then depth[x] + more else depth[x])
  }

  lemma LinkKeeps(parent: seq<nat>, root: seq<nat>, depth: seq<nat>, ra: nat, rb: nat) returns (depth': seq<nat>)
    requires Forest(parent, root, depth) && ra < |parent| && rb < |parent| && root[ra] == ra && root[rb] == rb
    ensures Forest(parent[ra := rb], Joined(root, ra, rb), depth')
  {
    if ra == rb {
      assert parent[ra := rb] == parent && Joined(root, ra, rb) == root;
      depth' := depth;
    } else {
      depth' := Deepened(root, depth, ra, depth[rb] + 1);
    }
  }

  class UnionFind {
    const parent: array<nat>
    ghost var root: seq<nat>
    ghost var depth: seq<nat>

    ghost predicate Valid()
      reads this, parent
    {
      Forest(parent[..], root, depth)
    }

    constructor (n: nat)
      ensures Valid() && fresh(parent)
      ensures |root| == n && forall x :: 0 <= x < n ==> root[x] == x
    {
      parent := new nat[n](i => i);
      root := seq(n, i => i);
      depth := seq(n, i => 0);
    }

    method Find(x0: nat) returns (x: nat)
      requires Valid() && x0 < |root|
      modifies parent
      ensures Valid() && x < |root| && x == root[x0] == root[x]
    {
      x := x0;
      while parent[x] != x
        invariant Valid() && x < |root| && root[x] == root[x0]
        decreases depth[x]
      {
        HalveKeeps(parent[..], root, depth, x);
        ghost var halved := parent[..][x := parent[..][parent[..][x]]];
        assert parent[..][x] == parent[x];
        parent[x] := parent[parent[x]];
        assert parent[..] == halved;
        assert parent[..][x] == parent[x];
        x := parent[x];
      }
      assert parent[..][x] == x;
    }

    method Unite(a: nat, b: nat)
      requires Valid() && a < |root| && b < |root|
      modifies this, parent
      ensures Valid() && root == Joined(old(root), old(root[a]), old(root[b]))
    {
      var ra := Find(a);
      var rb := Find(b);
      depth := LinkKeeps(parent[..], root, depth, ra, rb);
      root := Joined(root, ra, rb);
      ghost var linked := parent[..][ra := rb];
      hide Forest;
      parent[ra] := rb;
      assert parent[..] == linked;
    }
  }

  /** Same representative, same component. */
  ghost predicate Sound(edge: Edges, root: seq<nat>) {
    forall i, j :: 0 <= i < |root| && 0 <= j < |root| && root[i] == root[j] ==> Linked(edge, |root|, i, j)
  }

  lemma SoundUnite(edge: Edges, root: seq<nat>, a: nat, b: nat)
    requires Symmetric(edge) && Sound(edge, root) && a < |root| && b < |root|
    requires edge(a, b)
    ensures Sound(edge, Joined(root, root[a], root[b]))
  {
    var n, after := |root|, Joined(root, root[a], root[b]);
    LinkedStep(edge, n, a, b);
    LinkedStep(edge, n, b, a);
    hide Linked;
    forall i, j | 0 <= i < n && 0 <= j < n && after[i] == after[j]
      ensures Linked(edge, n, i, j)
    {
      if root[i] == root[j] {
      } else if root[i] == root[a] {
        LinkedTrans(edge, n, i, a, b);
        LinkedTrans(edge, n, i, b, j);
      } else {
        LinkedTrans(edge, n, i, b, a);
        LinkedTrans(edge, n, i, a, j);
      }
    }
  }

  lemma SoundStart(edge: Edges, root: seq<nat>)
    requires forall x :: 0 <= x < |root| ==> root[x] == x
    ensures Sound(edge, root)
  {
    forall i | 0 <= i < |root| ensures Linked(edge, |root|, i, i) { LinkedSelf(edge, |root|, i); }
  }

  /** What is constant along edges is constant on components. */
  lemma LinkedSame<T>(edge: Edges, n: nat, color: nat -> T, i: nat, j: nat)
    requires forall a, b :: edge(a, b) ==> color(a) == color(b)
    requires Linked(edge, n, i, j)
    ensures color(i) == color(j)
  {
    var path :| IsChain(edge, n, path) && path[0] == i && path[|path| - 1] == j;
    ChainSame(edge, n, color, path);
  }

  lemma {:induction false} ChainSame<T>(edge: Edges, n: nat, color: nat -> T, path: seq<nat>)
    requires forall a, b :: edge(a, b) ==> color(a) == color(b)
    requires IsChain(edge, n, path)
    ensures color(path[0]) == color(path[|path| - 1])
  {
    if |path| > 1 {
      ChainSame(edge, n, color, path[1..]);
      assert edge(path[0], path[1]);
    }
  }

  /** Components map along a renaming of the nodes. */
  lemma LinkedRenamed(edge: Edges, names: seq<nat>, edge': Edges, n: nat, i: nat, j: nat)
    requires forall a :: 0 <= a < |names| ==> names[a] < n
    requires forall a: nat, b: nat :: a < |names| && b < |names| && edge(a, b) ==> edge'(names[a], names[b])
    requires i < |names| && j < |names| && Linked(edge, |names|, i, j)
    ensures Linked(edge', n, names[i], names[j])
  {
    var path :| IsChain(edge, |names|, path) && path[0] == i && path[|path| - 1] == j;
    var named := seq(|path|, k requires 0 <= k < |path| && path[k] < |names| => names[path[k]]);
    assert IsChain(edge', n, named) && named[0] == names[i] && named[|named| - 1] == names[j];
  }
}
