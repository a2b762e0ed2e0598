/** Evaluating a circuit in a semiring: memoised, in post-order, on an explicit stack. */
module NetEvaluation {
  import opened Sequences
  import opened PostOrder
  import opened SemiringAlgebra
  import opened ProvenanceNet

  /** Each memoised gate has its value. */
  ghost predicate MemoOk<V(!new)>(net: Net, rank: seq<nat>, r: Reading<V>, memo: map<nat, V>)
    requires Ranked(net, rank)
  {
    forall g :: g in memo ==> g < |net.kind| && memo[g] == Value(net, rank, r, g)
  }

  ghost predicate Ready<V>(net: Net, g: nat, memo: map<nat, V>)
    requires g < |net.wires|
  {
    forall i :: 0 <= i < |net.wires[g]| ==> net.wires[g][i] in memo
  }

  /** Drops the values equal to x. */
  method Remove<V(==)>(vals: seq<V>, x: V) returns (kept: seq<V>, ghost marks: seq<bool>)
    ensures |marks| == |vals| && kept == Chosen(vals, marks, true)
    ensures forall i :: 0 <= i < |vals| ==> marks[i] == (vals[i] != x)
  {
    kept, marks := [], [];
    for i := 0 to |vals|
      invariant |marks| == i && kept == Chosen(vals[..i], marks, true)
      invariant forall j :: 0 <= j < i ==> marks[j] == (vals[j] != x)
    {
      ghost var keep := vals[i] != x;
      assert vals[..i + 1][..i] == vals[..i] && (marks + [keep])[..i] == marks;
      if vals[i] != x {
        kept := kept + [vals[i]];
      }
      marks := marks + [keep];
    }
    assert vals[..|vals|] == vals;
  }

  /** Units may be left out of a combination. */
  lemma WithoutUnits<V(!new)>(m: Monoid<V>, vals: seq<V>, marks: seq<bool>)
    requires IsMonoid(m) && |marks| == |vals| && forall i :: 0 <= i < |vals| ==> marks[i] == (vals[i] != m.unit)
    ensures Fold(m, Chosen(vals, marks, true)) == Fold(m, vals)
  {
    hide IsMonoid;
    forall i | 0 <= i < |vals| && !marks[i] ensures Absorbs(m, Fold(m, Chosen(vals, marks, true)), vals[i]) {
      Unit(m, Fold(m, Chosen(vals, marks, true)));
    }
    DropAbsorbed(m, vals, marks);
  }

  /** One gate from the values of its children: zeros are dropped from sums, a zero
      decides a product, ones are dropped from it. */
  method Combine<V(!new, ==)>(r: Reading<V>, kind: Kind, g: nat, vals: seq<V>) returns (x: V)
    requires IsSemiring(r.semiring)
    ensures x == Local(r, kind, g, vals)
  {
    var s := r.semiring;
    ghost var add, mul := s.Additive(), s.Multiplicative();
    assert IsMonoid(add) && IsMonoid(mul);
    hide IsSemiring;
    hide IsMonoid;
    if kind == PlusGate {
      var kept;
      ghost var marks;
      kept, marks := Remove(vals, s.zero);
      WithoutUnits(add, vals, marks);
      return Fold(s.Additive(), kept);
    }
    if kind == TimesGate {
      if s.zero in vals {
        ZeroFactor(s, vals);
        return s.zero;
      }
      var kept;
      ghost var marks;
      kept, marks := Remove(vals, s.one);
      WithoutUnits(mul, vals, marks);
      return Fold(s.Multiplicative(), kept);
    }
    if kind == ZeroGate {
      return s.zero;
    }
    if kind == OneGate {
      return s.one;
    }
    x := r.other(g, vals);
  }

  /** Pushes the children without a value. */
  method PushMissing<V>(net: Net, ghost rank: seq<nat>, g: nat, memo: map<nat, V>, stack0: seq<nat>) returns (ready: bool, stack: seq<nat>)
    requires Ranked(net, rank) && g < |net.kind| && forall i :: 0 <= i < |stack0| ==> stack0[i] < |net.kind|
    ensures stack0 <= stack && Spent(stack, memo.Keys) == Spent(stack0, memo.Keys)
    ensures forall i :: 0 <= i < |stack| ==> stack[i] < |net.kind|
    ensures ready ==> Ready(net, g, memo) && stack == stack0
    ensures !ready ==> |stack| > |stack0| && stack[|stack| - 1] !in memo && rank[stack[|stack| - 1]] < rank[g]
  {
    ready, stack := true, stack0;
    assert Below(rank, net.wires[g], rank[g]) && |rank| == |net.kind|;
    hide Ranked;
    hide Spent;
    for i := 0 to |net.wires[g]|
      invariant stack0 <= stack && Spent(stack, memo.Keys) == Spent(stack0, memo.Keys)
      invariant forall j :: 0 <= j < |stack| ==> stack[j] < |net.kind|
      invariant ready ==> stack == stack0 && forall j :: 0 <= j < i ==> net.wires[g][j] in memo
      invariant !ready ==> |stack| > |stack0| && stack[|stack| - 1] !in memo && rank[stack[|stack| - 1]] < rank[g]
    {
      var h := net.wires[g][i];
      if h !in memo {
        SpentPush(stack, h, memo.Keys);
        stack := stack + [h];
        ready := false;
      }
    }
  }

  method ChildValues<V>(ws: seq<nat>, memo: map<nat, V>) returns (vals: seq<V>)
    requires forall i :: 0 <= i < |ws| ==> ws[i] in memo
    ensures |vals| == |ws| && forall i :: 0 <= i < |ws| ==> vals[i] == memo[ws[i]]
  {
    vals := [];
    for i := 0 to |ws|
      invariant |vals| == i && forall j :: 0 <= j < i ==> vals[j] == memo[ws[j]]
    {
      vals := vals + [memo[ws[i]]];
    }
  }

  lemma MemoPut<V(!new)>(net: Net, rank: seq<nat>, r: Reading<V>, memo: map<nat, V>, g: nat, vals: seq<V>)
    requires Ranked(net, rank) && MemoOk(net, rank, r, memo) && g < |net.kind| && Ready(net, g, memo)
    requires |vals| == |net.wires[g]| && forall i :: 0 <= i < |vals| ==> vals[i] == memo[net.wires[g][i]]
    ensures MemoOk(net, rank, r, memo[g := Local(r, net.kind[g], g, vals)])
  {
    assert Below(rank, net.wires[g], rank[g]);
    assert vals == Values(net, rank, r, net.wires[g], rank[g]);
  }

  /** The value of root. */
  method Evaluate<V(!new, ==)>(net: Net, ghost rank: seq<nat>, r: Reading<V>, root: nat) returns (x: V)
    requires Ranked(net, rank) && IsSemiring(r.semiring) && root < |net.kind|
    ensures x == Value(net, rank, r, root)
  {
    hide IsSemiring;
    hide Value;
    var memo: map<nat, V> := map[];
    var stack: seq<nat> := [root];
    while stack != []
      invariant MemoOk(net, rank, r, memo) && memo.Keys <= FirstVars(|net.kind|)
      invariant forall i :: 0 <= i < |stack| ==> stack[i] < |net.kind|
      invariant root in memo || (stack != [] && stack[0] == root)
      decreases FirstVars(|net.kind|) - memo.Keys, Spent(stack, memo.Keys), if stack == [] then 0 else rank[stack[|stack| - 1]]
    {
      var u, rest := stack[|stack| - 1], stack[..|stack| - 1];
      if u in memo {
        stack := rest;
      } else {
        var ready;
        ready, stack := PushMissing(net, rank, u, memo, stack);
        if ready {
          var vals := ChildValues(net.wires[u], memo);
          var v := Combine(r, net.kind[u], u, vals);
          MemoPut(net, rank, r, memo, u, vals);
          assert u in FirstVars(|net.kind|) - memo.Keys;
          memo := memo[u := v];
          stack := rest;
        }
      }
    }
    x := memo[root];
  }
}
