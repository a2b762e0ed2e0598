/** What every fold step makes smaller: wires weighted by the depth of what they reach,
    plus the number of sums and products.  */
module FoldMeasure {
  import opened SemiringAlgebra
  import opened PostOrder
  import opened ProvenanceNet

  ghost function WireCost(rank: seq<nat>, ws: seq<nat>): nat {
    if ws == [] then 0
    else
      var w := ws[|ws| - 1];
      WireCost(rank, ws[..|ws| - 1]) + (if w < |rank| then rank[w] + 1 else 1)
  }

  ghost function GateCost(rank: seq<nat>, kind: Kind, ws: seq<nat>): nat {
    (if Combines(kind) then 1 else 0) + WireCost(rank, ws)
  }

  ghost function CostTo(net: Net, rank: seq<nat>, k: nat): nat
    requires k <= |net.kind| == |net.wires|
  {
    if k == 0 then 0 else CostTo(net, rank, k - 1) + GateCost(rank, net.kind[k - 1], net.wires[k - 1])
  }

  ghost function Cost(net: Net, rank: seq<nat>): nat {
    if |net.kind| == |net.wires| then CostTo(net, rank, |net.kind|) else 0
  }

  lemma {:induction false} ChosenCost(rank: seq<nat>, ws: seq<nat>, marks: seq<bool>)
    requires |marks| == |ws|
    ensures WireCost(rank, Chosen(ws, marks, true)) <= WireCost(rank, ws)
    ensures |Chosen(ws, marks, true)| <= |ws|
    ensures |Chosen(ws, marks, true)| < |ws| ==> WireCost(rank, Chosen(ws, marks, true)) < WireCost(rank, ws)
    ensures |Chosen(ws, marks, true)| == |ws| ==> Chosen(ws, marks, true) == ws && forall i :: 0 <= i < |marks| ==> marks[i]
    ensures forall w :: w in Chosen(ws, marks, true) ==> w in ws
  {
    if ws != [] {
      var n := |ws| - 1;
      ChosenCost(rank, ws[..n], marks[..n]);
      var kept := Chosen(ws[..n], marks[..n], true);
      if marks[n] { assert (kept + [ws[n]])[..|kept|] == kept; }
    }
  }

  lemma {:induction false} RewiredCost(rank: seq<nat>, ws: seq<nat>, subst: map<nat, nat>)
    requires forall i :: 0 <= i < |ws| ==> ws[i] < |rank|
    requires Descends(rank, subst)
    ensures WireCost(rank, Rewired(ws, subst)) <= WireCost(rank, ws)
    ensures (exists i :: 0 <= i < |ws| && ws[i] in subst) ==> WireCost(rank, Rewired(ws, subst)) < WireCost(rank, ws)
  {
    if ws != [] {
      var n := |ws| - 1;
      RewiredCost(rank, ws[..n], subst);
      assert Rewired(ws, subst)[..n] == Rewired(ws[..n], subst);
      if exists i :: 0 <= i < |ws| && ws[i] in subst {
        var i :| 0 <= i < |ws| && ws[i] in subst;
        if i < n { assert ws[..n][i] in subst; }
      }
    }
  }

  lemma {:induction false} GateChanged(net: Net, rank: seq<nat>, g: nat, kind: Kind, ws: seq<nat>, k: nat)
    requires g < |net.kind| == |net.wires| && k <= |net.kind|
    ensures CostTo(WithGate(net, g, kind, ws), rank, k)
         == CostTo(net, rank, k) + (if g < k then GateCost(rank, kind, ws) - GateCost(rank, net.kind[g], net.wires[g]) else 0)
  {
    if k > 0 { GateChanged(net, rank, g, kind, ws, k - 1); }
  }

  /** Shrinking one gate shrinks the circuit. */
  lemma GateShrinks(net: Net, rank: seq<nat>, g: nat, kind: Kind, ws: seq<nat>)
    requires g < |net.kind| == |net.wires|
    ensures Cost(WithGate(net, g, kind, ws), rank)
         == Cost(net, rank) + GateCost(rank, kind, ws) - GateCost(rank, net.kind[g], net.wires[g])
  {
    GateChanged(net, rank, g, kind, ws, |net.kind|);
  }

  lemma {:induction false} RewiredCosts(net: Net, rank: seq<nat>, subst: map<nat, nat>, k: nat)
    requires Ranked(net, rank) && k <= |net.kind| && Descends(rank, subst)
    ensures CostTo(RewiredNet(net, subst), rank, k) <= CostTo(net, rank, k)
    ensures TouchedTo(net, subst, k) ==> CostTo(RewiredNet(net, subst), rank, k) < CostTo(net, rank, k)
  {
    if k > 0 {
      RewiredCosts(net, rank, subst, k - 1);
      assert Below(rank, net.wires[k - 1], rank[k - 1]);
      RewiredCost(rank, net.wires[k - 1], subst);
    }
  }

  ghost predicate Descends(rank: seq<nat>, subst: map<nat, nat>) {
    forall g :: g in subst ==> g < |rank| && subst[g] < |rank| && rank[subst[g]] < rank[g]
  }

  /** Some wire of the first k gates is substituted. */
  predicate TouchedTo(net: Net, subst: map<nat, nat>, k: nat) {
    k > 0 && (TouchedTo(net, subst, k - 1) || Touched(net, subst, k - 1))
  }

  /** Some wire of g is substituted. */
  predicate Touched(net: Net, subst: map<nat, nat>, g: nat) {
    g < |net.wires| && exists i :: 0 <= i < |net.wires[g]| && net.wires[g][i] in subst
  }
}
