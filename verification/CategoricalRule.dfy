/** Pushing constants into the labels of a categorical mixture. */
module CategoricalRule {
  import opened Outcomes
  import opened Reals
  import opened PostOrder
  import opened SeqSums
  import opened ScalarNet
  import opened LinearTerms
  import opened PeepholeRules

  // ----- Constants beside a mixture -----

  /** Every wire is a parsed constant. */
  predicate AllConstant(net: Net, ws: seq<nat>)
    requires forall i :: 0 <= i < |ws| ==> ws[i] < |net.kind|
  {
    forall i :: 0 <= i < |ws| ==> net.kind[ws[i]].ValueGate? && net.kind[ws[i]].text.Some?
  }

  function ConstantsOf(net: Net, ws: seq<nat>): (xs: seq<real>)
    requires (forall i :: 0 <= i < |ws| ==> ws[i] < |net.kind|) && AllConstant(net, ws)
    ensures |xs| == |ws| && forall i :: 0 <= i < |ws| ==> xs[i] == net.kind[ws[i]].text.value
  {
    seq(|ws|, (i: nat) requires i < |ws| => net.kind[ws[i]].text.value)
  }

  /** The sum or product of the constants, unless some wire is none. */
  method CombineConstants(net: Net, ws: seq<nat>, op: Op) returns (c: real, ok: bool)
    requires IsTotal(op) && forall i :: 0 <= i < |ws| ==> ws[i] < |net.kind|
    ensures ok <==> AllConstant(net, ws)
    ensures ok ==> c == Total(op, ConstantsOf(net, ws))
  {
    c := if op == PLUS then 0.0 else 1.0;
    assert ws[..0] == [];
    for i := 0 to |ws|
      invariant AllConstant(net, ws[..i]) && c == Total(op, ConstantsOf(net, ws[..i]))
    {
      var k := net.kind[ws[i]];
      if !(k.ValueGate? && k.text.Some?) {
        return 0.0, false;
      }
      assert ConstantsOf(net, ws[..i + 1]) == ConstantsOf(net, ws[..i]) + [k.text.value];
      TotalOne(op, ConstantsOf(net, ws[..i]), k.text.value);
      c := Join(op, c, k.text.value);
    }
    assert ws[..|ws|] == ws;
    ok := true;
  }

  lemma ConstantWires(net: Net, rank: seq<nat>, w: Draw, ws: seq<nat>, top: nat)
    requires Ranked(net, rank) && Below(rank, ws, top) && AllConstant(net, ws)
    ensures Values(net, rank, w, ws, top) == ConstantsOf(net, ws)
  {
    forall i | 0 <= i < |ws| ensures Value(net, rank, w, ws[i]) == net.kind[ws[i]].text.value { ConstantGate(net, rank, w, ws[i]); }
    hide Value;
  }

  // ----- New labels -----

  /** Alternative u takes where alternative h does, with c joined to the label. */
  predicate Relabels(kinds: seq<Kind>, op: Op, c: real, h: nat, u: nat)
    requires h < |kinds| && u < |kinds|
  {
    && kinds[h].MulInGate? && kinds[u].MulInGate? && kinds[h].index == kinds[u].index && kinds[h].prob == kinds[u].prob
    && kinds[h].text.Some? && kinds[u].text == Some(Join(op, c, kinds[h].text.value))
  }

  ghost predicate Relabelled(kinds: seq<Kind>, op: Op, c: real, ws: seq<nat>, us: seq<nat>, k: nat)
    requires (forall i :: 0 <= i < |ws| ==> ws[i] < |kinds|) && forall i :: 0 <= i < |us| ==> us[i] < |kinds|
  {
    1 <= k <= |ws| && |us| == k && us[0] == ws[0] && forall i :: 1 <= i < k ==> Relabels(kinds, op, c, ws[i], us[i])
  }

  lemma {:induction false} SameSelection(kinds: seq<Kind>, op: Op, c: real, ws: seq<nat>, us: seq<nat>, outcome: nat, i: nat)
    requires (forall i :: 0 <= i < |ws| ==> ws[i] < |kinds|) && forall i :: 0 <= i < |us| ==> us[i] < |kinds|
    requires Relabelled(kinds, op, c, ws, us, |ws|) && 0 < i < |ws|
    ensures Selected(kinds, us, outcome, i) == Selected(kinds, ws, outcome, i)
    decreases |ws| - i
  {
    assert Relabels(kinds, op, c, ws[i], us[i]);
    if i < |ws| - 1 { SameSelection(kinds, op, c, ws, us, outcome, i + 1); }
  }

  lemma RelabelledValue(kinds: seq<Kind>, op: Op, c: real, ws: seq<nat>, us: seq<nat>, outcome: nat, xs: seq<real>, ys: seq<real>)
    requires (forall i :: 0 <= i < |ws| ==> ws[i] < |kinds|) && forall i :: 0 <= i < |us| ==> us[i] < |kinds|
    requires IsCategorical(kinds, ws) && Relabelled(kinds, op, c, ws, us, |ws|) && |xs| == |ws| && |ys| == |us|
    ensures IsCategorical(kinds, us) && CategoricalValue(kinds, us, outcome, ys) == Join(op, c, CategoricalValue(kinds, ws, outcome, xs))
  {
    forall i | 1 <= i < |us| ensures IsMulIn(kinds[us[i]]) { assert Relabels(kinds, op, c, ws[i], us[i]); }
    SameSelection(kinds, op, c, ws, us, outcome, 1);
    var j := Selected(kinds, ws, outcome, 1);
    assert Relabels(kinds, op, c, ws[j], us[j]);
  }

  lemma CategoricalGate(net: Net, rank: seq<nat>, w: Draw, m: nat)
    requires Ranked(net, rank) && m < |net.kind| && net.kind[m] == MixtureGate
    ensures Below(rank, net.wires[m], rank[m])
    ensures IsCategorical(net.kind, net.wires[m]) ==>
              Value(net, rank, w, m) == CategoricalValue(net.kind, net.wires[m], w.outcome(net.wires[m][0]), Values(net, rank, w, net.wires[m], rank[m]))
  {
    assert Below(rank, net.wires[m], rank[m]);
  }

  /** A sum or product of constants and a categorical mixture is that mixture, relabelled. */
  lemma LiftCategorical(lib: Library, net: Net, rank: seq<nat>, g: nat, j: nat, c: real, us: seq<nat>)
    requires Ranked(net, rank) && g < |net.kind| && net.kind[g].ArithGate? && IsTotal(net.kind[g].op) && j < |net.wires[g]|
    requires Below(rank, net.wires[g], rank[g]) && net.kind[net.wires[g][j]] == MixtureGate
    requires Below(rank, net.wires[net.wires[g][j]], rank[net.wires[g][j]]) && IsCategorical(net.kind, net.wires[net.wires[g][j]])
    requires Below(rank, Without(net.wires[g], j), rank[g]) && AllConstant(net, Without(net.wires[g], j))
    requires c == Total(net.kind[g].op, ConstantsOf(net, Without(net.wires[g], j)))
    requires Below(rank, us, rank[g]) && Relabelled(net.kind, net.kind[g].op, c, net.wires[net.wires[g][j]], us, |net.wires[net.wires[g][j]]|)
    ensures Keeps(lib, net, rank, WithGate(net, g, MixtureGate, us), rank)
  {
    hide Value;
    hide Depth;
    forall w: Draw | w.lib == lib ensures Agrees(net, rank, w, g, MixtureGate, us) { CategoricalAt(net, rank, w, g, j, c, us); }
    hide Agrees;
    var mw := net.wires[net.wires[g][j]];
    RelabelledValue(net.kind, net.kind[g].op, c, mw, us, 0, seq(|mw|, i => 0.0), seq(|us|, i => 0.0));
    RewriteGate(lib, net, rank, g, MixtureGate, us);
  }

  lemma CategoricalAt(net: Net, rank: seq<nat>, w: Draw, g: nat, j: nat, c: real, us: seq<nat>)
    requires Ranked(net, rank) && g < |net.kind| && net.kind[g].ArithGate? && IsTotal(net.kind[g].op) && j < |net.wires[g]|
    requires Below(rank, net.wires[g], rank[g]) && net.kind[net.wires[g][j]] == MixtureGate
    requires Below(rank, net.wires[net.wires[g][j]], rank[net.wires[g][j]]) && IsCategorical(net.kind, net.wires[net.wires[g][j]])
    requires Below(rank, Without(net.wires[g], j), rank[g]) && AllConstant(net, Without(net.wires[g], j))
    requires c == Total(net.kind[g].op, ConstantsOf(net, Without(net.wires[g], j)))
    requires Below(rank, us, rank[g]) && Relabelled(net.kind, net.kind[g].op, c, net.wires[net.wires[g][j]], us, |net.wires[net.wires[g][j]]|)
    ensures Agrees(net, rank, w, g, MixtureGate, us)
  {
    hide Value;
    hide Values;
    hide Total;
    hide Join;
    hide CategoricalValue;
    var ws, op := net.wires[g], net.kind[g].op;
    var m := ws[j];
    TotalValue(net, rank, w, g);
    TotalMove(op, Values(net, rank, w, ws, rank[g]), j);
    ValuesWithout(net, rank, w, ws, j, rank[g]);
    ConstantWires(net, rank, w, Without(ws, j), rank[g]);
    assert Value(net, rank, w, g) == Join(op, c, Value(net, rank, w, m));
    CategoricalGate(net, rank, w, m);
    RelabelledValue(net.kind, op, c, net.wires[m], us, w.outcome(us[0]), Values(net, rank, w, net.wires[m], rank[m]), Values(net, rank, w, us, rank[g]));
  }
}
