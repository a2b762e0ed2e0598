/** The peephole simplifier of scalar circuits: rules applied in place, bottom-up, each gate
    until none fires.  */
module Peephole {
  import opened Outcomes
  import opened Reals
  import opened PostOrder
  import opened Sequences
  import opened SeqSums
  import opened ScalarNet
  import opened LinearTerms
  import opened PeepholeRules
  import opened CoefficientSums
  import opened AggregationRule
  import opened CategoricalRule

  // ----- What one call changes -----

  /** How many changes of operator a gate has ahead of it. */
  function Phase(k: Kind): nat {
    match k
    case ArithGate(MINUS) => 2
    case ArithGate(PLUS) => 1
    case ArithGate(DIV) => 1
    case _ => 0
  }

  /** Of the gates of a, only g differs in b. */
  ghost predicate Frame(a: Net, b: Net, g: nat) {
    && |a.wires| == |a.kind| <= |b.kind| == |b.wires|
    && forall h: nat :: h < |a.kind| && h != g ==> b.kind[h] == a.kind[h] && b.wires[h] == a.wires[h]
  }

  /** All values are kept, and of the old gates only g was rewritten. */
  ghost predicate Did(lib: Library, a: Net, ra: seq<nat>, b: Net, rb: seq<nat>, g: nat) {
    Keeps(lib, a, ra, b, rb) && Frame(a, b, g) && (g < |a.kind| ==> Phase(b.kind[g]) <= Phase(a.kind[g]))
  }

  lemma DidNothing(lib: Library, a: Net, ra: seq<nat>, g: nat)
    requires Ranked(a, ra)
    ensures Did(lib, a, ra, a, ra, g)
  {
  }

  lemma DidTrans(lib: Library, a: Net, ra: seq<nat>, b: Net, rb: seq<nat>, c: Net, rc: seq<nat>, g: nat, h: nat)
    requires Did(lib, a, ra, b, rb, g) && Did(lib, b, rb, c, rc, h) && (h == g || |a.kind| <= h) && g < |a.kind|
    ensures Did(lib, a, ra, c, rc, g)
  {
    KeepsTrans(lib, a, ra, b, rb, c, rc);
  }

  lemma GrewDid(lib: Library, a: Net, ra: seq<nat>, b: Net, rb: seq<nat>, g: nat)
    requires Grew(lib, a, ra, b, rb)
    ensures Did(lib, a, ra, b, rb, g)
  {
  }

  lemma DidRewrite(lib: Library, a: Net, ra: seq<nat>, b: Net, rb: seq<nat>, g: nat, k: Kind, ws: seq<nat>)
    requires Ranked(a, ra) && g < |a.kind| && Frame(a, b, g) && Keeps(lib, a, ra, WithGate(b, g, k, ws), rb)
    requires Phase(k) <= Phase(a.kind[g])
    ensures Did(lib, a, ra, WithGate(b, g, k, ws), rb, g)
  {
  }

  lemma HasBelow(net: Net, rank: seq<nat>, g: nat)
    requires Ranked(net, rank) && g < |net.kind|
    ensures Below(rank, net.wires[g], rank[g]) && (net.wires[g] != [] ==> rank[g] > 0)
    ensures forall i :: 0 <= i < |net.wires[g]| ==> net.wires[g][i] < |net.kind|
  {
    var ws := net.wires[g];
    assert Below(rank, ws, rank[g]);
    if ws != [] { assert rank[ws[0]] < rank[g]; }
  }

  // ----- The sum of collected terms -----

  /** g is the sum of the coefficients times their variables, plus b. */
  ghost predicate IsCollected(lib: Library, net: Net, rank: seq<nat>, g: nat, cs: Coefficients, b: real)
    requires Ranked(net, rank) && g < |net.kind|
  {
    && (forall w: Draw :: w.lib == lib ==> Value(net, rank, w, g) == Linear(cs, ValueAt(net, rank, w)) + b)
    && Load(cs, DepthsOf(net, rank)) <= Depth(net, rank, g)
    && forall k :: 0 <= k < |cs| ==> cs[k].0 < |net.kind| && !net.kind[cs[k].0].ArithGate? && rank[cs[k].0] < rank[g]
  }

  lemma CollectedTerms(lib: Library, net: Net, rank: seq<nat>, g: nat, ts: seq<Term>, cs: Coefficients, b: real)
    requires Ranked(net, rank) && g < |net.kind| && net.kind[g] == ArithGate(PLUS) && net.wires[g] != []
    requires Below(rank, net.wires[g], rank[g]) && AreTerms(net, rank, net.wires[g], ts) && Collects(ts, cs, b)
    ensures IsCollected(lib, net, rank, g, NonZero(cs), b)
  {
    hide Value;
    hide Linear;
    hide Load;
    hide AreTerms;
    var ws, kept := net.wires[g], NonZero(cs);
    forall w: Draw | w.lib == lib ensures Value(net, rank, w, g) == Linear(kept, ValueAt(net, rank, w)) + b {
      TotalValue(net, rank, w, g);
      TermsAreValues(net, rank, w, ws, rank[g], ts);
      NonZeroLinear(cs, ValueAt(net, rank, w), []);
    }
    NonZeroLinear(cs, [], DepthsOf(net, rank));
    TermsLoad(net, rank, ws, rank[g], ts);
    forall k | 0 <= k < |kept| ensures kept[k].0 < |net.kind| && !net.kind[kept[k].0].ArithGate? && rank[kept[k].0] < rank[g] {
      var l :| 0 <= l < |cs| && cs[l] == kept[k];
      TermBase(net, rank, ws, rank[g], ts, cs[l].0);
    }
  }

  /** All variables cancel. */
  lemma NoneLeft(lib: Library, net: Net, rank: seq<nat>, g: nat, b: real)
    requires Ranked(net, rank) && g < |net.kind| && net.kind[g].ArithGate? && IsCollected(lib, net, rank, g, [], b)
    ensures Keeps(lib, net, rank, WithGate(net, g, ValueGate(Some(b)), []), rank)
  {
    KnownConstant(lib, net, rank, g, b);
  }

  lemma OneLinear(z: nat, a: real, v: seq<real>, d: seq<nat>)
    ensures Linear([(z, a)], v) == Mul(a, At(v, z)) && Load([(z, a)], d) == LoadAt(d, z)
  {
    assert [] + [(z, a)] == [(z, a)];
    LinearOne([], z, a, v);
    LoadOne([], z, a, d);
  }

  /** One variable is left, once. */
  lemma OneLeft(lib: Library, net: Net, rank: seq<nat>, g: nat, z: nat)
    requires Ranked(net, rank) && g < |net.kind| && net.kind[g].ArithGate? && IsCollected(lib, net, rank, g, [(z, 1.0)], 0.0)
    ensures z < |net.kind| && rank[z] < rank[g] && Keeps(lib, net, rank, WithGate(net, g, ArithGate(PLUS), [z]), rank)
  {
    assert [(z, 1.0)][0].0 == z;
    assert Below(rank, [z], rank[g]);
    forall w: Draw | w.lib == lib ensures Agrees(net, rank, w, g, ArithGate(PLUS), [z]) {
      OneLinear(z, 1.0, ValueAt(net, rank, w), []);
      MulOne(Value(net, rank, w, z));
      OneValue(net, rank, w, [z], rank[g]);
      FewTerms(lib, Value(net, rank, w, z), 0.0);
    }
    OneLinear(z, 1.0, [], DepthsOf(net, rank));
    FewDepths(net, rank, [z], rank[g]);
    RewriteGate(lib, net, rank, g, ArithGate(PLUS), [z]);
  }

  /** One variable is left, with a coefficient. */
  lemma ScaledLeft(lib: Library, net: Net, rank: seq<nat>, g: nat, z: nat, a: real)
    requires Ranked(net, rank) && g < |net.kind| && net.kind[g].ArithGate? && IsCollected(lib, net, rank, g, [(z, a)], 0.0)
    ensures z < |net.kind| && rank[z] < rank[g]
    ensures var net', n := Appended(net, ValueGate(Some(a)), []), |net.kind|;
            Keeps(lib, net, rank, WithGate(net', g, ArithGate(TIMES), [n, z]), Room(rank, g))
  {
    assert [(z, a)][0].0 == z;
    var net', rank', n := Appended(net, ValueGate(Some(a)), []), Room(rank, g), |net.kind|;
    AppendGrows(lib, net, rank, ValueGate(Some(a)), [], g);
    assert Below(rank', [n, z], rank'[g]);
    forall w: Draw | w.lib == lib
      ensures Agrees(net', rank', w, g, ArithGate(TIMES), [n, z])
      ensures LocalDepth(net', rank', ArithGate(TIMES), [n, z], rank'[g]) <= Depth(net', rank', g)
    {
      ScaledLeftAt(lib, net, rank, g, z, a, w);
    }
    var w := Draw(lib, g => 0, (g, xs) => 0.0);
    assert LocalDepth(net', rank', ArithGate(TIMES), [n, z], rank'[g]) <= Depth(net', rank', g);
    hide Agrees;
    hide LocalDepth;
    RewriteGate(lib, net', rank', g, ArithGate(TIMES), [n, z]);
    KeepsTrans(lib, net, rank, net', rank', WithGate(net', g, ArithGate(TIMES), [n, z]), rank');
  }

  lemma ScaledLeftAt(lib: Library, net: Net, rank: seq<nat>, g: nat, z: nat, a: real, w: Draw)
    requires Ranked(net, rank) && g < |net.kind| && net.kind[g].ArithGate? && IsCollected(lib, net, rank, g, [(z, a)], 0.0) && w.lib == lib
    requires z < |net.kind| && rank[z] < rank[g]
    requires var net', rank' := Appended(net, ValueGate(Some(a)), []), Room(rank, g);
             Grew(lib, net, rank, net', rank') && Below(rank', [|net.kind|, z], rank'[g])
    ensures var net', rank', n := Appended(net, ValueGate(Some(a)), []), Room(rank, g), |net.kind|;
            Agrees(net', rank', w, g, ArithGate(TIMES), [n, z])
            && LocalDepth(net', rank', ArithGate(TIMES), [n, z], rank'[g]) <= Depth(net', rank', g)
  {
    var net', rank', n := Appended(net, ValueGate(Some(a)), []), Room(rank, g), |net.kind|;
    OneLinear(z, a, ValueAt(net, rank, w), DepthsOf(net, rank));
    GrewValue(lib, net, rank, net', rank', w, z);
    GrewValue(lib, net, rank, net', rank', w, g);
    ConstantAdded(lib, net, rank, a, g, w);
    TwoValues(net', rank', w, n, z, rank'[g]);
    FewTerms(lib, a, Value(net, rank, w, z));
    hide Value;
    hide Depth;
    hide Grew;
    hide Apply;
    hide Mul;
  }

  /** The rebuilt sum. */
  lemma SumRebuilt(lib: Library, net0: Net, rank0: seq<nat>, net: Net, rank: seq<nat>, g: nat, us: seq<nat>, cs: Coefficients, b: real)
    requires Ranked(net0, rank0) && g < |net0.kind| && net0.kind[g].ArithGate? && IsCollected(lib, net0, rank0, g, cs, b)
    requires Rebuilt(lib, net0, rank0, net, rank, g, us, cs, b) && us != []
    ensures Keeps(lib, net0, rank0, WithGate(net, g, ArithGate(PLUS), us), rank)
  {
    forall w: Draw | w.lib == lib ensures Agrees(net, rank, w, g, ArithGate(PLUS), us) {
      GrewValue(lib, net0, rank0, net, rank, w, g);
      TotalApply(lib, PLUS, Values(net, rank, w, us, rank[g]));
    }
    assert Depth(net, rank, g) == Depth(net0, rank0, g);
    hide Agrees;
    RewriteGate(lib, net, rank, g, ArithGate(PLUS), us);
    KeepsTrans(lib, net0, rank0, net, rank, WithGate(net, g, ArithGate(PLUS), us), rank);
  }

  /** The wire at i is a mixture, and no other is. */
  ghost predicate OnlyMixture(kinds: seq<Kind>, ws: seq<nat>, i: nat)
    requires forall k :: 0 <= k < |ws| ==> ws[k] < |kinds|
  {
    i < |ws| && kinds[ws[i]] == MixtureGate && forall k :: 0 <= k < |ws| && k != i ==> kinds[ws[k]] != MixtureGate
  }

  // ----- The simplifier -----

  class Simplifier {
    var net: Net
    ghost var rank: seq<nat>
    const lib: Library

    constructor (net: Net, ghost rank: seq<nat>, lib: Library)
      requires Ranked(net, rank)
      ensures this.net == net && this.rank == rank && this.lib == lib
    {
      this.net := net;
      this.rank := rank;
      this.lib := lib;
    }

    ghost predicate Valid()
      reads this
    {
      Ranked(net, rank)
    }

    method AddGate(k: Kind, ws: seq<nat>, ghost top: nat) returns (n: nat)
      requires Valid() && top < |net.kind| && rank[top] > 0 && Below(rank, ws, rank[top])
      modifies this
      ensures n == |old(net).kind| && net == Appended(old(net), k, ws) && rank == Room(old(rank), top)
      ensures Valid() && Grew(lib, old(net), old(rank), net, rank) && rank[n] < rank[top]
    {
      AppendGrows(lib, net, rank, k, ws, top);
      n := |net.kind|;
      net := Appended(net, k, ws);
      rank := Room(rank, top);
    }

    /** Gives g a new form that keeps all values. */
    method SetGate(g: nat, k: Kind, ws: seq<nat>, ghost net0: Net, ghost rank0: seq<nat>)
      requires Valid() && g < |net0.kind| <= |net.kind| == |net.wires| && Ranked(net0, rank0) && Frame(net0, net, g)
      requires Keeps(lib, net0, rank0, WithGate(net, g, k, ws), rank) && Phase(k) <= Phase(net0.kind[g])
      modifies this`net
      ensures net == WithGate(old(net), g, k, ws) && Valid() && Did(lib, net0, rank0, net, rank, g)
    {
      DidRewrite(lib, net0, rank0, net, rank, g, k, ws);
      net := WithGate(net, g, k, ws);
    }

    method KeptWires(ws: seq<nat>, target: real) returns (kept: seq<nat>)
      requires forall i :: 0 <= i < |ws| ==> ws[i] < |net.kind|
      ensures kept == Kept(net, ws, target)
    {
      kept := [];
      assert ws[..0] == [];
      for i := 0 to |ws|
        invariant kept == Kept(net, ws[..i], target)
      {
        assert ws[..i + 1] == ws[..i] + [ws[i]];
        KeptAppend(net, ws[..i], ws[i], target);
        if !IsValueEqualTo(net, ws[i], target) {
          kept := kept + [ws[i]];
        }
      }
      assert ws[..|ws|] == ws;
    }

    /** Drops zeros from sums and ones from products; a zero absorbs a product. */
    method TryIdentityDrop(g: nat) returns (fired: bool)
      requires Valid() && g < |net.kind| && net.kind[g].ArithGate?
      modifies this`net
      ensures Valid() && Did(lib, old(net), old(rank), net, rank, g)
      ensures !fired ==> net == old(net)
    {
      hide Keeps;
      var op, ws := net.kind[g].op, net.wires[g];
      HasBelow(net, rank, g);
      DidNothing(lib, net, rank, g);
      if op != PLUS && op != TIMES {
        return false;
      }
      if op == TIMES {
        for i := 0 to |ws|
          invariant net == old(net)
        {
          if IsValueEqualTo(net, ws[i], 0.0) {
            AbsorbZero(lib, net, rank, g, i);
            SetGate(g, ValueGate(Some(0.0)), [], net, rank);
            return true;
          }
        }
      }
      var kept := KeptWires(ws, Neutral(op));
      if |kept| == |ws| {
        return false;
      }
      DropNeutral(lib, net, rank, g);
      if kept == [] {
        SetGate(g, ValueGate(Some(Neutral(op))), [], net, rank);
      } else {
        SetGate(g, ArithGate(op), kept, net, rank);
      }
      fired := true;
    }

    /** a - b becomes a + (-b). */
    method MinusToPlus(g: nat)
      requires Valid() && g < |net.kind| && net.kind[g] == ArithGate(MINUS) && |net.wires[g]| == 2
      modifies this
      ensures Valid() && Did(lib, old(net), old(rank), net, rank, g)
    {
      hide Keeps;
      ghost var net0, rank0 := net, rank;
      var a, b := net.wires[g][0], net.wires[g][1];
      HasBelow(net, rank, g);
      assert net.wires[g] == [a, b];
      MinusAsPlus(lib, net, rank, g, a, b);
      var n := AddGate(ArithGate(NEG), [b], g);
      SetGate(g, ArithGate(PLUS), [a, n], net0, rank0);
    }

    /** a / b becomes a * (1 / b), for a constant b. */
    method DivToTimes(g: nat, c: real)
      requires Valid() && g < |net.kind| && net.kind[g] == ArithGate(DIV) && |net.wires[g]| == 2 && net.wires[g][1] < |net.kind|
      requires TryEvalConstant(net, rank, lib, net.wires[g][1]) == Some(c) && c != 0.0
      modifies this
      ensures Valid() && Did(lib, old(net), old(rank), net, rank, g)
    {
      hide Keeps;
      ghost var net0, rank0 := net, rank;
      var a, b := net.wires[g][0], net.wires[g][1];
      HasBelow(net, rank, g);
      assert net.wires[g] == [a, b];
      DivAsTimes(lib, net, rank, g, a, b, c);
      var n := AddGate(ValueGate(Some(1.0 / c)), [], g);
      SetGate(g, ArithGate(TIMES), [a, n], net0, rank0);
    }

    /** Pushes constants into the labels of a categorical mixture. */
    method LiftLabels(g: nat, j: nat) returns (fired: bool)
      requires Valid() && g < |net.kind| && net.kind[g].ArithGate? && IsTotal(net.kind[g].op) && j < |net.wires[g]|
      requires net.wires[g][j] < |net.kind| && net.kind[net.wires[g][j]] == MixtureGate
      requires Below(rank, net.wires[net.wires[g][j]], rank[net.wires[g][j]]) && IsCategorical(net.kind, net.wires[net.wires[g][j]])
      modifies this
      ensures Valid() && Did(lib, old(net), old(rank), net, rank, g)
      ensures !fired ==> net.kind[g] == old(net).kind[g] && net.wires[g] == old(net).wires[g]
    {
      hide Depth;
      hide Value;
      hide Frame;
      hide Keeps;
      ghost var net0, rank0 := net, rank;
      var ws, op := net.wires[g], net.kind[g].op;
      var m := ws[j];
      var others, mw := Without(ws, j), net.wires[m];
      HasBelow(net, rank, g);
      WithinBelow(rank, ws, others, rank[g]);
      DidNothing(lib, net, rank, g);
      var c, ok := CombineConstants(net, others, op);
      if !ok {
        return false;
      }
      var us := [mw[0]];
      GrewSame(lib, net, rank);
      for i := 1 to |mw|
        invariant Valid() && Grew(lib, net0, rank0, net, rank) && Below(rank, us, rank[g]) && Relabelled(net.kind, op, c, mw, us, i)
      {
        var k := net.kind[mw[i]];
        assert IsMulIn(net0.kind[mw[i]]);
        if k.text.None? {
          GrewDid(lib, net0, rank0, net, rank, g);
          return false;
        }
        ghost var net1, rank1 := net, rank;
        assert us[0] == mw[0] && rank[us[0]] < rank[g];
        var u := AddGate(MulInGate(Some(Join(op, c, k.text.value)), k.index, k.prob), [mw[0]], g);
        GrewTrans(lib, net0, rank0, net1, rank1, net, rank);
        BelowGrew(lib, net1, rank1, net, rank, us, g, u);
        MoreRelabelled(net1.kind, net.kind, op, c, mw, us, i, u);
        us := us + [u];
      }
      InstallLabels(g, j, c, us, net0, rank0);
      fired := true;
    }

    /** Turns g into the mixture with the new labels. */
    method InstallLabels(g: nat, ghost j: nat, ghost c: real, us: seq<nat>, ghost net0: Net, ghost rank0: seq<nat>)
      requires Valid() && Ranked(net0, rank0) && Grew(lib, net0, rank0, net, rank) && g < |net0.kind| && net0.kind[g].ArithGate? && IsTotal(net0.kind[g].op)
      requires j < |net0.wires[g]| && net0.wires[g][j] < |net0.kind| && net0.kind[net0.wires[g][j]] == MixtureGate
      requires Below(rank0, net0.wires[g], rank0[g]) && Below(rank0, Without(net0.wires[g], j), rank0[g])
      requires Below(rank0, net0.wires[net0.wires[g][j]], rank0[net0.wires[g][j]]) && IsCategorical(net0.kind, net0.wires[net0.wires[g][j]])
      requires AllConstant(net0, Without(net0.wires[g], j)) && c == Total(net0.kind[g].op, ConstantsOf(net0, Without(net0.wires[g], j)))
      requires Below(rank, us, rank[g])
      requires var mw := net0.wires[net0.wires[g][j]];
               (forall i :: 0 <= i < |mw| ==> mw[i] < |net.kind|) && Relabelled(net.kind, net0.kind[g].op, c, mw, us, |mw|)
      modifies this`net
      ensures Valid() && Did(lib, net0, rank0, net, rank, g)
    {
      hide Depth;
      hide Value;
      hide Keeps;
      ghost var ws := net0.wires[g];
      ghost var m, others, mw := ws[j], Without(ws, j), net0.wires[ws[j]];
      StillConstant(net0, net, others);
      BelowStays(lib, net0, rank0, net, rank, ws, g);
      BelowStays(lib, net0, rank0, net, rank, others, g);
      BelowStays(lib, net0, rank0, net, rank, mw, m);
      StillCategorical(net0.kind, net.kind, mw);
      assert net.wires[g] == ws && net.kind[g] == net0.kind[g] && net.wires[m] == mw && net.kind[m] == MixtureGate;
      LiftCategorical(lib, net, rank, g, j, c, us);
      GrewDid(lib, net0, rank0, net, rank, g);
      KeepsTrans(lib, net0, rank0, net, rank, WithGate(net, g, MixtureGate, us), rank);
      SetGate(g, MixtureGate, us, net0, rank0);
    }

    /** The position of the only mixture among the wires. */
    method FindMixture(ws: seq<nat>) returns (found: bool, j: nat)
      requires forall i :: 0 <= i < |ws| ==> ws[i] < |net.kind|
      ensures found ==> j < |ws| && net.kind[ws[j]] == MixtureGate
      ensures found <==> exists i :: 0 <= i < |ws| && OnlyMixture(net.kind, ws, i)
    {
      found, j := false, 0;
      for i := 0 to |ws|
        invariant found ==> j < i && net.kind[ws[j]] == MixtureGate
        invariant forall k :: 0 <= k < i && net.kind[ws[k]] == MixtureGate ==> found && k == j
      {
        if net.kind[ws[i]] == MixtureGate {
          if found {
            return false, 0;
          }
          found, j := true, i;
        }
      }
      assert found ==> OnlyMixture(net.kind, ws, j);
    }

    /** Pushes a sum or product into its only mixture. */
    method TryMixtureLift(g: nat) returns (fired: bool)
      requires Valid() && g < |net.kind| && net.kind[g].ArithGate?
      modifies this
      ensures Valid() && Did(lib, old(net), old(rank), net, rank, g)
      ensures !fired ==> net.kind[g] == old(net).kind[g] && net.wires[g] == old(net).wires[g]
      decreases Depth(net, rank, g), Phase(net.kind[g]), 8
    {
      hide Keeps;
      hide Depth;
      var op, ws := net.kind[g].op, net.wires[g];
      HasBelow(net, rank, g);
      DidNothing(lib, net, rank, g);
      if !IsTotal(op) || |ws| < 2 {
        return false;
      }
      var found, j := FindMixture(ws);
      if !found {
        return false;
      }
      var m := ws[j];
      HasBelow(net, rank, m);
      var mw := net.wires[m];
      if IsCategorical(net.kind, mw) {
        fired := LiftLabels(g, j);
        return;
      }
      if |mw| != 3 {
        return false;
      }
      LiftArms(g, j);
      fired := true;
    }

    /** Lifts both arms of a Bernoulli mixture, and simplifies them. */
    method LiftArms(g: nat, j: nat)
      requires Valid() && g < |net.kind| && net.kind[g].ArithGate? && IsTotal(net.kind[g].op) && j < |net.wires[g]|
      requires net.wires[g][j] < |net.kind| && Below(rank, net.wires[net.wires[g][j]], rank[net.wires[g][j]]) && IsMixture(net, net.wires[g][j])
      modifies this
      ensures Valid() && Did(lib, old(net), old(rank), net, rank, g)
      decreases Depth(net, rank, g), Phase(net.kind[g]), 7
    {
      hide Keeps;
      hide Depth;
      hide Below;
      hide Frame;
      hide Did;
      ghost var net0, rank0 := net, rank;
      var mw := net.wires[net.wires[g][j]];
      assert |mw| == 3;
      hide IsMixture;
      FrameArms(net, g, j, mw[1], mw[2]);
      LiftMixture(lib, net, rank, g, j);
      var nx, ny := AddArms(g, j);
      SetGate(g, MixtureGate, [mw[0], nx, ny], net0, rank0);
      ApplyBoth(nx, ny, net0, rank0, g);
    }

    method AddArms(g: nat, j: nat) returns (nx: nat, ny: nat)
      requires Valid() && g < |net.kind| && net.kind[g].ArithGate? && j < |net.wires[g]|
      requires net.wires[g][j] < |net.kind| && Below(rank, net.wires[net.wires[g][j]], rank[net.wires[g][j]]) && IsMixture(net, net.wires[g][j])
      modifies this
      ensures nx == |old(net).kind| && ny == nx + 1 && Valid()
      ensures old(rank)[g] > 0 && |Room(old(rank), g)| > |old(rank)| && Room(old(rank), g)[g] > 0 && rank == Room(Room(old(rank), g), g)
      ensures var mw := old(net).wires[old(net).wires[g][j]]; net == WithArms(old(net), g, j, mw[1], mw[2])
    {
      hide Keeps;
      hide Depth;
      var k, ws := net.kind[g], net.wires[g];
      var others, mw := Without(ws, j), net.wires[ws[j]];
      HasBelow(net, rank, g);
      ArmBelow(rank, ws, j, mw[1], rank[g]);
      ArmBelow(rank, ws, j, mw[2], rank[g]);
      BelowRoom(rank, others + [mw[2]], g);
      hide Grew;
      nx := AddGate(k, others + [mw[1]], g);
      ny := AddGate(k, others + [mw[2]], g);
    }

    /** Simplifies two gates that are nested less deeply than g was. */
    method ApplyBoth(nx: nat, ny: nat, ghost net0: Net, ghost rank0: seq<nat>, ghost g: nat)
      requires Valid() && g < |net0.kind| <= nx < |net.kind| && |net0.kind| <= ny < |net.kind| && Did(lib, net0, rank0, net, rank, g)
      requires Depth(net, rank, nx) < Depth(net0, rank0, g) && Depth(net, rank, ny) < Depth(net0, rank0, g)
      modifies this
      ensures Valid() && Did(lib, net0, rank0, net, rank, g)
      decreases Depth(net0, rank0, g), 0, 0
    {
      hide Keeps;
      hide Depth;
      ghost var net1, rank1 := net, rank;
      var x := ApplyRules(nx);
      DidTrans(lib, net0, rank0, net1, rank1, net, rank, g, nx);
      DidDepth(lib, net1, rank1, net, rank, nx, ny);
      ghost var net2, rank2 := net, rank;
      var y := ApplyRules(ny);
      DidTrans(lib, net0, rank0, net2, rank2, net, rank, g, ny);
    }

    /** Reads every wire as a linear term. */
    method DecomposeAll(ws: seq<nat>) returns (ts: seq<Term>, ok: bool)
      requires Valid() && forall i :: 0 <= i < |ws| ==> ws[i] < |net.kind|
      ensures ok ==> AreTerms(net, rank, ws, ts)
    {
      ts := [];
      for i := 0 to |ws|
        invariant |ts| == i && forall k :: 0 <= k < i ==> DecomposeLinearTerm(net, rank, ws[k]) == Some(ts[k])
      {
        var t := DecomposeLinearTerm(net, rank, ws[i]);
        if t.None? {
          return ts, false;
        }
        ts := ts + [t.value];
      }
      ok := true;
    }

    /** New wires for the coefficients and the constant. */
    method Rebuild(g: nat, cs: Coefficients, b: real) returns (us: seq<nat>)
      requires Valid() && g < |net.kind| && rank[g] > 0 && cs != []
      requires forall k :: 0 <= k < |cs| ==> cs[k].0 < |net.kind| && !net.kind[cs[k].0].ArithGate? && rank[cs[k].0] < rank[g]
      modifies this
      ensures Valid() && Rebuilt(lib, old(net), old(rank), net, rank, g, us, cs, b)
      ensures us != []
    {
      ghost var net0, rank0 := net, rank;
      us := [];
      NothingRebuilt(lib, net, rank, g);
      assert cs[..0] == [];
      hide Depth;
      hide Value;
      hide Keeps;
      for k := 0 to |cs|
        invariant Valid() && Rebuilt(lib, net0, rank0, net, rank, g, us, cs[..k], 0.0) && |us| == k
      {
        us := RebuildOne(g, us, cs[..k], cs[k].0, cs[k].1, net0, rank0);
        assert cs[..k + 1] == cs[..k] + [cs[k]];
      }
      assert cs[..|cs|] == cs;
      if b != 0.0 {
        RebuiltRank(lib, net0, rank0, net, rank, g, us, cs, 0.0);
        RebuildConstant(lib, net0, rank0, net, rank, g, us, cs, b);
        var n := AddGate(ValueGate(Some(b)), [], g);
        us := us + [n];
      }
    }

    /** The next wire: the variable itself, or a product. */
    method RebuildOne(g: nat, us: seq<nat>, ghost cs: Coefficients, z: nat, a: real, ghost net0: Net, ghost rank0: seq<nat>) returns (r: seq<nat>)
      requires Valid() && Rebuilt(lib, net0, rank0, net, rank, g, us, cs, 0.0)
      requires g < |net0.kind| == |rank0| && z < |net0.kind| && !net0.kind[z].ArithGate? && rank0[z] < rank0[g]
      modifies this
      ensures Valid() && |r| == |us| + 1 && Rebuilt(lib, net0, rank0, net, rank, g, r, cs + [(z, a)], 0.0)
    {
      hide Depth;
      hide Value;
      hide Keeps;
      ghost var net1, rank1 := net, rank;
      assert net.kind[z] == net0.kind[z] && rank[z] < rank[g];
      if a == 1.0 {
        GrewSame(lib, net, rank);
        forall w: Draw | w.lib == lib ensures Value(net, rank, w, z) == Mul(1.0, Value(net, rank, w, z)) { MulOne(Value(net, rank, w, z)); }
        RebuildStep(lib, net0, rank0, net, rank, net, rank, g, us, cs, z, a, z);
        return us + [z];
      }
      ScaledGrows(lib, net, rank, a, z, g);
      var c := AddGate(ValueGate(Some(a)), [], g);
      assert Below(rank, [c, z], rank[g]);
      var t := AddGate(ArithGate(TIMES), [c, z], g);
      assert net == WithScaled(net1, a, z);
      RebuildStep(lib, net0, rank0, net1, rank1, net, rank, g, us, cs, z, a, t);
      r := us + [t];
    }

    /** Collects the terms of a sum. */
    method TryPlusAggregate(g: nat) returns (fired: bool)
      requires Valid() && g < |net.kind| && net.kind[g] == ArithGate(PLUS)
      modifies this
      ensures Valid() && Did(lib, old(net), old(rank), net, rank, g)
      ensures !fired ==> net.kind[g] == old(net).kind[g] && net.wires[g] == old(net).wires[g]
      decreases Depth(net, rank, g), 1, 8
    {
      hide Depth;
      hide Keeps;
      hide Collects;
      hide AreTerms;
      hide IsCollected;
      ghost var net0, rank0 := net, rank;
      var ws := net.wires[g];
      HasBelow(net, rank, g);
      DidNothing(lib, net, rank, g);
      if |ws| < 2 {
        return false;
      }
      var ts, ok := DecomposeAll(ws);
      if !ok {
        return false;
      }
      var cs, b, constants := Collect(ts);
      if !(|cs| < |ts| - constants) && !(constants >= 2) {
        return false;
      }
      var kept := NonZero(cs);
      CollectedTerms(lib, net, rank, g, ts, cs, b);
      fired := true;
      if kept == [] {
        NoneLeft(lib, net, rank, g, b);
        SetGate(g, ValueGate(Some(b)), [], net, rank);
      } else if |kept| == 1 && b == 0.0 {
        assert kept == [(kept[0].0, kept[0].1)];
        if kept[0].1 == 1.0 {
          OneLeft(lib, net, rank, g, kept[0].0);
          SetGate(g, ArithGate(PLUS), [kept[0].0], net, rank);
        } else {
          ScaledLeft(lib, net, rank, g, kept[0].0, kept[0].1);
          var n := AddGate(ValueGate(Some(kept[0].1)), [], g);
          SetGate(g, ArithGate(TIMES), [n, kept[0].0], net0, rank0);
        }
      } else {
        AggregateSum(g, kept, b);
      }
    }

    /** Installs the rebuilt sum, and simplifies its new terms. */
    method AggregateSum(g: nat, cs: Coefficients, b: real)
      requires Valid() && g < |net.kind| && net.kind[g] == ArithGate(PLUS) && rank[g] > 0 && cs != [] && IsCollected(lib, net, rank, g, cs, b)
      modifies this
      ensures Valid() && Did(lib, old(net), old(rank), net, rank, g)
      decreases Depth(net, rank, g), 1, 7
    {
      hide Depth;
      hide Keeps;
      ghost var net0, rank0 := net, rank;
      var us := Rebuild(g, cs, b);
      RebuiltFacts(lib, net0, rank0, net, rank, g, us, cs, b);
      SumRebuilt(lib, net0, rank0, net, rank, g, us, cs, b);
      hide IsCollected;
      hide Rebuilt;
      hide Frame;
      ghost var net1 := net;
      SetGate(g, ArithGate(PLUS), us, net0, rank0);
      TermsReady(lib, net0, rank0, net1, rank, g, us);
      ApplyNew(us, net0, rank0, g);
    }

    /** Simplifies the new terms of g. */
    method ApplyNew(us: seq<nat>, ghost net0: Net, ghost rank0: seq<nat>, ghost g: nat)
      requires Valid() && Ranked(net0, rank0) && g < |net0.kind| && Did(lib, net0, rank0, net, rank, g)
      requires TermsOf(net0, rank0, net, rank, g, us)
      modifies this
      ensures Valid() && Did(lib, net0, rank0, net, rank, g)
      decreases Depth(net0, rank0, g), 1, 0
    {
      hide Keeps;
      hide Depth;
      for i := 0 to |us|
        invariant Valid() && Did(lib, net0, rank0, net, rank, g) && TermsOf(net0, rank0, net, rank, g, us)
      {
        if net.kind[us[i]].ArithGate? {
          ghost var net1, rank1 := net, rank;
          var n := ApplyRules(us[i]);
          DidTrans(lib, net0, rank0, net1, rank1, net, rank, g, us[i]);
          TermsStay(lib, net0, rank0, net1, rank1, net, rank, g, us, us[i]);
        }
      }
    }

    /** Applies the rules to g until none fires, or for 32 rounds; the number of rewritings. */
    method ApplyRules(g: nat) returns (local: nat)
      requires Valid() && g < |net.kind|
      modifies this
      ensures Valid() && Did(lib, old(net), old(rank), net, rank, g)
      decreases Depth(net, rank, g), Phase(net.kind[g]), 9
    {
      hide Keeps;
      hide Depth;
      ghost var net0, rank0 := net, rank;
      local := 0;
      DidNothing(lib, net, rank, g);
      for iter := 0 to 32
        invariant Valid() && Did(lib, net0, rank0, net, rank, g)
      {
        if !net.kind[g].ArithGate? {
          break;
        }
        ghost var net1, rank1 := net, rank;
        DidDepth(lib, net0, rank0, net, rank, g, g);
        HasBelow(net, rank, g);
        var c := TryEvalConstant(net, rank, lib, g);
        if c.Some? {
          FoldConstant(lib, net, rank, g, c.value);
          SetGate(g, ValueGate(Some(c.value)), [], net, rank);
          DidTrans(lib, net0, rank0, net1, rank1, net, rank, g, g);
          local := local + 1;
          break;
        }
        if net.kind[g].op == MINUS && |net.wires[g]| == 2 {
          MinusToPlus(g);
          DidTrans(lib, net0, rank0, net1, rank1, net, rank, g, g);
          local := local + 1;
          continue;
        }
        if net.kind[g].op == DIV && |net.wires[g]| == 2 && !SubtreeContainsAgg(net, rank, net.wires[g][0]) {
          var d := TryEvalConstant(net, rank, lib, net.wires[g][1]);
          if d.Some? && d.value != 0.0 {
            DivToTimes(g, d.value);
            DidTrans(lib, net0, rank0, net1, rank1, net, rank, g, g);
            local := local + 1;
            continue;
          }
        }
        var dropped := TryIdentityDrop(g);
        DidTrans(lib, net0, rank0, net1, rank1, net, rank, g, g);
        if dropped {
          local := local + 1;
          continue;
        }
        var lifted := TryMixtureLift(g);
        DidTrans(lib, net0, rank0, net1, rank1, net, rank, g, g);
        if lifted {
          local := local + 1;
          break;
        }
        if net.kind[g].op == PLUS {
          ghost var net2, rank2 := net, rank;
          DidDepth(lib, net0, rank0, net, rank, g, g);
          var aggregated := TryPlusAggregate(g);
          DidTrans(lib, net0, rank0, net2, rank2, net, rank, g, g);
          if aggregated {
            local := local + 1;
            continue;
          }
        }
        break;
      }
    }

    /** Simplifies the gates below g, and g, children first; each gate once. */
    method Simplify(g: nat, done0: set<nat>, ghost net0: Net) returns (done: set<nat>, counter: nat)
      requires Valid() && g < |net0.kind| && Sound(net0) && Untouched(net0, net, done0, [])
      modifies this
      ensures Valid() && Keeps(lib, old(net), old(rank), net, rank)
      ensures g in done && done0 <= done && Untouched(net0, net, done, [])
    {
      hide Depth;
      hide Keeps;
      hide Untouched;
      hide FramesOk;
      hide Remaining;
      hide Sound;
      hide Did;
      KeepsSame(lib, net, rank);
      done, counter := done0, 0;
      if g in done {
        return;
      }
      FirstFrame(net0, net, done, g);
      done := done + {g};
      var stack: seq<Visit> := [(g, 0)];
      ghost var all := FirstVars(|net0.kind|);
      while stack != []
        invariant Valid() && Keeps(lib, old(net), old(rank), net, rank)
        invariant g in done && done0 <= done && FramesOk(net0, done, stack) && Untouched(net0, net, done, stack)
        decreases all - done, Remaining(net0, stack)
      {
        var top := |stack| - 1;
        var cur, k := stack[top].0, stack[top].1;
        TopFrame(net0, net, done, stack);
        RemainingPop(net0, done, stack);
        if k < |net.wires[cur]| {
          var child := net.wires[cur][k];
          AdvanceFrame(net0, net, done, stack);
          stack := stack[top := (cur, k + 1)];
          if child !in done {
            PushFrame(net0, net, done, stack, child);
            assert child in all - done;
            done := done + {child};
            stack := stack + [(child, 0)];
          }
        } else {
          ghost var net1, rank1 := net, rank;
          if net.kind[cur].ArithGate? {
            var n := ApplyRules(cur);
            counter := counter + n;
          } else {
            DidNothing(lib, net, rank, cur);
          }
          PopFrame(lib, net0, net1, rank1, net, rank, done, stack);
          DidKeeps(lib, net1, rank1, net, rank, cur);
          KeepsTrans(lib, old(net), old(rank), net1, rank1, net, rank);
          stack := stack[..top];
        }
      }
    }

    /** Simplifies the whole circuit: every gate that it had keeps its value in every draw. */
    method RunSimplifier() returns (counter: nat)
      requires Valid()
      modifies this
      ensures Valid() && Keeps(lib, old(net), old(rank), net, rank)
    {
      hide Keeps;
      ghost var net0, rank0 := net, rank;
      var nb := |net.kind|;
      counter := 0;
      var done: set<nat> := {};
      KeepsSame(lib, net, rank);
      RankedSound(net, rank);
      for i := 0 to nb
        invariant Valid() && Keeps(lib, net0, rank0, net, rank) && Untouched(net0, net, done, [])
      {
        ghost var net1, rank1 := net, rank;
        var n;
        done, n := Simplify(i, done, net0);
        KeepsTrans(lib, net0, rank0, net1, rank1, net, rank);
        counter := counter + n;
      }
    }
  }

  // ----- The walk -----

  type Visit = (nat, nat)

  lemma KeepsSame(lib: Library, net: Net, rank: seq<nat>)
    requires Ranked(net, rank)
    ensures Keeps(lib, net, rank, net, rank)
  {
  }

  lemma DidKeeps(lib: Library, a: Net, ra: seq<nat>, b: Net, rb: seq<nat>, g: nat)
    requires Did(lib, a, ra, b, rb, g)
    ensures Keeps(lib, a, ra, b, rb)
  {
  }

  ghost predicate Sound(net: Net) {
    |net.wires| == |net.kind| && forall g, i {:trigger net.wires[g][i]} :: 0 <= g < |net.kind| && 0 <= i < |net.wires[g]| ==> net.wires[g][i] < |net.kind|
  }

  lemma RankedSound(net: Net, rank: seq<nat>)
    requires Ranked(net, rank)
    ensures Sound(net) && Untouched(net, net, {}, [])
  {
    forall g, i | 0 <= g < |net.kind| && 0 <= i < |net.wires[g]| ensures net.wires[g][i] < |net.kind| {
      assert Below(rank, net.wires[g], rank[g]);
    }
  }

  ghost predicate OnStack(stack: seq<Visit>, h: nat) {
    exists i :: 0 <= i < |stack| && stack[i].0 == h
  }

  /** Gates that are not done, or not yet rewritten, have the wires they had. */
  ghost predicate Untouched(net0: Net, net: Net, done: set<nat>, stack: seq<Visit>) {
    && |net0.wires| == |net0.kind| <= |net.kind| == |net.wires|
    && forall h: nat :: h < |net0.kind| && (h !in done || OnStack(stack, h)) ==> net.wires[h] == net0.wires[h]
  }

  ghost predicate FramesOk(net0: Net, done: set<nat>, stack: seq<Visit>) {
    && |net0.wires| == |net0.kind|
    && (forall i :: 0 <= i < |stack| ==> stack[i].0 < |net0.kind| && stack[i].0 in done && stack[i].1 <= |net0.wires[stack[i].0]|)
    && (forall i, j :: 0 <= i < j < |stack| ==> stack[i].0 != stack[j].0)
  }

  /** The wires still to be looked at, and the gates still to be left. */
  ghost function Remaining(net0: Net, stack: seq<Visit>): nat {
    if stack == [] then 0
    else
      var f := stack[|stack| - 1];
      Remaining(net0, stack[..|stack| - 1])
      + 1 + if f.0 < |net0.wires| && f.1 <= |net0.wires[f.0]| then |net0.wires[f.0]| - f.1 else 0
  }

  lemma TopFrame(net0: Net, net: Net, done: set<nat>, stack: seq<Visit>)
    requires FramesOk(net0, done, stack) && Untouched(net0, net, done, stack) && stack != []
    ensures var f := stack[|stack| - 1]; f.0 < |net0.kind| && f.0 < |net.kind| && net.wires[f.0] == net0.wires[f.0] && f.0 in done
  {
    assert OnStack(stack, stack[|stack| - 1].0);
  }

  lemma RemainingPop(net0: Net, done: set<nat>, stack: seq<Visit>)
    requires FramesOk(net0, done, stack) && stack != []
    ensures var top, f := |stack| - 1, stack[|stack| - 1];
            && Remaining(net0, stack[..top]) < Remaining(net0, stack)
            && (f.1 < |net0.wires[f.0]| ==> Remaining(net0, stack[top := (f.0, f.1 + 1)]) < Remaining(net0, stack))
  {
    var top, f := |stack| - 1, stack[|stack| - 1];
    assert stack[top := (f.0, f.1 + 1)][..top] == stack[..top];
  }

  lemma FirstFrame(net0: Net, net: Net, done: set<nat>, g: nat)
    requires Untouched(net0, net, done, []) && g < |net0.kind| && g !in done
    ensures FramesOk(net0, done + {g}, [(g, 0)]) && Untouched(net0, net, done + {g}, [(g, 0)])
  {
  }

  lemma AdvanceFrame(net0: Net, net: Net, done: set<nat>, stack: seq<Visit>)
    requires Sound(net0) && FramesOk(net0, done, stack) && Untouched(net0, net, done, stack) && stack != []
    requires stack[|stack| - 1].1 < |net0.wires[stack[|stack| - 1].0]|
    ensures var top, f := |stack| - 1, stack[|stack| - 1];
            net0.wires[f.0][f.1] < |net0.kind| && FramesOk(net0, done, stack[top := (f.0, f.1 + 1)]) && Untouched(net0, net, done, stack[top := (f.0, f.1 + 1)])
  {
    var top, f := |stack| - 1, stack[|stack| - 1];
    var next := stack[top := (f.0, f.1 + 1)];
    forall h | OnStack(next, h) ensures OnStack(stack, h) {
      var i :| 0 <= i < |next| && next[i].0 == h;
      assert stack[i].0 == h;
    }
  }

  lemma PushFrame(net0: Net, net: Net, done: set<nat>, stack: seq<Visit>, child: nat)
    requires FramesOk(net0, done, stack) && Untouched(net0, net, done, stack) && child < |net0.kind| && child !in done
    ensures FramesOk(net0, done + {child}, stack + [(child, 0)]) && Untouched(net0, net, done + {child}, stack + [(child, 0)])
  {
    var next := stack + [(child, 0)];
    forall h | OnStack(next, h) ensures OnStack(stack, h) || h == child {
      var i :| 0 <= i < |next| && next[i].0 == h;
      if i < |stack| { assert stack[i].0 == h; }
    }
  }

  lemma PopFrame(lib: Library, net0: Net, a: Net, ra: seq<nat>, b: Net, rb: seq<nat>, done: set<nat>, stack: seq<Visit>)
    requires FramesOk(net0, done, stack) && Untouched(net0, a, done, stack) && stack != []
    requires Did(lib, a, ra, b, rb, stack[|stack| - 1].0)
    ensures FramesOk(net0, done, stack[..|stack| - 1]) && Untouched(net0, b, done, stack[..|stack| - 1])
  {
    hide Keeps;
    var rest := stack[..|stack| - 1];
    forall h | OnStack(rest, h) ensures OnStack(stack, h) && h != stack[|stack| - 1].0 {
      var i :| 0 <= i < |rest| && rest[i].0 == h;
      assert stack[i].0 == h;
    }
  }

  /** A rebuilt term is nested no deeper than g was, and what is arithmetic in it is new. */
  ghost predicate TermsOf(net0: Net, rank0: seq<nat>, net: Net, rank: seq<nat>, g: nat, us: seq<nat>)
    requires Ranked(net0, rank0) && Ranked(net, rank) && g < |net0.kind|
  {
    forall i :: 0 <= i < |us| ==>
      && us[i] < |net.kind| && Depth(net, rank, us[i]) <= Depth(net0, rank0, g)
      && (net.kind[us[i]].ArithGate? ==> Phase(net.kind[us[i]]) == 0 && |net0.kind| <= us[i])
  }

  lemma {:induction false} DepthInSum(net: Net, rank: seq<nat>, ws: seq<nat>, top: nat, i: nat)
    requires Ranked(net, rank) && Below(rank, ws, top) && i < |ws|
    ensures Depth(net, rank, ws[i]) <= DepthSum(net, rank, ws, top)
    decreases |ws|
  {
    if i < |ws| - 1 { DepthInSum(net, rank, ws[..|ws| - 1], top, i); }
  }

  lemma RebuiltFacts(lib: Library, net0: Net, rank0: seq<nat>, net: Net, rank: seq<nat>, g: nat, us: seq<nat>, cs: Coefficients, b: real)
    requires Ranked(net0, rank0) && g < |net0.kind| && IsCollected(lib, net0, rank0, g, cs, b) && Rebuilt(lib, net0, rank0, net, rank, g, us, cs, b)
    ensures Ranked(net, rank) && Frame(net0, net, g) && g < |net.kind| && TermsOf(net0, rank0, net, rank, g, us) && g !in us
  {
    forall i | 0 <= i < |us| ensures Depth(net, rank, us[i]) <= Depth(net0, rank0, g) {
      DepthInSum(net, rank, us, rank[g], i);
    }
    hide Depth;
    hide DepthSum;
    hide Value;
    hide Linear;
    forall i | 0 <= i < |us| ensures IsNewTerm(|net0.kind|, net.kind[us[i]], us[i]) {}
  }

  /** The terms after g itself was rewritten. */
  lemma TermsReady(lib: Library, net0: Net, rank0: seq<nat>, net: Net, rank: seq<nat>, g: nat, us: seq<nat>)
    requires Ranked(net0, rank0) && Ranked(net, rank) && g < |net0.kind| <= |net.kind| && TermsOf(net0, rank0, net, rank, g, us) && g !in us
    requires net.kind[g].ArithGate? && Below(rank, us, rank[g]) && LocalDepth(net, rank, ArithGate(PLUS), us, rank[g]) <= Depth(net, rank, g)
    ensures Ranked(WithGate(net, g, ArithGate(PLUS), us), rank) && TermsOf(net0, rank0, WithGate(net, g, ArithGate(PLUS), us), rank, g, us)
  {
    var net' := WithGate(net, g, ArithGate(PLUS), us);
    StillRanked(net, rank, g, ArithGate(PLUS), us);
    forall i | 0 <= i < |us| ensures Depth(net', rank, us[i]) <= Depth(net, rank, us[i]) {
      RewriteDepth(net, rank, g, ArithGate(PLUS), us, us[i]);
    }
    hide Depth;
    forall i | 0 <= i < |us| ensures net'.kind[us[i]] == net.kind[us[i]] { assert us[i] in us; }
  }

  lemma TermsStay(lib: Library, net0: Net, rank0: seq<nat>, a: Net, ra: seq<nat>, b: Net, rb: seq<nat>, g: nat, us: seq<nat>, h: nat)
    requires Ranked(net0, rank0) && g < |net0.kind| && Did(lib, a, ra, b, rb, h) && TermsOf(net0, rank0, a, ra, g, us)
    requires |net0.kind| <= h < |a.kind| && Phase(a.kind[h]) == 0
    ensures TermsOf(net0, rank0, b, rb, g, us)
  {
    forall i | 0 <= i < |us| ensures Depth(b, rb, us[i]) <= Depth(a, ra, us[i]) {}
    hide Depth;
  }

  lemma DidDepth(lib: Library, a: Net, ra: seq<nat>, b: Net, rb: seq<nat>, g: nat, h: nat)
    requires Did(lib, a, ra, b, rb, g) && h < |a.kind|
    ensures Depth(b, rb, h) <= Depth(a, ra, h)
  {
  }

  lemma RebuiltRank(lib: Library, net0: Net, rank0: seq<nat>, net: Net, rank: seq<nat>, g: nat, us: seq<nat>, cs: Coefficients, b: real)
    requires Rebuilt(lib, net0, rank0, net, rank, g, us, cs, b) && us != []
    ensures rank[g] > 0
  {
    assert rank[us[0]] < rank[g];
  }

  lemma FrameArms(net: Net, g: nat, j: nat, x: nat, y: nat)
    requires g < |net.kind| == |net.wires| && j < |net.wires[g]|
    ensures Frame(net, WithArms(net, g, j, x, y), g)
  {
  }

  lemma ArmBelow(rank: seq<nat>, ws: seq<nat>, j: nat, x: nat, top: nat)
    requires Below(rank, ws, top) && j < |ws| && x < |rank| && rank[x] < top
    ensures Below(rank, Without(ws, j) + [x], top)
  {
  }

  lemma BelowRoom(rank: seq<nat>, us: seq<nat>, g: nat)
    requires g < |rank| && rank[g] > 0 && Below(rank, us, rank[g])
    ensures Below(Room(rank, g), us, Room(rank, g)[g])
  {
  }

  lemma BelowStays(lib: Library, a: Net, ra: seq<nat>, b: Net, rb: seq<nat>, ws: seq<nat>, g: nat)
    requires Grew(lib, a, ra, b, rb) && g < |a.kind| && Below(ra, ws, ra[g])
    ensures Below(rb, ws, rb[g])
  {
  }

  lemma BelowGrew(lib: Library, a: Net, ra: seq<nat>, b: Net, rb: seq<nat>, us: seq<nat>, g: nat, u: nat)
    requires Grew(lib, a, ra, b, rb) && g < |a.kind| && Below(ra, us, ra[g]) && u < |b.kind| && rb[u] < rb[g]
    ensures Below(rb, us + [u], rb[g])
  {
  }

  lemma MoreRelabelled(a: seq<Kind>, b: seq<Kind>, op: Op, c: real, ws: seq<nat>, us: seq<nat>, i: nat, u: nat)
    requires a <= b && (forall i :: 0 <= i < |ws| ==> ws[i] < |a|) && (forall i :: 0 <= i < |us| ==> us[i] < |a|)
    requires Relabelled(a, op, c, ws, us, i) && i < |ws| && u < |b| && Relabels(b, op, c, ws[i], u)
    ensures Relabelled(b, op, c, ws, us + [u], i + 1)
  {
    forall k | 1 <= k < i + 1 ensures Relabels(b, op, c, ws[k], (us + [u])[k]) {
      if k < i { assert Relabels(a, op, c, ws[k], us[k]); }
    }
  }

  lemma StillConstant(a: Net, b: Net, ws: seq<nat>)
    requires a.kind <= b.kind && (forall i :: 0 <= i < |ws| ==> ws[i] < |a.kind|) && AllConstant(a, ws)
    ensures AllConstant(b, ws) && ConstantsOf(b, ws) == ConstantsOf(a, ws)
  {
  }

  lemma StillCategorical(a: seq<Kind>, b: seq<Kind>, ws: seq<nat>)
    requires a <= b && forall i :: 0 <= i < |ws| ==> ws[i] < |a|
    ensures IsCategorical(a, ws) <==> IsCategorical(b, ws)
  {
  }
}