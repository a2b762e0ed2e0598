/** The local rewritings of a scalar circuit: each gives its gate a new form with the value
    it had, and nests mixtures no deeper.  */
module PeepholeRules {
  import opened Outcomes
  import opened Reals
  import opened PostOrder
  import opened SeqSums
  import opened ScalarNet
  import opened LinearTerms

  // ----- Constants -----

  lemma FoldConstant(lib: Library, net: Net, rank: seq<nat>, g: nat, c: real)
    requires Ranked(net, rank) && g < |net.kind| && net.kind[g].ArithGate? && TryEvalConstant(net, rank, lib, g) == Some(c)
    ensures Keeps(lib, net, rank, WithGate(net, g, ValueGate(Some(c)), []), rank)
  {
    forall w: Draw | w.lib == lib ensures Agrees(net, rank, w, g, ValueGate(Some(c)), []) { ConstantIsValue(net, rank, w, g); }
    RewriteGate(lib, net, rank, g, ValueGate(Some(c)), []);
  }

  /** A gate known to have one value in all draws. */
  lemma KnownConstant(lib: Library, net: Net, rank: seq<nat>, g: nat, c: real)
    requires Ranked(net, rank) && g < |net.kind| && net.kind[g].ArithGate?
    requires forall w: Draw :: w.lib == lib ==> Value(net, rank, w, g) == c
    ensures Keeps(lib, net, rank, WithGate(net, g, ValueGate(Some(c)), []), rank)
  {
    RewriteGate(lib, net, rank, g, ValueGate(Some(c)), []);
  }

  // ----- Identities -----

  predicate IsValueEqualTo(net: Net, g: nat, target: real)
    requires g < |net.kind|
  {
    net.kind[g] == ValueGate(Some(target))
  }

  /** The wires other than constants equal to target. */
  function Kept(net: Net, ws: seq<nat>, target: real): (kept: seq<nat>)
    requires forall i :: 0 <= i < |ws| ==> ws[i] < |net.kind|
    ensures |kept| <= |ws| && forall h :: h in kept ==> h in ws
  {
    if ws == [] then []
    else
      var h := ws[|ws| - 1];
      Kept(net, ws[..|ws| - 1], target) + if IsValueEqualTo(net, h, target) then [] else [h]
  }

  lemma WithinBelow(rank: seq<nat>, ws: seq<nat>, us: seq<nat>, top: nat)
    requires Below(rank, ws, top) && forall h :: h in us ==> h in ws
    ensures Below(rank, us, top)
  {
    forall i | 0 <= i < |us| ensures us[i] < |rank| && rank[us[i]] < top {
      assert us[i] in ws;
    }
  }

  lemma SumOne(xs: seq<real>, x: real)
    ensures Sum(xs + [x]) == Sum(xs) + x && Product(xs + [x]) == Mul(Product(xs), x)
  {
    assert (xs + [x])[..|xs|] == xs;
  }

  lemma ValuesAppend(net: Net, rank: seq<nat>, w: Draw, ws: seq<nat>, h: nat, top: nat)
    requires Ranked(net, rank) && Below(rank, ws, top) && h < |rank| && rank[h] < top
    ensures Below(rank, ws + [h], top)
    ensures Values(net, rank, w, ws + [h], top) == Values(net, rank, w, ws, top) + [Value(net, rank, w, h)]
  {
    assert (ws + [h])[..|ws|] == ws;
  }

  lemma DepthAppend(net: Net, rank: seq<nat>, ws: seq<nat>, h: nat, top: nat)
    requires Ranked(net, rank) && Below(rank, ws, top) && h < |rank| && rank[h] < top
    ensures Below(rank, ws + [h], top)
    ensures DepthSum(net, rank, ws + [h], top) == DepthSum(net, rank, ws, top) + Depth(net, rank, h)
  {
    assert (ws + [h])[..|ws|] == ws;
  }

  lemma KeptAppend(net: Net, ws: seq<nat>, h: nat, target: real)
    requires h < |net.kind| && forall i :: 0 <= i < |ws| ==> ws[i] < |net.kind|
    ensures Kept(net, ws + [h], target) == if IsValueEqualTo(net, h, target) then Kept(net, ws, target) else Kept(net, ws, target) + [h]
  {
    assert (ws + [h])[..|ws|] == ws;
  }

  lemma KeptBelow(net: Net, rank: seq<nat>, ws: seq<nat>, top: nat, target: real)
    requires Ranked(net, rank) && Below(rank, ws, top)
    ensures Below(rank, Kept(net, ws, target), top)
  {
    WithinBelow(rank, ws, Kept(net, ws, target), top);
  }

  lemma KeptSumStep(net: Net, rank: seq<nat>, w: Draw, init: seq<nat>, h: nat, top: nat)
    requires Ranked(net, rank) && Below(rank, init, top) && h < |rank| && rank[h] < top && Below(rank, Kept(net, init, 0.0), top)
    requires Sum(Values(net, rank, w, Kept(net, init, 0.0), top)) == Sum(Values(net, rank, w, init, top))
    ensures Below(rank, init + [h], top) && Below(rank, Kept(net, init + [h], 0.0), top)
    ensures Sum(Values(net, rank, w, Kept(net, init + [h], 0.0), top)) == Sum(Values(net, rank, w, init + [h], top))
  {
    hide Value;
    hide Values;
    hide Sum;
    hide Kept;
    hide Mul;
    var kept, x := Kept(net, init, 0.0), Value(net, rank, w, h);
    KeptAppend(net, init, h, 0.0);
    ValuesAppend(net, rank, w, init, h, top);
    ValuesAppend(net, rank, w, kept, h, top);
    SumOne(Values(net, rank, w, init, top), x);
    SumOne(Values(net, rank, w, kept, top), x);
    ConstantGate(net, rank, w, h);
  }

  lemma {:induction false} KeptSum(net: Net, rank: seq<nat>, w: Draw, ws: seq<nat>, top: nat)
    requires Ranked(net, rank) && Below(rank, ws, top)
    ensures Below(rank, Kept(net, ws, 0.0), top)
    ensures Sum(Values(net, rank, w, Kept(net, ws, 0.0), top)) == Sum(Values(net, rank, w, ws, top))
    decreases |ws|
  {
    hide Values;
    hide Sum;
    hide Kept;
    if ws == [] {
      KeptNothing(net, 0.0);
    } else {
      var init, h := ws[..|ws| - 1], ws[|ws| - 1];
      KeptSum(net, rank, w, init, top);
      KeptSumStep(net, rank, w, init, h, top);
      assert ws == init + [h];
    }
  }

  lemma KeptProductStep(net: Net, rank: seq<nat>, w: Draw, init: seq<nat>, h: nat, top: nat)
    requires Ranked(net, rank) && Below(rank, init, top) && h < |rank| && rank[h] < top && Below(rank, Kept(net, init, 1.0), top)
    requires Product(Values(net, rank, w, Kept(net, init, 1.0), top)) == Product(Values(net, rank, w, init, top))
    ensures Below(rank, init + [h], top) && Below(rank, Kept(net, init + [h], 1.0), top)
    ensures Product(Values(net, rank, w, Kept(net, init + [h], 1.0), top)) == Product(Values(net, rank, w, init + [h], top))
  {
    hide Value;
    hide Values;
    hide Product;
    hide Kept;
    hide Mul;
    var kept, x := Kept(net, init, 1.0), Value(net, rank, w, h);
    KeptAppend(net, init, h, 1.0);
    ValuesAppend(net, rank, w, init, h, top);
    ValuesAppend(net, rank, w, kept, h, top);
    SumOne(Values(net, rank, w, init, top), x);
    SumOne(Values(net, rank, w, kept, top), x);
    ConstantGate(net, rank, w, h);
    MulOne(Product(Values(net, rank, w, init, top)));
    MulComm(Product(Values(net, rank, w, init, top)), 1.0);
  }

  lemma {:induction false} KeptProduct(net: Net, rank: seq<nat>, w: Draw, ws: seq<nat>, top: nat)
    requires Ranked(net, rank) && Below(rank, ws, top)
    ensures Below(rank, Kept(net, ws, 1.0), top)
    ensures Product(Values(net, rank, w, Kept(net, ws, 1.0), top)) == Product(Values(net, rank, w, ws, top))
    decreases |ws|
  {
    hide Values;
    hide Product;
    hide Kept;
    if ws == [] {
      KeptNothing(net, 1.0);
    } else {
      var init, h := ws[..|ws| - 1], ws[|ws| - 1];
      KeptProduct(net, rank, w, init, top);
      KeptProductStep(net, rank, w, init, h, top);
      assert ws == init + [h];
    }
  }

  lemma KeptNothing(net: Net, target: real)
    ensures Kept(net, [], target) == []
  {
  }

  lemma {:induction false} KeptDepth(net: Net, rank: seq<nat>, ws: seq<nat>, top: nat, target: real)
    requires Ranked(net, rank) && Below(rank, ws, top)
    ensures Below(rank, Kept(net, ws, target), top)
    ensures DepthSum(net, rank, Kept(net, ws, target), top) <= DepthSum(net, rank, ws, top)
    decreases |ws|
  {
    hide Depth;
    hide DepthSum;
    hide Kept;
    KeptBelow(net, rank, ws, top, target);
    if ws == [] {
      KeptNothing(net, target);
    } else {
      var init, h := ws[..|ws| - 1], ws[|ws| - 1];
      KeptDepth(net, rank, init, top, target);
      assert ws == init + [h];
      KeptAppend(net, init, h, target);
      DepthAppend(net, rank, init, h, top);
      DepthAppend(net, rank, Kept(net, init, target), h, top);
    }
  }

  /** A zero among the factors. */
  lemma {:induction false} ZeroFactor(xs: seq<real>, i: nat)
    requires i < |xs| && xs[i] == 0.0
    ensures Product(xs) == 0.0
  {
    if i < |xs| - 1 { ZeroFactor(xs[..|xs| - 1], i); }
  }

  lemma AbsorbZero(lib: Library, net: Net, rank: seq<nat>, g: nat, i: nat)
    requires Ranked(net, rank) && g < |net.kind| && net.kind[g] == ArithGate(TIMES) && i < |net.wires[g]|
    requires net.wires[g][i] < |net.kind| && IsValueEqualTo(net, net.wires[g][i], 0.0)
    ensures Keeps(lib, net, rank, WithGate(net, g, ValueGate(Some(0.0)), []), rank)
  {
    forall w: Draw | w.lib == lib ensures Value(net, rank, w, g) == 0.0 {
      ArithValue(net, rank, w, g);
      ConstantGate(net, rank, w, net.wires[g][i]);
      ZeroFactor(Values(net, rank, w, net.wires[g], rank[g]), i);
    }
    KnownConstant(lib, net, rank, g, 0.0);
  }

  function Neutral(op: Op): real {
    if op == PLUS then 0.0 else 1.0
  }

  /** Sums without their zeros, products without their ones. */
  lemma DropNeutral(lib: Library, net: Net, rank: seq<nat>, g: nat)
    requires Ranked(net, rank) && g < |net.kind| && net.kind[g] in {ArithGate(PLUS), ArithGate(TIMES)} && net.wires[g] != []
    ensures Below(rank, net.wires[g], rank[g])
    ensures var op, kept := net.kind[g].op, Kept(net, net.wires[g], Neutral(net.kind[g].op));
            && (kept != [] ==> Keeps(lib, net, rank, WithGate(net, g, ArithGate(op), kept), rank))
            && (kept == [] ==> Keeps(lib, net, rank, WithGate(net, g, ValueGate(Some(Neutral(op))), []), rank))
  {
    var ws, op := net.wires[g], net.kind[g].op;
    assert Below(rank, ws, rank[g]);
    var kept := Kept(net, ws, Neutral(op));
    WithinBelow(rank, ws, kept, rank[g]);
    forall w: Draw | w.lib == lib
      ensures if kept == [] then Value(net, rank, w, g) == Neutral(op) else Agrees(net, rank, w, g, ArithGate(op), kept)
    {
      ArithValue(net, rank, w, g);
      if op == PLUS { KeptSum(net, rank, w, ws, rank[g]); } else { KeptProduct(net, rank, w, ws, rank[g]); }
      DroppedAgrees(net, rank, w, g, kept);
    }
    if kept == [] {
      KnownConstant(lib, net, rank, g, Neutral(op));
    } else {
      DroppedDepth(net, rank, g);
      RewriteGate(lib, net, rank, g, ArithGate(op), kept);
    }
  }

  lemma DroppedAgrees(net: Net, rank: seq<nat>, w: Draw, g: nat, kept: seq<nat>)
    requires Ranked(net, rank) && g < |net.kind| && net.kind[g] in {ArithGate(PLUS), ArithGate(TIMES)} && net.wires[g] != []
    requires Below(rank, net.wires[g], rank[g]) && Below(rank, kept, rank[g])
    requires if net.kind[g].op == PLUS
             then Sum(Values(net, rank, w, kept, rank[g])) == Sum(Values(net, rank, w, net.wires[g], rank[g]))
             else Product(Values(net, rank, w, kept, rank[g])) == Product(Values(net, rank, w, net.wires[g], rank[g]))
    ensures if kept == [] then Value(net, rank, w, g) == Neutral(net.kind[g].op) else Agrees(net, rank, w, g, net.kind[g], kept)
  {
    ArithValue(net, rank, w, g);
  }

  lemma DroppedDepth(net: Net, rank: seq<nat>, g: nat)
    requires Ranked(net, rank) && g < |net.kind| && net.kind[g].ArithGate?
    requires Below(rank, net.wires[g], rank[g])
    ensures var kept := Kept(net, net.wires[g], Neutral(net.kind[g].op));
            Below(rank, kept, rank[g]) && LocalDepth(net, rank, net.kind[g], kept, rank[g]) <= Depth(net, rank, g)
  {
    KeptDepth(net, rank, net.wires[g], rank[g], Neutral(net.kind[g].op));
  }

  // ----- Differences and quotients -----

  lemma TwoValues(net: Net, rank: seq<nat>, w: Draw, a: nat, b: nat, top: nat)
    requires Ranked(net, rank) && Below(rank, [a, b], top)
    ensures a < |net.kind| && b < |net.kind|
    ensures Values(net, rank, w, [a, b], top) == [Value(net, rank, w, a), Value(net, rank, w, b)]
    ensures DepthSum(net, rank, [a, b], top) == Depth(net, rank, a) + Depth(net, rank, b)
  {
    assert [a, b][0] == a && [a, b][1] == b;
    OneValue(net, rank, w, [a, b], top);
    FewDepths(net, rank, [a, b], top);
  }

  lemma NegatedGate(net: Net, rank: seq<nat>, b: nat, top: nat, w: Draw)
    requires Ranked(net, rank) && top < |net.kind| && rank[top] > 0 && Below(rank, [b], rank[top])
    ensures var net', rank', n := Appended(net, ArithGate(NEG), [b]), Room(rank, top), |net.kind|;
            && b < n && Ranked(net', rank')
            && Value(net', rank', w, n) == -Value(net, rank, w, b) && Depth(net', rank', n) == Depth(net, rank, b)
  {
    assert [b][0] == b;
    NewGate(net, rank, ArithGate(NEG), [b], top, w);
    NewDepth(w.lib, net, rank, ArithGate(NEG), [b], top);
    OneValue(net, rank, w, [b], rank[top]);
    FewDepths(net, rank, [b], rank[top]);
    FewTerms(w.lib, Value(net, rank, w, b), 0.0);
  }

  /** a - b as the sum of a and the negation of b. */
  lemma MinusAsPlus(lib: Library, net: Net, rank: seq<nat>, g: nat, a: nat, b: nat)
    requires Ranked(net, rank) && g < |net.kind| && net.kind[g] == ArithGate(MINUS) && net.wires[g] == [a, b]
    ensures Below(rank, [a, b], rank[g]) && Below(rank, [b], rank[g]) && rank[g] > 0
    ensures var n := |net.kind|;
            Keeps(lib, net, rank, WithGate(Appended(net, ArithGate(NEG), [b]), g, ArithGate(PLUS), [a, n]), Room(rank, g))
  {
    assert Below(rank, [a, b], rank[g]);
    assert [a, b][0] == a && [a, b][1] == b;
    var net', rank', n := Appended(net, ArithGate(NEG), [b]), Room(rank, g), |net.kind|;
    AppendKeeps(lib, net, rank, ArithGate(NEG), [b], g);
    assert Below(rank', [a, n], rank'[g]);
    forall w: Draw | w.lib == lib
      ensures Agrees(net', rank', w, g, ArithGate(PLUS), [a, n])
      ensures LocalDepth(net', rank', ArithGate(PLUS), [a, n], rank'[g]) <= Depth(net', rank', g)
    {
      MinusAt(lib, net, rank, w, g, a, b);
    }
    var w := Draw(lib, g => 0, (g, xs) => 0.0);
    assert LocalDepth(net', rank', ArithGate(PLUS), [a, n], rank'[g]) <= Depth(net', rank', g);
    RewriteGate(lib, net', rank', g, ArithGate(PLUS), [a, n]);
    KeepsTrans(lib, net, rank, net', rank', WithGate(net', g, ArithGate(PLUS), [a, n]), rank');
  }

  lemma MinusAt(lib: Library, net: Net, rank: seq<nat>, w: Draw, g: nat, a: nat, b: nat)
    requires Ranked(net, rank) && g < |net.kind| && net.kind[g] == ArithGate(MINUS) && net.wires[g] == [a, b] && w.lib == lib
    requires Below(rank, [a, b], rank[g]) && Below(rank, [b], rank[g]) && rank[g] > 0
    requires var net', rank', n := Appended(net, ArithGate(NEG), [b]), Room(rank, g), |net.kind|;
             Keeps(lib, net, rank, net', rank') && Below(rank', [a, n], rank'[g])
             && forall h: nat :: h < |net.kind| ==> Depth(net', rank', h) == Depth(net, rank, h)
    ensures var net', rank', n := Appended(net, ArithGate(NEG), [b]), Room(rank, g), |net.kind|;
            Agrees(net', rank', w, g, ArithGate(PLUS), [a, n])
            && LocalDepth(net', rank', ArithGate(PLUS), [a, n], rank'[g]) <= Depth(net', rank', g)
  {
    var net', rank', n := Appended(net, ArithGate(NEG), [b]), Room(rank, g), |net.kind|;
    NegatedGate(net, rank, b, g, w);
    TwoValues(net, rank, w, a, b, rank[g]);
    TwoValues(net', rank', w, a, n, rank'[g]);
    ArithValue(net, rank, w, g);
    FewTerms(lib, Value(net, rank, w, a), -Value(net, rank, w, b));
    assert Value(net', rank', w, a) == Value(net, rank, w, a) && Value(net', rank', w, g) == Value(net, rank, w, g);
  }

  lemma ConstantAdded(lib: Library, net: Net, rank: seq<nat>, c: real, top: nat, w: Draw)
    requires Ranked(net, rank) && top < |net.kind| && rank[top] > 0
    ensures var net', rank', n := Appended(net, ValueGate(Some(c)), []), Room(rank, top), |net.kind|;
            Ranked(net', rank') && Value(net', rank', w, n) == c && Depth(net', rank', n) == 0
  {
    NewGate(net, rank, ValueGate(Some(c)), [], top, w);
    NewDepth(lib, net, rank, ValueGate(Some(c)), [], top);
  }

  lemma Reciprocal(x: real, c: real)
    requires c != 0.0
    ensures Mul(x, 1.0 / c) == x / c
  {
  }

  /** a / b, for a constant b other than zero, as the product of a and a constant. */
  lemma DivAsTimes(lib: Library, net: Net, rank: seq<nat>, g: nat, a: nat, b: nat, c: real)
    requires Ranked(net, rank) && g < |net.kind| && net.kind[g] == ArithGate(DIV) && net.wires[g] == [a, b]
    requires b < |net.kind| && TryEvalConstant(net, rank, lib, b) == Some(c) && c != 0.0
    ensures Below(rank, [a, b], rank[g]) && rank[g] > 0
    ensures var n := |net.kind|;
            Keeps(lib, net, rank, WithGate(Appended(net, ValueGate(Some(1.0 / c)), []), g, ArithGate(TIMES), [a, n]), Room(rank, g))
  {
    assert Below(rank, [a, b], rank[g]);
    assert [a, b][0] == a && [a, b][1] == b;
    var net', rank', n := Appended(net, ValueGate(Some(1.0 / c)), []), Room(rank, g), |net.kind|;
    AppendKeeps(lib, net, rank, ValueGate(Some(1.0 / c)), [], g);
    assert Below(rank', [a, n], rank'[g]);
    forall w: Draw | w.lib == lib
      ensures Agrees(net', rank', w, g, ArithGate(TIMES), [a, n])
      ensures LocalDepth(net', rank', ArithGate(TIMES), [a, n], rank'[g]) <= Depth(net', rank', g)
    {
      DivAt(lib, net, rank, w, g, a, b, c);
    }
    var w := Draw(lib, g => 0, (g, xs) => 0.0);
    assert LocalDepth(net', rank', ArithGate(TIMES), [a, n], rank'[g]) <= Depth(net', rank', g);
    RewriteGate(lib, net', rank', g, ArithGate(TIMES), [a, n]);
    KeepsTrans(lib, net, rank, net', rank', WithGate(net', g, ArithGate(TIMES), [a, n]), rank');
  }

  lemma DivAt(lib: Library, net: Net, rank: seq<nat>, w: Draw, g: nat, a: nat, b: nat, c: real)
    requires Ranked(net, rank) && g < |net.kind| && net.kind[g] == ArithGate(DIV) && net.wires[g] == [a, b] && w.lib == lib
    requires Below(rank, [a, b], rank[g]) && rank[g] > 0
    requires b < |net.kind| && TryEvalConstant(net, rank, lib, b) == Some(c) && c != 0.0
    requires var net', rank', n := Appended(net, ValueGate(Some(1.0 / c)), []), Room(rank, g), |net.kind|;
             Keeps(lib, net, rank, net', rank') && Below(rank', [a, n], rank'[g])
             && forall h: nat :: h < |net.kind| ==> Depth(net', rank', h) == Depth(net, rank, h)
    ensures var net', rank', n := Appended(net, ValueGate(Some(1.0 / c)), []), Room(rank, g), |net.kind|;
            Agrees(net', rank', w, g, ArithGate(TIMES), [a, n])
            && LocalDepth(net', rank', ArithGate(TIMES), [a, n], rank'[g]) <= Depth(net', rank', g)
  {
    var net', rank', n := Appended(net, ValueGate(Some(1.0 / c)), []), Room(rank, g), |net.kind|;
    ConstantAdded(lib, net, rank, 1.0 / c, g, w);
    ConstantIsValue(net, rank, w, b);
    TwoValues(net, rank, w, a, b, rank[g]);
    TwoValues(net', rank', w, a, n, rank'[g]);
    ArithValue(net, rank, w, g);
    FewTerms(lib, Value(net, rank, w, a), 1.0 / c);
    Reciprocal(Value(net, rank, w, a), c);
    assert Value(net', rank', w, a) == Value(net, rank, w, a) && Value(net', rank', w, g) == Value(net, rank, w, g);
  }

  // ----- Mixtures -----

  function Total(op: Op, xs: seq<real>): real {
    if op == PLUS then Sum(xs) else Product(xs)
  }

  predicate IsTotal(op: Op) {
    op == PLUS || op == TIMES
  }

  function Join(op: Op, x: real, y: real): real {
    if op == PLUS then x + y else Mul(x, y)
  }

  lemma TotalOne(op: Op, xs: seq<real>, x: real)
    ensures Total(op, xs + [x]) == Join(op, Total(op, xs), x)
  {
    SumOne(xs, x);
  }

  lemma JoinSwap(op: Op, t: real, x: real, y: real)
    ensures Join(op, Join(op, t, x), y) == Join(op, Join(op, t, y), x)
  {
    MulMove(t, x, y);
    MulMove(t, y, x);
    MulComm(x, y);
  }

  /** Sums and products do not depend on where a term stands. */
  lemma {:induction false} TotalMove(op: Op, xs: seq<real>, j: nat)
    requires j < |xs|
    ensures Total(op, xs) == Join(op, Total(op, Without(xs, j)), xs[j])
  {
    hide Total;
    hide Join;
    var n := |xs| - 1;
    var init, last := xs[..n], xs[n];
    assert xs == init + [last];
    TotalOne(op, init, last);
    if j < n {
      TotalMove(op, init, j);
      assert Without(xs, j) == Without(init, j) + [last];
      TotalOne(op, Without(init, j), last);
      JoinSwap(op, Total(op, Without(init, j)), last, xs[j]);
    } else {
      assert Without(xs, j) == init;
    }
  }

  lemma ValuesWithout(net: Net, rank: seq<nat>, w: Draw, ws: seq<nat>, j: nat, top: nat)
    requires Ranked(net, rank) && Below(rank, ws, top) && j < |ws|
    ensures Below(rank, Without(ws, j), top) && Values(net, rank, w, Without(ws, j), top) == Without(Values(net, rank, w, ws, top), j)
  {
    hide Value;
    assert Below(rank, Without(ws, j), top);
    var us, vs := Values(net, rank, w, Without(ws, j), top), Without(Values(net, rank, w, ws, top), j);
    assert |us| == |vs|;
    forall i | 0 <= i < |us| ensures us[i] == vs[i] {}
  }

  lemma {:induction false} DepthWithout(net: Net, rank: seq<nat>, ws: seq<nat>, j: nat, top: nat)
    requires Ranked(net, rank) && Below(rank, ws, top) && j < |ws|
    ensures Below(rank, Without(ws, j), top) && DepthSum(net, rank, ws, top) == DepthSum(net, rank, Without(ws, j), top) + Depth(net, rank, ws[j])
    decreases |ws|
  {
    hide Depth;
    assert Below(rank, Without(ws, j), top);
    var n := |ws| - 1;
    assert ws == ws[..n] + [ws[n]];
    if j < n {
      DepthWithout(net, rank, ws[..n], j, top);
      assert Without(ws, j) == Without(ws[..n], j) + [ws[n]];
      DepthAppend(net, rank, Without(ws[..n], j), ws[n], top);
      DepthAppend(net, rank, ws[..n], ws[n], top);
    } else {
      assert Without(ws, j) == ws[..n];
    }
  }

  lemma TotalApply(lib: Library, op: Op, xs: seq<real>)
    requires IsTotal(op) && xs != []
    ensures Apply(lib, op, xs) == Some(Total(op, xs))
  {
  }

  /** A sum or product is the total of its values. */
  lemma TotalValue(net: Net, rank: seq<nat>, w: Draw, g: nat)
    requires Ranked(net, rank) && g < |net.kind| && net.kind[g].ArithGate? && IsTotal(net.kind[g].op) && net.wires[g] != []
    ensures Below(rank, net.wires[g], rank[g])
    ensures Value(net, rank, w, g) == Total(net.kind[g].op, Values(net, rank, w, net.wires[g], rank[g]))
  {
    ArithValue(net, rank, w, g);
    TotalApply(w.lib, net.kind[g].op, Values(net, rank, w, net.wires[g], rank[g]));
  }

  /** A Bernoulli mixture: a selector and two arms. */
  predicate IsMixture(net: Net, m: nat)
    requires m < |net.kind| == |net.wires| && forall i :: 0 <= i < |net.wires[m]| ==> net.wires[m][i] < |net.kind|
  {
    net.kind[m] == MixtureGate && |net.wires[m]| == 3 && !IsCategorical(net.kind, net.wires[m])
  }

  lemma MixtureFacts(net: Net, rank: seq<nat>, m: nat)
    requires Ranked(net, rank) && m < |net.kind|
    ensures Below(rank, net.wires[m], rank[m])
    ensures IsMixture(net, m) ==>
              var x, y := Depth(net, rank, net.wires[m][1]), Depth(net, rank, net.wires[m][2]);
              Depth(net, rank, m) == 1 + if x < y then y else x
    ensures IsMixture(net, m) ==> forall w ::
              Value(net, rank, w, m) == Value(net, rank, w, if Value(net, rank, w, net.wires[m][0]) != 0.0 then net.wires[m][1] else net.wires[m][2])
  {
    assert Below(rank, net.wires[m], rank[m]);
  }

  /** One arm: the other wires with the arm in place of the mixture. */
  ghost predicate ArmOf(net: Net, rank: seq<nat>, lib: Library, g: nat, j: nat, x: nat, n: nat)
    requires Ranked(net, rank) && g < |net.kind| && n < |net.kind| && x < |net.kind|
    requires net.kind[g].ArithGate? && j < |net.wires[g]| && net.wires[g][j] < |net.kind|
  {
    && (forall w: Draw :: w.lib == lib && Value(net, rank, w, net.wires[g][j]) == Value(net, rank, w, x) ==>
          Value(net, rank, w, n) == Value(net, rank, w, g))
    && Depth(net, rank, n) + Depth(net, rank, net.wires[g][j]) == Depth(net, rank, g) + Depth(net, rank, x)
  }

  lemma NewArm(lib: Library, net: Net, rank: seq<nat>, g: nat, j: nat, x: nat)
    requires Ranked(net, rank) && g < |net.kind| && net.kind[g].ArithGate? && IsTotal(net.kind[g].op)
    requires j < |net.wires[g]| && x < |net.kind| && rank[x] < rank[g]
    ensures Below(rank, net.wires[g], rank[g]) && Below(rank, Without(net.wires[g], j) + [x], rank[g]) && rank[g] > 0
    ensures var net', rank' := Appended(net, net.kind[g], Without(net.wires[g], j) + [x]), Room(rank, g);
            && Keeps(lib, net, rank, net', rank') && ArmOf(net', rank', lib, g, j, x, |net.kind|)
            && forall h: nat :: h < |net.kind| ==> Depth(net', rank', h) == Depth(net, rank, h)
  {
    var ws, op, n := net.wires[g], net.kind[g].op, |net.kind|;
    assert Below(rank, ws, rank[g]);
    DepthWithout(net, rank, ws, j, rank[g]);
    var others := Without(ws, j);
    DepthAppend(net, rank, others, x, rank[g]);
    var net', rank' := Appended(net, net.kind[g], others + [x]), Room(rank, g);
    AppendKeeps(lib, net, rank, net.kind[g], others + [x], g);
    NewDepth(lib, net, rank, net.kind[g], others + [x], g);
    assert net'.wires[g] == ws && net'.kind[g] == net.kind[g];
    forall w: Draw | w.lib == lib && Value(net', rank', w, ws[j]) == Value(net', rank', w, x)
      ensures Value(net', rank', w, n) == Value(net', rank', w, g)
    {
      ArmAt(net, rank, w, g, j, x);
      NewGate(net, rank, net.kind[g], others + [x], g, w);
    }
  }

  lemma ArmAt(net: Net, rank: seq<nat>, w: Draw, g: nat, j: nat, x: nat)
    requires Ranked(net, rank) && g < |net.kind| && net.kind[g].ArithGate? && IsTotal(net.kind[g].op)
    requires j < |net.wires[g]| && x < |net.kind| && rank[x] < rank[g] && net.wires[g][j] < |net.kind|
    requires Below(rank, Without(net.wires[g], j) + [x], rank[g])
    requires Value(net, rank, w, net.wires[g][j]) == Value(net, rank, w, x)
    ensures var us := Without(net.wires[g], j) + [x];
            Local(net.kind, w, |net.kind|, net.kind[g], us, Values(net, rank, w, us, rank[g])) == Value(net, rank, w, g)
  {
    var ws, op := net.wires[g], net.kind[g].op;
    var others := Without(ws, j);
    TotalValue(net, rank, w, g);
    ValuesWithout(net, rank, w, ws, j, rank[g]);
    ValuesAppend(net, rank, w, others, x, rank[g]);
    var vals := Values(net, rank, w, ws, rank[g]);
    TotalMove(op, vals, j);
    TotalOne(op, Without(vals, j), vals[j]);
    TotalApply(w.lib, op, Without(vals, j) + [vals[j]]);
  }

  lemma ThreeValues(net: Net, rank: seq<nat>, w: Draw, ws: seq<nat>, top: nat)
    requires Ranked(net, rank) && |ws| == 3 && Below(rank, ws, top)
    ensures Values(net, rank, w, ws, top) == [Value(net, rank, w, ws[0]), Value(net, rank, w, ws[1]), Value(net, rank, w, ws[2])]
  {
  }

  lemma RoomKeeps(rank: seq<nat>, top: nat, a: nat, b: nat)
    requires top < |rank| && rank[top] > 0 && a < |rank| && b < |rank|
    ensures rank[a] < rank[b] <==> Room(rank, top)[a] < Room(rank, top)[b]
    ensures Room(rank, top)[|rank|] < Room(rank, top)[top] && |Room(rank, top)| == |rank| + 1 && Room(rank, top)[top] > 0
  {
  }

  /** The net with both arms of a mixture lifted out of the sum or product g. */
  function WithArms(net: Net, g: nat, j: nat, x: nat, y: nat): Net
    requires g < |net.kind| == |net.wires| && j < |net.wires[g]|
  {
    Appended(Appended(net, net.kind[g], Without(net.wires[g], j) + [x]), net.kind[g], Without(net.wires[g], j) + [y])
  }

  lemma BothArms(lib: Library, net: Net, rank: seq<nat>, g: nat, j: nat, x: nat, y: nat)
    requires Ranked(net, rank) && g < |net.kind| && net.kind[g].ArithGate? && IsTotal(net.kind[g].op) && j < |net.wires[g]|
    requires x < |net.kind| && y < |net.kind| && rank[x] < rank[g] && rank[y] < rank[g] && net.wires[g][j] < |net.kind|
    ensures rank[g] > 0 && |Room(rank, g)| > |rank| && Room(rank, g)[g] > 0
    ensures var net', rank', n := WithArms(net, g, j, x, y), Room(Room(rank, g), g), |net.kind|;
            && Keeps(lib, net, rank, net', rank') && ArmOf(net', rank', lib, g, j, x, n) && ArmOf(net', rank', lib, g, j, y, n + 1)
            && (forall h: nat :: h < |net.kind| ==> Depth(net', rank', h) == Depth(net, rank, h))
  {
    hide Value;
    hide Depth;
    hide ArmOf;
    hide Below;
    var n, others := |net.kind|, Without(net.wires[g], j);
    NewArm(lib, net, rank, g, j, x);
    RoomKeeps(rank, g, x, g);
    RoomKeeps(rank, g, y, g);
    var net1, rank1 := Appended(net, net.kind[g], others + [x]), Room(rank, g);
    assert net1.wires[g] == net.wires[g] && net1.kind[g] == net.kind[g];
    NewArm(lib, net1, rank1, g, j, y);
    var net2, rank2 := WithArms(net, g, j, x, y), Room(rank1, g);
    assert net2.wires[g] == net.wires[g] && net2.kind[g] == net.kind[g];
    KeepsTrans(lib, net, rank, net1, rank1, net2, rank2);
    ArmStays(lib, net1, rank1, net2, rank2, g, j, x, n);
  }

  lemma ArmStays(lib: Library, net: Net, rank: seq<nat>, net': Net, rank': seq<nat>, g: nat, j: nat, x: nat, n: nat)
    requires Keeps(lib, net, rank, net', rank') && g < |net.kind| && n < |net.kind| && x < |net.kind|
    requires net.kind[g].ArithGate? && j < |net.wires[g]| && net.wires[g][j] < |net.kind|
    requires net'.kind[g] == net.kind[g] && net'.wires[g] == net.wires[g] && ArmOf(net, rank, lib, g, j, x, n)
    requires forall h: nat :: h < |net.kind| ==> Depth(net', rank', h) == Depth(net, rank, h)
    ensures ArmOf(net', rank', lib, g, j, x, n)
  {
    var m := net.wires[g][j];
    forall w: Draw | w.lib == lib && Value(net', rank', w, m) == Value(net', rank', w, x)
      ensures Value(net', rank', w, n) == Value(net', rank', w, g)
    {
      assert Value(net', rank', w, m) == Value(net, rank, w, m);
    }
  }

  /** A sum or product over a mixture as the mixture of the sums or products over its arms. */
  lemma LiftMixture(lib: Library, net: Net, rank: seq<nat>, g: nat, j: nat)
    requires Ranked(net, rank) && g < |net.kind| && net.kind[g].ArithGate? && IsTotal(net.kind[g].op) && j < |net.wires[g]|
    requires net.wires[g][j] < |net.kind| && Below(rank, net.wires[net.wires[g][j]], rank[net.wires[g][j]]) && IsMixture(net, net.wires[g][j])
    ensures rank[g] > 0 && |Room(rank, g)| > |rank| && Room(rank, g)[g] > 0
    ensures var mw, n := net.wires[net.wires[g][j]], |net.kind|;
            var net', rank' := WithGate(WithArms(net, g, j, mw[1], mw[2]), g, MixtureGate, [mw[0], n, n + 1]), Room(Room(rank, g), g);
            Keeps(lib, net, rank, net', rank') && Depth(net', rank', n) < Depth(net, rank, g) && Depth(net', rank', n + 1) < Depth(net, rank, g)
  {
    hide Value;
    hide Depth;
    hide ArmOf;
    hide Agrees;
    var m := net.wires[g][j];
    var mw, n := net.wires[m], |net.kind|;
    assert Below(rank, net.wires[g], rank[g]);
    BothArms(lib, net, rank, g, j, mw[1], mw[2]);
    var net2, rank2 := WithArms(net, g, j, mw[1], mw[2]), Room(Room(rank, g), g);
    var ws := [mw[0], n, n + 1];
    LiftedBelow(rank, g, mw[0]);
    assert net2.kind[n] == net.kind[g] && net2.kind[n + 1] == net.kind[g] && net2.wires[m] == mw && net2.kind[m] == MixtureGate;
    assert net2.kind[g] == net.kind[g] && net2.wires[g] == net.wires[g];
    StillMixture(net, net2, m);
    MixtureFacts(net2, rank2, m);
    forall w: Draw | w.lib == lib ensures Agrees(net2, rank2, w, g, MixtureGate, ws) { LiftAt(net2, rank2, lib, w, g, j, n); }
    LiftDepth(net2, rank2, lib, g, j, n);
    RewriteGate(lib, net2, rank2, g, MixtureGate, ws);
    KeepsTrans(lib, net, rank, net2, rank2, WithGate(net2, g, MixtureGate, ws), rank2);
    assert Depth(net2, rank2, g) == Depth(net, rank, g);
  }

  lemma StillMixture(net: Net, net': Net, m: nat)
    requires m < |net.kind| == |net.wires| && (forall i :: 0 <= i < |net.wires[m]| ==> net.wires[m][i] < |net.kind|) && IsMixture(net, m)
    requires net.kind <= net'.kind && m < |net'.wires| == |net'.kind| && net'.wires[m] == net.wires[m]
    ensures IsMixture(net', m)
  {
    var ws := net.wires[m];
    assert forall i :: 0 <= i < |ws| ==> net'.kind[ws[i]] == net.kind[ws[i]];
  }

  lemma LiftedBelow(rank: seq<nat>, g: nat, p: nat)
    requires g < |rank| && p < |rank| && rank[p] < rank[g]
    ensures |Room(rank, g)| == |rank| + 1 && Room(rank, g)[g] > 0
    ensures Below(Room(Room(rank, g), g), [p, |rank|, |rank| + 1], Room(Room(rank, g), g)[g])
  {
  }

  lemma LiftAt(net: Net, rank: seq<nat>, lib: Library, w: Draw, g: nat, j: nat, n: nat)
    requires Ranked(net, rank) && g < |net.kind| && n + 1 < |net.kind| && net.kind[g].ArithGate? && j < |net.wires[g]| && w.lib == lib
    requires net.wires[g][j] < |net.kind| && Below(rank, net.wires[net.wires[g][j]], rank[net.wires[g][j]]) && IsMixture(net, net.wires[g][j])
    requires net.kind[n].ArithGate? && var mw := net.wires[net.wires[g][j]];
               ArmOf(net, rank, lib, g, j, mw[1], n) && ArmOf(net, rank, lib, g, j, mw[2], n + 1) && Below(rank, [mw[0], n, n + 1], rank[g])
    ensures var mw := net.wires[net.wires[g][j]]; Agrees(net, rank, w, g, MixtureGate, [mw[0], n, n + 1])
  {
    var m := net.wires[g][j];
    var mw := net.wires[m];
    MixtureFacts(net, rank, m);
    var ws := [mw[0], n, n + 1];
    assert ws[0] == mw[0] && ws[1] == n && ws[2] == n + 1;
    ThreeValues(net, rank, w, ws, rank[g]);
    assert !IsCategorical(net.kind, ws) by { assert !IsMulIn(net.kind[ws[1]]); }
    hide Value;
    hide Values;
    hide Depth;
  }

  lemma LiftDepth(net: Net, rank: seq<nat>, lib: Library, g: nat, j: nat, n: nat)
    requires Ranked(net, rank) && g < |net.kind| && n + 1 < |net.kind| && net.kind[g].ArithGate? && j < |net.wires[g]|
    requires net.wires[g][j] < |net.kind| && Below(rank, net.wires[net.wires[g][j]], rank[net.wires[g][j]]) && IsMixture(net, net.wires[g][j])
    requires var mw := net.wires[net.wires[g][j]];
             ArmOf(net, rank, lib, g, j, mw[1], n) && ArmOf(net, rank, lib, g, j, mw[2], n + 1) && Below(rank, [mw[0], n, n + 1], rank[g])
    ensures var mw := net.wires[net.wires[g][j]];
            LocalDepth(net, rank, MixtureGate, [mw[0], n, n + 1], rank[g]) <= Depth(net, rank, g)
    ensures Depth(net, rank, n) < Depth(net, rank, g) && Depth(net, rank, n + 1) < Depth(net, rank, g)
  {
    var m := net.wires[g][j];
    var mw := net.wires[m];
    MixtureFacts(net, rank, m);
    var ws := [mw[0], n, n + 1];
    assert ws[0] == mw[0] && ws[1] == n && ws[2] == n + 1;
    hide Value;
    hide Depth;
    hide IsCategorical;
  }
}