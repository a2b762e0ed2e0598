/** What can be read off a scalar circuit without changing it: constants, and gates that are
    a multiple of one random variable plus an offset.  */
module LinearTerms {
  import opened Outcomes
  import opened Reals
  import opened PostOrder
  import opened ScalarNet

  // ----- Constants -----

  /** The number that g always is, if that can be computed. */
  function TryEvalConstant(net: Net, ghost rank: seq<nat>, lib: Library, g: nat): Option<real>
    requires Ranked(net, rank) && g < |net.kind|
    decreases rank[g], 1, 0
  {
    match net.kind[g]
    case ValueGate(text) => text
    case ArithGate(op) =>
      (match Constants(net, rank, lib, net.wires[g], rank[g])
       case Some(xs) => Apply(lib, op, xs)
       case None => None)
    case _ => None
  }

  function Constants(net: Net, ghost rank: seq<nat>, lib: Library, ws: seq<nat>, ghost top: nat): (r: Option<seq<real>>)
    requires Ranked(net, rank) && Below(rank, ws, top)
    ensures r.Some? ==> |r.value| == |ws|
    decreases top, 0, |ws|
  {
    if ws == [] then Some([])
    else
      match Constants(net, rank, lib, ws[..|ws| - 1], top)
      case None => None
      case Some(xs) =>
        match TryEvalConstant(net, rank, lib, ws[|ws| - 1])
        case None => None
        case Some(x) => Some(xs + [x])
  }

  lemma {:induction false} ConstantIsValue(net: Net, rank: seq<nat>, w: Draw, g: nat)
    requires Ranked(net, rank) && g < |net.kind|
    ensures TryEvalConstant(net, rank, w.lib, g).Some? ==> Value(net, rank, w, g) == TryEvalConstant(net, rank, w.lib, g).value
    decreases rank[g], 1, 0
  {
    if net.kind[g].ArithGate? { ConstantsAreValues(net, rank, w, net.wires[g], rank[g]); }
  }

  lemma {:induction false} ConstantsAreValues(net: Net, rank: seq<nat>, w: Draw, ws: seq<nat>, top: nat)
    requires Ranked(net, rank) && Below(rank, ws, top)
    ensures Constants(net, rank, w.lib, ws, top).Some? ==> Constants(net, rank, w.lib, ws, top).value == Values(net, rank, w, ws, top)
    decreases top, 0, |ws|
  {
    if ws != [] {
      ConstantsAreValues(net, rank, w, ws[..|ws| - 1], top);
      ConstantIsValue(net, rank, w, ws[|ws| - 1]);
    }
  }

  // ----- Linear terms -----

  /** a * base + b, or the constant b. */
  datatype Term = Term(base: Option<nat>, a: real, b: real)

  function Negated(t: Term): Term {
    Term(t.base, -t.a, -t.b)
  }

  function Scaled(c: real, t: Term): Term {
    Term(t.base, c * t.a, c * t.b)
  }

  predicate IsValue(net: Net, g: nat)
    requires g < |net.kind|
  {
    net.kind[g].ValueGate?
  }

  /** Reads g as a multiple of one random variable, or mixture, plus an offset. */
  function DecomposeLinearTerm(net: Net, ghost rank: seq<nat>, g: nat): Option<Term>
    requires Ranked(net, rank) && g < |net.kind|
    decreases rank[g]
  {
    var ws := net.wires[g];
    assert Below(rank, ws, rank[g]);
    match net.kind[g]
    case ValueGate(Some(v)) => Some(Term(None, 0.0, v))
    case RvGate | MixtureGate => Some(Term(Some(g), 1.0, 0.0))
    case ArithGate(op) =>
      if (op == PLUS || op == TIMES) && |ws| == 1 then DecomposeLinearTerm(net, rank, ws[0])
      else if op == NEG && |ws| == 1 then
        (match DecomposeLinearTerm(net, rank, ws[0])
         case Some(t) => Some(Negated(t))
         case None => None)
      else if op == TIMES && |ws| == 2 then
        if IsValue(net, ws[0]) then Times(net.kind[ws[0]], DecomposeLinearTerm(net, rank, ws[1]))
        else if IsValue(net, ws[1]) then Times(net.kind[ws[1]], DecomposeLinearTerm(net, rank, ws[0]))
        else None
      else None
    case _ => None
  }

  function Times(k: Kind, t: Option<Term>): Option<Term> {
    match (k, t)
    case (ValueGate(Some(c)), Some(t)) => Some(Scaled(c, t))
    case _ => None
  }

  /** The value of gate z, from those of all gates. */
  function At(v: seq<real>, z: nat): real {
    if z < |v| then v[z] else 0.0
  }

  function TermValue(t: Term, v: seq<real>): real {
    match t.base
    case Some(z) => Mul(t.a, At(v, z)) + t.b
    case None => t.b
  }

  /** The values of all gates in a draw. */
  ghost function ValueAt(net: Net, rank: seq<nat>, w: Draw): seq<real>
    requires Ranked(net, rank)
  {
    seq(|net.kind|, (g: nat) requires g < |net.kind| => Value(net, rank, w, g))
  }

  ghost predicate IsBase(net: Net, rank: seq<nat>, z: nat, g: nat)
    requires Ranked(net, rank) && g < |net.kind|
  {
    z < |net.kind| && net.kind[z] in {RvGate, MixtureGate} && rank[z] <= rank[g] && Depth(net, rank, z) <= Depth(net, rank, g)
  }

  lemma NegatedValue(t: Term, v: seq<real>)
    ensures TermValue(Negated(t), v) == -TermValue(t, v)
  {
  }

  lemma ScaledValue(c: real, t: Term, v: seq<real>)
    ensures TermValue(Scaled(c, t), v) == Mul(c, TermValue(t, v))
  {
    if t.base.Some? { assert c * (t.a * At(v, t.base.value)) == (c * t.a) * At(v, t.base.value); }
  }

  lemma OneValue(net: Net, rank: seq<nat>, w: Draw, ws: seq<nat>, top: nat)
    requires Ranked(net, rank) && Below(rank, ws, top)
    ensures |ws| == 1 ==> Values(net, rank, w, ws, top) == [Value(net, rank, w, ws[0])]
    ensures |ws| == 2 ==> Values(net, rank, w, ws, top) == [Value(net, rank, w, ws[0]), Value(net, rank, w, ws[1])]
  {
  }

  lemma FewTerms(lib: Library, x: real, y: real)
    ensures Apply(lib, PLUS, [x]) == Some(x) && Apply(lib, TIMES, [x]) == Some(x) && Apply(lib, NEG, [x]) == Some(-x)
    ensures Apply(lib, PLUS, [x, y]) == Some(x + y) && Apply(lib, TIMES, [x, y]) == Some(Mul(x, y))
  {
    assert [x, y][..1] == [x] && [x][..0] == [];
    assert Sum([x]) == Sum([x][..0]) + x == x;
    assert Sum([x, y]) == Sum([x]) + y;
    assert Product([x]) == 1.0 * x == x;
    assert Product([x, y]) == Product([x]) * y == Mul(x, y);
    assert Apply(lib, PLUS, [x]).value == x && Apply(lib, PLUS, [x, y]).value == x + y;
    assert Apply(lib, TIMES, [x]).value == x && Apply(lib, TIMES, [x, y]).value == Mul(x, y);
  }

  lemma FewDepths(net: Net, rank: seq<nat>, ws: seq<nat>, top: nat)
    requires Ranked(net, rank) && Below(rank, ws, top)
    ensures |ws| == 1 ==> DepthSum(net, rank, ws, top) == Depth(net, rank, ws[0])
    ensures |ws| == 2 ==> DepthSum(net, rank, ws, top) == Depth(net, rank, ws[0]) + Depth(net, rank, ws[1])
  {
    if |ws| == 2 { assert ws[..1][..0] == [] && ws[..1][0] == ws[0]; }
  }

  lemma ArithValue(net: Net, rank: seq<nat>, w: Draw, g: nat)
    requires Ranked(net, rank) && g < |net.kind| && net.kind[g].ArithGate?
    ensures Below(rank, net.wires[g], rank[g])
    ensures var r := Apply(w.lib, net.kind[g].op, Values(net, rank, w, net.wires[g], rank[g]));
            r.Some? ==> Value(net, rank, w, g) == r.value
  {
    assert Below(rank, net.wires[g], rank[g]);
  }

  /** Small sums, products and negations. */
  lemma SmallGate(net: Net, rank: seq<nat>, w: Draw, g: nat)
    requires Ranked(net, rank) && g < |net.kind| && net.kind[g].ArithGate? && 1 <= |net.wires[g]| <= 2
    ensures Below(rank, net.wires[g], rank[g])
    ensures var ws, op := net.wires[g], net.kind[g].op;
            && (|ws| == 1 && op in {PLUS, TIMES} ==> Value(net, rank, w, g) == Value(net, rank, w, ws[0]))
            && (|ws| == 1 && op == NEG ==> Value(net, rank, w, g) == -Value(net, rank, w, ws[0]))
            && (|ws| == 2 && op == TIMES ==> Value(net, rank, w, g) == Mul(Value(net, rank, w, ws[0]), Value(net, rank, w, ws[1])))
  {
    var ws := net.wires[g];
    ArithValue(net, rank, w, g);
    OneValue(net, rank, w, ws, rank[g]);
    hide Value;
    hide Values;
    FewTerms(w.lib, Value(net, rank, w, ws[0]), Value(net, rank, w, ws[|ws| - 1]));
    hide Apply;
    hide Mul;
  }

  lemma ConstantGate(net: Net, rank: seq<nat>, w: Draw, g: nat)
    requires Ranked(net, rank) && g < |net.kind|
    ensures net.kind[g].ValueGate? && net.kind[g].text.Some? ==> Value(net, rank, w, g) == net.kind[g].text.value
  {
  }

  /** The shapes of a linear term. */
  lemma TermShape(net: Net, rank: seq<nat>, g: nat) returns (i: nat)
    requires Ranked(net, rank) && g < |net.kind| && net.kind[g].ArithGate? && DecomposeLinearTerm(net, rank, g).Some?
    ensures var ws, op, t := net.wires[g], net.kind[g].op, DecomposeLinearTerm(net, rank, g).value;
            && Below(rank, ws, rank[g]) && i < |ws| <= 2 && DecomposeLinearTerm(net, rank, ws[i]).Some?
            && var inner := DecomposeLinearTerm(net, rank, ws[i]).value;
               || (|ws| == 1 && op in {PLUS, TIMES} && t == inner)
               || (|ws| == 1 && op == NEG && t == Negated(inner))
               || (|ws| == 2 && op == TIMES && i < 2 && net.kind[ws[1 - i]].ValueGate? && net.kind[ws[1 - i]].text.Some?
                   && t == Scaled(net.kind[ws[1 - i]].text.value, inner))
  {
    var ws := net.wires[g];
    assert Below(rank, ws, rank[g]);
    i := if |ws| == 2 && IsValue(net, ws[0]) then 1 else 0;
  }

  /** A linear term is the gate's value, in every draw. */
  lemma {:induction false} TermIsValue(net: Net, rank: seq<nat>, w: Draw, g: nat)
    requires Ranked(net, rank) && g < |net.kind|
    ensures DecomposeLinearTerm(net, rank, g).Some? ==>
              Value(net, rank, w, g) == TermValue(DecomposeLinearTerm(net, rank, g).value, ValueAt(net, rank, w))
    decreases rank[g]
  {
    if DecomposeLinearTerm(net, rank, g).Some? {
      if net.kind[g].ArithGate? {
        ArithTerm(net, rank, w, g);
      } else {
        LeafTerm(net, rank, w, g);
      }
    }
  }

  lemma {:induction false} ArithTerm(net: Net, rank: seq<nat>, w: Draw, g: nat)
    requires Ranked(net, rank) && g < |net.kind| && net.kind[g].ArithGate? && DecomposeLinearTerm(net, rank, g).Some?
    ensures Value(net, rank, w, g) == TermValue(DecomposeLinearTerm(net, rank, g).value, ValueAt(net, rank, w))
    decreases rank[g], 0
  {
    hide Value;
    hide TermValue;
    hide DecomposeLinearTerm;
    hide Mul;
    hide Negated;
    hide Scaled;
    var ws := net.wires[g];
    var i := TermShape(net, rank, g);
    TermIsValue(net, rank, w, ws[i]);
    SmallGate(net, rank, w, g);
    if |ws| == 2 { ConstantGate(net, rank, w, ws[1 - i]); }
    var t, v := DecomposeLinearTerm(net, rank, ws[i]).value, ValueAt(net, rank, w);
    NegatedValue(t, v);
    if |ws| == 2 {
      ScaledValue(net.kind[ws[1 - i]].text.value, t, v);
      MulComm(Value(net, rank, w, ws[0]), Value(net, rank, w, ws[1]));
    }
  }

  lemma LeafTerm(net: Net, rank: seq<nat>, w: Draw, g: nat)
    requires Ranked(net, rank) && g < |net.kind|
    ensures TermValue(Term(Some(g), 1.0, 0.0), ValueAt(net, rank, w)) == Value(net, rank, w, g)
    ensures forall b :: TermValue(Term(None, 0.0, b), ValueAt(net, rank, w)) == b
  {
  }

  lemma {:induction false} TermHasBase(net: Net, rank: seq<nat>, g: nat)
    requires Ranked(net, rank) && g < |net.kind| && DecomposeLinearTerm(net, rank, g).Some?
    ensures DecomposeLinearTerm(net, rank, g).value.base.Some? ==> IsBase(net, rank, DecomposeLinearTerm(net, rank, g).value.base.value, g)
    decreases rank[g]
  {
    var ws := net.wires[g];
    assert Below(rank, ws, rank[g]);
    if net.kind[g].ArithGate? {
      FewDepths(net, rank, ws, rank[g]);
      var i := if |ws| == 2 && IsValue(net, ws[0]) then 1 else 0;
      TermHasBase(net, rank, ws[i]);
    }
  }

  // ----- Aggregates -----

  /** Some gate below g, or g itself, is an aggregate. */
  function SubtreeContainsAgg(net: Net, ghost rank: seq<nat>, g: nat): bool
    requires Ranked(net, rank) && g < |net.kind|
    decreases rank[g]
  {
    assert Below(rank, net.wires[g], rank[g]);
    net.kind[g] == AggGate || exists i :: 0 <= i < |net.wires[g]| && SubtreeContainsAgg(net, rank, net.wires[g][i])
  }
}
