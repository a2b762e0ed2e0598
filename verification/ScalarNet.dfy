/** Scalar circuits: constants, random variables, arithmetic, and mixtures.  In a draw every
    gate has a value; gates rewritten one at a time to agree with their old values over the
    old values of their new children leave all values as they were.  */
module ScalarNet {
  import opened Outcomes
  import opened PostOrder

  datatype Op = PLUS | TIMES | MINUS | DIV | NEG | MAX | MIN | POW | LN | EXP | PERCENTILE

  /** A constant holds its parsed text, a multivalued input its label, outcome and probability. */
  datatype Kind =
    | ValueGate(text: Option<real>)
    | RvGate
    | ArithGate(op: Op)
    | MixtureGate
    | MulInGate(text: Option<real>, index: nat, prob: real)
    | InputGate
    | AggGate
    | OtherGate

  datatype Net = Net(kind: seq<Kind>, wires: seq<seq<nat>>)

  /** Powers, logarithms, exponentials and divisions by zero, where they are numbers. */
  type Library = (Op, seq<real>) -> Option<real>

  /** What is drawn: the outcome of each key, and what every other gate makes of its children. */
  datatype Draw = Draw(lib: Library, outcome: nat -> nat, other: (nat, seq<real>) -> real)

  ghost predicate Ranked(net: Net, rank: seq<nat>) {
    && |net.wires| == |rank| == |net.kind|
    && forall g :: 0 <= g < |net.kind| ==> Below(rank, net.wires[g], rank[g])
  }

  // ----- Arithmetic -----

  function Sum(xs: seq<real>): real {
    if xs == [] then 0.0 else Sum(xs[..|xs| - 1]) + xs[|xs| - 1]
  }

  function Product(xs: seq<real>): real {
    if xs == [] then 1.0 else Product(xs[..|xs| - 1]) * xs[|xs| - 1]
  }

  function Greatest(xs: seq<real>): real
    requires xs != []
  {
    if |xs| == 1 then xs[0]
    else var r := Greatest(xs[..|xs| - 1]); if r < xs[|xs| - 1] then xs[|xs| - 1] else r
  }

  function Least(xs: seq<real>): real
    requires xs != []
  {
    if |xs| == 1 then xs[0]
    else var r := Least(xs[..|xs| - 1]); if xs[|xs| - 1] < r then xs[|xs| - 1] else r
  }

  /** The value of an arithmetic gate, where its operator and arity give one. */
  function Apply(lib: Library, op: Op, xs: seq<real>): Option<real> {
    if xs == [] then None
    else match op
      case PLUS => Some(Sum(xs))
      case TIMES => Some(Product(xs))
      case MINUS => if |xs| == 2 then Some(xs[0] - xs[1]) else None
      case DIV => if |xs| != 2 then None else if xs[1] == 0.0 then lib(DIV, xs) else Some(xs[0] / xs[1])
      case NEG => if |xs| == 1 then Some(-xs[0]) else None
      case MAX => Some(Greatest(xs))
      case MIN => Some(Least(xs))
      case POW => if |xs| == 2 then lib(POW, xs) else None
      case LN => if |xs| == 1 then lib(LN, xs) else None
      case EXP => if |xs| == 1 then lib(EXP, xs) else None
      case PERCENTILE => None
  }

  lemma {:induction false} GreatestBounds(xs: seq<real>)
    requires xs != []
    ensures Greatest(xs) in xs && forall x :: x in xs ==> x <= Greatest(xs)
  {
    var init, last := xs[..|xs| - 1], xs[|xs| - 1];
    assert xs == init + [last];
    if |xs| > 1 { GreatestBounds(init); }
  }

  lemma {:induction false} LeastBounds(xs: seq<real>)
    requires xs != []
    ensures Least(xs) in xs && forall x :: x in xs ==> Least(xs) <= x
  {
    var init, last := xs[..|xs| - 1], xs[|xs| - 1];
    assert xs == init + [last];
    if |xs| > 1 { LeastBounds(init); }
  }

  /** The greatest and the least are operands that bound all the others. */
  lemma ApplyExtremes(lib: Library, xs: seq<real>)
    requires xs != []
    ensures var r := Apply(lib, MAX, xs); r.Some? && r.value in xs && forall x :: x in xs ==> x <= r.value
    ensures var r := Apply(lib, MIN, xs); r.Some? && r.value in xs && forall x :: x in xs ==> r.value <= x
  {
    GreatestBounds(xs);
    LeastBounds(xs);
  }

  /** A difference added to the subtrahend is the minuend, a quotient times a divisor other
      than zero the dividend, and a number plus its negation zero. */
  lemma ApplyUndone(lib: Library, x: real, y: real)
    ensures var d := Apply(lib, MINUS, [x, y]); d.Some? && Apply(lib, PLUS, [d.value, y]) == Some(x)
    ensures y != 0.0 ==> var q := Apply(lib, DIV, [x, y]); q.Some? && Apply(lib, TIMES, [q.value, y]) == Some(x)
    ensures var n := Apply(lib, NEG, [x]); n.Some? && Apply(lib, PLUS, [x, n.value]) == Some(0.0)
  {
    hide Sum;
    hide Product;
    PairTotals(x - y, y);
    PairTotals(x, -x);
    if y != 0.0 {
      var q := x / y;
      assert q * y == x;
      assert [x, y][0] == x && [x, y][1] == y;
      assert Apply(lib, DIV, [x, y]) == Some(q);
      PairTotals(q, y);
    }
  }

  lemma PairTotals(x: real, y: real)
    ensures Sum([x, y]) == x + y && Product([x, y]) == x * y
  {
    assert [x, y][..1] == [x] && [x][..0] == [];
    assert Sum([x]) == Sum([]) + x && Product([x]) == Product([]) * x;
  }

  // ----- Values -----

  predicate IsMulIn(k: Kind) {
    k.MulInGate?
  }

  /** A key and its alternatives. */
  predicate IsCategorical(kinds: seq<Kind>, ws: seq<nat>)
    requires forall i :: 0 <= i < |ws| ==> ws[i] < |kinds|
  {
    |ws| >= 2 && kinds[ws[0]] == InputGate && forall i :: 1 <= i < |ws| ==> IsMulIn(kinds[ws[i]])
  }

  /** The first of the alternatives 1, ..., k - 1 that the outcome selects, or the last one. */
  ghost function Selected(kinds: seq<Kind>, ws: seq<nat>, outcome: nat, i: nat): (j: nat)
    requires 0 < i < |ws| && forall k :: 0 <= k < |ws| ==> ws[k] < |kinds|
    ensures 0 < j < |ws|
    decreases |ws| - i
  {
    if i == |ws| - 1 || Takes(kinds[ws[i]], outcome) then i else Selected(kinds, ws, outcome, i + 1)
  }

  predicate Takes(k: Kind, outcome: nat) {
    k.MulInGate? && k.index == outcome
  }

  /** The label of the selected alternative. */
  ghost function CategoricalValue(kinds: seq<Kind>, ws: seq<nat>, outcome: nat, vals: seq<real>): real
    requires |vals| == |ws| && (forall k :: 0 <= k < |ws| ==> ws[k] < |kinds|) && IsCategorical(kinds, ws)
  {
    var j := Selected(kinds, ws, outcome, 1);
    match kinds[ws[j]]
    case MulInGate(Some(v), _, _) => v
    case _ => vals[j]
  }

  ghost function Local(kinds: seq<Kind>, w: Draw, g: nat, k: Kind, ws: seq<nat>, vals: seq<real>): real
    requires |vals| == |ws| && forall i :: 0 <= i < |ws| ==> ws[i] < |kinds|
  {
    match k
    case ValueGate(Some(x)) => x
    case ArithGate(op) =>
      (match Apply(w.lib, op, vals)
       case Some(x) => x
       case None => w.other(g, vals))
    case MixtureGate =>
      if IsCategorical(kinds, ws) then CategoricalValue(kinds, ws, w.outcome(ws[0]), vals)
      else if |ws| == 3 then if vals[0] != 0.0 then vals[1] else vals[2]
      else w.other(g, vals)
    case _ => w.other(g, vals)
  }

  /** The value of gate g in a draw; a Boolean gate's is zero where it is false. */
  ghost function Value(net: Net, rank: seq<nat>, w: Draw, g: nat): real
    requires Ranked(net, rank) && g < |net.kind|
    decreases rank[g], 1, 0
  {
    Local(net.kind, w, g, net.kind[g], net.wires[g], Values(net, rank, w, net.wires[g], rank[g]))
  }

  ghost function Values(net: Net, rank: seq<nat>, w: Draw, ws: seq<nat>, top: nat): (vals: seq<real>)
    requires Ranked(net, rank) && Below(rank, ws, top)
    ensures |vals| == |ws|
    ensures forall i :: 0 <= i < |ws| ==> ws[i] < |net.kind| && vals[i] == Value(net, rank, w, ws[i])
    decreases top, 0, |ws|
  {
    if ws == [] then []
    else Values(net, rank, w, ws[..|ws| - 1], top) + [Value(net, rank, w, ws[|ws| - 1])]
  }

  // ----- How deep mixtures are nested -----

  ghost function Depth(net: Net, rank: seq<nat>, g: nat): nat
    requires Ranked(net, rank) && g < |net.kind|
    decreases rank[g], 1, 0
  {
    var ws := net.wires[g];
    match net.kind[g]
    case ArithGate(_) => DepthSum(net, rank, ws, rank[g])
    case MixtureGate =>
      if |ws| == 3 && !IsCategorical(net.kind, ws)
      then var x, y := Depth(net, rank, ws[1]), Depth(net, rank, ws[2]); 1 + if x < y then y else x
      else 0
    case _ => 0
  }

  ghost function DepthSum(net: Net, rank: seq<nat>, ws: seq<nat>, top: nat): nat
    requires Ranked(net, rank) && Below(rank, ws, top)
    decreases top, 0, |ws|
  {
    if ws == [] then 0
    else DepthSum(net, rank, ws[..|ws| - 1], top) + Depth(net, rank, ws[|ws| - 1])
  }

  lemma {:induction false} DepthSumAtMost(a: Net, ra: seq<nat>, b: Net, rb: seq<nat>, ws: seq<nat>, ta: nat, tb: nat)
    requires Ranked(a, ra) && Ranked(b, rb) && Below(ra, ws, ta) && Below(rb, ws, tb)
    requires forall i :: 0 <= i < |ws| ==> Depth(b, rb, ws[i]) <= Depth(a, ra, ws[i])
    ensures DepthSum(b, rb, ws, tb) <= DepthSum(a, ra, ws, ta)
    decreases |ws|
  {
    if ws != [] { DepthSumAtMost(a, ra, b, rb, ws[..|ws| - 1], ta, tb); }
  }

  // ----- Rewriting keeps values -----

  /** The gates of a have the values they had, in every draw, and are nested no deeper. */
  ghost predicate Keeps(lib: Library, a: Net, ra: seq<nat>, b: Net, rb: seq<nat>) {
    && Ranked(a, ra) && Ranked(b, rb) && |a.kind| <= |b.kind|
    && (forall g: nat, w: Draw :: g < |a.kind| && w.lib == lib ==> Value(b, rb, w, g) == Value(a, ra, w, g))
    && (forall g: nat :: g < |a.kind| ==> Depth(b, rb, g) <= Depth(a, ra, g))
  }

  lemma KeepsTrans(lib: Library, a: Net, ra: seq<nat>, b: Net, rb: seq<nat>, c: Net, rc: seq<nat>)
    requires Keeps(lib, a, ra, b, rb) && Keeps(lib, b, rb, c, rc)
    ensures Keeps(lib, a, ra, c, rc)
  {
    forall g: nat, w: Draw | g < |a.kind| && w.lib == lib ensures Value(c, rc, w, g) == Value(a, ra, w, g) {
      assert Value(b, rb, w, g) == Value(a, ra, w, g);
    }
  }

  lemma ValuesSame(a: Net, ra: seq<nat>, b: Net, rb: seq<nat>, w: Draw, ws: seq<nat>, ta: nat, tb: nat)
    requires Ranked(a, ra) && Ranked(b, rb) && Below(ra, ws, ta) && Below(rb, ws, tb)
    requires forall i :: 0 <= i < |ws| ==> Value(b, rb, w, ws[i]) == Value(a, ra, w, ws[i])
    ensures Values(b, rb, w, ws, tb) == Values(a, ra, w, ws, ta)
  {
  }

  /** Mixtures look only at which of their wires are keys and alternatives. */
  ghost predicate SameLeaves(a: seq<Kind>, b: seq<Kind>) {
    |a| <= |b| && forall g :: 0 <= g < |a| ==> a[g] == b[g] || (a[g].ArithGate? && !IsMulIn(b[g]) && b[g] != InputGate)
  }

  lemma LocalSame(a: seq<Kind>, b: seq<Kind>, w: Draw, g: nat, k: Kind, ws: seq<nat>, vals: seq<real>)
    requires SameLeaves(a, b) && |vals| == |ws| && forall i :: 0 <= i < |ws| ==> ws[i] < |a|
    ensures Local(a, w, g, k, ws, vals) == Local(b, w, g, k, ws, vals)
    ensures IsCategorical(a, ws) == IsCategorical(b, ws)
  {
    if IsCategorical(a, ws) { SelectedSame(a, b, ws, w.outcome(ws[0]), 1); }
  }

  lemma {:induction false} SelectedSame(a: seq<Kind>, b: seq<Kind>, ws: seq<nat>, outcome: nat, i: nat)
    requires SameLeaves(a, b) && 0 < i < |ws| && (forall k :: 0 <= k < |ws| ==> ws[k] < |a|) && IsCategorical(a, ws)
    ensures IsCategorical(b, ws) && Selected(a, ws, outcome, i) == Selected(b, ws, outcome, i)
    decreases |ws| - i
  {
    if i < |ws| - 1 { SelectedSame(a, b, ws, outcome, i + 1); }
  }

  /** b is a with more gates, which no gate of a uses. */
  ghost predicate Extends(a: Net, b: Net) {
    && |a.kind| == |a.wires| && |b.kind| == |b.wires| && a.kind <= b.kind && a.wires <= b.wires
  }

  lemma {:induction false} ExtensionKeeps(a: Net, ra: seq<nat>, b: Net, rb: seq<nat>, w: Draw, g: nat)
    requires Ranked(a, ra) && Ranked(b, rb) && Extends(a, b) && g < |a.kind|
    ensures Value(b, rb, w, g) == Value(a, ra, w, g)
    decreases ra[g]
  {
    var ws := a.wires[g];
    assert b.wires[g] == ws && b.kind[g] == a.kind[g] && Below(ra, ws, ra[g]) && Below(rb, ws, rb[g]);
    forall i | 0 <= i < |ws| ensures Value(b, rb, w, ws[i]) == Value(a, ra, w, ws[i]) { ExtensionKeeps(a, ra, b, rb, w, ws[i]); }
    ValuesSame(a, ra, b, rb, w, ws, ra[g], rb[g]);
    LocalSame(a.kind, b.kind, w, g, a.kind[g], ws, Values(a, ra, w, ws, ra[g]));
    hide Local;
  }

  lemma {:induction false} ExtensionDepth(a: Net, ra: seq<nat>, b: Net, rb: seq<nat>, g: nat)
    requires Ranked(a, ra) && Ranked(b, rb) && Extends(a, b) && g < |a.kind|
    ensures Depth(b, rb, g) == Depth(a, ra, g)
    decreases ra[g]
  {
    var ws := a.wires[g];
    assert b.wires[g] == ws && b.kind[g] == a.kind[g] && Below(ra, ws, ra[g]) && Below(rb, ws, rb[g]);
    forall i | 0 <= i < |ws| ensures Depth(b, rb, ws[i]) == Depth(a, ra, ws[i]) { ExtensionDepth(a, ra, b, rb, ws[i]); }
    DepthSumAtMost(a, ra, b, rb, ws, ra[g], rb[g]);
    DepthSumAtMost(b, rb, a, ra, ws, rb[g], ra[g]);
  }

  function WithGate(net: Net, g: nat, k: Kind, ws: seq<nat>): Net
    requires g < |net.kind| == |net.wires|
  {
    Net(net.kind[g := k], net.wires[g := ws])
  }

  /** The new form of gate g has its old value over the old values of its new children. */
  ghost predicate Agrees(net: Net, rank: seq<nat>, w: Draw, g: nat, k: Kind, ws: seq<nat>)
    requires Ranked(net, rank) && g < |net.kind| && Below(rank, ws, rank[g])
  {
    Local(net.kind, w, g, k, ws, Values(net, rank, w, ws, rank[g])) == Value(net, rank, w, g)
  }

  lemma {:induction false} RewriteKeeps(net: Net, rank: seq<nat>, w: Draw, g: nat, k: Kind, ws: seq<nat>, h: nat)
    requires Ranked(net, rank) && g < |net.kind| && net.kind[g].ArithGate? && !IsMulIn(k) && k != InputGate
    requires Below(rank, ws, rank[g]) && Agrees(net, rank, w, g, k, ws) && h < |net.kind|
    ensures Ranked(WithGate(net, g, k, ws), rank) && Value(WithGate(net, g, k, ws), rank, w, h) == Value(net, rank, w, h)
    decreases rank[h]
  {
    var net' := WithGate(net, g, k, ws);
    StillRanked(net, rank, g, k, ws);
    var us := net'.wires[h];
    assert Below(rank, us, rank[h]);
    forall i | 0 <= i < |us| ensures Value(net', rank, w, us[i]) == Value(net, rank, w, us[i]) {
      RewriteKeeps(net, rank, w, g, k, ws, us[i]);
    }
    ValuesSame(net, rank, net', rank, w, us, rank[h], rank[h]);
    LocalSame(net.kind, net'.kind, w, h, net'.kind[h], us, Values(net, rank, w, us, rank[h]));
  }

  lemma StillRanked(net: Net, rank: seq<nat>, g: nat, k: Kind, ws: seq<nat>)
    requires Ranked(net, rank) && g < |net.kind| && Below(rank, ws, rank[g])
    ensures Ranked(WithGate(net, g, k, ws), rank)
  {
    var net' := WithGate(net, g, k, ws);
    forall h | 0 <= h < |net.kind| ensures Below(rank, net'.wires[h], rank[h]) {
      if h != g { assert net'.wires[h] == net.wires[h]; }
    }
  }

  /** What the depth of g becomes, over the old depths of its new children. */
  ghost function LocalDepth(net: Net, rank: seq<nat>, k: Kind, ws: seq<nat>, top: nat): nat
    requires Ranked(net, rank) && Below(rank, ws, top)
  {
    match k
    case ArithGate(_) => DepthSum(net, rank, ws, top)
    case MixtureGate =>
      if |ws| == 3 && !IsCategorical(net.kind, ws)
      then var x, y := Depth(net, rank, ws[1]), Depth(net, rank, ws[2]); 1 + if x < y then y else x
      else 0
    case _ => 0
  }

  lemma {:induction false} RewriteDepth(net: Net, rank: seq<nat>, g: nat, k: Kind, ws: seq<nat>, h: nat)
    requires Ranked(net, rank) && g < |net.kind| && net.kind[g].ArithGate? && !IsMulIn(k) && k != InputGate
    requires Below(rank, ws, rank[g]) && LocalDepth(net, rank, k, ws, rank[g]) <= Depth(net, rank, g) && h < |net.kind|
    ensures Ranked(WithGate(net, g, k, ws), rank) && Depth(WithGate(net, g, k, ws), rank, h) <= Depth(net, rank, h)
    decreases rank[h]
  {
    var net' := WithGate(net, g, k, ws);
    StillRanked(net, rank, g, k, ws);
    var us := net'.wires[h];
    assert Below(rank, us, rank[h]);
    forall i | 0 <= i < |us| ensures Depth(net', rank, us[i]) <= Depth(net, rank, us[i]) {
      RewriteDepth(net, rank, g, k, ws, us[i]);
    }
    DepthSumAtMost(net, rank, net', rank, us, rank[h], rank[h]);
    assert IsCategorical(net.kind, us) == IsCategorical(net'.kind, us);
  }

  /** Rewriting one arithmetic gate. */
  lemma RewriteGate(lib: Library, net: Net, rank: seq<nat>, g: nat, k: Kind, ws: seq<nat>)
    requires Ranked(net, rank) && g < |net.kind| && net.kind[g].ArithGate? && !IsMulIn(k) && k != InputGate
    requires Below(rank, ws, rank[g]) && LocalDepth(net, rank, k, ws, rank[g]) <= Depth(net, rank, g)
    requires forall w: Draw :: w.lib == lib ==> Agrees(net, rank, w, g, k, ws)
    ensures Keeps(lib, net, rank, WithGate(net, g, k, ws), rank)
  {
    var net' := WithGate(net, g, k, ws);
    StillRanked(net, rank, g, k, ws);
    forall h: nat, w: Draw | h < |net.kind| && w.lib == lib ensures Value(net', rank, w, h) == Value(net, rank, w, h) {
      RewriteKeeps(net, rank, w, g, k, ws, h);
    }
    forall h: nat | h < |net.kind| ensures Depth(net', rank, h) <= Depth(net, rank, h) {
      RewriteDepth(net, rank, g, k, ws, h);
    }
  }

  // ----- New gates -----

  function Appended(net: Net, k: Kind, ws: seq<nat>): Net {
    Net(net.kind + [k], net.wires + [ws])
  }

  /** Ranks with room for a new gate just below top. */
  ghost function Room(rank: seq<nat>, top: nat): seq<nat>
    requires top < |rank| && rank[top] > 0
  {
    seq(|rank|, (h: nat) requires h < |rank| => 2 * rank[h]) + [2 * rank[top] - 1]
  }

  lemma AppendKeeps(lib: Library, net: Net, rank: seq<nat>, k: Kind, ws: seq<nat>, top: nat)
    requires Ranked(net, rank) && top < |net.kind| && rank[top] > 0 && Below(rank, ws, rank[top])
    ensures Keeps(lib, net, rank, Appended(net, k, ws), Room(rank, top))
    ensures forall g: nat :: g < |net.kind| ==> Depth(Appended(net, k, ws), Room(rank, top), g) == Depth(net, rank, g)
  {
    var net', rank' := Appended(net, k, ws), Room(rank, top);
    forall g | 0 <= g < |net'.kind| ensures Below(rank', net'.wires[g], rank'[g]) {
      var us := net'.wires[g];
      if g < |net.kind| {
        assert us == net.wires[g] && Below(rank, us, rank[g]);
      } else {
        assert us == ws;
      }
    }
    forall g: nat, w: Draw | g < |net.kind| && w.lib == lib ensures Value(net', rank', w, g) == Value(net, rank, w, g) {
      ExtensionKeeps(net, rank, net', rank', w, g);
    }
    forall g: nat | g < |net.kind| ensures Depth(net', rank', g) == Depth(net, rank, g) { ExtensionDepth(net, rank, net', rank', g); }
  }

  /** What a new gate is worth. */
  lemma NewGate(net: Net, rank: seq<nat>, k: Kind, ws: seq<nat>, top: nat, w: Draw)
    requires Ranked(net, rank) && top < |net.kind| && rank[top] > 0 && Below(rank, ws, rank[top])
    ensures var net', rank' := Appended(net, k, ws), Room(rank, top);
            Ranked(net', rank')
            && Value(net', rank', w, |net.kind|) == Local(net.kind, w, |net.kind|, k, ws, Values(net, rank, w, ws, rank[top]))
  {
    var net', rank', n := Appended(net, k, ws), Room(rank, top), |net.kind|;
    AppendKeeps(w.lib, net, rank, k, ws, top);
    assert net'.wires[n] == ws && net'.kind[n] == k && Below(rank', ws, rank'[n]);
    ValuesSame(net, rank, net', rank', w, ws, rank[top], rank'[n]);
    LocalSame(net.kind, net'.kind, w, n, k, ws, Values(net, rank, w, ws, rank[top]));
    hide Local;
  }

  lemma NewDepth(lib: Library, net: Net, rank: seq<nat>, k: Kind, ws: seq<nat>, top: nat)
    requires Ranked(net, rank) && top < |net.kind| && rank[top] > 0 && Below(rank, ws, rank[top])
    ensures var net', rank' := Appended(net, k, ws), Room(rank, top);
            Ranked(net', rank') && Depth(net', rank', |net.kind|) == LocalDepth(net, rank, k, ws, rank[top])
  {
    var net', rank', n := Appended(net, k, ws), Room(rank, top), |net.kind|;
    AppendKeeps(lib, net, rank, k, ws, top);
    assert net'.wires[n] == ws && net'.kind[n] == k && Below(rank', ws, rank'[n]);
    hide Keeps;
    DepthSumAtMost(net, rank, net', rank', ws, rank[top], rank'[n]);
    DepthSumAtMost(net', rank', net, rank, ws, rank'[n], rank[top]);
    assert IsCategorical(net'.kind, ws) == IsCategorical(net.kind, ws);
  }
}
