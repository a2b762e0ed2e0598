/** The single steps of folding a circuit, with the assumption marks that the rules set and
    the redirections of collapsed gates, and what any number of steps can reach. */
module FoldSteps {
  import opened SemiringAlgebra
  import opened PostOrder
  import opened ProvenanceNet
  import opened FoldMeasure
  import opened FoldRules

  type Uuid = string

  /** A circuit being folded: its gates, names and marks, and where collapsed gates went. */
  datatype FoldState = FoldState(net: Net, names: map<Uuid, nat>, boolean: set<nat>, absorptive: set<nat>, redirect: map<nat, nat>)

  /** No wire leads to a gate of subst. */
  ghost predicate Avoids(net: Net, subst: map<nat, nat>) {
    forall g, w :: 0 <= g < |net.wires| && w in net.wires[g] ==> w !in subst
  }

  ghost predicate Good(rank: seq<nat>, st: FoldState) {
    Ranked(st.net, rank) && Descends(rank, st.redirect) && Avoids(st.net, st.redirect)
  }

  // ----- Chains of redirections -----

  /** Where m leads from x in the end. */
  ghost function End(rank: seq<nat>, m: map<nat, nat>, x: nat): nat
    decreases if x < |rank| then rank[x] else 0
  {
    if x in m && x < |rank| && m[x] < |rank| && rank[m[x]] < rank[x] then End(rank, m, m[x]) else x
  }

  lemma {:induction false} EndLeaves(rank: seq<nat>, m: map<nat, nat>, x: nat)
    requires Descends(rank, m)
    ensures End(rank, m, x) !in m
    ensures x < |rank| ==> End(rank, m, x) < |rank| && rank[End(rank, m, x)] <= rank[x]
    decreases if x < |rank| then rank[x] else 0
  {
    if x in m { EndLeaves(rank, m, m[x]); }
  }

  /** Shortening a chain does not change where chains end. */
  lemma {:induction false} EndShortened(rank: seq<nat>, m: map<nat, nat>, g: nat, x: nat)
    requires Descends(rank, m) && g in m
    ensures Descends(rank, m[g := End(rank, m, g)]) && End(rank, m[g := End(rank, m, g)], x) == End(rank, m, x)
    decreases if x < |rank| then rank[x] else 0
  {
    EndLeaves(rank, m, m[g]);
    EndLeaves(rank, m, g);
    if x in m && x != g { EndShortened(rank, m, g, m[x]); }
  }

  /** Redirections followed by others, which lead out of both. */
  lemma {:induction false} EndThen(rank: seq<nat>, a: map<nat, nat>, b: map<nat, nat>, x: nat)
    requires Descends(rank, a) && Descends(rank, b) && a.Keys !! b.Keys
    requires forall g :: g in b ==> b[g] !in a && b[g] !in b
    ensures Descends(rank, a + b)
    ensures var t := End(rank, a, x); End(rank, a + b, x) == if t in b then b[t] else t
    decreases if x < |rank| then rank[x] else 0
  {
    if x in a { EndThen(rank, a, b, a[x]); }
  }

  // ----- Steps -----

  /** A sum or product loses its identity wires. */
  ghost predicate UnitsAt(a: Net, b: Net, g: nat, marks: seq<bool>) {
    && g < |a.kind| == |a.wires| && Combines(a.kind[g]) && |marks| == |a.wires[g]|
    && (forall i :: 0 <= i < |marks| ==> a.wires[g][i] < |a.kind| && marks[i] == (a.kind[a.wires[g][i]] != IdentityOf(a.kind[g])))
    && b == WithGate(a, g, a.kind[g], Chosen(a.wires[g], marks, true))
  }

  /** An empty sum or product becomes its constant. */
  ghost predicate EmptyAt(a: Net, b: Net, g: nat) {
    && g < |a.kind| == |a.wires| && Combines(a.kind[g]) && a.wires[g] == []
    && b == WithGate(a, g, IdentityOf(a.kind[g]), [])
  }

  /** A sum or product loses repeated wires, or wires that a sibling dominates. */
  ghost predicate DropsAt(a: Net, b: Net, g: nat, marks: seq<bool>) {
    && g < |a.kind| == |a.wires| && Combines(a.kind[g]) && b == (if |marks| == |a.wires[g]| then WithGate(a, g, a.kind[g], Chosen(a.wires[g], marks, true)) else a)
    && (OnlyRepeats(a.wires[g], marks) || (|a.wires[g]| >= 2 && OnlyDominated(a, g, marks)))
  }

  /** A sum with a one in it becomes one. */
  ghost predicate OneAt(a: Net, b: Net, g: nat) {
    && g < |a.kind| == |a.wires| && a.kind[g] == PlusGate && HasOneWire(a, g)
    && b == WithGate(a, g, OneGate, [])
  }

  ghost predicate HasOneWire(a: Net, g: nat)
    requires g < |a.wires|
  {
    exists k :: 0 <= k < |a.wires[g]| && a.wires[g][k] < |a.kind| && a.kind[a.wires[g][k]] == OneGate
  }

  /** A fold rule fires at g. */
  ghost predicate RuleAt(a: Net, b: Net, g: nat) {
    a != b && g < |a.kind| && ((exists marks :: DropsAt(a, b, g, marks)) || OneAt(a, b, g))
  }

  /** Sums are marked absorptive and products Boolean. */
  ghost function Marked(st: FoldState, g: nat): FoldState
    requires g < |st.net.kind|
  {
    if st.net.kind[g] == PlusGate then st.(absorptive := st.absorptive + {g}) else st.(boolean := st.boolean + {g})
  }

  /** Gates collapse, and their parents are rewired to where the collapses end. */
  ghost predicate CollapsesBy(rank: seq<nat>, a: FoldState, b: FoldState, found: map<nat, nat>, subst: map<nat, nat>) {
    && found.Keys == subst.Keys && found.Keys !! a.redirect.Keys
    && (forall g :: g in found ==> CollapsesTo(a.net, g, found[g]))
    && (forall g :: g in subst ==> subst[g] == End(rank, a.redirect + found, g))
    && b == a.(net := RewiredNet(a.net, subst), redirect := a.redirect + subst)
  }

  /** The ends of the redirected gates in s. */
  ghost function Ends(rank: seq<nat>, m: map<nat, nat>, s: set<nat>): set<nat> {
    set g | g in m && g in s :: End(rank, m, g)
  }

  /** Names and marks of collapsed gates follow the redirections. */
  ghost predicate Patches(rank: seq<nat>, id2uuid: map<nat, Uuid>, a: FoldState, b: FoldState) {
    && b.net == a.net && b.redirect == map[]
    && b.boolean == a.boolean + Ends(rank, a.redirect, a.boolean)
    && b.absorptive == a.absorptive + Ends(rank, a.redirect, a.absorptive)
    && NamesFollow(rank, id2uuid, a.redirect, a.redirect.Keys, a.names, b.names)
  }

  /** Each name stays or follows the redirection, among those of done, of a gate of that name. */
  ghost predicate NamesFollow(rank: seq<nat>, id2uuid: map<nat, Uuid>, m: map<nat, nat>, done: set<nat>, before: map<Uuid, nat>, after: map<Uuid, nat>) {
    && before.Keys == after.Keys
    && forall u :: u in before ==> after[u] == before[u] || Follows(rank, id2uuid, m, done, u, after[u])
  }

  ghost predicate Follows(rank: seq<nat>, id2uuid: map<nat, Uuid>, m: map<nat, nat>, done: set<nat>, u: Uuid, t: nat) {
    exists g :: g in done && g in m && g in id2uuid && id2uuid[g] == u && t == End(rank, m, g)
  }

  lemma MarkFollows(rank: seq<nat>, m: map<nat, nat>, s: set<nat>, done: set<nat>, marks: set<nat>, g: nat)
    requires Descends(rank, m) && marks == s + Ends(rank, m, s * done) && g in m
    ensures g in marks <==> g in s
    ensures (if g in s then marks + {End(rank, m, g)} else marks) == s + Ends(rank, m, s * (done + {g}))
  {
    forall x | x in Ends(rank, m, s * done) ensures x !in m {
      var h :| h in m && h in s * done && x == End(rank, m, h);
      EndLeaves(rank, m, h);
    }
    if g in s {
      assert s * (done + {g}) == s * done + {g};
      assert Ends(rank, m, s * done + {g}) == Ends(rank, m, s * done) + {End(rank, m, g)};
    } else {
      assert s * (done + {g}) == s * done;
    }
  }

  lemma NameFollows(rank: seq<nat>, id2uuid: map<nat, Uuid>, m: map<nat, nat>, done: set<nat>, before: map<Uuid, nat>, after: map<Uuid, nat>, g: nat)
    requires NamesFollow(rank, id2uuid, m, done, before, after) && g in m
    ensures NamesFollow(rank, id2uuid, m, done + {g}, before, after)
    ensures g in id2uuid && id2uuid[g] in after ==> NamesFollow(rank, id2uuid, m, done + {g}, before, after[id2uuid[g] := End(rank, m, g)])
  {
    forall u | u in before ensures after[u] == before[u] || Follows(rank, id2uuid, m, done + {g}, u, after[u]) {
    }
    if g in id2uuid && id2uuid[g] in after {
      assert Follows(rank, id2uuid, m, done + {g}, id2uuid[g], End(rank, m, g));
    }
  }

  ghost predicate Step(rank: seq<nat>, id2uuid: map<nat, Uuid>, a: FoldState, b: FoldState) {
    && Good(rank, a) && Good(rank, b)
    && (|| Tidies(a, b) || Fires(a, b) || (exists found, subst :: CollapsesBy(rank, a, b, found, subst)) || Patches(rank, id2uuid, a, b))
  }

  ghost predicate Tidies(a: FoldState, b: FoldState) {
    b == a.(net := b.net) && ((exists g, marks :: UnitsAt(a.net, b.net, g, marks)) || (exists g :: EmptyAt(a.net, b.net, g)))
  }

  ghost predicate Fires(a: FoldState, b: FoldState) {
    exists g :: RuleAt(a.net, b.net, g) && b == Marked(a, g).(net := b.net)
  }

  // ----- Any number of steps -----

  ghost predicate IsRun(rank: seq<nat>, id2uuid: map<nat, Uuid>, run: seq<FoldState>) {
    |run| > 0 && Good(rank, run[0]) && forall i :: 0 <= i < |run| - 1 ==> Step(rank, id2uuid, run[i], run[i + 1])
  }

  ghost predicate Reaches(rank: seq<nat>, id2uuid: map<nat, Uuid>, a: FoldState, b: FoldState) {
    exists run :: IsRun(rank, id2uuid, run) && run[0] == a && run[|run| - 1] == b
  }

  lemma ReachesSelf(rank: seq<nat>, id2uuid: map<nat, Uuid>, a: FoldState)
    requires Good(rank, a)
    ensures Reaches(rank, id2uuid, a, a)
  {
    assert IsRun(rank, id2uuid, [a]) && [a][0] == a;
  }

  lemma ReachesTrans(rank: seq<nat>, id2uuid: map<nat, Uuid>, a: FoldState, b: FoldState, c: FoldState)
    requires Reaches(rank, id2uuid, a, b) && Reaches(rank, id2uuid, b, c)
    ensures Reaches(rank, id2uuid, a, c)
  {
    hide Step;
    var p :| IsRun(rank, id2uuid, p) && p[0] == a && p[|p| - 1] == b;
    var q :| IsRun(rank, id2uuid, q) && q[0] == b && q[|q| - 1] == c;
    var run := p + q[1..];
    forall i | 0 <= i < |run| - 1 ensures Step(rank, id2uuid, run[i], run[i + 1]) {
      if i < |p| - 1 {
        assert Step(rank, id2uuid, p[i], p[i + 1]);
      } else {
        assert run[i] == q[i - |p| + 1];
        assert Step(rank, id2uuid, q[i - |p| + 1], q[i - |p| + 1 + 1]);
      }
    }
    assert IsRun(rank, id2uuid, run);
  }

  lemma ReachesOne(rank: seq<nat>, id2uuid: map<nat, Uuid>, a: FoldState, b: FoldState)
    requires Step(rank, id2uuid, a, b)
    ensures Reaches(rank, id2uuid, a, b)
  {
    var run := [a, b];
    assert IsRun(rank, id2uuid, run) && run[0] == a && run[|run| - 1] == b;
  }

  lemma ReachesGood(rank: seq<nat>, id2uuid: map<nat, Uuid>, a: FoldState, b: FoldState)
    requires Reaches(rank, id2uuid, a, b)
    ensures Good(rank, a) && Good(rank, b)
  {
    var run :| IsRun(rank, id2uuid, run) && run[0] == a && run[|run| - 1] == b;
    hide Good;
    if |run| > 1 { assert Step(rank, id2uuid, run[|run| - 2], run[|run| - 2 + 1]); }
  }

  /** A single gate changed outside the rules. */
  lemma TidyReaches(rank: seq<nat>, id2uuid: map<nat, Uuid>, a: FoldState, b: FoldState, g: nat, marks: seq<bool>)
    requires Good(rank, a) && Good(rank, b) && b == a.(net := b.net) && (UnitsAt(a.net, b.net, g, marks) || EmptyAt(a.net, b.net, g))
    ensures Reaches(rank, id2uuid, a, b)
  {
    assert Tidies(a, b);
    ReachesOne(rank, id2uuid, a, b);
  }

  lemma RuleReaches(rank: seq<nat>, id2uuid: map<nat, Uuid>, a: FoldState, b: FoldState, g: nat)
    requires Good(rank, a) && Good(rank, b) && RuleAt(a.net, b.net, g) && b == Marked(a, g).(net := b.net)
    ensures Reaches(rank, id2uuid, a, b)
  {
    assert Fires(a, b);
    ReachesOne(rank, id2uuid, a, b);
  }

  lemma CollapseReaches(rank: seq<nat>, id2uuid: map<nat, Uuid>, a: FoldState, b: FoldState, found: map<nat, nat>, subst: map<nat, nat>)
    requires Good(rank, a) && Good(rank, b) && CollapsesBy(rank, a, b, found, subst)
    ensures Reaches(rank, id2uuid, a, b)
  {
    ReachesOne(rank, id2uuid, a, b);
  }

  // ----- Names -----

  /** Every name leads to a gate, and the gate it names has that gate's value. */
  ghost predicate NamesOk<V(!new)>(net: Net, rank: seq<nat>, r: Reading<V>, uuid2id: map<Uuid, nat>, id2uuid: map<nat, Uuid>)
    requires Ranked(net, rank)
  {
    && (forall u :: u in uuid2id ==> uuid2id[u] < |net.kind|)
    && (forall g :: g in id2uuid ==> NameOk(net, rank, r, uuid2id, id2uuid, g))
  }

  ghost predicate NameOk<V(!new)>(net: Net, rank: seq<nat>, r: Reading<V>, uuid2id: map<Uuid, nat>, id2uuid: map<nat, Uuid>, g: nat)
    requires Ranked(net, rank) && g in id2uuid
  {
    && g < |net.kind| && id2uuid[g] in uuid2id && uuid2id[id2uuid[g]] < |net.kind|
    && Value(net, rank, r, uuid2id[id2uuid[g]]) == Value(net, rank, r, g)
  }
}
