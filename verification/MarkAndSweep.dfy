/** Clean-up of the mapped circuit: marking what the roots reach, rebuilding the store
    from it, and checking a store. */
module MarkAndSweep {
  import opened Outcomes
  import opened Sequences
  import opened ProbeSequences
  import opened UuidHashTable
  import opened GateStore

  // ----- Reachability -----

  /** Token u names gate i. */
  ghost predicate Names(s: Store, u: Uuid, i: nat) {
    u in s.mapping.entries && s.mapping.entries[u] == i < |s.gates|
  }

  /** Gate j is named by a wire of gate i, whose record is not torn. */
  ghost predicate HasChild(s: Store, i: nat, j: nat) {
    && i < |s.gates| && WiresFit(s, s.gates[i])
    && exists k :: s.gates[i].start <= k < s.gates[i].start + s.gates[i].count && Names(s, s.wires[k], j)
  }

  ghost predicate RootsIn(s: Store, roots: seq<Uuid>, T: set<nat>) {
    forall u, i: nat :: u in roots && Names(s, u, i) ==> i in T
  }

  ghost predicate Closed(s: Store, T: set<nat>) {
    forall i: nat, j: nat :: i in T && HasChild(s, i, j) ==> j in T
  }

  /** Gate i is in every set that has the roots and the children of its gates. */
  ghost predicate Reached(s: Store, roots: seq<Uuid>, i: nat) {
    forall T :: RootsIn(s, roots, T) && Closed(s, T) ==> i in T
  }

  ghost function LiveSet(live: seq<bool>): (T: set<nat>)
    ensures forall i: nat :: i in T <==> i < |live| && live[i]
  {
    set i | i in FirstVars(|live|) && live[i]
  }

  /** live flags exactly the gates that the roots reach. */
  ghost predicate Marks(s: Store, roots: seq<Uuid>, live: seq<bool>) {
    && |live| == |s.gates| && RootsIn(s, roots, LiveSet(live)) && Closed(s, LiveSet(live))
    && forall i: nat :: i < |live| && live[i] ==> Reached(s, roots, i)
  }

  /** Live gates have their children live or are still waiting for them. */
  ghost predicate Pending(s: Store, live: seq<bool>, stack: seq<nat>) {
    && |live| == |s.gates| && (forall i :: i in stack ==> i < |live| && live[i])
    && forall i: nat, j: nat :: i < |live| && live[i] && i !in stack && HasChild(s, i, j) ==> live[j]
  }

  ghost predicate OnlyReached(s: Store, roots: seq<Uuid>, live: seq<bool>) {
    forall i: nat :: i < |live| && live[i] ==> Reached(s, roots, i)
  }

  lemma FlagOne(s: Store, roots: seq<Uuid>, live: seq<bool>, stack: seq<nat>, i: nat)
    requires |live| == |s.gates| && i < |live| && !live[i] && Reached(s, roots, i) && OnlyReached(s, roots, live)
    ensures LiveSet(live[i := true]) == LiveSet(live) + {i} && |LiveSet(live[i := true])| == |LiveSet(live)| + 1
    ensures OnlyReached(s, roots, live[i := true]) && |LiveSet(live[i := true])| <= |live|
  {
    AtMost(live[i := true]);
  }

  lemma AtMost(live: seq<bool>)
    ensures |LiveSet(live)| <= |live|
  {
    FirstSize(|live|);
    SubsetSize(LiveSet(live), FirstVars(|live|));
  }

  lemma {:induction false} FirstSize(n: nat)
    ensures |FirstVars(n)| == n
  {
    if n > 0 { FirstSize(n - 1); }
  }

  lemma ChildReached(s: Store, roots: seq<Uuid>, i: nat, j: nat)
    requires Reached(s, roots, i) && HasChild(s, i, j)
    ensures Reached(s, roots, j)
  {
  }

  /** Flags gate i, if it is not yet, and puts it on the stack. */
  method Visit(s: Store, ghost roots: seq<Uuid>, u: Uuid, live0: seq<bool>, stack0: seq<nat>, nb0: nat)
    returns (live: seq<bool>, stack: seq<nat>, nb: nat)
    requires |live0| == |s.gates| && OnlyReached(s, roots, live0) && nb0 == |LiveSet(live0)|
    requires forall i: nat :: Names(s, u, i) ==> Reached(s, roots, i)
    ensures |live| == |live0| && OnlyReached(s, roots, live) && nb == |LiveSet(live)| <= |live|
    ensures (live, stack, nb) == (live0, stack0, nb0)
         || exists i: nat :: i < |live0| && !live0[i] && live == live0[i := true] && stack == stack0 + [i] && nb == nb0 + 1
    ensures forall i: nat :: Names(s, u, i) ==> live[i]
  {
    live, stack, nb := live0, stack0, nb0;
    AtMost(live);
    if u in s.mapping.entries {
      var idx := s.mapping.entries[u];
      if idx < |s.gates| && !live[idx] {
        assert Names(s, u, idx);
        FlagOne(s, roots, live, stack, idx);
        live := live[idx := true];
        nb := nb + 1;
        stack := stack + [idx];
      }
    }
  }

  /** Flags the gates that the roots reach, and counts them. */
  method Mark(s: Store, roots: seq<Uuid>) returns (live: seq<bool>, nb: nat)
    ensures Marks(s, roots, live) && nb == |LiveSet(live)|
  {
    live, nb := seq(|s.gates|, _ => false), 0;
    var stack: seq<nat> := [];
    assert LiveSet(live) == {};
    hide Reached;
    hide HasChild;
    for k := 0 to |roots|
      invariant OnlyReached(s, roots, live) && nb == |LiveSet(live)| <= |live| == |s.gates|
      invariant forall i: nat :: i < |live| ==> (live[i] <==> i in stack)
      invariant forall i :: i in stack ==> i < |live|
      invariant forall l, i: nat :: 0 <= l < k && Names(s, roots[l], i) ==> live[i]
    {
      RootReached(s, roots, roots[k]);
      live, stack, nb := Visit(s, roots, roots[k], live, stack, nb);
    }
    assert Pending(s, live, stack) && RootsIn(s, roots, LiveSet(live));
    hide Pending;
    hide RootsIn;
    hide OnlyReached;
    while stack != []
      invariant OnlyReached(s, roots, live) && nb == |LiveSet(live)| <= |live|
      invariant Pending(s, live, stack) && RootsIn(s, roots, LiveSet(live))
      decreases |s.gates| - nb, |stack|
    {
      var idx := stack[|stack| - 1];
      assert stack == stack[..|stack| - 1] + [idx];
      TopIsLive(s, live, stack[..|stack| - 1], idx);
      stack := stack[..|stack| - 1];
      live, stack, nb := Follow(s, roots, idx, live, stack, nb);
    }
    MarksEnd(s, roots, live);
  }

  lemma TopIsLive(s: Store, live: seq<bool>, stack: seq<nat>, idx: nat)
    requires Pending(s, live, stack + [idx])
    ensures idx < |live| && live[idx]
  {
    assert idx in stack + [idx];
  }

  lemma MarksEnd(s: Store, roots: seq<Uuid>, live: seq<bool>)
    requires OnlyReached(s, roots, live) && Pending(s, live, []) && RootsIn(s, roots, LiveSet(live))
    ensures Marks(s, roots, live)
  {
    var stack: seq<nat> := [];
    forall i: nat, j: nat | i in LiveSet(live) && HasChild(s, i, j) ensures j in LiveSet(live) {
      assert i !in stack;
    }
  }

  lemma RootReached(s: Store, roots: seq<Uuid>, u: Uuid)
    requires u in roots
    ensures forall i: nat :: Names(s, u, i) ==> Reached(s, roots, i)
  {
  }

  /** Flags the children of gate idx. */
  method Follow(s: Store, ghost roots: seq<Uuid>, idx: nat, live0: seq<bool>, stack0: seq<nat>, nb0: nat)
    returns (live: seq<bool>, stack: seq<nat>, nb: nat)
    requires OnlyReached(s, roots, live0) && nb0 == |LiveSet(live0)| && idx < |live0| && live0[idx]
    requires Pending(s, live0, stack0 + [idx]) && RootsIn(s, roots, LiveSet(live0))
    ensures OnlyReached(s, roots, live) && nb == |LiveSet(live)| <= |live|
    ensures Pending(s, live, stack) && RootsIn(s, roots, LiveSet(live))
    ensures nb > nb0 || (nb == nb0 && |stack| == |stack0|)
  {
    live, stack, nb := live0, stack0, nb0;
    AtMost(live);
    var r := s.gates[idx];
    assert idx in stack0 + [idx];
    if r.start + r.count > |s.wires| {
      Followed(s, live0, live, stack0, stack, idx);
      return;
    }
    hide Reached;
    for k := r.start to r.start + r.count
      invariant OnlyReached(s, roots, live) && nb == |LiveSet(live)| <= |live| == |live0|
      invariant nb > nb0 || (nb == nb0 && |stack| == |stack0|)
      invariant Grows(live0, stack0, live, stack)
      invariant forall l, i: nat :: r.start <= l < k && Names(s, s.wires[l], i) ==> live[i]
    {
      forall i: nat | Names(s, s.wires[k], i) ensures Reached(s, roots, i) {
        assert HasChild(s, idx, i);
        ChildReached(s, roots, idx, i);
      }
      live, stack, nb := Visit(s, roots, s.wires[k], live, stack, nb);
    }
    Followed(s, live0, live, stack0, stack, idx);
  }

  /** Gates flagged since are on the stack, and nothing left it. */
  ghost predicate Grows(live0: seq<bool>, stack0: seq<nat>, live: seq<bool>, stack: seq<nat>) {
    && |live0| == |live| && (forall i: nat :: i < |live| && live0[i] ==> live[i])
    && (forall i: nat :: i < |live| && live[i] && !live0[i] ==> i in stack)
    && (forall i :: i in stack ==> i in stack0 || (i < |live| && live[i]))
    && (forall i :: i in stack0 ==> i in stack)
  }

  lemma Followed(s: Store, live0: seq<bool>, live: seq<bool>, stack0: seq<nat>, stack: seq<nat>, idx: nat)
    requires Pending(s, live0, stack0 + [idx]) && Grows(live0, stack0, live, stack)
    requires forall j: nat :: HasChild(s, idx, j) ==> live[j]
    ensures Pending(s, live, stack)
  {
    forall i: nat, j: nat | i < |live| && live[i] && i !in stack && HasChild(s, i, j) ensures live[j] {
      if i != idx {
        assert i !in stack0 + [idx];
      }
    }
    forall i | i in stack ensures i < |live| && live[i] {
      assert i in stack0 ==> i in stack0 + [idx];
    }
  }

  // ----- The rebuilt store -----

  /** The number of live gates before gate i: where gate i goes. */
  function NewIndex(live: seq<bool>, i: nat): nat
    requires i <= |live|
  {
    if i == 0 then 0 else NewIndex(live, i - 1) + if live[i - 1] then 1 else 0
  }

  lemma {:induction false} NewIndexGrows(live: seq<bool>, i: nat, j: nat)
    requires i <= j <= |live|
    ensures NewIndex(live, i) <= NewIndex(live, j) && (i < j && live[i] ==> NewIndex(live, i) < NewIndex(live, j))
    decreases j - i
  {
    if i < j { NewIndexGrows(live, i, j - 1); }
  }

  /** Every place up to the number of live gates is some live gate's. */
  lemma {:induction false} NewIndexHits(live: seq<bool>, n: nat, k: nat) returns (i: nat)
    requires n <= |live| && k < NewIndex(live, n)
    ensures i < n && live[i] && NewIndex(live, i) == k
    decreases n
  {
    if live[n - 1] && NewIndex(live, n - 1) == k { i := n - 1; } else { i := NewIndexHits(live, n - 1, k); }
  }

  predicate CarriesProb(kind: GateType) {
    kind == GateInput || kind == GateUpdate || kind == GateMulInput
  }

  /** A version-1 store says one both for "certain" and for "never written": kept as the latter. */
  function KeptProb(r: Record, legacy: bool): Option<real> {
    if legacy && r.prob == Some(1.0) && CarriesProb(r.kind) then None else r.prob
  }

  /** Gate k of t is what gate j of s was: type, children, annotations and extra string;
      ranges that run past their vectors are dropped. */
  ghost predicate Carried(s: Store, legacy: bool, j: nat, gates: seq<Record>, wires: seq<Uuid>, extra: string, k: nat) {
    && j < |s.gates| && k < |gates|
    && gates[k].kind == s.gates[j].kind && gates[k].prob == KeptProb(s.gates[j], legacy)
    && gates[k].info1 == s.gates[j].info1 && gates[k].info2 == s.gates[j].info2
    && gates[k].start + gates[k].count <= |wires| && gates[k].extraStart + gates[k].extraLength <= |extra|
    && wires[gates[k].start..gates[k].start + gates[k].count] == (if WiresFit(s, s.gates[j]) then NodeAt(s, j).children else [])
    && extra[gates[k].extraStart..gates[k].extraStart + gates[k].extraLength] == if ExtraFits(s, s.gates[j]) then ExtraAt(s, j) else ""
  }

  ghost predicate SweptTo(s: Store, live: seq<bool>, legacy: bool, n: nat, gates: seq<Record>, wires: seq<Uuid>, extra: string) {
    && n <= |live| == |s.gates| && |gates| == NewIndex(live, n)
    && forall j: nat :: j < n && live[j] ==> Carried(s, legacy, j, gates, wires, extra, NewIndex(live, j))
  }

  /** The tokens of live gates, at the places of their gates. */
  ghost function KeptEntries(s: Store, live: seq<bool>): map<Uuid, nat> {
    map u | u in s.mapping.entries && s.mapping.entries[u] < |live| && live[s.mapping.entries[u]] :: NewIndex(live, s.mapping.entries[u])
  }

  ghost predicate Swept(s: Store, live: seq<bool>, legacy: bool, t: Store) {
    && SweptTo(s, live, legacy, |live|, t.gates, t.wires, t.extra)
    && t.mapping.entries == KeptEntries(s, live) && IndexOk(t.mapping) && t.mapping.next <= |t.gates|
  }

  lemma CarriedStays(s: Store, legacy: bool, j: nat, gates: seq<Record>, wires: seq<Uuid>, extra: string, k: nat,
                     r: Record, moreWires: seq<Uuid>, moreExtra: string)
    requires Carried(s, legacy, j, gates, wires, extra, k)
    ensures Carried(s, legacy, j, gates + [r], wires + moreWires, extra + moreExtra, k)
  {
    var g := gates[k];
    assert (gates + [r])[k] == g;
    assert (wires + moreWires)[g.start..g.start + g.count] == wires[g.start..g.start + g.count];
    assert (extra + moreExtra)[g.extraStart..g.extraStart + g.extraLength] == extra[g.extraStart..g.extraStart + g.extraLength];
  }

  /** The children and the extra bytes of gate j that can be read. */
  ghost function Children(s: Store, j: nat): seq<Uuid>
    requires j < |s.gates|
  {
    if WiresFit(s, s.gates[j]) then NodeAt(s, j).children else []
  }

  ghost function Extra(s: Store, j: nat): string
    requires j < |s.gates|
  {
    if ExtraFits(s, s.gates[j]) then ExtraAt(s, j) else ""
  }

  function Copy(r: Record, legacy: bool, start: nat, count: nat, extraStart: nat, extraLength: nat): Record {
    Record(r.kind, count, start, KeptProb(r, legacy), r.info1, r.info2, extraStart, extraLength)
  }

  lemma CopyCarries(s: Store, legacy: bool, j: nat, gates: seq<Record>, wires: seq<Uuid>, extra: string, extraStart: nat)
    requires j < |s.gates|
    requires extraStart == if Extra(s, j) == "" then 0 else |extra|
    ensures var r := Copy(s.gates[j], legacy, |wires|, |Children(s, j)|, extraStart, |Extra(s, j)|);
            Carried(s, legacy, j, gates + [r], wires + Children(s, j), extra + Extra(s, j), |gates|)
  {
    var w, x := wires + Children(s, j), extra + Extra(s, j);
    assert w[|wires|..|wires| + |Children(s, j)|] == Children(s, j);
    assert x[extraStart..extraStart + |Extra(s, j)|] == Extra(s, j);
  }

  lemma SweptMore(s: Store, live: seq<bool>, legacy: bool, i: nat, gates: seq<Record>, wires: seq<Uuid>, extra: string, extraStart: nat)
    requires SweptTo(s, live, legacy, i, gates, wires, extra) && i < |live| && live[i]
    requires extraStart == if Extra(s, i) == "" then 0 else |extra|
    ensures var r := Copy(s.gates[i], legacy, |wires|, |Children(s, i)|, extraStart, |Extra(s, i)|);
            SweptTo(s, live, legacy, i + 1, gates + [r], wires + Children(s, i), extra + Extra(s, i))
  {
    var r := Copy(s.gates[i], legacy, |wires|, |Children(s, i)|, extraStart, |Extra(s, i)|);
    CopyCarries(s, legacy, i, gates, wires, extra, extraStart);
    hide Carried;
    hide Copy;
    forall j: nat | j < i && live[j]
      ensures Carried(s, legacy, j, gates + [r], wires + Children(s, i), extra + Extra(s, i), NewIndex(live, j))
    {
      CarriedStays(s, legacy, j, gates, wires, extra, NewIndex(live, j), r, Children(s, i), Extra(s, i));
    }
  }

  /** The wires of gate i, one by one, unless its record is torn. */
  method CopyWires(s: Store, i: nat, wires0: seq<Uuid>) returns (wires: seq<Uuid>, count: nat)
    requires i < |s.gates|
    ensures wires == wires0 + Children(s, i) && count == |Children(s, i)|
  {
    wires, count := wires0, s.gates[i].count;
    var start := s.gates[i].start;
    if start + count > |s.wires| { count := 0; }
    for c := 0 to count
      invariant start + c <= |s.wires| || c == 0
      invariant c > 0 ==> wires == wires0 + s.wires[start..start + c]
      invariant c == 0 ==> wires == wires0
    {
      assert s.wires[start..start + (c + 1)] == s.wires[start..start + c] + [s.wires[start + c]];
      wires := wires + [s.wires[start + c]];
    }
  }

  method CopyExtra(s: Store, i: nat, extra0: string) returns (extra: string, extraStart: nat, length: nat)
    requires i < |s.gates|
    ensures extra == extra0 + Extra(s, i) && length == |Extra(s, i)| && extraStart == if Extra(s, i) == "" then 0 else |extra0|
  {
    extra, length := extra0, s.gates[i].extraLength;
    var start := s.gates[i].extraStart;
    if start + length > |s.extra| { length := 0; }
    extraStart := if length > 0 then |extra| else 0;
    for k := 0 to length
      invariant start + k <= |s.extra| || k == 0
      invariant k > 0 ==> extra == extra0 + s.extra[start..start + k]
      invariant k == 0 ==> extra == extra0
    {
      assert s.extra[start..start + (k + 1)] == s.extra[start..start + k] + [s.extra[start + k]];
      extra := extra + [s.extra[start + k]];
    }
  }

  /** The records of live gates, in their old order. */
  method SweepGates(s: Store, live: seq<bool>, legacy: bool) returns (gates: seq<Record>, wires: seq<Uuid>, extra: string)
    requires |live| == |s.gates|
    ensures SweptTo(s, live, legacy, |live|, gates, wires, extra)
  {
    gates, wires, extra := [], [], "";
    hide Children;
    hide Extra;
    for i := 0 to |live|
      invariant SweptTo(s, live, legacy, i, gates, wires, extra)
    {
      if live[i] {
        ghost var extraStart0 := if Extra(s, i) == "" then 0 else |extra|;
        SweptMore(s, live, legacy, i, gates, wires, extra, extraStart0);
        var start := |wires|;
        var count, extraStart, length;
        wires, count := CopyWires(s, i, wires);
        extra, extraStart, length := CopyExtra(s, i, extra);
        gates := gates + [Copy(s.gates[i], legacy, start, count, extraStart, length)];
      }
    }
  }

  /** The entries of the tokens in done. */
  ghost predicate MappedTo(s: Store, live: seq<bool>, done: set<Uuid>, m: Index) {
    && |live| == |s.gates| && IndexOk(m) && m.next <= NewIndex(live, |live|)
    && (forall u :: u in m.entries ==> u in done && u in KeptEntries(s, live) && m.entries[u] == KeptEntries(s, live)[u])
    && forall u :: u in done && u in KeptEntries(s, live) ==> u in m.entries
  }

  method SweepMapping(s: Store, live: seq<bool>) returns (m: Index)
    requires |live| == |s.gates|
    ensures m.entries == KeptEntries(s, live) && IndexOk(m) && m.next <= NewIndex(live, |live|)
  {
    m := Index(map[], 0);
    var rest := s.mapping.entries.Keys;
    while rest != {}
      invariant rest <= s.mapping.entries.Keys && MappedTo(s, live, s.mapping.entries.Keys - rest, m)
      decreases rest
    {
      var u :| u in rest;
      var v := s.mapping.entries[u];
      if v < |live| && live[v] {
        NewIndexGrows(live, v, |live|);
        m := Apply(m, Publish(u, NewIndex(live, v)));
      }
      rest := rest - {u};
    }
  }

  /** Rebuilds the store from its live gates, which keep their probabilities but for the
      ones that a version-1 store has for unset. */
  method SweepInto(s: Store, live: seq<bool>, legacy: bool) returns (t: Store)
    requires |live| == |s.gates|
    ensures Swept(s, live, legacy, t)
    ensures forall i: nat :: i < |live| && live[i] ==>
      var before, after := s.gates[i], NewIndex(live, i);
      var unset := legacy && before.prob == Some(1.0) && before.kind in {GateInput, GateUpdate, GateMulInput};
      after < |t.gates| && t.gates[after].prob == if unset then None else before.prob
  {
    var gates, wires, extra := SweepGates(s, live, legacy);
    var mapping := SweepMapping(s, live);
    t := Store(gates, wires, extra, mapping);
  }

  // ----- Checking a store -----

  ghost function Dangling(s: Store): set<Uuid> {
    set u | u in s.mapping.entries && s.mapping.entries[u] >= |s.gates|
  }

  ghost predicate Referenced(s: Store, i: nat) {
    exists u :: Names(s, u, i)
  }

  /** The numbers below n with property p. */
  ghost function Filter(p: nat -> bool, n: nat): set<nat> {
    set i | i in FirstVars(n) && p(i)
  }

  lemma FilterMore(p: nat -> bool, n: nat)
    ensures |Filter(p, n + 1)| == |Filter(p, n)| + if p(n) then 1 else 0
  {
    assert Filter(p, n + 1) == Filter(p, n) + if p(n) then {n} else {};
  }

  ghost function Unreferenced(s: Store): nat -> bool {
    (i: nat) => !Referenced(s, i)
  }

  ghost function BadWires(s: Store): nat -> bool {
    (i: nat) => i < |s.gates| && !WiresFit(s, s.gates[i])
  }

  ghost function BadExtra(s: Store): nat -> bool {
    (i: nat) => i < |s.gates| && !ExtraFits(s, s.gates[i])
  }

  datatype Check = Check(dangling: nat, unreferenced: nat, badWires: nat, badExtra: nat)

  /** Counts what is wrong with a store. */
  method CheckStore(s: Store) returns (c: Check)
    ensures c.dangling == |Dangling(s)| && c.unreferenced == |Filter(Unreferenced(s), |s.gates|)|
    ensures c.badWires == |Filter(BadWires(s), |s.gates|)| && c.badExtra == |Filter(BadExtra(s), |s.gates|)|
  {
    var dangling, referenced := CheckMapping(s);
    var unreferenced, badWires, badExtra := 0, 0, 0;
    hide Referenced;
    for i := 0 to |s.gates|
      invariant unreferenced == |Filter(Unreferenced(s), i)|
      invariant badWires == |Filter(BadWires(s), i)| && badExtra == |Filter(BadExtra(s), i)|
    {
      FilterMore(Unreferenced(s), i);
      FilterMore(BadWires(s), i);
      FilterMore(BadExtra(s), i);
      if !referenced[i] { unreferenced := unreferenced + 1; }
      var r := s.gates[i];
      if r.start + r.count > |s.wires| { badWires := badWires + 1; }
      if r.extraStart + r.extraLength > |s.extra| { badExtra := badExtra + 1; }
    }
    return Check(dangling, unreferenced, badWires, badExtra);
  }

  method CheckMapping(s: Store) returns (dangling: nat, referenced: seq<bool>)
    ensures dangling == |Dangling(s)|
    ensures |referenced| == |s.gates| && forall i: nat :: i < |s.gates| ==> (referenced[i] <==> Referenced(s, i))
  {
    dangling, referenced := 0, seq(|s.gates|, _ => false);
    var rest := s.mapping.entries.Keys;
    ghost var seen: set<Uuid> := {};
    while rest != {}
      invariant rest <= s.mapping.entries.Keys && Seen(s, rest, referenced)
      invariant seen == Dangling(s) - rest && dangling == |seen|
      decreases rest
    {
      var u :| u in rest;
      var v := s.mapping.entries[u];
      SeeOne(s, rest, referenced, u);
      if v >= |s.gates| {
        dangling := dangling + 1;
        seen := seen + {u};
      } else {
        referenced := referenced[v := true];
      }
      rest := rest - {u};
    }
    assert Dangling(s) - {} == Dangling(s);
  }

  /** The gates that tokens outside rest name. */
  ghost predicate Seen(s: Store, rest: set<Uuid>, referenced: seq<bool>) {
    && |referenced| == |s.gates|
    && forall i: nat :: i < |s.gates| ==> (referenced[i] <==> exists u :: u !in rest && Names(s, u, i))
  }

  lemma SeeOne(s: Store, rest: set<Uuid>, referenced: seq<bool>, u: Uuid)
    requires Seen(s, rest, referenced) && u in s.mapping.entries && u in rest
    ensures var v := s.mapping.entries[u];
            Seen(s, rest - {u}, if v < |s.gates| then referenced[v := true] else referenced)
  {
    var v := s.mapping.entries[u];
    assert v < |s.gates| ==> Names(s, u, v);
    forall i: nat, w | i < |s.gates| && w !in rest - {u} && Names(s, w, i) ensures i == v || exists x :: x !in rest && Names(s, x, i) {
      if w != u { assert w !in rest && Names(s, w, i); }
    }
    forall i: nat, w | i < |s.gates| && w !in rest && Names(s, w, i) ensures w !in rest - {u} {
    }
  }

  // ----- A clean-up -----

  /** Every live gate has a token: the gates without one are reached from nowhere. */
  lemma LiveIsReferenced(s: Store, roots: seq<Uuid>, live: seq<bool>, i: nat)
    requires Marks(s, roots, live) && i < |live| && live[i]
    ensures Referenced(s, i)
  {
    var named := set j | j in FirstVars(|s.gates|) && Referenced(s, j);
    assert RootsIn(s, roots, named) && Closed(s, named);
    assert Reached(s, roots, i);
  }

  /** What check counts is all zero. */
  ghost predicate Clean(t: Store) {
    && Dangling(t) == {} && Filter(Unreferenced(t), |t.gates|) == {}
    && Filter(BadWires(t), |t.gates|) == {} && Filter(BadExtra(t), |t.gates|) == {}
  }

  /** The store rebuilt from what the roots reach is clean, however damaged the old one was. */
  lemma SweptIsClean(s: Store, roots: seq<Uuid>, live: seq<bool>, legacy: bool, t: Store)
    requires Marks(s, roots, live) && Swept(s, live, legacy, t)
    ensures Clean(t)
  {
    forall u | u in t.mapping.entries ensures t.mapping.entries[u] < |t.gates| {
      NewIndexGrows(live, s.mapping.entries[u], |live|);
    }
    forall k: nat | k < |t.gates| ensures Referenced(t, k) && WiresFit(t, t.gates[k]) && ExtraFits(t, t.gates[k]) {
      var i := NewIndexHits(live, |live|, k);
      LiveIsReferenced(s, roots, live, i);
      var u :| Names(s, u, i);
      assert Names(t, u, k);
      assert Carried(s, legacy, i, t.gates, t.wires, t.extra, k);
    }
  }

  /** A token is kept exactly when the roots reach its gate; it keeps the gate's type,
      ordered children, annotations and extra string. */
  lemma TokensKept(s: Store, roots: seq<Uuid>, live: seq<bool>, legacy: bool, t: Store, u: Uuid)
    requires Marks(s, roots, live) && Swept(s, live, legacy, t)
    ensures u in t.mapping.entries <==> u in s.mapping.entries && s.mapping.entries[u] < |s.gates| && Reached(s, roots, s.mapping.entries[u])
    ensures u in t.mapping.entries ==> Carried(s, legacy, s.mapping.entries[u], t.gates, t.wires, t.extra, t.mapping.entries[u])
  {
    if u in s.mapping.entries && s.mapping.entries[u] < |s.gates| && Reached(s, roots, s.mapping.entries[u]) {
      assert s.mapping.entries[u] in LiveSet(live);
    }
  }

  lemma NodeKept(s: Store, roots: seq<Uuid>, live: seq<bool>, legacy: bool, t: Store, u: Uuid)
    requires Marks(s, roots, live) && Swept(s, live, legacy, t) && Consistent(s) && Consistent(t)
    ensures u in Nodes(t) <==> u in Nodes(s) && Reached(s, roots, s.mapping.entries[u])
    ensures u in Nodes(t) ==> Nodes(t)[u] == Nodes(s)[u]
  {
    hide Marks;
    hide Swept;
    hide Reached;
    hide Carried;
    hide NodeAt;
    TokensKept(s, roots, live, legacy, t, u);
    if u in t.mapping.entries { SameNode(s, legacy, s.mapping.entries[u], t, t.mapping.entries[u]); }
  }

  /** On a consistent store, a clean-up restricts the circuit to what the roots reach. */
  lemma CircuitKept(s: Store, roots: seq<Uuid>, live: seq<bool>, legacy: bool, t: Store)
    requires Marks(s, roots, live) && Swept(s, live, legacy, t) && Consistent(s)
    ensures Consistent(t) && Nodes(t) == map u | u in Nodes(s) && Reached(s, roots, s.mapping.entries[u]) :: Nodes(s)[u]
  {
    hide Marks;
    hide Swept;
    hide Reached;
    SweptIsClean(s, roots, live, legacy, t);
    CleanIsConsistent(s, live, legacy, t);
    forall u ensures (u in Nodes(t) <==> u in Nodes(s) && Reached(s, roots, s.mapping.entries[u])) && (u in Nodes(t) ==> Nodes(t)[u] == Nodes(s)[u]) {
      NodeKept(s, roots, live, legacy, t, u);
    }
    hide Consistent;
  }

  lemma SameNode(s: Store, legacy: bool, i: nat, t: Store, k: nat)
    requires Carried(s, legacy, i, t.gates, t.wires, t.extra, k) && WiresFit(s, s.gates[i])
    ensures WiresFit(t, t.gates[k]) && NodeAt(t, k) == NodeAt(s, i)
  {
  }

  lemma CleanIsConsistent(s: Store, live: seq<bool>, legacy: bool, t: Store)
    requires Swept(s, live, legacy, t) && Clean(t) && Consistent(s)
    ensures Consistent(t)
  {
    forall u | u in t.mapping.entries ensures t.mapping.entries[u] < |t.gates| {
      assert u !in Dangling(t);
    }
    forall i | 0 <= i < |t.gates| ensures WiresFit(t, t.gates[i]) && ExtraFits(t, t.gates[i]) {
      assert i !in Filter(BadWires(t), |t.gates|) && i !in Filter(BadExtra(t), |t.gates|);
    }
    forall u, v | u in t.mapping.entries && v in t.mapping.entries && t.mapping.entries[u] == t.mapping.entries[v] ensures u == v {
      var i, j := s.mapping.entries[u], s.mapping.entries[v];
      if i < j { NewIndexGrows(live, i, j); } else if j < i { NewIndexGrows(live, j, i); }
    }
  }

  /** Marking, rebuilding and checking.  A probability is kept as it is, except that a
      version-1 store's one on an input, update or multivalued input becomes unset. */
  method CleanUp(s: Store, roots: seq<Uuid>, legacy: bool) returns (t: Store, c: Check)
    ensures c == Check(0, 0, 0, 0)
    ensures forall u :: u in t.mapping.entries <==>
              u in s.mapping.entries && s.mapping.entries[u] < |s.gates| && Reached(s, roots, s.mapping.entries[u])
    ensures forall u :: u in t.mapping.entries ==>
              && t.mapping.entries[u] < |t.gates|
              && Carried(s, legacy, s.mapping.entries[u], t.gates, t.wires, t.extra, t.mapping.entries[u])
    ensures forall u :: u in t.mapping.entries ==>
      var before, after := s.gates[s.mapping.entries[u]], t.gates[t.mapping.entries[u]];
      var unset := legacy && before.prob == Some(1.0) && before.kind in {GateInput, GateUpdate, GateMulInput};
      after.prob == if unset then None else before.prob
    ensures Consistent(s) ==>
      Consistent(t) && Nodes(t) == map u | u in Nodes(s) && Reached(s, roots, s.mapping.entries[u]) :: Nodes(s)[u]
  {
    var live, nb := Mark(s, roots);
    t := SweepInto(s, live, legacy);
    c := CheckStore(t);
    SweptIsClean(s, roots, live, legacy, t);
    forall u {:trigger u in t.mapping.entries}
      ensures u in t.mapping.entries <==>
                u in s.mapping.entries && s.mapping.entries[u] < |s.gates| && Reached(s, roots, s.mapping.entries[u])
      ensures u in t.mapping.entries ==>
                Carried(s, legacy, s.mapping.entries[u], t.gates, t.wires, t.extra, t.mapping.entries[u])
    {
      TokensKept(s, roots, live, legacy, t, u);
    }
    if Consistent(s) { CircuitKept(s, roots, live, legacy, t); }
  }
}
