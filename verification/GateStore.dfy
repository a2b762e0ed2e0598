/** The four persistent vectors behind the provenance circuit, and the order in which a
    gate's creation writes to them. */
module GateStore {
  import opened Outcomes
  import opened ProbeSequences
  import opened UuidHashTable

  datatype GateType = GateInput | GateUpdate | GateMulInput | OtherGate(code: nat)

  /** A gate record: ranges of wires and of extra bytes, and scalar annotations. */
  datatype Record = Record(kind: GateType, count: nat, start: nat, prob: Option<real>, info1: nat, info2: nat,
                           extraStart: nat, extraLength: nat)

  datatype Store = Store(gates: seq<Record>, wires: seq<Uuid>, extra: string, mapping: Index)

  /** What a token stands for. */
  datatype Node = Node(kind: GateType, children: seq<Uuid>)

  const PLACEHOLDER := Node(GateInput, [])

  ghost predicate WiresFit(s: Store, r: Record) {
    r.start + r.count <= |s.wires|
  }

  ghost predicate ExtraFits(s: Store, r: Record) {
    r.extraStart + r.extraLength <= |s.extra|
  }

  /** No mapping entry dangles, no range runs past its vector, no record has two tokens. */
  ghost predicate Consistent(s: Store) {
    && (forall u :: u in s.mapping.entries ==> s.mapping.entries[u] < |s.gates|)
    && (forall i :: 0 <= i < |s.gates| ==> WiresFit(s, s.gates[i]) && ExtraFits(s, s.gates[i]))
    && (forall u, v :: u in s.mapping.entries && v in s.mapping.entries && s.mapping.entries[u] == s.mapping.entries[v] ==> u == v)
  }

  ghost function NodeAt(s: Store, i: nat): Node
    requires i < |s.gates| && WiresFit(s, s.gates[i])
  {
    var r := s.gates[i];
    Node(r.kind, s.wires[r.start..r.start + r.count])
  }

  ghost function ExtraAt(s: Store, i: nat): string
    requires i < |s.gates| && ExtraFits(s, s.gates[i])
  {
    var r := s.gates[i];
    s.extra[r.extraStart..r.extraStart + r.extraLength]
  }

  /** The circuit the store stands for. */
  ghost function Nodes(s: Store): map<Uuid, Node>
    requires Consistent(s)
  {
    map u | u in s.mapping.entries :: NodeAt(s, s.mapping.entries[u])
  }

  // ----- Single writes -----

  datatype Write =
    | AddWire(u: Uuid)
    | AddExtra(c: char)
    | AddGate(r: Record)
    | PublishEntry(token: Uuid, index: nat)
    | SetStart(gate: nat, n: nat)
    | SetCount(gate: nat, n: nat)
    | SetType(gate: nat, kind: GateType)
    | SetExtraStart(gate: nat, n: nat)
    | SetExtraLength(gate: nat, n: nat)

  function Perform(s: Store, w: Write): Store {
    match w
    case AddWire(u) => s.(wires := s.wires + [u])
    case AddExtra(c) => s.(extra := s.extra + [c])
    case AddGate(r) => s.(gates := s.gates + [r])
    case PublishEntry(token, index) => s.(mapping := Apply(s.mapping, Publish(token, index)))
    case SetStart(g, n) => if g < |s.gates| then s.(gates := s.gates[g := s.gates[g].(start := n)]) else s
    case SetCount(g, n) => if g < |s.gates| then s.(gates := s.gates[g := s.gates[g].(count := n)]) else s
    case SetType(g, k) => if g < |s.gates| then s.(gates := s.gates[g := s.gates[g].(kind := k)]) else s
    case SetExtraStart(g, n) => if g < |s.gates| then s.(gates := s.gates[g := s.gates[g].(extraStart := n)]) else s
    case SetExtraLength(g, n) => if g < |s.gates| then s.(gates := s.gates[g := s.gates[g].(extraLength := n)]) else s
  }

  function PerformAll(s: Store, ws: seq<Write>): Store {
    if ws == [] then s else Perform(PerformAll(s, ws[..|ws| - 1]), ws[|ws| - 1])
  }

  /** A crash after any number of the writes leaves a consistent store. */
  ghost predicate CrashSafe(s: Store, ws: seq<Write>) {
    forall k :: 0 <= k <= |ws| ==> Consistent(PerformAll(s, ws[..k]))
  }

  lemma {:induction false} PerformAppend(s: Store, a: seq<Write>, b: seq<Write>)
    ensures PerformAll(s, a + b) == PerformAll(PerformAll(s, a), b)
  {
    if b == [] {
      assert a + b == a;
    } else {
      PerformAppend(s, a, b[..|b| - 1]);
      assert (a + b)[..|a + b| - 1] == a + b[..|b| - 1];
    }
  }

  lemma CrashSafeAppend(s: Store, a: seq<Write>, b: seq<Write>)
    requires CrashSafe(s, a) && CrashSafe(PerformAll(s, a), b)
    ensures CrashSafe(s, a + b)
  {
    forall k | 0 <= k <= |a + b| ensures Consistent(PerformAll(s, (a + b)[..k])) {
      if k <= |a| {
        assert (a + b)[..k] == a[..k];
      } else {
        assert (a + b)[..k] == a + b[..k - |a|];
        PerformAppend(s, a, b[..k - |a|]);
      }
    }
  }

  lemma CrashSafeOne(s: Store, w: Write)
    requires Consistent(s) && Consistent(Perform(s, w))
    ensures CrashSafe(s, [w]) && PerformAll(s, [w]) == Perform(s, w)
  {
    var e: seq<Write> := [];
    assert [w][..0] == e && [w][..1] == [w];
    assert PerformAll(s, e) == s;
  }

  /** One write more. */
  lemma SafeThen(s: Store, ws: seq<Write>, w: Write)
    requires CrashSafe(s, ws) && Consistent(PerformAll(s, ws)) && Consistent(Perform(PerformAll(s, ws), w))
    ensures CrashSafe(s, ws + [w]) && PerformAll(s, ws + [w]) == Perform(PerformAll(s, ws), w)
  {
    hide Consistent;
    hide CrashSafe;
    hide PerformAll;
    CrashSafeOne(PerformAll(s, ws), w);
    CrashSafeAppend(s, ws, [w]);
    PerformAppend(s, ws, [w]);
  }

  // ----- The writes of each operation -----

  function WireWrites(children: seq<Uuid>): (ws: seq<Write>)
    ensures |ws| == |children|
  {
    seq(|children|, (k: nat) requires k < |children| => AddWire(children[k]))
  }

  function NewRecord(kind: GateType, count: nat, start: nat): Record {
    Record(kind, count, start, None, 0, 0, 0, 0)
  }

  function AppendWrites(s: Store, token: Uuid, kind: GateType, children: seq<Uuid>): seq<Write> {
    WireWrites(children) + [AddGate(NewRecord(kind, |children|, |s.wires|))] + [PublishEntry(token, |s.gates|)]
  }

  /** The writes that turn the record of a lazily added gate into the real one. */
  function UpgradeWrites(s: Store, g: nat, kind: GateType, children: seq<Uuid>): seq<Write> {
    WireWrites(children) + [SetStart(g, |s.wires|)] + [SetCount(g, |children|)] + [SetType(g, kind)]
  }

  /** Each unknown child becomes a placeholder input. */
  function LazyWrites(s: Store, children: seq<Uuid>): seq<Write> {
    if children == [] then []
    else
      var ws, c := LazyWrites(s, children[..|children| - 1]), children[|children| - 1];
      var t := PerformAll(s, ws);
      if c in t.mapping.entries then ws else ws + AppendWrites(t, c, GateInput, [])
  }

  predicate IsPlaceholder(r: Record) {
    r.kind == GateInput && r.count == 0
  }

  function CreateWrites(s: Store, token: Uuid, kind: GateType, children: seq<Uuid>): seq<Write> {
    var first :=
      if token !in s.mapping.entries then AppendWrites(s, token, kind, children)
      else
        var g := s.mapping.entries[token];
        if g < |s.gates| && IsPlaceholder(s.gates[g]) && (kind != GateInput || children != [])
        then UpgradeWrites(s, g, kind, children) else [];
    if first == [] then [] else first + LazyWrites(PerformAll(s, first), children)
  }

  // ----- What they do -----

  function Wired(s: Store, children: seq<Uuid>): Store {
    s.(wires := s.wires + children)
  }

  lemma {:induction false} WireWritesResult(s: Store, children: seq<Uuid>, k: nat)
    requires k <= |children|
    ensures PerformAll(s, WireWrites(children)[..k]) == Wired(s, children[..k])
  {
    var ws := WireWrites(children);
    if k == 0 {
      assert s.wires + children[..0] == s.wires;
    } else {
      WireWritesResult(s, children, k - 1);
      assert ws[..k][..k - 1] == ws[..k - 1] && ws[..k][k - 1] == AddWire(children[k - 1]);
      assert s.wires + children[..k] == s.wires + children[..k - 1] + [children[k - 1]];
    }
  }

  lemma WiredConsistent(s: Store, children: seq<Uuid>)
    requires Consistent(s)
    ensures Consistent(Wired(s, children)) && Nodes(Wired(s, children)) == Nodes(s)
  {
    var t := Wired(s, children);
    forall i | 0 <= i < |s.gates| ensures WiresFit(t, t.gates[i]) && ExtraFits(t, t.gates[i]) && NodeAt(t, i) == NodeAt(s, i) {
      assert WiresFit(s, s.gates[i]);
    }
  }

  lemma WireWritesSafe(s: Store, children: seq<Uuid>)
    requires Consistent(s)
    ensures CrashSafe(s, WireWrites(children)) && PerformAll(s, WireWrites(children)) == Wired(s, children)
  {
    var ws := WireWrites(children);
    forall k | 0 <= k <= |ws| ensures Consistent(PerformAll(s, ws[..k])) {
      WireWritesResult(s, children, k);
      WiredConsistent(s, children[..k]);
    }
    WireWritesResult(s, children, |ws|);
    assert ws[..|ws|] == ws && children[..|ws|] == children;
  }

  /** The store with a complete new record, before and after its token is published. */
  function WithRecord(s: Store, kind: GateType, children: seq<Uuid>): Store {
    Wired(s, children).(gates := s.gates + [NewRecord(kind, |children|, |s.wires|)])
  }

  function Appended(s: Store, token: Uuid, kind: GateType, children: seq<Uuid>): Store {
    WithRecord(s, kind, children).(mapping := Apply(s.mapping, Publish(token, |s.gates|)))
  }

  lemma RecordConsistent(s: Store, kind: GateType, children: seq<Uuid>)
    requires Consistent(s)
    ensures Consistent(WithRecord(s, kind, children)) && Nodes(WithRecord(s, kind, children)) == Nodes(s)
  {
    var t := WithRecord(s, kind, children);
    forall i | 0 <= i < |s.gates| ensures t.gates[i] == s.gates[i] && WiresFit(t, t.gates[i]) && ExtraFits(t, t.gates[i]) && NodeAt(t, i) == NodeAt(s, i) {
      assert WiresFit(s, s.gates[i]);
    }
  }

  lemma AppendedConsistent(s: Store, token: Uuid, kind: GateType, children: seq<Uuid>)
    requires Consistent(s) && token !in s.mapping.entries
    ensures Consistent(Appended(s, token, kind, children))
    ensures Nodes(Appended(s, token, kind, children)) == Nodes(s)[token := Node(kind, children)]
  {
    var t := Appended(s, token, kind, children);
    AppendedFits(s, token, kind, children);
    hide WiresFit;
    hide ExtraFits;
    RecordStays(s, token, kind, children);
    hide NodeAt;
    assert Nodes(t).Keys == s.mapping.entries.Keys + {token};
  }

  lemma AppendedFits(s: Store, token: Uuid, kind: GateType, children: seq<Uuid>)
    requires Consistent(s) && token !in s.mapping.entries
    ensures Consistent(Appended(s, token, kind, children))
  {
    RecordConsistent(s, kind, children);
    hide WiresFit;
    hide ExtraFits;
    SameFits(WithRecord(s, kind, children), Appended(s, token, kind, children));
  }

  lemma SameFits(s: Store, t: Store)
    requires |s.wires| == |t.wires| && |s.extra| == |t.extra|
    ensures forall r :: WiresFit(s, r) == WiresFit(t, r) && ExtraFits(s, r) == ExtraFits(t, r)
  {
  }

  lemma RecordStays(s: Store, token: Uuid, kind: GateType, children: seq<Uuid>)
    requires Consistent(s)
    ensures var t := Appended(s, token, kind, children);
            && (forall i :: 0 <= i < |s.gates| ==> WiresFit(s, s.gates[i]) && WiresFit(t, t.gates[i]) && NodeAt(t, i) == NodeAt(s, i))
            && WiresFit(t, t.gates[|s.gates|]) && NodeAt(t, |s.gates|) == Node(kind, children)
  {
    var t := Appended(s, token, kind, children);
    assert t.wires[|s.wires|..|s.wires| + |children|] == children;
    forall i | 0 <= i < |s.gates| ensures WiresFit(s, s.gates[i]) && WiresFit(t, t.gates[i]) && NodeAt(t, i) == NodeAt(s, i) {
      assert t.gates[i] == s.gates[i];
    }
  }

  lemma AppendSafe(s: Store, token: Uuid, kind: GateType, children: seq<Uuid>)
    requires Consistent(s) && token !in s.mapping.entries
    ensures CrashSafe(s, AppendWrites(s, token, kind, children))
    ensures PerformAll(s, AppendWrites(s, token, kind, children)) == Appended(s, token, kind, children)
  {
    var ws, add, pub := WireWrites(children), AddGate(NewRecord(kind, |children|, |s.wires|)), PublishEntry(token, |s.gates|);
    WireWritesSafe(s, children);
    WiredConsistent(s, children);
    RecordConsistent(s, kind, children);
    AppendedConsistent(s, token, kind, children);
    var a, b, c := Wired(s, children), WithRecord(s, kind, children), Appended(s, token, kind, children);
    assert Perform(a, add) == b && Perform(b, pub) == c;
    hide *;
    SafeThen(s, ws, add);
    SafeThen(s, ws + [add], pub);
    assert AppendWrites(s, token, kind, children) == ws + [add] + [pub] by { AppendWritesAre(s, token, kind, children); }
  }

  lemma AppendWritesAre(s: Store, token: Uuid, kind: GateType, children: seq<Uuid>)
    ensures AppendWrites(s, token, kind, children)
         == WireWrites(children) + [AddGate(NewRecord(kind, |children|, |s.wires|))] + [PublishEntry(token, |s.gates|)]
  {
  }

  function Upgraded(s: Store, g: nat, kind: GateType, children: seq<Uuid>): Store
    requires g < |s.gates|
  {
    Wired(s, children).(gates := s.gates[g := s.gates[g].(start := |s.wires|, count := |children|, kind := kind)])
  }

  lemma UpgradedConsistent(s: Store, g: nat, r: Record, children: seq<Uuid>)
    requires Consistent(s) && g < |s.gates| && r.start + r.count <= |s.wires| + |children|
    requires r.extraStart == s.gates[g].extraStart && r.extraLength == s.gates[g].extraLength
    ensures Consistent(Wired(s, children).(gates := s.gates[g := r]))
  {
    var t := Wired(s, children).(gates := s.gates[g := r]);
    assert ExtraFits(s, s.gates[g]);
    forall i | 0 <= i < |t.gates| ensures WiresFit(t, t.gates[i]) && ExtraFits(t, t.gates[i]) {
      assert WiresFit(s, s.gates[i]);
    }
  }

  lemma UpgradedNodes(s: Store, token: Uuid, kind: GateType, children: seq<Uuid>)
    requires Consistent(s) && token in s.mapping.entries
    ensures var t := Upgraded(s, s.mapping.entries[token], kind, children);
            Consistent(t) && Nodes(t) == Nodes(s)[token := Node(kind, children)]
  {
    hide WiresFit;
    hide ExtraFits;
    hide NodeAt;
    var g := s.mapping.entries[token];
    var t := Upgraded(s, g, kind, children);
    UpgradedConsistent(s, g, t.gates[g], children);
    UpgradedStays(s, g, kind, children);
    assert Nodes(t).Keys == s.mapping.entries.Keys;
  }

  lemma UpgradedStays(s: Store, g: nat, kind: GateType, children: seq<Uuid>)
    requires Consistent(s) && g < |s.gates|
    ensures var t := Upgraded(s, g, kind, children);
            && (forall i :: 0 <= i < |s.gates| && i != g ==> WiresFit(s, s.gates[i]) && WiresFit(t, t.gates[i]) && NodeAt(t, i) == NodeAt(s, i))
            && WiresFit(t, t.gates[g]) && NodeAt(t, g) == Node(kind, children)
  {
    var t := Upgraded(s, g, kind, children);
    assert t.wires[|s.wires|..|s.wires| + |children|] == children;
    forall i | 0 <= i < |s.gates| && i != g ensures WiresFit(s, s.gates[i]) && WiresFit(t, t.gates[i]) && NodeAt(t, i) == NodeAt(s, i) {
      assert t.gates[i] == s.gates[i];
    }
  }

  lemma UpgradeSafe(s: Store, token: Uuid, kind: GateType, children: seq<Uuid>)
    requires Consistent(s) && token in s.mapping.entries && IsPlaceholder(s.gates[s.mapping.entries[token]])
    ensures var g := s.mapping.entries[token];
            && CrashSafe(s, UpgradeWrites(s, g, kind, children))
            && PerformAll(s, UpgradeWrites(s, g, kind, children)) == Upgraded(s, g, kind, children)
  {
    var g := s.mapping.entries[token];
    WireWritesSafe(s, children);
    WiredConsistent(s, children);
    UpgradeSteps(s, g, kind, children);
    var ws, w1, w2, w3 := WireWrites(children), SetStart(g, |s.wires|), SetCount(g, |children|), SetType(g, kind);
    UpgradedConsistent(s, g, s.gates[g].(start := |s.wires|), children);
    UpgradedConsistent(s, g, s.gates[g].(start := |s.wires|, count := |children|), children);
    UpgradedConsistent(s, g, s.gates[g].(start := |s.wires|, count := |children|, kind := kind), children);
    hide *;
    SafeThen(s, ws, w1);
    SafeThen(s, ws + [w1], w2);
    SafeThen(s, ws + [w1] + [w2], w3);
  }

  lemma UpgradeSteps(s: Store, g: nat, kind: GateType, children: seq<Uuid>)
    requires g < |s.gates|
    ensures var r, n, a := s.gates[g], |s.wires|, Wired(s, children);
            var b := a.(gates := s.gates[g := r.(start := n)]);
            var c := a.(gates := s.gates[g := r.(start := n, count := |children|)]);
            var d := a.(gates := s.gates[g := r.(start := n, count := |children|, kind := kind)]);
            && Perform(a, SetStart(g, n)) == b && Perform(b, SetCount(g, |children|)) == c && Perform(c, SetType(g, kind)) == d
            && Upgraded(s, g, kind, children) == d
    ensures UpgradeWrites(s, g, kind, children)
         == WireWrites(children) + [SetStart(g, |s.wires|)] + [SetCount(g, |children|)] + [SetType(g, kind)]
  {
    var r, n, a := s.gates[g], |s.wires|, Wired(s, children);
    var r1, r2, r3 := r.(start := n), r.(start := n, count := |children|), r.(start := n, count := |children|, kind := kind);
    assert s.gates[g := r1][g := r2] == s.gates[g := r2] && s.gates[g := r2][g := r3] == s.gates[g := r3];
  }

  /** The circuit with a placeholder for each child it does not know. */
  function WithPlaceholders(m: map<Uuid, Node>, children: seq<Uuid>): map<Uuid, Node> {
    if children == [] then m
    else
      var w, c := WithPlaceholders(m, children[..|children| - 1]), children[|children| - 1];
      if c in w then w else w[c := PLACEHOLDER]
  }

  lemma {:induction false} LazySafe(s: Store, children: seq<Uuid>)
    requires Consistent(s)
    ensures CrashSafe(s, LazyWrites(s, children))
    ensures var t := PerformAll(s, LazyWrites(s, children));
            Consistent(t) && Nodes(t) == WithPlaceholders(Nodes(s), children)
  {
    if children == [] {
      var e: seq<Write> := [];
      assert LazyWrites(s, children) == e && PerformAll(s, e) == s;
    } else {
      var ws, c := LazyWrites(s, children[..|children| - 1]), children[|children| - 1];
      LazySafe(s, children[..|children| - 1]);
      var t := PerformAll(s, ws);
      hide Consistent;
      hide CrashSafe;
      hide PerformAll;
      if c !in t.mapping.entries {
        AppendSafe(t, c, GateInput, []);
        AppendedConsistent(t, c, GateInput, []);
        CrashSafeAppend(s, ws, AppendWrites(t, c, GateInput, []));
        PerformAppend(s, ws, AppendWrites(t, c, GateInput, []));
      }
    }
  }

  /** What a creation message does to the circuit: new tokens are added, placeholders
      upgraded, and anything else left alone. */
  function Create(m: map<Uuid, Node>, token: Uuid, node: Node): map<Uuid, Node> {
    if token !in m || (m[token] == PLACEHOLDER && node != PLACEHOLDER)
    then WithPlaceholders(m[token := node], node.children)
    else m
  }

  /** A creation message can be cut short anywhere, and completed does what it should. */
  lemma CreateSafe(s: Store, token: Uuid, node: Node)
    requires Consistent(s)
    ensures CrashSafe(s, CreateWrites(s, token, node.kind, node.children))
    ensures var t := PerformAll(s, CreateWrites(s, token, node.kind, node.children));
            Consistent(t) && Nodes(t) == Create(Nodes(s), token, node)
  {
    var kind, children := node.kind, node.children;
    assert token in s.mapping.entries ==> token in Nodes(s) && Nodes(s)[token] == NodeAt(s, s.mapping.entries[token]);
    if token !in s.mapping.entries {
      AppendSafe(s, token, kind, children);
      AppendedConsistent(s, token, kind, children);
      ThenLazy(s, AppendWrites(s, token, kind, children), children);
    } else {
      var g := s.mapping.entries[token];
      PlaceholderRecord(s, g);
      if IsPlaceholder(s.gates[g]) && (kind != GateInput || children != []) {
        UpgradeSafe(s, token, kind, children);
        UpgradedNodes(s, token, kind, children);
        ThenLazy(s, UpgradeWrites(s, g, kind, children), children);
      } else {
        var e: seq<Write> := [];
        assert PerformAll(s, e) == s;
      }
    }
  }

  lemma PlaceholderRecord(s: Store, g: nat)
    requires Consistent(s) && g < |s.gates|
    ensures IsPlaceholder(s.gates[g]) <==> NodeAt(s, g) == PLACEHOLDER
  {
    assert WiresFit(s, s.gates[g]);
  }

  lemma ThenLazy(s: Store, first: seq<Write>, children: seq<Uuid>)
    requires CrashSafe(s, first) && Consistent(PerformAll(s, first)) && first != []
    ensures var all := first + LazyWrites(PerformAll(s, first), children);
            && CrashSafe(s, all) && Consistent(PerformAll(s, all))
            && Nodes(PerformAll(s, all)) == WithPlaceholders(Nodes(PerformAll(s, first)), children)
  {
    hide Consistent;
    hide CrashSafe;
    hide PerformAll;
    var t := PerformAll(s, first);
    LazySafe(t, children);
    CrashSafeAppend(s, first, LazyWrites(t, children));
    PerformAppend(s, first, LazyWrites(t, children));
  }
}
