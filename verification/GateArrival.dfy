/** Creation messages may arrive in any order, any number of times. */
module GateArrival {
  import opened Sequences
  import opened ProbeSequences
  import opened UuidHashTable
  import opened GateStore
  import opened MappedCircuit

  datatype Message = Message(token: Uuid, node: Node)

  /** The circuit after the messages, one after the other. */
  function Receive(m: map<Uuid, Node>, msgs: seq<Message>): map<Uuid, Node> {
    if msgs == [] then m
    else
      var last := msgs[|msgs| - 1];
      Create(Receive(m, msgs[..|msgs| - 1]), last.token, last.node)
  }

  /** Each token has one definition. */
  ghost predicate OneDefinition(ms: set<Message>) {
    forall a, b :: a in ms && b in ms && a.token == b.token ==> a.node == b.node
  }

  ghost predicate Defined(ms: set<Message>, u: Uuid) {
    exists a :: a in ms && a.token == u
  }

  /** Tokens that are created, or are children of created gates. */
  ghost function Mentioned(ms: set<Message>): set<Uuid> {
    (set a | a in ms :: a.token) + (set a, u | a in ms && u in a.node.children :: u)
  }

  /** What the messages say together, whatever their order: each defined token has its
      definition, and every other token mentioned is an input. */
  ghost predicate Says(ms: set<Message>, m: map<Uuid, Node>) {
    && m.Keys == Mentioned(ms)
    && (forall a :: a in ms ==> a.token in m && m[a.token] == a.node)
    && (forall u :: u in m && !Defined(ms, u) ==> m[u] == PLACEHOLDER)
  }

  lemma SaysOne(ms: set<Message>, m: map<Uuid, Node>, n: map<Uuid, Node>)
    requires Says(ms, m) && Says(ms, n)
    ensures m == n
  {
    forall u | u in m ensures m[u] == n[u] {
      if Defined(ms, u) {
        var a :| a in ms && a.token == u;
      }
    }
  }

  lemma {:induction false} PlaceholdersAdded(m: map<Uuid, Node>, children: seq<Uuid>)
    ensures var w := WithPlaceholders(m, children);
            w.Keys == m.Keys + Elements(children) && forall u :: u in w ==> w[u] == if u in m then m[u] else PLACEHOLDER
  {
    if children != [] {
      var init, last := children[..|children| - 1], children[|children| - 1];
      PlaceholdersAdded(m, init);
      assert children == init + [last];
      assert Elements(children) == Elements(init) + {last};
    }
  }

  lemma MentionedMore(ms: set<Message>, a: Message)
    ensures Mentioned(ms + {a}) == Mentioned(ms) + {a.token} + Elements(a.node.children)
  {
    forall u ensures u in Mentioned(ms + {a}) <==> u in Mentioned(ms) + {a.token} + Elements(a.node.children) {
      if u in Mentioned(ms) {
        if b :| b in ms && b.token == u { assert b in ms + {a}; }
        if b :| b in ms && u in b.node.children { assert b in ms + {a}; }
      }
    }
  }

  /** One message more: it adds its definition, or was heard before. */
  lemma OneMoreMessage(ms: set<Message>, m: map<Uuid, Node>, a: Message)
    requires Says(ms, m) && OneDefinition(ms + {a})
    ensures Says(ms + {a}, Create(m, a.token, a.node))
  {
    var t, node, more := a.token, a.node, ms + {a};
    MentionedMore(ms, a);
    PlaceholdersAdded(m[t := node], node.children);
    if t in m && !(m[t] == PLACEHOLDER && node != PLACEHOLDER) {
      KnownMessage(ms, m, a);
    } else {
      NewMessage(ms, m, a);
    }
  }

  lemma KnownMessage(ms: set<Message>, m: map<Uuid, Node>, a: Message)
    requires Says(ms, m) && OneDefinition(ms + {a}) && a.token in m
    requires m[a.token] != PLACEHOLDER || a.node == PLACEHOLDER
    ensures Says(ms + {a}, m)
  {
    MentionedMore(ms, a);
    hide Mentioned;
    if Defined(ms, a.token) {
      var b :| b in ms && b.token == a.token;
      assert b in ms + {a} && b == a;
      assert ms + {a} == ms;
    } else {
      assert a.node == PLACEHOLDER;
      assert Elements(a.node.children) == {};
      forall u ensures Defined(ms + {a}, u) <==> Defined(ms, u) || u == a.token {
        DefinedMore(ms, a, u);
      }
    }
  }

  lemma DefinedMore(ms: set<Message>, a: Message, u: Uuid)
    ensures Defined(ms + {a}, u) <==> Defined(ms, u) || u == a.token
  {
    assert a in ms + {a};
    if Defined(ms, u) {
      var b :| b in ms && b.token == u;
      assert b in ms + {a};
    }
  }

  lemma NewMessage(ms: set<Message>, m: map<Uuid, Node>, a: Message)
    requires Says(ms, m) && OneDefinition(ms + {a})
    requires a.token in m ==> m[a.token] == PLACEHOLDER && a.node != PLACEHOLDER
    ensures Says(ms + {a}, WithPlaceholders(m[a.token := a.node], a.node.children))
  {
    var t, node := a.token, a.node;
    var w := WithPlaceholders(m[t := node], node.children);
    MentionedMore(ms, a);
    PlaceholdersAdded(m[t := node], node.children);
    hide WithPlaceholders;
    hide Mentioned;
    forall b | b in ms ensures b.token != t {
      assert b in ms + {a} && a in ms + {a};
    }
    forall u ensures Defined(ms + {a}, u) <==> Defined(ms, u) || u == t {
      DefinedMore(ms, a, u);
    }
    forall b | b in ms + {a} ensures b.token in w && w[b.token] == b.node {
      assert b != a ==> b in ms;
    }
    hide Defined;
  }

  lemma {:induction false} ReceiveSays(msgs: seq<Message>)
    requires OneDefinition(Elements(msgs))
    ensures Says(Elements(msgs), Receive(map[], msgs))
  {
    if msgs == [] {
      assert Mentioned(Elements(msgs)) == {};
    } else {
      var init, last := msgs[..|msgs| - 1], msgs[|msgs| - 1];
      assert msgs == init + [last];
      assert Elements(msgs) == Elements(init) + {last};
      ReceiveSays(init);
      OneMoreMessage(Elements(init), Receive(map[], init), last);
    }
  }

  /** Every arrival order, and every duplication, of the same messages makes the same circuit. */
  lemma ArrivalOrderDoesNotMatter(a: seq<Message>, b: seq<Message>)
    requires Elements(a) == Elements(b) && OneDefinition(Elements(a))
    ensures Receive(map[], a) == Receive(map[], b)
  {
    ReceiveSays(a);
    ReceiveSays(b);
    SaysOne(Elements(a), Receive(map[], a), Receive(map[], b));
  }

  /** Creating the gates of the messages, one after the other, on an empty store. */
  method ReceiveAll(circuit: Circuit, msgs: seq<Message>)
    requires circuit.Now() == Store([], [], "", Index(map[], 0))
    modifies circuit
    ensures Consistent(circuit.Now()) && Nodes(circuit.Now()) == Receive(map[], msgs)
    ensures OneDefinition(Elements(msgs)) ==> Says(Elements(msgs), Nodes(circuit.Now()))
  {
    assert Nodes(circuit.Now()) == map[];
    for i := 0 to |msgs|
      invariant Consistent(circuit.Now()) && Nodes(circuit.Now()) == Receive(map[], msgs[..i])
    {
      assert msgs[..i + 1][..i] == msgs[..i];
      circuit.CreateGate(msgs[i].token, msgs[i].node.kind, msgs[i].node.children);
    }
    assert msgs[..|msgs|] == msgs;
    if OneDefinition(Elements(msgs)) { ReceiveSays(msgs); }
  }

  // ----- A message sent again after a crash -----

  /** The record of an upgrade cut short after k writes. */
  function Partly(r: Record, start: nat, kind: GateType, count: nat, k: nat): Record {
    if k <= count then r
    else if k == count + 1 then r.(start := start)
    else if k == count + 2 then r.(start := start, count := count)
    else r.(start := start, count := count, kind := kind)
  }

  lemma PartlyUpgraded(s: Store, g: nat, kind: GateType, children: seq<Uuid>, k: nat)
    requires g < |s.gates| && k <= |children| + 3
    ensures var t := PerformAll(s, UpgradeWrites(s, g, kind, children)[..k]);
            && t.gates == s.gates[g := Partly(s.gates[g], |s.wires|, kind, |children|, k)] && t.mapping == s.mapping
            && t.wires == s.wires + (if k <= |children| then children[..k] else children)
  {
    hide PerformAll;
    hide Perform;
    hide UpgradeWrites;
    hide WireWrites;
    var n, ws := |children|, WireWrites(children);
    UpgradeSteps(s, g, kind, children);
    if k <= n {
      assert UpgradeWrites(s, g, kind, children)[..k] == ws[..k];
      WireWritesResult(s, children, k);
    } else {
      UpgradeTail(s, g, kind, children, k - n);
    }
  }

  lemma UpgradeTail(s: Store, g: nat, kind: GateType, children: seq<Uuid>, k: nat)
    requires g < |s.gates| && 1 <= k <= 3
    ensures var r := Partly(s.gates[g], |s.wires|, kind, |children|, |children| + k);
            PerformAll(s, UpgradeWrites(s, g, kind, children)[..|children| + k]) == Wired(s, children).(gates := s.gates[g := r])
  {
    hide PerformAll;
    hide Perform;
    hide UpgradeWrites;
    hide WireWrites;
    hide Wired;
    hide Partly;
    var n, ws := |children|, WireWrites(children);
    var w1, w2, w3 := SetStart(g, |s.wires|), SetCount(g, n), SetType(g, kind);
    UpgradeSteps(s, g, kind, children);
    WireWritesResult(s, children, n);
    assert ws[..n] == ws && children[..n] == children;
    TailSlices(ws, w1, w2, w3);
    PartlyIs(s.gates[g], |s.wires|, kind, n);
    ThenWrite(s, ws, w1);
    if k > 1 { ThenWrite(s, ws + [w1], w2); }
    if k > 2 { ThenWrite(s, ws + [w1] + [w2], w3); }
  }

  lemma PartlyIs(r: Record, start: nat, kind: GateType, count: nat)
    ensures Partly(r, start, kind, count, count + 1) == r.(start := start)
    ensures Partly(r, start, kind, count, count + 2) == r.(start := start, count := count)
    ensures Partly(r, start, kind, count, count + 3) == r.(start := start, count := count, kind := kind)
  {
  }

  lemma TailSlices(ws: seq<Write>, w1: Write, w2: Write, w3: Write)
    ensures var all, n := ws + [w1] + [w2] + [w3], |ws|;
            all[..n + 1] == ws + [w1] && all[..n + 2] == ws + [w1] + [w2] && all[..n + 3] == all
  {
  }

  /** After a crash in an upgrade, the message sent again completes it, unless the crash
      came between the child count and the type: then the gate is an input with children,
      which no message upgrades any more. */
  lemma ResentUpgrade(s: Store, token: Uuid, node: Node, k: nat)
    requires Consistent(s) && token in s.mapping.entries && IsPlaceholder(s.gates[s.mapping.entries[token]]) && node != PLACEHOLDER
    requires k <= |node.children| + 3
    ensures var g := s.mapping.entries[token];
            var t := PerformAll(s, UpgradeWrites(s, g, node.kind, node.children)[..k]);
            && Consistent(t)
            && token in Create(Nodes(t), token, node)
            && (Create(Nodes(t), token, node)[token] == node <==>
                  !(k == |node.children| + 2 && node.children != [] && node.kind != GateInput))
  {
    var g, n := s.mapping.entries[token], |node.children|;
    var ws := UpgradeWrites(s, g, node.kind, node.children);
    var t := PerformAll(s, ws[..k]);
    UpgradeSafe(s, token, node.kind, node.children);
    assert |ws| == n + 3 && Consistent(t);
    PartlyUpgraded(s, g, node.kind, node.children, k);
    PartlyNode(s, t, g, node, k);
    hide NodeAt;
    hide UpgradeWrites;
    hide PerformAll;
    assert Nodes(t)[token] == NodeAt(t, g);
    PlaceholdersAdded(Nodes(t)[token := node], node.children);
  }

  lemma Suffix(a: seq<Uuid>, b: seq<Uuid>)
    ensures (a + b)[|a|..|a| + |b|] == b
  {
  }

  lemma PartlyNode(s: Store, t: Store, g: nat, node: Node, k: nat)
    requires Consistent(s) && Consistent(t) && g < |s.gates| && IsPlaceholder(s.gates[g]) && k <= |node.children| + 3
    requires t.gates == s.gates[g := Partly(s.gates[g], |s.wires|, node.kind, |node.children|, k)]
    requires t.wires == s.wires + (if k <= |node.children| then node.children[..k] else node.children)
    ensures WiresFit(t, t.gates[g])
    ensures NodeAt(t, g) == if k <= |node.children| + 1 then PLACEHOLDER
                            else if k == |node.children| + 2 then Node(GateInput, node.children) else node
  {
    var n := |node.children|;
    assert WiresFit(s, s.gates[g]) && WiresFit(t, t.gates[g]);
    if k > n {
      assert t.wires == s.wires + node.children;
      Suffix(s.wires, node.children);
    }
  }
}
