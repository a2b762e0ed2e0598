/** The mapped circuit: methods that create gates and record extra strings, write by write. */
module MappedCircuit {
  import opened Outcomes
  import opened ProbeSequences
  import opened UuidHashTable
  import opened GateStore

  /** The writes that record an extra string on gate g. */
  function ExtraWrites(s: Store, g: nat, bytes: string): seq<Write> {
    [SetExtraStart(g, |s.extra|)] + ByteWrites(bytes) + [SetExtraLength(g, |bytes|)]
  }

  function ByteWrites(bytes: string): (ws: seq<Write>)
    ensures |ws| == |bytes|
  {
    seq(|bytes|, (k: nat) requires k < |bytes| => AddExtra(bytes[k]))
  }

  /** The record of g, with its start set, while the first k bytes are being added. */
  function Started(s: Store, g: nat, bytes: string, k: nat): Store
    requires g < |s.gates| && k <= |bytes|
  {
    s.(gates := s.gates[g := s.gates[g].(extraStart := |s.extra|)], extra := s.extra + bytes[..k])
  }

  function Annotated(s: Store, g: nat, bytes: string): Store
    requires g < |s.gates|
  {
    s.(gates := s.gates[g := s.gates[g].(extraStart := |s.extra|, extraLength := |bytes|)], extra := s.extra + bytes)
  }

  lemma StartedConsistent(s: Store, g: nat, bytes: string, k: nat)
    requires Consistent(s) && g < |s.gates| && k <= |bytes| && s.gates[g].extraLength == 0
    ensures Consistent(Started(s, g, bytes, k))
  {
    var t := Started(s, g, bytes, k);
    assert WiresFit(s, s.gates[g]);
    forall i | 0 <= i < |t.gates| ensures WiresFit(t, t.gates[i]) && ExtraFits(t, t.gates[i]) {
      assert ExtraFits(s, s.gates[i]) && WiresFit(s, s.gates[i]);
    }
  }

  /** A recorded extra string reads back as it was, and nothing else changes. */
  lemma AnnotatedReads(s: Store, g: nat, bytes: string)
    requires Consistent(s) && g < |s.gates|
    ensures var t := Annotated(s, g, bytes);
            && Consistent(t) && Nodes(t) == Nodes(s) && ExtraAt(t, g) == bytes
            && forall i :: 0 <= i < |s.gates| && i != g ==> ExtraFits(s, s.gates[i]) && ExtraAt(t, i) == ExtraAt(s, i)
  {
    var t := Annotated(s, g, bytes);
    assert t.extra[|s.extra|..|s.extra| + |bytes|] == bytes;
    forall i | 0 <= i < |t.gates| ensures WiresFit(t, t.gates[i]) && ExtraFits(t, t.gates[i]) && WiresFit(s, s.gates[i]) && NodeAt(t, i) == NodeAt(s, i) {
      assert ExtraFits(s, s.gates[i]) && WiresFit(s, s.gates[i]);
    }
    forall i | 0 <= i < |s.gates| && i != g ensures ExtraFits(s, s.gates[i]) && ExtraAt(t, i) == ExtraAt(s, i) {
      assert t.gates[i] == s.gates[i];
    }
    SameNodes(s, t);
  }

  lemma SameNodes(s: Store, t: Store)
    requires Consistent(s) && Consistent(t) && s.mapping == t.mapping && |s.gates| == |t.gates|
    requires forall i :: 0 <= i < |s.gates| ==> WiresFit(s, s.gates[i]) && WiresFit(t, t.gates[i]) && NodeAt(t, i) == NodeAt(s, i)
    ensures Nodes(s) == Nodes(t)
  {
    hide NodeAt;
  }

  lemma {:induction false} ByteWritesResult(s: Store, g: nat, bytes: string, k: nat)
    requires g < |s.gates| && k <= |bytes|
    ensures PerformAll(Started(s, g, bytes, 0), ByteWrites(bytes)[..k]) == Started(s, g, bytes, k)
  {
    var ws, t := ByteWrites(bytes), Started(s, g, bytes, 0);
    if k == 0 {
      assert ws[..0] == [];
    } else {
      ByteWritesResult(s, g, bytes, k - 1);
      assert ws[..k][..k - 1] == ws[..k - 1] && ws[..k][k - 1] == AddExtra(bytes[k - 1]);
      assert s.extra + bytes[..k] == s.extra + bytes[..k - 1] + [bytes[k - 1]];
    }
  }

  /** The extra string can be cut short anywhere: its length is written last. */
  lemma ExtraSafe(s: Store, g: nat, bytes: string)
    requires Consistent(s) && g < |s.gates| && s.gates[g].extraLength == 0
    ensures CrashSafe(s, ExtraWrites(s, g, bytes)) && PerformAll(s, ExtraWrites(s, g, bytes)) == Annotated(s, g, bytes)
  {
    var w1, ws, w3 := SetExtraStart(g, |s.extra|), ByteWrites(bytes), SetExtraLength(g, |bytes|);
    var a, b, c := Started(s, g, bytes, 0), Started(s, g, bytes, |bytes|), Annotated(s, g, bytes);
    StartedConsistent(s, g, bytes, 0);
    StartedConsistent(s, g, bytes, |bytes|);
    AnnotatedReads(s, g, bytes);
    ExtraSteps(s, g, bytes);
    BytesSafe(s, g, bytes);
    hide *;
    CrashSafeOne(s, w1);
    CrashSafeAppend(s, [w1], ws);
    PerformAppend(s, [w1], ws);
    SafeThen(s, [w1] + ws, w3);
  }

  lemma ExtraSteps(s: Store, g: nat, bytes: string)
    requires g < |s.gates|
    ensures Perform(s, SetExtraStart(g, |s.extra|)) == Started(s, g, bytes, 0)
    ensures Perform(Started(s, g, bytes, |bytes|), SetExtraLength(g, |bytes|)) == Annotated(s, g, bytes)
    ensures ExtraWrites(s, g, bytes) == [SetExtraStart(g, |s.extra|)] + ByteWrites(bytes) + [SetExtraLength(g, |bytes|)]
  {
    assert s.extra + bytes[..0] == s.extra && bytes[..|bytes|] == bytes;
    var r := s.gates[g];
    assert s.gates[g := r.(extraStart := |s.extra|)][g := r.(extraStart := |s.extra|, extraLength := |bytes|)]
        == s.gates[g := r.(extraStart := |s.extra|, extraLength := |bytes|)];
  }

  lemma BytesSafe(s: Store, g: nat, bytes: string)
    requires Consistent(s) && g < |s.gates| && s.gates[g].extraLength == 0
    ensures CrashSafe(Started(s, g, bytes, 0), ByteWrites(bytes))
    ensures PerformAll(Started(s, g, bytes, 0), ByteWrites(bytes)) == Started(s, g, bytes, |bytes|)
  {
    var ws := ByteWrites(bytes);
    hide Started;
    hide PerformAll;
    hide Consistent;
    forall k | 0 <= k <= |ws| ensures Consistent(PerformAll(Started(s, g, bytes, 0), ws[..k])) {
      ByteWritesResult(s, g, bytes, k);
      StartedConsistent(s, g, bytes, k);
    }
    ByteWritesResult(s, g, bytes, |bytes|);
    assert ws[..|ws|] == ws;
  }

  /** What a creation leaves alone: the extra strings, and the probability and annotations of
      every old record; new records have none of them. */
  ghost predicate ScalarsKept(s: Store, t: Store) {
    && |s.gates| <= |t.gates| && s.extra == t.extra
    && (forall i :: 0 <= i < |s.gates| ==> SameScalars(s.gates[i], t.gates[i]))
    && (forall i :: |s.gates| <= i < |t.gates| ==> SameScalars(Record(GateInput, 0, 0, None, 0, 0, 0, 0), t.gates[i]))
  }

  ghost predicate SameScalars(a: Record, b: Record) {
    && a.prob == b.prob && a.info1 == b.info1 && a.info2 == b.info2
    && a.extraStart == b.extraStart && a.extraLength == b.extraLength
  }

  lemma KeptBySelf(s: Store)
    ensures ScalarsKept(s, s)
  {
  }

  lemma KeptTrans(s: Store, t: Store, u: Store)
    requires ScalarsKept(s, t) && ScalarsKept(t, u)
    ensures ScalarsKept(s, u)
  {
  }

  datatype Annotation = Written | Unchanged | AlreadySet(existing: string) | NoSuchGate

  class Circuit {
    var gates: seq<Record>
    var wires: seq<Uuid>
    var extra: string
    var mapping: Index

    ghost function Now(): Store
      reads this
    {
      Store(gates, wires, extra, mapping)
    }

    /** Adds the children to the wires. */
    method AddWires(children: seq<Uuid>)
      modifies this`wires
      ensures Now() == PerformAll(old(Now()), WireWrites(children))
      ensures wires == old(wires) + children
    {
      ghost var s, ws := Now(), WireWrites(children);
      for k := 0 to |children|
        invariant Now() == PerformAll(s, ws[..k]) && wires == old(wires) + children[..k]
      {
        assert ws[..k + 1][..k] == ws[..k];
        wires := wires + [children[k]];
      }
      assert ws[..|ws|] == ws && children[..|children|] == children;
    }

    method AppendGate(token: Uuid, kind: GateType, children: seq<Uuid>)
      modifies this
      ensures Now() == PerformAll(old(Now()), AppendWrites(old(Now()), token, kind, children))
      ensures ScalarsKept(old(Now()), Now())
    {
      ghost var s, ws := Now(), WireWrites(children);
      var idx, wiresIdx := |gates|, |wires|;
      AddWires(children);
      var r := NewRecord(kind, |children|, wiresIdx);
      ThenWrite(s, ws, AddGate(r));
      gates := gates + [r];
      ThenWrite(s, ws + [AddGate(r)], PublishEntry(token, idx));
      mapping := Apply(mapping, Publish(token, idx));
    }

    /** Turns the placeholder record of gate g into the real one. */
    method Upgrade(g: nat, kind: GateType, children: seq<Uuid>)
      requires g < |gates|
      modifies this
      ensures Now() == PerformAll(old(Now()), UpgradeWrites(old(Now()), g, kind, children))
      ensures ScalarsKept(old(Now()), Now())
    {
      ghost var s, ws := Now(), WireWrites(children);
      var wiresIdx := |wires|;
      AddWires(children);
      var w1, w2, w3 := SetStart(g, wiresIdx), SetCount(g, |children|), SetType(g, kind);
      ThenWrite(s, ws, w1);
      gates := gates[g := gates[g].(start := wiresIdx)];
      ThenWrite(s, ws + [w1], w2);
      gates := gates[g := gates[g].(count := |children|)];
      ThenWrite(s, ws + [w1] + [w2], w3);
      gates := gates[g := gates[g].(kind := kind)];
    }

    /** Adds a placeholder for every unknown child. */
    method AddPlaceholders(children: seq<Uuid>)
      modifies this
      ensures Now() == PerformAll(old(Now()), LazyWrites(old(Now()), children))
      ensures ScalarsKept(old(Now()), Now())
    {
      ghost var s := Now();
      KeptBySelf(s);
      ghost var none: seq<Write> := [];
      assert PerformAll(s, none) == s;
      hide ScalarsKept;
      hide PerformAll;
      for k := 0 to |children|
        invariant Now() == PerformAll(s, LazyWrites(s, children[..k])) && ScalarsKept(s, Now())
      {
        assert children[..k + 1][..k] == children[..k];
        LazyMore(s, children[..k], children[k]);
        if children[k] !in mapping.entries {
          ghost var t := Now();
          AppendGate(children[k], GateInput, []);
          KeptTrans(s, t, Now());
        }
      }
      assert children[..|children|] == children;
    }

    /** Creates a gate, or upgrades the placeholder that a parent's earlier message left;
        any other gate of that token stays as it is.  Probabilities, annotations and extra
        strings are not touched, and a new record has none. */
    method CreateGate(token: Uuid, kind: GateType, children: seq<Uuid>)
      requires Consistent(Now())
      modifies this
      ensures Now() == PerformAll(old(Now()), CreateWrites(old(Now()), token, kind, children))
      ensures CrashSafe(old(Now()), CreateWrites(old(Now()), token, kind, children))
      ensures Consistent(Now()) && Nodes(Now()) == Create(old(Nodes(Now())), token, Node(kind, children))
      ensures ScalarsKept(old(Now()), Now())
    {
      ghost var s := Now();
      CreateSafe(s, token, Node(kind, children));
      CreateWritesAre(s, token, kind, children);
      KeptBySelf(s);
      hide ScalarsKept;
      hide CreateWrites;
      hide Nodes;
      hide CrashSafe;
      if token in mapping.entries {
        var idx := mapping.entries[token];
        var placeholder := gates[idx].kind == GateInput && gates[idx].count == 0;
        var realCreate := kind != GateInput || children != [];
        if placeholder && realCreate {
          Upgrade(idx, kind, children);
          ghost var t := Now();
          AddPlaceholders(children);
          KeptTrans(s, t, Now());
        }
        return;
      }
      AppendGate(token, kind, children);
      ghost var t := Now();
      AddPlaceholders(children);
      KeptTrans(s, t, Now());
    }

    /** Records an extra string once: the same string again changes nothing, another one is
        refused. */
    method SetExtra(token: Uuid, bytes: string) returns (r: Annotation)
      requires Consistent(Now())
      modifies this
      ensures Consistent(Now()) && Nodes(Now()) == old(Nodes(Now())) && mapping == old(mapping) && |gates| == |old(gates)|
      ensures r == NoSuchGate <==> token !in mapping.entries
      ensures r != Written ==> Now() == old(Now())
      ensures r == Written ==>
        && Now() == PerformAll(old(Now()), ExtraWrites(old(Now()), mapping.entries[token], bytes))
        && CrashSafe(old(Now()), ExtraWrites(old(Now()), mapping.entries[token], bytes))
      ensures r == Written ==> old(ExtraAt(Now(), mapping.entries[token])) == "" != bytes
      ensures r == Written || r == Unchanged ==> ExtraAt(Now(), mapping.entries[token]) == bytes
      ensures r.AlreadySet? ==> ExtraAt(Now(), mapping.entries[token]) == r.existing && r.existing != "" && r.existing != bytes
    {
      if token !in mapping.entries { return NoSuchGate; }
      var idx := mapping.entries[token];
      assert ExtraFits(Now(), gates[idx]);
      var start, length := gates[idx].extraStart, gates[idx].extraLength;
      if length == |bytes| {
        var same := true;
        var k := 0;
        while k < |bytes| && same
          invariant k <= |bytes| && (same <==> extra[start..start + k] == bytes[..k])
        {
          same := extra[start + k] == bytes[k];
          k := k + 1;
          assert extra[start..start + k] == extra[start..start + k - 1] + [extra[start + k - 1]];
          assert bytes[..k] == bytes[..k - 1] + [bytes[k - 1]];
        }
        if same {
          assert bytes[..|bytes|] == bytes;
          return Unchanged;
        }
        assert extra[start..start + length][..k] != bytes[..k];
      }
      if length > 0 {
        return AlreadySet(extra[start..start + length]);
      }
      WriteExtra(idx, bytes);
      return Written;
    }

    method WriteExtra(g: nat, bytes: string)
      requires Consistent(Now()) && g < |gates| && gates[g].extraLength == 0
      modifies this`gates, this`extra
      ensures Now() == PerformAll(old(Now()), ExtraWrites(old(Now()), g, bytes))
      ensures CrashSafe(old(Now()), ExtraWrites(old(Now()), g, bytes))
      ensures Consistent(Now()) && Nodes(Now()) == old(Nodes(Now())) && |gates| == |old(gates)| && ExtraAt(Now(), g) == bytes
    {
      ghost var s := Now();
      ExtraSafe(s, g, bytes);
      AnnotatedReads(s, g, bytes);
      ExtraSteps(s, g, bytes);
      gates := gates[g := gates[g].(extraStart := |extra|)];
      for k := 0 to |bytes|
        invariant Now() == Started(s, g, bytes, k)
      {
        assert s.extra + bytes[..k + 1] == s.extra + bytes[..k] + [bytes[k]];
        extra := extra + [bytes[k]];
      }
      gates := gates[g := gates[g].(extraLength := |bytes|)];
    }
  }

  lemma ThenWrite(s: Store, ws: seq<Write>, w: Write)
    ensures PerformAll(s, ws + [w]) == Perform(PerformAll(s, ws), w)
  {
    assert (ws + [w])[..|ws|] == ws;
  }

  lemma LazyMore(s: Store, children: seq<Uuid>, c: Uuid)
    ensures var t := PerformAll(s, LazyWrites(s, children));
            var more := if c in t.mapping.entries then t else PerformAll(t, AppendWrites(t, c, GateInput, []));
            PerformAll(s, LazyWrites(s, children + [c])) == more
  {
    assert (children + [c])[..|children|] == children;
    var ws := LazyWrites(s, children);
    PerformAppend(s, ws, AppendWrites(PerformAll(s, ws), c, GateInput, []));
  }

  lemma CreateWritesAre(s: Store, token: Uuid, kind: GateType, children: seq<Uuid>)
    requires Consistent(s)
    ensures token !in s.mapping.entries ==>
      var t := PerformAll(s, AppendWrites(s, token, kind, children));
      PerformAll(s, CreateWrites(s, token, kind, children)) == PerformAll(t, LazyWrites(t, children))
    ensures token in s.mapping.entries ==>
      var g := s.mapping.entries[token];
      var t := PerformAll(s, UpgradeWrites(s, g, kind, children));
      PerformAll(s, CreateWrites(s, token, kind, children))
      == if IsPlaceholder(s.gates[g]) && (kind != GateInput || children != []) then PerformAll(t, LazyWrites(t, children)) else s
  {
    if token !in s.mapping.entries {
      var first := AppendWrites(s, token, kind, children);
      PerformAppend(s, first, LazyWrites(PerformAll(s, first), children));
    } else {
      var g := s.mapping.entries[token];
      var first := UpgradeWrites(s, g, kind, children);
      PerformAppend(s, first, LazyWrites(PerformAll(s, first), children));
      var e: seq<Write> := [];
      assert PerformAll(s, e) == s;
    }
  }
}
