/** The persistent open-addressing table from identifiers to integers. */
module UuidHashTable {
  import opened Sequences
  import opened ProbeSequences
  import Masks

  const STARTING_LOG_SIZE := 16

  // ----- What a sequence of insertions means -----

  datatype Operation = Publish(u: Uuid, value: nat) | Add(u: Uuid)

  /** The entries, and the value that the next Add assigns. */
  datatype Index = Index(entries: map<Uuid, nat>, next: nat)

  ghost predicate IndexOk(x: Index) {
    forall u :: u in x.entries ==> x.entries[u] < x.next
  }

  function Apply(x: Index, op: Operation): Index {
    if op.u in x.entries then x
    else
      var value := if op.Publish? then op.value else x.next;
      Index(x.entries[op.u := value], if value + 1 > x.next then value + 1 else x.next)
  }

  function ApplyAll(x: Index, ops: seq<Operation>): Index {
    if ops == [] then x else Apply(ApplyAll(x, ops[..|ops| - 1]), ops[|ops| - 1])
  }

  lemma {:induction false} EntriesKept(x: Index, ops: seq<Operation>, u: Uuid)
    requires u in x.entries
    ensures u in ApplyAll(x, ops).entries && ApplyAll(x, ops).entries[u] == x.entries[u]
  {
    if ops != [] { EntriesKept(x, ops[..|ops| - 1], u); }
  }

  lemma {:induction false} IndexStaysOk(x: Index, ops: seq<Operation>)
    requires IndexOk(x)
    ensures IndexOk(ApplyAll(x, ops)) && x.next <= ApplyAll(x, ops).next
  {
    if ops != [] { IndexStaysOk(x, ops[..|ops| - 1]); }
  }

  /** The first write wins: however the run goes on, an identifier keeps the value that its
      first operation gave it, and Add gives one that no entry had before. */
  lemma FirstWriteWins(x: Index, ops: seq<Operation>, i: nat)
    requires IndexOk(x) && i < |ops|
    requires var before := ApplyAll(x, ops[..i]); ops[i].u !in before.entries
    ensures var before, after := ApplyAll(x, ops[..i]), ApplyAll(x, ops);
            && ops[i].u in after.entries
            && after.entries[ops[i].u] == (if ops[i].Publish? then ops[i].value else before.next)
            && (ops[i].Add? ==> forall u :: u in before.entries ==> before.entries[u] != after.entries[ops[i].u])
  {
    IndexStaysOk(x, ops[..i]);
    var upTo := ops[..i + 1];
    assert upTo[..i] == ops[..i];
    RunOn(x, upTo, ops[i + 1..]);
    assert upTo + ops[i + 1..] == ops;
    EntriesKept(ApplyAll(x, upTo), ops[i + 1..], ops[i].u);
  }

  lemma {:induction false} RunOn(x: Index, a: seq<Operation>, b: seq<Operation>)
    ensures ApplyAll(x, a + b) == ApplyAll(ApplyAll(x, a), b)
  {
    if b == [] {
      assert a + b == a;
    } else {
      RunOn(x, a, b[..|b| - 1]);
      assert (a + b)[..|a + b| - 1] == a + b[..|b| - 1];
    }
  }

  // ----- Rehashing -----

  /** done holds the entries of the first i slots of t. */
  ghost predicate Copied(t: seq<Slot>, m: map<Uuid, nat>, done: map<Uuid, nat>, i: nat) {
    && i <= |t|
    && (forall u :: u in done ==> u in m && done[u] == m[u] && exists j: nat :: j < i && Holds(t, u, j))
    && (forall j: nat :: j < i && Taken(t, j) ==> t[j].uuid in done)
  }

  lemma CopySkips(t: seq<Slot>, m: map<Uuid, nat>, done: map<Uuid, nat>, i: nat)
    requires Copied(t, m, done, i) && i < |t| && !Taken(t, i)
    ensures Copied(t, m, done, i + 1)
  {
  }

  lemma CopyFits(t: seq<Slot>, m: map<Uuid, nat>, done: map<Uuid, nat>, i: nat)
    requires Copied(t, m, done, i)
    ensures |done| <= |m|
  {
    SubsetSize(done.Keys, m.Keys);
    assert |done.Keys| == |done| && |m.Keys| == |m|;
  }

  lemma CopyTakes(t: seq<Slot>, m: map<Uuid, nat>, done: map<Uuid, nat>, i: nat)
    requires Probing(t) && Stores(t, m) && Copied(t, m, done, i) && i < |t| && Taken(t, i)
    ensures t[i].uuid !in done && Copied(t, m, done[t[i].uuid := t[i].value], i + 1)
  {
    hide Hash;
    hide NoGap;
    var more := done[t[i].uuid := t[i].value];
    assert Holds(t, t[i].uuid, i);
    forall u | u in more ensures u in m && more[u] == m[u] && exists j: nat :: j < i + 1 && Holds(t, u, j) {
      if u != t[i].uuid {
        var j: nat :| j < i && Holds(t, u, j);
      }
    }
  }

  lemma CopyStarts(t: seq<Slot>, m: map<Uuid, nat>)
    ensures Copied(t, m, map[], 0)
  {
  }

  lemma CopyEnds(t: seq<Slot>, m: map<Uuid, nat>, done: map<Uuid, nat>)
    requires Stores(t, m) && Copied(t, m, done, |t|)
    ensures done == m
  {
    forall u | u in m ensures u in done {
      var j: nat :| Holds(t, u, j);
    }
  }

  lemma NotStored(t: seq<Slot>, done: map<Uuid, nat>, u: Uuid, k: nat)
    requires Stores(t, done) && u !in done && Taken(t, k)
    ensures t[k].uuid != u
  {
  }

  class HashTable {
    var slots: array<Slot>
    var logSize: nat
    var nbElements: nat
    var nextValue: nat
    ghost var entries: map<Uuid, nat>

    /** At most half of the slots are taken. */
    ghost predicate Valid()
      reads this, slots
    {
      && logSize >= 1 && slots.Length == Masks.Pow2(logSize) == 2 * Masks.Pow2(logSize - 1)
      && Probing(slots[..]) && Stores(slots[..], entries)
      && nbElements == |entries| && 2 * nbElements <= slots.Length
      && IndexOk(Contents())
    }

    ghost function Contents(): Index
      reads this
    {
      Index(entries, nextValue)
    }

    constructor ()
      ensures Valid() && fresh(slots) && Contents() == Index(map[], 0)
    {
      logSize := STARTING_LOG_SIZE;
      slots := new Slot[Masks.Pow2(STARTING_LOG_SIZE)](_ => Slot(Uuid(0, 0), NOTHING));
      nbElements := 0;
      nextValue := 0;
      entries := map[];
      new;
      EmptyStores(slots[..]);
    }

    /** The slot of u, or the empty slot where it would go. */
    method Find(u: Uuid) returns (k: nat)
      requires Valid()
      ensures k < slots.Length && EndsAt(slots[..], u, k)
      ensures u in entries <==> Taken(slots[..], k)
      ensures u in entries ==> slots[k] == Slot(u, entries[u])
    {
      ghost var t := slots[..];
      HasRoom(t, entries);
      k := Hash(u, slots.Length);
      while slots[k].value != NOTHING && slots[k].uuid != u
        invariant k < slots.Length && Probed(t, u, k)
        decreases slots.Length - Steps(Hash(u, slots.Length), k, slots.Length)
      {
        ProbeMore(t, u, k);
        k := Next(k, slots.Length);
      }
      ProbeDecides(t, entries, u, k);
    }

    /** The value of u, or NOTHING. */
    method Lookup(u: Uuid) returns (v: nat)
      requires Valid()
      ensures v == if u in entries then entries[u] else NOTHING
    {
      var k := Find(u);
      v := slots[k].value;
    }

    /** Twice as many slots, the same entries. */
    method Grow()
      requires Valid()
      modifies this
      ensures Valid() && fresh(slots) && slots.Length == 2 * old(slots.Length) && Contents() == old(Contents())
    {
      var nt := new Slot[Masks.Pow2(logSize + 1)](_ => Slot(Uuid(0, 0), NOTHING));
      assert nt.Length == 2 * slots.Length;
      hide Masks.Pow2;
      hide Probing;
      hide Stores;
      Rehash(slots, nt, entries);
      slots := nt;
      logSize := logSize + 1;
    }

    /** Copies the entries of t to the empty table nt. */
    static method Rehash(t: array<Slot>, nt: array<Slot>, ghost m: map<Uuid, nat>)
      requires t != nt && Probing(t[..]) && Stores(t[..], m) && |m| < nt.Length
      requires forall k: nat :: !Taken(nt[..], k)
      modifies nt
      ensures Probing(nt[..]) && Stores(nt[..], m)
    {
      ghost var old_t, done: map<Uuid, nat> := t[..], map[];
      EmptyStores(nt[..]);
      CopyStarts(t[..], m);
      hide Probing;
      hide Stores;
      hide Copied;
      for i := 0 to t.Length
        invariant t[..] == old_t && Probing(nt[..]) && Stores(nt[..], done) && Copied(old_t, m, done, i)
      {
        CopyFits(old_t, m, done, i);
        if t[i].value != NOTHING {
          CopyTakes(old_t, m, done, i);
          Reinsert(nt, t[i], done);
          done := done[t[i].uuid := t[i].value];
        } else {
          CopySkips(old_t, m, done, i);
        }
      }
      CopyEnds(old_t, m, done);
    }

    /** Stores the entry e in the first empty slot from its hash on. */
    static method Reinsert(nt: array<Slot>, e: Slot, ghost done: map<Uuid, nat>)
      requires Probing(nt[..]) && Stores(nt[..], done) && |done| < nt.Length && e.uuid !in done && e.value != NOTHING
      modifies nt
      ensures Probing(nt[..]) && Stores(nt[..], done[e.uuid := e.value])
    {
      ghost var t := nt[..];
      HasRoom(t, done);
      var k: nat := Hash(e.uuid, nt.Length);
      hide Probing;
      hide Stores;
      while nt[k].value != NOTHING
        invariant nt[..] == t && k < nt.Length && Probed(t, e.uuid, k)
        decreases nt.Length - Steps(Hash(e.uuid, nt.Length), k, nt.Length)
      {
        NotStored(t, done, e.uuid, k);
        ProbeMore(t, e.uuid, k);
        k := Next(k, nt.Length);
      }
      StoreKeeps(t, done, e.uuid, k, e.value);
      assert e == Slot(e.uuid, e.value);
      nt[k] := e;
      assert nt[..] == t[k := e];
    }

    /** Inserts u with the given value, unless u is there already. */
    method Publish(u: Uuid, value: nat) returns (v: nat, inserted: bool)
      requires Valid() && value != NOTHING
      modifies this, slots
      ensures Valid() && (slots == old(slots) || fresh(slots))
      ensures Contents() == Apply(old(Contents()), Operation.Publish(u, value))
      ensures inserted == (u !in old(entries)) && v == entries[u]
    {
      var k := Find(u);
      if slots[k].value != NOTHING {
        return slots[k].value, false;
      }
      if 2 * nbElements >= slots.Length {
        Grow();
      }
      k := Find(u);
      Store(k, u, value);
      return value, true;
    }

    /** The writes of an insertion, the value last. */
    method Store(k: nat, u: Uuid, value: nat)
      requires Valid() && k < slots.Length && EndsAt(slots[..], u, k) && !Taken(slots[..], k) && value != NOTHING
      requires 2 * nbElements < slots.Length
      modifies this, slots
      ensures Valid() && slots == old(slots) && u !in old(entries)
      ensures Contents() == Apply(old(Contents()), Operation.Publish(u, value))
    {
      hide Probing;
      hide Stores;
      hide EndsAt;
      hide Masks.Pow2;
      ghost var t, m := slots[..], entries;
      StoreKeeps(t, m, u, k, value);
      UnpublishedKeeps(t, m, u, k);
      nbElements := nbElements + 1;
      slots[k] := Slot(u, NOTHING);
      if value + 1 > nextValue {
        nextValue := value + 1;
      }
      assert slots[..] == t[k := Slot(u, NOTHING)];
      assert Probing(slots[..]) && Stores(slots[..], m);
      slots[k] := Slot(u, value);
      assert slots[..] == t[k := Slot(u, value)];
      entries := m[u := value];
    }

    /** Inserts u with the next value, unless u is there already. */
    method Add(u: Uuid) returns (v: nat, inserted: bool)
      requires Valid() && nextValue != NOTHING
      modifies this, slots
      ensures Valid() && (slots == old(slots) || fresh(slots))
      ensures Contents() == Apply(old(Contents()), Operation.Add(u))
      ensures inserted == (u !in old(entries)) && v == entries[u]
    {
      var k := Find(u);
      if slots[k].value != NOTHING {
        return slots[k].value, false;
      }
      v, inserted := Publish(u, nextValue);
    }
  }

  /** Values the table can hold: none of them is the mark of an empty slot. */
  ghost predicate Storable(x: Index, ops: seq<Operation>) {
    forall i :: 0 <= i < |ops| ==>
      if ops[i].Publish? then ops[i].value != NOTHING else ApplyAll(x, ops[..i]).next != NOTHING
  }

  /** Any sequence of insertions does to the table what it does to the map. */
  method Run(table: HashTable, ops: seq<Operation>)
    requires table.Valid() && Storable(table.Contents(), ops)
    modifies table, table.slots
    ensures table.Valid() && table.Contents() == ApplyAll(old(table.Contents()), ops)
    ensures 2 * |table.entries| <= table.slots.Length
  {
    ghost var x := table.Contents();
    for i := 0 to |ops|
      invariant table.Valid() && (table.slots == old(table.slots) || fresh(table.slots))
      invariant table.Contents() == ApplyAll(x, ops[..i])
    {
      assert ops[..i + 1][..i] == ops[..i];
      match ops[i] {
        case Publish(u, value) => var _, _ := table.Publish(u, value);
        case Add(u) => var _, _ := table.Add(u);
      }
    }
    assert ops[..|ops|] == ops;
  }
}
