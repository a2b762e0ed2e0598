/** Linear probing over a circular table: what slots say, and that a probe never misses. */
module ProbeSequences {
  import opened Sequences

  /** The first eight bytes of an identifier, read as an integer, and the other eight. */
  datatype Uuid = Uuid(head: nat, tail: nat)

  const NOTHING := 0xFFFF_FFFF_FFFF_FFFF

  datatype Slot = Slot(uuid: Uuid, value: nat)

  function Hash(u: Uuid, capacity: nat): (k: nat)
    requires capacity > 0
    ensures k < capacity
  {
    u.head % capacity
  }

  function Next(k: nat, capacity: nat): (n: nat)
    requires k < capacity
    ensures n == if k + 1 == capacity then 0 else k + 1
  {
    (k + 1) % capacity
  }

  predicate Taken(t: seq<Slot>, k: nat) {
    k < |t| && t[k].value != NOTHING
  }

  /** How many steps of the circle lead from slot h to slot k. */
  function Steps(h: nat, k: nat, capacity: nat): nat
    requires h < capacity && k < capacity
  {
    if h <= k then k - h else k + capacity - h
  }

  /** Every slot from h up to, but not including, k is taken. */
  ghost predicate NoGap(t: seq<Slot>, h: nat, k: nat)
    requires h < |t| && k < |t|
  {
    forall j: nat :: j < |t| && Steps(h, j, |t|) < Steps(h, k, |t|) ==> Taken(t, j)
  }

  ghost predicate Holds(t: seq<Slot>, u: Uuid, k: nat) {
    Taken(t, k) && t[k].uuid == u
  }

  /** Each identifier is stored once, with no gap between its hash slot and its slot. */
  ghost predicate Probing(t: seq<Slot>) {
    && |t| > 0
    && (forall k: nat :: Taken(t, k) ==> NoGap(t, Hash(t[k].uuid, |t|), k))
    && (forall j: nat, k: nat :: Taken(t, j) && Taken(t, k) && t[j].uuid == t[k].uuid ==> j == k)
  }

  /** The table stores exactly the entries of m. */
  ghost predicate Stores(t: seq<Slot>, m: map<Uuid, nat>) {
    && (forall k: nat :: Taken(t, k) ==> t[k].uuid in m && m[t[k].uuid] == t[k].value)
    && (forall u :: u in m ==> exists k: nat :: Holds(t, u, k))
  }

  /** The probe for u has passed only slots taken by others before k. */
  ghost predicate Probed(t: seq<Slot>, u: Uuid, k: nat) {
    k < |t| && forall j: nat :: j < |t| && Steps(Hash(u, |t|), j, |t|) < Steps(Hash(u, |t|), k, |t|) ==>
      Taken(t, j) && t[j].uuid != u
  }

  /** The slot where the probe for u ends: u's own, or an empty one. */
  ghost predicate EndsAt(t: seq<Slot>, u: Uuid, k: nat) {
    Probed(t, u, k) && (Taken(t, k) ==> t[k].uuid == u)
  }

  /** One more slot of the probe. */
  lemma ProbeMore(t: seq<Slot>, u: Uuid, k: nat)
    requires Probed(t, u, k) && Taken(t, k) && t[k].uuid != u && exists e: nat :: e < |t| && !Taken(t, e)
    ensures Probed(t, u, Next(k, |t|))
    ensures Steps(Hash(u, |t|), Next(k, |t|), |t|) == Steps(Hash(u, |t|), k, |t|) + 1
  {
    var h, n := Hash(u, |t|), Next(k, |t|);
    var e: nat :| e < |t| && !Taken(t, e);
    assert Steps(h, e, |t|) >= Steps(h, k, |t|);
    assert e != k;
    forall j: nat | j < |t| && Steps(h, j, |t|) < Steps(h, n, |t|) ensures Taken(t, j) && t[j].uuid != u {
      if j != k { assert Steps(h, j, |t|) < Steps(h, k, |t|); }
    }
  }

  /** An empty slot at the end of the probe means that u is nowhere in the table. */
  lemma ProbeDecides(t: seq<Slot>, m: map<Uuid, nat>, u: Uuid, k: nat)
    requires Probing(t) && Stores(t, m) && EndsAt(t, u, k)
    ensures Taken(t, k) <==> u in m
    ensures u in m ==> t[k].uuid == u && m[u] == t[k].value
  {
    if u in m {
      var j: nat :| Holds(t, u, j);
      var h := Hash(u, |t|);
      assert NoGap(t, h, j);
      assert Steps(h, k, |t|) < Steps(h, j, |t|) ==> Taken(t, k);
      assert Steps(h, k, |t|) <= Steps(h, j, |t|);
    }
  }

  lemma NoGapMore(t: seq<Slot>, n: seq<Slot>, h: nat, k: nat)
    requires h < |t| == |n| && k < |t| && NoGap(t, h, k) && forall j: nat :: Taken(t, j) ==> Taken(n, j)
    ensures NoGap(n, h, k)
  {
  }

  /** Storing u in the empty slot where its probe ends. */
  lemma StoreKeeps(t: seq<Slot>, m: map<Uuid, nat>, u: Uuid, k: nat, value: nat)
    requires Probing(t) && Stores(t, m) && EndsAt(t, u, k) && !Taken(t, k) && value != NOTHING
    ensures Probing(t[k := Slot(u, value)]) && Stores(t[k := Slot(u, value)], m[u := value])
    ensures u !in m
  {
    ProbeDecides(t, m, u, k);
    StoreProbing(t, u, k, value);
    StoreStores(t, m, u, k, Slot(u, value));
  }

  lemma StoreProbing(t: seq<Slot>, u: Uuid, k: nat, value: nat)
    requires Probing(t) && EndsAt(t, u, k) && !Taken(t, k) && value != NOTHING
    requires forall j: nat :: Taken(t, j) ==> t[j].uuid != u
    ensures Probing(t[k := Slot(u, value)])
  {
    hide Hash;
    hide Steps;
    var n := t[k := Slot(u, value)];
    forall j: nat | Taken(n, j) ensures NoGap(n, Hash(n[j].uuid, |n|), j) {
      NoGapMore(t, n, Hash(n[j].uuid, |n|), j);
    }
  }

  lemma StoreStores(t: seq<Slot>, m: map<Uuid, nat>, u: Uuid, k: nat, slot: Slot)
    requires Stores(t, m) && k < |t| && !Taken(t, k) && u !in m && slot.uuid == u && slot.value != NOTHING
    ensures Stores(t[k := slot], m[u := slot.value])
  {
    var n, more := t[k := slot], m[u := slot.value];
    forall v | v in more ensures exists j: nat :: Holds(n, v, j) {
      if v == u {
        assert Holds(n, v, k);
      } else {
        var j: nat :| Holds(t, v, j);
        assert Holds(n, v, j);
      }
    }
  }

  /** Until its value is stored, a new entry is not there: the table before the last write
      of an insertion still stores the old map. */
  lemma UnpublishedKeeps(t: seq<Slot>, m: map<Uuid, nat>, u: Uuid, k: nat)
    requires Probing(t) && Stores(t, m) && k < |t| && !Taken(t, k)
    ensures Probing(t[k := Slot(u, NOTHING)]) && Stores(t[k := Slot(u, NOTHING)], m)
  {
    hide Hash;
    hide Steps;
    var n := t[k := Slot(u, NOTHING)];
    assert forall j: nat :: Taken(n, j) ==> Taken(t, j) && n[j] == t[j];
    assert forall j: nat :: Taken(t, j) ==> Taken(n, j);
    forall j: nat | Taken(n, j) ensures NoGap(n, Hash(n[j].uuid, |n|), j) {
      NoGapMore(t, n, Hash(n[j].uuid, |n|), j);
    }
    forall v | v in m ensures exists j: nat :: Holds(n, v, j) {
      var j: nat :| Holds(t, v, j);
      assert Holds(n, v, j);
    }
  }

  /** A full table stores at least as many entries as it has slots. */
  lemma FullStores(t: seq<Slot>, m: map<Uuid, nat>)
    requires Probing(t) && Stores(t, m) && forall k: nat :: k < |t| ==> Taken(t, k)
    ensures |t| <= |m|
  {
    var us := seq(|t|, (k: nat) requires k < |t| => t[k].uuid);
    DistinctSize(us);
    assert Elements(us) <= m.Keys;
    SubsetSize(Elements(us), m.Keys);
    assert |m.Keys| == |m|;
  }

  /** A table that stores fewer entries than it has slots has an empty slot. */
  lemma HasRoom(t: seq<Slot>, m: map<Uuid, nat>)
    requires Probing(t) && Stores(t, m) && |m| < |t|
    ensures exists e: nat :: e < |t| && !Taken(t, e)
  {
    if !exists e: nat :: e < |t| && !Taken(t, e) { FullStores(t, m); }
  }

  lemma EmptyStores(t: seq<Slot>)
    requires |t| > 0 && forall k: nat :: !Taken(t, k)
    ensures Probing(t) && Stores(t, map[])
  {
  }
}
