/** The variable that occurs in the most key sets: the Shannon pivot of both d-trees. */
module Frequency {

  /** The number of key sets that contain v. */
  ghost function Occurrences(keys: seq<set<nat>>, v: nat): nat {
    if keys == [] then 0
    else Occurrences(keys[..|keys| - 1], v) + (if v in keys[|keys| - 1] then 1 else 0)
  }

  function CountIn(freq: map<nat, nat>, vs: set<nat>): (r: map<nat, nat>)
    ensures r.Keys == freq.Keys + vs
    ensures forall v :: v in r ==> r[v] == (if v in freq then freq[v] else 0) + (if v in vs then 1 else 0)
  {
    map v | v in freq.Keys + vs :: (if v in freq then freq[v] else 0) + (if v in vs then 1 else 0)
  }

  /** freq holds the number of occurrences of exactly the variables that occur. */
  ghost predicate Counted(keys: seq<set<nat>>, freq: map<nat, nat>) {
    && (forall v :: v in freq ==> freq[v] == Occurrences(keys, v) > 0)
    && (forall v: nat :: v !in freq ==> Occurrences(keys, v) == 0)
  }

  lemma CountedStep(keys: seq<set<nat>>, i: nat, freq: map<nat, nat>)
    requires i < |keys| && Counted(keys[..i], freq)
    ensures Counted(keys[..i + 1], CountIn(freq, keys[i]))
  {
    assert keys[..i + 1][..i] == keys[..i];
  }

  lemma {:induction false} OccursSomewhere(keys: seq<set<nat>>, v: nat)
    ensures Occurrences(keys, v) > 0 <==> exists i :: 0 <= i < |keys| && v in keys[i]
  {
    if keys != [] {
      var init := keys[..|keys| - 1];
      OccursSomewhere(init, v);
      assert keys == init + [keys[|keys| - 1]];
    }
  }

  /** best occurs most often, and is the smallest variable that does. */
  ghost predicate IsMostFrequent(keys: seq<set<nat>>, best: nat) {
    && (exists i :: 0 <= i < |keys| && best in keys[i])
    && (forall v: nat :: Occurrences(keys, v) <= Occurrences(keys, best))
    && (forall v: nat :: v < best ==> Occurrences(keys, v) < Occurrences(keys, best))
  }

  method Frequencies(keys: seq<set<nat>>) returns (freq: map<nat, nat>)
    ensures Counted(keys, freq)
  {
    freq := map[];
    for i := 0 to |keys|
      invariant Counted(keys[..i], freq)
    {
      CountedStep(keys, i, freq);
      freq := CountIn(freq, keys[i]);
    }
    assert keys[..|keys|] == keys;
  }

  /** The variable shared by the most key sets; n bounds the variables. */
  method MostFrequent(keys: seq<set<nat>>, n: nat) returns (best: nat)
    requires exists i :: 0 <= i < |keys| && keys[i] != {}
    requires forall i, v :: 0 <= i < |keys| && v in keys[i] ==> v < n
    ensures IsMostFrequent(keys, best)
  {
    var freq := Frequencies(keys);
    forall v: nat ensures Occurrences(keys, v) > 0 <==> exists i :: 0 <= i < |keys| && v in keys[i] {
      OccursSomewhere(keys, v);
    }
    hide Occurrences;
    ghost var i :| 0 <= i < |keys| && keys[i] != {};
    ghost var some :| some in keys[i];
    assert some in freq;
    var found, bestCount := false, 0;
    best := 0;
    for v := 0 to n
      invariant found ==> best < v && best in freq && bestCount == freq[best]
      invariant found ==> forall u :: u in freq && u < v ==> freq[u] <= freq[best] && (u < best ==> freq[u] < freq[best])
      invariant !found ==> forall u :: u in freq ==> u >= v
    {
      if v in freq && (!found || freq[v] > bestCount) {
        best, bestCount, found := v, freq[v], true;
      }
    }
  }
}
