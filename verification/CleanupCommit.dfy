/** The commit protocol of a clean-up: four new files are renamed over the live ones under
    a marker, and an interrupted sequence is finished or discarded when the store opens. */
module CleanupCommit {

  const FILES := 4

  /** A complete file of some version of the store, or an incomplete one. */
  datatype Content = Version(number: nat) | Debris

  /** The file built beside a live one. */
  datatype Beside = Absent | File(content: Content)

  /** What survives a crash: the live files, the files beside them, the marker. */
  datatype Disk = Disk(live: seq<Content>, beside: seq<Beside>, marker: bool)

  /** What the process is doing: nothing, opening the store (the marker was found or not),
      serving it, or one of the steps of a clean-up. */
  datatype Phase =
    | Down
    | Opening(committed: bool, file: nat)
    | Serving
    | Clearing(file: nat)
    | Sweeping
    | Built
    | Renaming(file: nat)

  datatype State = State(disk: Disk, phase: Phase)

  // ----- Single file operations -----

  function Rename(d: Disk, i: nat): Disk
    requires i < |d.live| && i < |d.beside|
  {
    match d.beside[i]
    case File(c) => d.(live := d.live[i := c], beside := d.beside[i := Absent])
    case Absent => d
  }

  function Unlink(d: Disk, i: nat): Disk
    requires i < |d.beside|
  {
    d.(beside := d.beside[i := Absent])
  }

  function Write(d: Disk, i: nat, c: Content): Disk
    requires FILES == |d.beside|
  {
    if i < FILES then d.(beside := d.beside[i := File(c)]) else d
  }

  function WriteAll(d: Disk, v: nat): Disk
    requires FILES == |d.beside|
  {
    d.(beside := seq(FILES, _ => File(Version(v))))
  }

  /** One file of the recovery: finished under the marker, discarded without. */
  function Recover(d: Disk, committed: bool, i: nat): Disk
    requires i < |d.live| && i < |d.beside|
  {
    if d.beside[i] == Absent then d else if committed then Rename(d, i) else Unlink(d, i)
  }

  // ----- The steps -----

  ghost predicate Shape(d: Disk) {
    |d.live| == FILES == |d.beside|
  }

  /** One step of the process, or a crash. */
  ghost predicate Step(s: State, t: State) {
    Shape(s.disk) && (Crash(s, t) || Open(s, t) || CleanUp(s, t) || Commit(s, t))
  }

  ghost predicate Crash(s: State, t: State) {
    t == State(s.disk, Down)
  }

  ghost predicate Open(s: State, t: State)
    requires Shape(s.disk)
  {
    match s.phase
    case Down => t == State(s.disk, Opening(s.disk.marker, 0))
    case Opening(committed, i) =>
      if i < FILES then t == State(Recover(s.disk, committed, i), Opening(committed, i + 1))
      else t == State(if committed then s.disk.(marker := false) else s.disk, Serving)
    case _ => false
  }

  /** A clean-up discards what an earlier one left, then writes the files of the new
      version v, which are complete only when the sweep is over. */
  ghost predicate CleanUp(s: State, t: State)
    requires Shape(s.disk)
  {
    match s.phase
    case Serving => t == State(s.disk, Clearing(0))
    case Clearing(i) => if i < FILES then t == State(Unlink(s.disk, i), Clearing(i + 1)) else t == State(s.disk, Sweeping)
    case Sweeping =>
      || (exists i: nat :: t == State(Write(s.disk, i, Debris), Sweeping))
      || (exists v :: t == State(WriteAll(s.disk, v), Built))
    case _ => false
  }

  /** The marker, the four renames, and the marker again; a failed operation ends the
      clean-up, and the store is opened anew. */
  ghost predicate Commit(s: State, t: State)
    requires Shape(s.disk)
  {
    match s.phase
    case Built => t == State(s.disk.(marker := true), Renaming(0))
    case Renaming(i) =>
      if i < FILES then t == State(Rename(s.disk, i), Renaming(i + 1))
      else t == State(s.disk.(marker := false), Down)
    case _ => false
  }

  // ----- What every step keeps -----

  /** All live files are of version v. */
  ghost predicate Uniform(d: Disk, v: nat) {
    Shape(d) && forall i :: 0 <= i < FILES ==> d.live[i] == Version(v)
  }

  /** Between versions: each file has been renamed or can still be. */
  ghost predicate Mixed(d: Disk, before: nat, after: nat) {
    && Shape(d)
    && forall i :: 0 <= i < FILES ==>
         || (d.beside[i] == Absent && d.live[i] == Version(after))
         || (d.beside[i] == File(Version(after)) && d.live[i] == Version(before))
  }

  ghost predicate Done(d: Disk, n: nat) {
    Shape(d) && forall i :: 0 <= i < n && i < FILES ==> d.beside[i] == Absent
  }

  ghost predicate AllBuilt(d: Disk, v: nat) {
    Shape(d) && forall i :: 0 <= i < FILES ==> d.beside[i] == File(Version(v))
  }

  ghost predicate Sound(d: Disk) {
    Shape(d) && if d.marker then exists u, v :: Mixed(d, u, v) else exists v :: Uniform(d, v)
  }

  ghost predicate Inv(s: State) {
    var d := s.disk;
    Sound(d) &&
    match s.phase
    case Down => true
    case Opening(committed, i) => i <= FILES && committed == d.marker && Done(d, i)
    case Serving => !d.marker && Done(d, FILES)
    case Clearing(i) => !d.marker && i <= FILES
    case Sweeping => !d.marker
    case Built => !d.marker && exists v :: AllBuilt(d, v)
    case Renaming(i) => d.marker && i <= FILES && Done(d, i)
  }

  /** The version that a crash now would leave the store at: the new one from the moment
      the marker exists. */
  ghost predicate Settles(d: Disk, v: nat) {
    if d.marker then exists u :: Mixed(d, u, v) else Uniform(d, v)
  }

  lemma RenameKeepsMixed(d: Disk, u: nat, v: nat, i: nat)
    requires Mixed(d, u, v) && i < FILES
    ensures Mixed(Rename(d, i), u, v) && Rename(d, i).beside[i] == Absent && Rename(d, i).marker == d.marker
    ensures forall j :: 0 <= j < FILES && j != i ==> Rename(d, i).beside[j] == d.beside[j]
  {
  }

  lemma AllRenamed(d: Disk, u: nat, v: nat)
    requires Mixed(d, u, v) && Done(d, FILES)
    ensures Uniform(d, v)
  {
  }

  lemma OpenKeeps(s: State, t: State)
    requires Inv(s) && Open(s, t)
    ensures Inv(t) && forall v :: Settles(s.disk, v) ==> Settles(t.disk, v)
  {
    var d := s.disk;
    if s.phase.Opening? {
      var i := s.phase.file;
      if d.marker {
        forall u, v | Mixed(d, u, v) ensures if i < FILES then Mixed(t.disk, u, v) else Uniform(t.disk, v) {
          if i < FILES { RenameKeepsMixed(d, u, v, i); } else { AllRenamed(d, u, v); }
        }
        var u, v :| Mixed(d, u, v);
        if i < FILES { RenameKeepsMixed(d, u, v, i); }
      } else {
        forall v | Uniform(d, v) ensures Uniform(t.disk, v) {
        }
      }
    }
  }

  lemma CleanUpKeeps(s: State, t: State)
    requires Inv(s) && CleanUp(s, t)
    ensures Inv(t) && forall v :: Settles(s.disk, v) ==> Settles(t.disk, v)
  {
    forall v | Uniform(s.disk, v) ensures Uniform(t.disk, v) {
    }
    if t.phase == Built {
      var v :| t == State(WriteAll(s.disk, v), Built);
      assert AllBuilt(t.disk, v);
    }
  }

  lemma CommitKeeps(s: State, t: State)
    requires Inv(s) && Commit(s, t)
    ensures Inv(t) && (!s.phase.Built? ==> forall v :: Settles(s.disk, v) ==> Settles(t.disk, v))
  {
    var d := s.disk;
    if s.phase.Built? {
      var v :| AllBuilt(d, v);
      var u :| Uniform(d, u);
      assert Mixed(t.disk, u, v);
    } else {
      var i := s.phase.file;
      forall u, v | Mixed(d, u, v) ensures if i < FILES then Mixed(t.disk, u, v) else Uniform(t.disk, v) {
        if i < FILES { RenameKeepsMixed(d, u, v, i); } else { AllRenamed(d, u, v); }
      }
      var u, v :| Mixed(d, u, v);
      if i < FILES { RenameKeepsMixed(d, u, v, i); }
    }
  }

  /** Every step keeps the invariant; only the creation of the marker changes the version
      the store settles at. */
  lemma StepKeeps(s: State, t: State)
    requires Inv(s) && Step(s, t)
    ensures Inv(t)
    ensures forall v :: Settles(s.disk, v) ==> Settles(t.disk, v) || (s.phase == Built && t.phase == Renaming(0))
  {
    hide Inv;
    if Crash(s, t) {
      CrashKeeps(s, t);
    } else if Open(s, t) {
      OpenKeeps(s, t);
    } else if CleanUp(s, t) {
      CleanUpKeeps(s, t);
    } else {
      CommitKeeps(s, t);
    }
  }

  lemma CrashKeeps(s: State, t: State)
    requires Inv(s) && Crash(s, t)
    ensures Inv(t)
  {
  }

  // ----- Whole runs -----

  ghost predicate IsRun(run: seq<State>) {
    |run| > 0 && Inv(run[0]) && forall i :: 0 <= i < |run| - 1 ==> Step(run[i], run[i + 1])
  }

  lemma {:induction false} RunKeeps(run: seq<State>, i: nat)
    requires IsRun(run) && i < |run|
    ensures Inv(run[i])
  {
    if i > 0 {
      hide Inv;
      RunKeeps(run, i - 1);
      assert Step(run[i - 1], run[i - 1 + 1]);
      StepKeeps(run[i - 1], run[i]);
    }
  }

  /** Whatever clean-ups and crashes came before, also during recoveries, a store being
      served has four files of one version, no marker and no file left beside them. */
  lemma ServedStoreIsWhole(run: seq<State>, i: nat)
    requires IsRun(run) && i < |run| && run[i].phase == Serving
    ensures (exists v :: Uniform(run[i].disk, v)) && !run[i].disk.marker && Done(run[i].disk, FILES)
  {
    RunKeeps(run, i);
  }

  /** Unless a marker is created meanwhile, the store settles at the version it did. */
  lemma {:induction false} VersionKept(run: seq<State>, i: nat, j: nat, v: nat)
    requires IsRun(run) && i <= j < |run| && Settles(run[i].disk, v)
    requires forall k :: i <= k < j ==> !(run[k].phase == Built && run[k + 1].phase == Renaming(0))
    ensures Settles(run[j].disk, v)
    decreases j - i
  {
    if i < j {
      VersionKept(run, i, j - 1, v);
      RunKeeps(run, j - 1);
      assert Step(run[j - 1], run[j - 1 + 1]);
      hide Inv;
      hide Step;
      hide Settles;
      StepKeeps(run[j - 1], run[j]);
    }
  }

  // ----- A clean-up takes effect -----

  /** With the marker the store settles at the version that was built. */
  lemma MarkerCommits(s: State, t: State, v: nat)
    requires Inv(s) && s.phase == Built && AllBuilt(s.disk, v) && Commit(s, t)
    ensures t.disk.marker && Settles(t.disk, v)
  {
    var u :| Uniform(s.disk, u);
    assert Mixed(t.disk, u, v);
  }

  /** The steps of a clean-up from the files of version v on, none of them failing. */
  ghost predicate IsCommit(run: seq<State>, v: nat) {
    && |run| > 0 && Inv(run[0]) && run[0].phase == Built && AllBuilt(run[0].disk, v)
    && forall i :: 0 <= i < |run| - 1 ==> Shape(run[i].disk) && Commit(run[i], run[i + 1])
  }

  ghost predicate GoesOn(s: State) {
    Shape(s.disk) && exists t :: Commit(s, t)
  }

  lemma {:induction false} CommitSoFar(run: seq<State>, v: nat, i: nat)
    requires IsCommit(run, v) && i < |run|
    ensures Inv(run[i]) && (i > 0 ==> Settles(run[i].disk, v))
    ensures i <= FILES + 2 && run[i].phase == (if i == 0 then Built else if i <= FILES + 1 then Renaming(i - 1) else Down)
    ensures i == FILES + 2 ==> !run[i].disk.marker
  {
    if i > 0 {
      CommitSoFar(run, v, i - 1);
      assert Commit(run[i - 1], run[i - 1 + 1]);
      if i == 1 { MarkerCommits(run[0], run[1], v); }
      hide Inv;
      hide Settles;
      hide AllBuilt;
      CommitKeeps(run[i - 1], run[i]);
    }
  }

  /** A clean-up that nothing disturbs goes through the marker, the four renames and the
      marker again, and leaves the version it built. */
  lemma CommitInstalls(run: seq<State>, v: nat)
    requires IsCommit(run, v)
    ensures |run| <= FILES + 3
    ensures |run| == FILES + 3 ==> Uniform(run[FILES + 2].disk, v) && !run[FILES + 2].disk.marker && run[FILES + 2].phase == Down
    ensures |run| < FILES + 3 ==> GoesOn(run[|run| - 1])
  {
    var n := |run| - 1;
    CommitSoFar(run, v, n);
    if n < FILES + 2 { CommitGoesOn(run[n]); }
  }

  lemma CommitGoesOn(s: State)
    requires Inv(s) && (s.phase == Built || s.phase.Renaming?)
    ensures GoesOn(s)
  {
    var d := s.disk;
    var t :=
      if s.phase == Built then State(d.(marker := true), Renaming(0))
      else if s.phase.file < FILES then State(Rename(d, s.phase.file), Renaming(s.phase.file + 1))
      else State(d.(marker := false), Down);
    assert Commit(s, t);
  }

  // ----- The recovery -----

  class Directory {
    var disk: Disk

    /** Finishes or discards what a crash left, at the version that the crash settled. */
    method FinishInterruptedCleanup()
      requires Sound(disk)
      modifies this
      ensures !disk.marker && Done(disk, FILES)
      ensures forall v :: Settles(old(disk), v) ==> Uniform(disk, v)
      ensures exists v :: Uniform(disk, v)
    {
      ghost var d := disk;
      var committed := disk.marker;
      for i := 0 to FILES
        invariant Inv(State(disk, Opening(committed, i)))
        invariant forall v :: Settles(d, v) ==> Settles(disk, v)
      {
        ghost var a, b := State(disk, Opening(committed, i)), State(Recover(disk, committed, i), Opening(committed, i + 1));
        OpenKeeps(a, b);
        if disk.beside[i] != Absent {
          disk := if committed then Rename(disk, i) else Unlink(disk, i);
        }
      }
      OpenKeeps(State(disk, Opening(committed, FILES)),
                State(if committed then disk.(marker := false) else disk, Serving));
      if committed {
        disk := disk.(marker := false);
      }
    }
  }

  // ----- A rename that fails during recovery -----

  /** The recovery when the renames outside ok fail: their results are not looked at. */
  function RecoverWith(d: Disk, ok: set<nat>, i: nat): Disk
    requires |d.live| == FILES == |d.beside| && i <= FILES
    ensures var r := RecoverWith(d, ok, i); |r.live| == FILES == |r.beside|
  {
    if i == 0 then d
    else
      var e := RecoverWith(d, ok, i - 1);
      if i - 1 in ok then Recover(e, true, i - 1) else e
  }

  lemma {:induction false} RecoveredWith(d: Disk, u: nat, v: nat, ok: set<nat>, i: nat)
    requires Mixed(d, u, v) && i <= FILES
    ensures var r := RecoverWith(d, ok, i);
            forall k :: 0 <= k < FILES ==>
              && r.beside[k] == (if k < i && k in ok then Absent else d.beside[k])
              && r.live[k] == if k < i && k in ok && d.beside[k] != Absent then Version(v) else d.live[k]
    decreases i
  {
    if i > 0 { RecoveredWith(d, u, v, ok, i - 1); }
  }

  /** The marker is then removed all the same, so the store is of one version exactly when
      every outstanding rename succeeded, or all four were outstanding and failed. */
  lemma FailedRenames(d: Disk, u: nat, v: nat, ok: set<nat>)
    requires Mixed(d, u, v) && u != v
    ensures (exists x :: Uniform(RecoverWith(d, ok, FILES), x)) <==>
              || (forall i :: 0 <= i < FILES && d.beside[i] != Absent ==> i in ok)
              || (forall i :: 0 <= i < FILES ==> d.beside[i] != Absent && i !in ok)
  {
    RecoveredWith(d, u, v, ok, FILES);
    var r := RecoverWith(d, ok, FILES);
    if forall i :: 0 <= i < FILES && d.beside[i] != Absent ==> i in ok {
      assert Uniform(r, v);
    }
    if forall i :: 0 <= i < FILES ==> d.beside[i] != Absent && i !in ok {
      assert Uniform(r, u);
    }
  }
}
