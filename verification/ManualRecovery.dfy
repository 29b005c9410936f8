/** Crash recovery of the write script: any number of attempts, each stopped
    anywhere, and exactly when an accepted run afterwards ends where it would have
    ended without them, overlapping names or not. */
module ManualRecovery {
  import opened Text
  import opened Shell
  import opened ManualScript
  import opened ManualOverlap

  /** Every accepted run, after whatever attempts, ends like an uninterrupted one. */
  ghost predicate Recovers(items: Items, stale: seq<string>, fs: Fs) {
    forall attempts: seq<Attempt>, w1: World, w2: World ::
      Accepted(items, fs, w1) && Accepted(items, AfterAttempts(items, stale, fs, attempts), w2) ==>
        RunAll(Script(items, stale), Start(AfterAttempts(items, stale, fs, attempts)), w2).end.fs
        == RunAll(Script(items, stale), Start(fs), w1).end.fs
  }

  lemma {:induction false} SameEverywhere(a: Fs, b: Fs)
    requires forall x :: Same(a, b, x)
    ensures a == b
  {
    forall x ensures x in a <==> x in b {
      assert Same(a, b, x);
    }
    forall x | x in a ensures a[x] == b[x] {
      assert Same(a, b, x);
    }
  }

  lemma {:induction false} WholeAttempt(items: Items, stale: seq<string>, fs: Fs, w: World)
    ensures var r := RunAll(Script(items, stale), Start(fs), w);
            AfterAttempts(items, stale, fs, [Attempt(w, |r.visited| + 1)]) == r.end.fs
  {
    var r := RunAll(Script(items, stale), Start(fs), w);
    var a := Attempt(w, |r.visited| + 1);
    assert Attempted(items, stale, fs, a) == r.end.fs;
    assert AfterAttempts(items, stale, r.end.fs, [a][1..]) == r.end.fs;
  }

  lemma {:induction false} EndsDiffer(items: Items, stale: seq<string>, fs: Fs, attempts: seq<Attempt>)
    requires RunAll(Script(items, stale), Start(AfterAttempts(items, stale, fs, attempts)), AcceptAll).end.fs
          != RunAll(Script(items, stale), Start(fs), AcceptAll).end.fs
    ensures !Recovers(items, stale, fs)
  {
    assert Accepted(items, fs, AcceptAll) && Accepted(items, AfterAttempts(items, stale, fs, attempts), AcceptAll);
  }

  // ---- Resuming after a cut in the updates ---------------------------------

  predicate PlannedBefore(items: Items, k: nat, s: Fs)
    requires k <= |items|
  {
    forall j :: 0 <= j < k ==> Planned(s, items[j])
  }

  lemma {:induction false} UpdatePlansInOrder(items: Items, k: nat, s: Fs)
    requires LaterApart(items) && k < |items| && PlannedBefore(items, k, s)
    ensures PlannedBefore(items, k + 1, Updated(s, items[k]))
  {
  }

  lemma {:induction false} PlannedSoFar(items: Items, fs: Fs, k: nat)
    requires k <= |items| && PlannedBefore(items, k, fs)
    ensures Written(items[..k], fs) == fs
  {
    if k == 0 {
    } else {
      assert items[..k][0] == items[0] && items[..k][1..] == items[1..][..k - 1];
      assert forall j :: 0 <= j < k - 1 ==> items[1..][j] == items[j + 1];
      PlannedSoFar(items[1..], fs, k - 1);
    }
  }

  lemma {:induction false} UpdateAgain(it: Item, s: Fs, w: World, t: Fs)
    requires it.path != it.bak && it.path != it.tmp && it.bak != it.tmp && t in UpdateStates(s, it, w)
    ensures Updated(t, it) == Updated(s, it)
  {
  }

  /** A cut inside one update is made good by the next run: what is written in the
      end is the same. */
  lemma {:induction false} UpdateResumes(items: Items, k: nat, s: Fs, w: World, t: Fs)
    requires Ordered(items) && k < |items| && PlannedBefore(items, k, s) && t in UpdateStates(s, items[k], w)
    ensures Written(items, t) == Written(items, s)
  {
    forall j | 0 <= j < k ensures Planned(t, items[j]) {
      assert Same(s, t, items[j].path);
    }
    PlannedSoFar(items, s, k);
    PlannedSoFar(items, t, k);
    UpdateAgain(items[k], s, w, t);
    WrittenSplit(items, s, k);
    WrittenSplit(items, t, k);
  }

  /** Whatever every state of an update keeps when the files before it are planned,
      every state of all updates keeps. */
  lemma {:induction false} UpdatesInOrder(items: Items, k: nat, m: Machine, w: World, inv: Fs -> bool)
    requires k <= |items| && LaterApart(items) && !m.failed && inv(m.fs) && PlannedBefore(items, k, m.fs)
    requires forall i, s, t ::
               0 <= i < |items| && inv(s) && PlannedBefore(items, i, s) && t in UpdateStates(s, items[i], w) ==> inv(t)
    ensures var r := RunAll(Updates(items)[k..], m, w);
            inv(r.end.fs) && PlannedBefore(items, |items|, r.end.fs) && forall t :: t in r.visited ==> inv(t)
    decreases |items| - k
  {
    if k == |items| {
      assert Updates(items)[k..] == [];
    } else {
      var it := items[k];
      var states := UpdateStates(m.fs, it, w);
      UpdatesHead(items, k, m, w);
      UpdatePlansInOrder(items, k, m.fs);
      assert Planned(m.fs, it) || Updated(m.fs, it) == states[|states| - 1];
      UpdatesInOrder(items, k + 1, m.(fs := Updated(m.fs, it), noted := m.noted + NotedBy(m.fs, it)), w, inv);
    }
  }

  /** Resuming: a run that was cut off anywhere in its updates is made good by the
      next one, which writes exactly what the first would have written. */
  lemma {:induction false} CutResumes(items: Items, fs: Fs, w: World, t: Fs)
    requires Ordered(items) && t in RunAll(Updates(items), Start(fs).(checks := 1), w).visited
    ensures Written(items, t) == Written(items, fs)
  {
    var inv := (s: Fs) => Written(items, s) == Written(items, fs);
    forall i, s, t | 0 <= i < |items| && inv(s) && PlannedBefore(items, i, s) && t in UpdateStates(s, items[i], w)
      ensures inv(t)
    {
      UpdateResumes(items, i, s, w, t);
    }
    assert Updates(items)[0..] == Updates(items);
    UpdatesInOrder(items, 0, Start(fs).(checks := 1), w, inv);
  }

  // ---- Staged copies that a run leaves -------------------------------------

  /** The file is as planned at its turn, so the run does not update it. */
  predicate InPlace(items: Items, s: Fs, i: nat)
    requires i < |items|
  {
    Planned(Written(items[..i], s), items[i])
  }

  /** A run from `s` leaves the staged copy of this file on the host. */
  predicate Leaves(items: Items, stale: seq<string>, s: Fs, i: nat)
    requires i < |items|
  {
    OnlyStaged(items, stale, items[i].tmp) && items[i].tmp in Written(items, s)
  }

  /** No attempt ever changes the file: no cleanup takes it for a backup, a rollback
      would only put its own content there, and the same holds of a file that it is
      the staged copy of. `w` is what the updates write. */
  predicate Lasting(items: Items, w: Fs, i: nat)
    requires i < |items|
    decreases i
  {
    && items[i].path !in Baks(items)
    && (items[i].bak in w ==> w[items[i].bak] == items[i].content)
    && forall j :: 0 <= j < i && items[j].tmp == items[i].path ==> Lasting(items, w, j)
  }

  /** Every staged copy that a run from `s` leaves belongs to a lasting file. */
  ghost predicate LeftLast(items: Items, stale: seq<string>, s: Fs) {
    forall i :: 0 <= i < |items| && Leaves(items, stale, s, i) ==> Lasting(items, Written(items, s), i)
  }

  lemma {:induction false} LeftInPlace(items: Items, stale: seq<string>, s: Fs, i: nat)
    requires Ordered(items) && i < |items| && OnlyStaged(items, stale, items[i].tmp)
    ensures Lookup(Written(items, s), items[i].tmp) == if InPlace(items, s, i) then Lookup(s, items[i].tmp) else None
  {
    StagedAtTurn(items, stale, s, i);
  }

  /** An update takes the file that is named like its staged copy away. */
  lemma {:induction false} ParentInPlace(items: Items, s: Fs, j: nat, i: nat)
    requires Ordered(items) && j < i < |items| && items[i].path == items[j].tmp && InPlace(items, s, i)
    ensures InPlace(items, s, j)
  {
    WrittenPrefix(items, s, j, i);
    WrittenFrameIn(items, j + 1, i, Updated(Written(items[..j], s), items[j]), items[i].path);
  }

  lemma {:induction false} FrameToTurn(items: Items, s: Fs, i: nat)
    requires Ordered(items) && i < |items| && items[i].path !in Baks(items)
    requires forall j :: 0 <= j < i && items[j].tmp == items[i].path ==> InPlace(items, s, j)
    ensures Same(s, Written(items[..i], s), items[i].path)
  {
    assert forall k :: 0 <= k < |items| ==> items[k].bak == Baks(items)[k];
    if j :| 0 <= j < i && items[j].tmp == items[i].path {
      WrittenFrame(items[..j], s, items[i].path);
      WrittenPrefix(items, s, j, i);
      WrittenFrameIn(items, j + 1, i, Written(items[..j], s), items[i].path);
    } else {
      WrittenFrame(items[..i], s, items[i].path);
    }
  }

  lemma {:induction false} BackupOnlyAtTurn(items: Items, s: Fs, i: nat)
    requires Ordered(items) && i < |items| && InPlace(items, s, i)
    requires forall k :: 0 <= k < |items| ==> items[k].path != items[i].bak
    ensures Same(s, Written(items, s), items[i].bak)
  {
    assert items[..|items|] == items;
    WrittenFrame(items[..i], s, items[i].bak);
    WrittenPrefix(items, s, i, |items|);
    WrittenFrameIn(items, i + 1, |items|, Written(items[..i], s), items[i].bak);
  }

  // ---- What every attempt keeps --------------------------------------------

  predicate Pinned(items: Items, s: Fs, x: nat)
    requires x < |items|
  {
    InPlace(items, s, x) && Lasting(items, Written(items, s), x)
  }

  predicate NoPath(items: Items, x: string) {
    forall i :: 0 <= i < |items| ==> items[i].path != x
  }

  /** A backup that a restore still may use holds the file's own content. */
  predicate BackupFits(items: Items, j: nat, t: Fs, x: nat)
    requires x < |items|
  {
    items[x].bak in t && (x >= j || NoPath(items, items[x].bak)) ==> t[items[x].bak] == items[x].content
  }

  /** The attempt that started in `s` is past its updates and its first j restores. */
  ghost predicate Kept(items: Items, stale: seq<string>, orig: Fs, s: Fs, j: nat, t: Fs) {
    && Framed(items, stale, orig, t)
    && (forall i :: 0 <= i < |items| && OnlyStaged(items, stale, items[i].tmp) ==>
          Same(Written(items, s), t, items[i].tmp))
    && (forall x :: 0 <= x < |items| && Pinned(items, s, x) ==> Planned(t, items[x]) && BackupFits(items, j, t, x))
  }

  lemma {:induction false} KeptStart(items: Items, stale: seq<string>, orig: Fs, s: Fs)
    requires Ordered(items) && Framed(items, stale, orig, s)
    ensures Kept(items, stale, orig, s, 0, Written(items, s))
  {
    WrittenContents(items, s);
    forall x | !Touched(items, x) ensures Same(s, Written(items, s), x) {
      WrittenFrame(items, s, x);
    }
    FramedStep(items, stale, orig, s, Written(items, s));
  }

  lemma {:induction false} PinnedRestore(items: Items, w: Fs, j: nat, t: Fs, x: nat)
    requires Ordered(items) && j < |items| && x < |items| && Lasting(items, w, x)
    requires Planned(t, items[x]) && BackupFits(items, j, t, x)
    ensures Planned(Restored(t, items[j]), items[x]) && BackupFits(items, j + 1, Restored(t, items[j]), x)
  {
    assert Baks(items)[j] == items[j].bak;
    if items[x].bak == items[j].path {
      OverlapFollows(items, x, j);
    }
  }

  lemma {:induction false} KeptRestore(items: Items, stale: seq<string>, orig: Fs, s: Fs, j: nat, t: Fs)
    requires Ordered(items) && j < |items| && Kept(items, stale, orig, s, j, t)
    ensures Kept(items, stale, orig, s, j + 1, Restored(t, items[j]))
  {
    var r := Restored(t, items[j]);
    RestoreFrames(items, j, t);
    FramedStep(items, stale, orig, t, r);
    forall i | 0 <= i < |items| && OnlyStaged(items, stale, items[i].tmp)
      ensures Same(Written(items, s), r, items[i].tmp)
    {
      assert items[i].tmp != items[j].path && items[i].tmp != items[j].bak;
    }
    forall x | 0 <= x < |items| && Pinned(items, s, x)
      ensures Planned(r, items[x]) && BackupFits(items, j + 1, r, x)
    {
      PinnedRestore(items, Written(items, s), j, t, x);
    }
  }

  lemma {:induction false} KeptLater(items: Items, stale: seq<string>, orig: Fs, s: Fs, j: nat, t: Fs)
    requires j <= |items| && Kept(items, stale, orig, s, j, t)
    ensures Kept(items, stale, orig, s, |items|, t)
  {
    forall x | 0 <= x < |items| && Pinned(items, s, x) ensures BackupFits(items, |items|, t, x) {
      assert BackupFits(items, j, t, x);
    }
  }

  /** Files go that no restore needs. */
  lemma {:induction false} KeptGone(items: Items, stale: seq<string>, orig: Fs, s: Fs, j: nat, t: Fs,
                                    gone: seq<string>, r: Fs)
    requires j <= |items| && Kept(items, stale, orig, s, j, t)
    requires forall x :: x in gone ==> Touched(items, x) || x in stale
    requires forall i :: 0 <= i < |items| && OnlyStaged(items, stale, items[i].tmp) ==> items[i].tmp !in gone
    requires forall x :: 0 <= x < |items| && Pinned(items, s, x) ==> items[x].path !in gone
    requires forall x :: Same(t, r, x) || (x in gone && x !in r)
    ensures Kept(items, stale, orig, s, |items|, r)
  {
    forall x ensures Touched(items, x) || Same(t, r, x) || (x in stale && x !in r) {
      assert Same(t, r, x) || (x in gone && x !in r);
    }
    FramedStep(items, stale, orig, t, r);
    forall i | 0 <= i < |items| && OnlyStaged(items, stale, items[i].tmp)
      ensures Same(Written(items, s), r, items[i].tmp)
    {
      assert Same(t, r, items[i].tmp);
    }
    forall x | 0 <= x < |items| && Pinned(items, s, x)
      ensures Planned(r, items[x]) && BackupFits(items, |items|, r, x)
    {
      assert Same(t, r, items[x].path);
      assert items[x].bak in r ==> Same(t, r, items[x].bak);
    }
  }

  lemma {:induction false} KeptAllGone(items: Items, stale: seq<string>, orig: Fs, s: Fs, j: nat, t: Fs,
                                       gone: seq<string>)
    requires j <= |items| && Kept(items, stale, orig, s, j, t)
    requires forall x :: x in gone ==> Touched(items, x) || x in stale
    requires forall i :: 0 <= i < |items| && OnlyStaged(items, stale, items[i].tmp) ==> items[i].tmp !in gone
    requires forall x :: 0 <= x < |items| && Pinned(items, s, x) ==> items[x].path !in gone
    ensures forall r :: r in Removed(t, gone).visited ==> Kept(items, stale, orig, s, |items|, r)
  {
    RemovedVisits(t, gone);
    forall r | r in Removed(t, gone).visited ensures Kept(items, stale, orig, s, |items|, r) {
      KeptGone(items, stale, orig, s, j, t, gone, r);
    }
  }

  // ---- From one attempt to the next ----------------------------------------

  /** What a run from `s` leaves staged is what one from `orig` leaves. */
  ghost predicate Follows(items: Items, stale: seq<string>, orig: Fs, s: Fs) {
    && Framed(items, stale, orig, s)
    && (forall i :: 0 <= i < |items| && OnlyStaged(items, stale, items[i].tmp) ==>
          Same(Written(items, orig), Written(items, s), items[i].tmp))
    && LeftLast(items, stale, s)
  }

  /** A lasting file that was in place stays so. */
  lemma {:induction false} StaysInPlace(items: Items, stale: seq<string>, orig: Fs, s: Fs, t: Fs, x: nat)
    requires Ordered(items) && x < |items| && Pinned(items, s, x) && Kept(items, stale, orig, s, |items|, t)
    ensures InPlace(items, t, x)
    decreases x
  {
    forall j | 0 <= j < x && items[j].tmp == items[x].path ensures InPlace(items, t, j) {
      ParentInPlace(items, s, j, x);
      StaysInPlace(items, stale, orig, s, t, j);
    }
    FrameToTurn(items, t, x);
  }

  lemma {:induction false} BackupStillFits(items: Items, stale: seq<string>, orig: Fs, s: Fs, t: Fs, x: nat)
    requires Ordered(items) && x < |items| && Pinned(items, s, x) && Kept(items, stale, orig, s, |items|, t)
    ensures items[x].bak in Written(items, t) ==> Written(items, t)[items[x].bak] == items[x].content
  {
    if NoPath(items, items[x].bak) {
      StaysInPlace(items, stale, orig, s, t, x);
      BackupOnlyAtTurn(items, t, x);
      assert BackupFits(items, |items|, t, x);
    } else {
      var q :| 0 <= q < |items| && items[q].path == items[x].bak;
      WrittenContents(items, s);
      WrittenContents(items, t);
      assert Planned(Written(items, s), items[q]) && Planned(Written(items, t), items[q]);
    }
  }

  lemma {:induction false} StaysLasting(items: Items, stale: seq<string>, orig: Fs, s: Fs, t: Fs, x: nat)
    requires Ordered(items) && x < |items| && Pinned(items, s, x) && Kept(items, stale, orig, s, |items|, t)
    ensures Lasting(items, Written(items, t), x)
    decreases x
  {
    BackupStillFits(items, stale, orig, s, t, x);
    forall j | 0 <= j < x && items[j].tmp == items[x].path ensures Lasting(items, Written(items, t), j) {
      ParentInPlace(items, s, j, x);
      StaysLasting(items, stale, orig, s, t, j);
    }
  }

  lemma {:induction false} LeftIsPinned(items: Items, stale: seq<string>, s: Fs, i: nat)
    requires Ordered(items) && i < |items| && LeftLast(items, stale, s) && Leaves(items, stale, s, i)
    ensures Pinned(items, s, i)
  {
    LeftInPlace(items, stale, s, i);
  }

  lemma {:induction false} KeptLeaves(items: Items, stale: seq<string>, orig: Fs, s: Fs, t: Fs, i: nat)
    requires Ordered(items) && i < |items| && OnlyStaged(items, stale, items[i].tmp)
    requires LeftLast(items, stale, s) && Kept(items, stale, orig, s, |items|, t)
    ensures Same(Written(items, s), Written(items, t), items[i].tmp)
    ensures Leaves(items, stale, t, i) ==> Lasting(items, Written(items, t), i)
  {
    LeftInPlace(items, stale, t, i);
    if Leaves(items, stale, s, i) {
      LeftIsPinned(items, stale, s, i);
      StaysInPlace(items, stale, orig, s, t, i);
      StaysLasting(items, stale, orig, s, t, i);
    }
  }

  lemma {:induction false} KeptFollows(items: Items, stale: seq<string>, orig: Fs, s: Fs, t: Fs)
    requires Ordered(items) && Follows(items, stale, orig, s) && Kept(items, stale, orig, s, |items|, t)
    ensures Follows(items, stale, orig, t)
  {
    forall i | 0 <= i < |items| && OnlyStaged(items, stale, items[i].tmp)
      ensures Same(Written(items, orig), Written(items, t), items[i].tmp)
    {
      KeptLeaves(items, stale, orig, s, t, i);
    }
    forall i | 0 <= i < |items| && Leaves(items, stale, t, i) ensures Lasting(items, Written(items, t), i) {
      KeptLeaves(items, stale, orig, s, t, i);
    }
  }

  lemma {:induction false} AcceptedKept(items: Items, stale: seq<string>, orig: Fs, s: Fs, m: Machine, w: World)
    requires Ordered(items) && StaleApart(items, stale) && !m.failed && Kept(items, stale, orig, s, 0, m.fs)
    ensures forall t :: t in RunAll(Removes(Baks(items) + stale), m, w).visited ==>
              Kept(items, stale, orig, s, |items|, t)
  {
    var gone := Baks(items) + stale;
    RemovesRun(gone, m, w);
    assert forall x :: x in Baks(items) ==> Touched(items, x);
    assert forall i :: 0 <= i < |items| ==> items[i].tmp !in Baks(items);
    KeptAllGone(items, stale, orig, s, 0, m.fs, gone);
  }

  lemma {:induction false} RejectedKept(items: Items, stale: seq<string>, orig: Fs, s: Fs, m: Machine, w: World)
    requires Ordered(items) && !m.failed && !w.sshd(m.checks, m.fs) && Kept(items, stale, orig, s, 0, m.fs)
    requires forall x :: x in m.noted ==> Touched(items, x) && !NoPath(items, x)
    requires forall x :: 0 <= x < |items| && Pinned(items, s, x) ==> items[x].path !in m.noted
    ensures Exec(CheckAgain(items), m, w).end.failed
    ensures forall t :: t in Exec(CheckAgain(items), m, w).visited ==> Kept(items, stale, orig, s, |items|, t)
  {
    var inv := (j: nat, t: Fs) => j <= |items| && Kept(items, stale, orig, s, j, t);
    var out := (t: Fs) => Kept(items, stale, orig, s, |items|, t);
    forall j: nat, t | inv(j, t) ensures out(t) {
      KeptLater(items, stale, orig, s, j, t);
    }
    forall j: nat, t | j < |items| && inv(j, t) ensures inv(j + 1, Restored(t, items[j])) {
      KeptRestore(items, stale, orig, s, j, t);
    }
    var m1 := m.(checks := m.checks + 1);
    assert Restores(items)[0..] == Restores(items);
    RestoresVisit(items, 0, m1, w, inv, out);
    KeptAllGone(items, stale, orig, s, |items|, RunAll(Restores(items), m1, w).end.fs, m.noted);
    CheckAgainVisits(items, m, w, out);
  }

  lemma {:induction false} NotedSplit(items: Items, stale: seq<string>, s: Fs, w: World)
    requires Ordered(items)
    ensures var m := RunAll(Updates(items), Start(s).(checks := 1), w).end;
            && m == Machine(Written(items, s), NotedAll(items, s), 1, false)
            && (forall x :: x in m.noted ==> Touched(items, x) && !NoPath(items, x))
            && (forall x :: 0 <= x < |items| && Pinned(items, s, x) ==> items[x].path !in m.noted)
  {
    NotedRun(items, Start(s).(checks := 1), w);
    assert [] + NotedAll(items, s) == NotedAll(items, s);
    forall x | x in NotedAll(items, s) ensures Touched(items, x) && !NoPath(items, x) {
      NotedArePaths(items, s, x);
    }
    forall x | 0 <= x < |items| && Pinned(items, s, x) ensures items[x].path !in NotedAll(items, s) {
      NotedAtTurn(items, s, x);
    }
  }

  /** After its updates an attempt keeps what matters, whatever sshd says. */
  lemma {:induction false} AfterUpdatesKept(items: Items, stale: seq<string>, orig: Fs, s: Fs, w: World)
    requires Ordered(items) && StaleApart(items, stale) && Framed(items, stale, orig, s)
    ensures var m := RunAll(Updates(items), Start(s).(checks := 1), w).end;
            var c := Exec(CheckAgain(items), m, w);
            var d := RunAll(Removes(Baks(items) + stale), c.end, w);
            forall t :: t in c.visited + d.visited ==> Kept(items, stale, orig, s, |items|, t)
  {
    var m := RunAll(Updates(items), Start(s).(checks := 1), w).end;
    NotedSplit(items, stale, s, w);
    KeptStart(items, stale, orig, s);
    if w.sshd(m.checks, m.fs) {
      CheckAgainShape(items, m, w);
      AcceptedKept(items, stale, orig, s, m.(checks := 2), w);
    } else {
      RejectedKept(items, stale, orig, s, m, w);
    }
  }

  lemma {:induction false} UpdatesFollow(items: Items, stale: seq<string>, orig: Fs, s: Fs, w: World)
    requires Ordered(items) && Follows(items, stale, orig, s)
    ensures forall t :: t in RunAll(Updates(items), Start(s).(checks := 1), w).visited ==>
              Follows(items, stale, orig, t)
  {
    var inv := (t: Fs) => Written(items, t) == Written(items, s) && Framed(items, stale, orig, t);
    forall i, a, t | 0 <= i < |items| && inv(a) && PlannedBefore(items, i, a) && t in UpdateStates(a, items[i], w)
      ensures inv(t)
    {
      UpdateResumes(items, i, a, w, t);
      UpdateFrames(items, i, a, w, t);
      FramedStep(items, stale, orig, a, t);
    }
    assert Updates(items)[0..] == Updates(items);
    UpdatesInOrder(items, 0, Start(s).(checks := 1), w, inv);
    forall t | inv(t) ensures Follows(items, stale, orig, t) {
      SameWrittenFollows(items, stale, orig, s, t);
    }
  }

  lemma {:induction false} SameWrittenFollows(items: Items, stale: seq<string>, orig: Fs, s: Fs, t: Fs)
    requires Follows(items, stale, orig, s) && Written(items, t) == Written(items, s) && Framed(items, stale, orig, t)
    ensures Follows(items, stale, orig, t)
  {
    forall i | 0 <= i < |items| && Leaves(items, stale, t, i) ensures Lasting(items, Written(items, t), i) {
      assert Leaves(items, stale, s, i);
    }
  }

  /** Wherever an attempt stops, the next run leaves staged what this one would. */
  lemma {:induction false} RunFollows(items: Items, stale: seq<string>, orig: Fs, s: Fs, w: World)
    requires Ordered(items) && StaleApart(items, stale) && Follows(items, stale, orig, s)
    ensures var r := RunAll(Script(items, stale), Start(s), w);
            Follows(items, stale, orig, r.end.fs) && forall t :: t in r.visited ==> Follows(items, stale, orig, t)
  {
    ScriptShape(items, stale, s, w);
    EndIsVisited(Script(items, stale), Start(s), w);
    if w.sshd(0, s) {
      WrittenRun(items, Start(s).(checks := 1), w);
      UpdatesFollow(items, stale, orig, s, w);
      AfterUpdatesKept(items, stale, orig, s, w);
      forall t | Kept(items, stale, orig, s, |items|, t) ensures Follows(items, stale, orig, t) {
        KeptFollows(items, stale, orig, s, t);
      }
    }
  }

  lemma {:induction false} AttemptsFollow(items: Items, stale: seq<string>, orig: Fs, s: Fs, attempts: seq<Attempt>)
    requires Ordered(items) && StaleApart(items, stale) && Follows(items, stale, orig, s)
    ensures Follows(items, stale, orig, AfterAttempts(items, stale, s, attempts))
    decreases |attempts|
  {
    if attempts == [] {
    } else {
      RunFollows(items, stale, orig, s, attempts[0].world);
      AttemptsFollow(items, stale, orig, Attempted(items, stale, s, attempts[0]), attempts[1..]);
    }
  }

  // ---- Recovery ------------------------------------------------------------

  lemma {:induction false} StagedEnd(items: Items, stale: seq<string>, fs: Fs, w: World, i: nat)
    requires Ordered(items) && Accepted(items, fs, w) && i < |items| && OnlyStaged(items, stale, items[i].tmp)
    ensures Same(Written(items, fs), RunAll(Script(items, stale), Start(fs), w).end.fs, items[i].tmp)
  {
    ScriptEnd(items, stale, fs, w);
    assert forall k :: 0 <= k < |items| ==> items[k].bak != items[i].tmp;
  }

  lemma {:induction false} EndsAgreeAt(items: Items, stale: seq<string>, fs: Fs, s: Fs, w1: World, w2: World, x: string)
    requires Ordered(items) && StaleApart(items, stale) && Accepted(items, fs, w1) && Accepted(items, s, w2)
    requires Follows(items, stale, fs, s)
    ensures var e1 := RunAll(Script(items, stale), Start(fs), w1).end.fs;
            var e2 := RunAll(Script(items, stale), Start(s), w2).end.fs;
            Same(e1, e2, x)
  {
    AcceptedFiles(items, stale, fs, w1);
    AcceptedFiles(items, stale, s, w2);
    if x in stale {
    } else if Touched(items, x) {
      var i :| 0 <= i < |items| && (x == items[i].path || x == items[i].bak || x == items[i].tmp);
      if x == items[i].tmp && OnlyStaged(items, stale, x) {
        StagedEnd(items, stale, fs, w1, i);
        StagedEnd(items, stale, s, w2, i);
      }
    } else {
      assert Same(fs, s, x);
    }
  }

  lemma {:induction false} LastingRecovers(items: Items, stale: seq<string>, fs: Fs)
    requires Ordered(items) && StaleApart(items, stale) && LeftLast(items, stale, fs)
    ensures Recovers(items, stale, fs)
  {
    forall attempts: seq<Attempt>, w1: World, w2: World
      | Accepted(items, fs, w1) && Accepted(items, AfterAttempts(items, stale, fs, attempts), w2)
      ensures RunAll(Script(items, stale), Start(AfterAttempts(items, stale, fs, attempts)), w2).end.fs
           == RunAll(Script(items, stale), Start(fs), w1).end.fs
    {
      var s := AfterAttempts(items, stale, fs, attempts);
      AttemptsFollow(items, stale, fs, fs, attempts);
      var e1 := RunAll(Script(items, stale), Start(fs), w1).end.fs;
      var e2 := RunAll(Script(items, stale), Start(s), w2).end.fs;
      forall x ensures Same(e1, e2, x) {
        EndsAgreeAt(items, stale, fs, s, w1, w2, x);
      }
      SameEverywhere(e1, e2);
    }
  }

  // ---- And exactly then ----------------------------------------------------

  /** After an accepted run no second run has a file to back up. */
  lemma {:induction false} NothingToBackUp(items: Items, e: Fs, m: nat, y: nat)
    requires Ordered(items) && m <= y < |items|
    requires forall k :: 0 <= k < |items| && items[k].path in e ==> Planned(e, items[k])
    ensures items[y].path in Written(items[..m], e) ==> items[y].path in e && Planned(Written(items[..m], e), items[y])
  {
    if m == 0 {
      assert items[..0] == [];
    } else {
      NothingToBackUp(items, e, m - 1, y);
      NothingToBackUp(items, e, m - 1, m - 1);
      WrittenPrefix(items, e, m - 1, m);
      assert items[m..m] == [];
    }
  }

  /** A file named like another one's backup is not in place after an accepted run. */
  lemma {:induction false} BackupNotInPlace(items: Items, stale: seq<string>, fs: Fs, x: nat)
    requires Ordered(items) && StaleApart(items, stale) && x < |items| && items[x].path in Baks(items)
    ensures !InPlace(items, RunAll(Script(items, stale), Start(fs), AcceptAll).end.fs, x)
  {
    var e := RunAll(Script(items, stale), Start(fs), AcceptAll).end.fs;
    AcceptedFiles(items, stale, fs, AcceptAll);
    forall k | 0 <= k < |items| && items[k].path in e ensures Planned(e, items[k]) {
      assert Lookup(e, items[k].path) == if items[k].path in Baks(items) then None else Some(items[k].content);
    }
    NothingToBackUp(items, e, x, x);
  }

  /** A rollback puts another content there. */
  lemma {:induction false} OverwrittenNotInPlace(items: Items, stale: seq<string>, fs: Fs, x: nat)
    requires Ordered(items) && x < |items| && InPlace(items, fs, x) && items[x].path !in Baks(items)
    requires items[x].bak in Written(items, fs) && Written(items, fs)[items[x].bak] != items[x].content
    ensures !InPlace(items, RunAll(Script(items, stale), Start(fs), RejectNew).end.fs, x)
  {
    var mid, s := Written(items, fs), RunAll(Script(items, stale), Start(fs), RejectNew).end.fs;
    assert Lookup(s, items[x].path) == Some(mid[items[x].bak]) by {
      ScriptEnd(items, stale, fs, RejectNew);
      NotedAtTurn(items, fs, x);
      RestoredRoot(items, mid, x);
    }
    if forall j :: 0 <= j < x && items[j].tmp == items[x].path ==> InPlace(items, s, j) {
      FrameToTurn(items, s, x);
    } else {
      var j :| 0 <= j < x && items[j].tmp == items[x].path && !InPlace(items, s, j);
      if InPlace(items, s, x) {
        ParentInPlace(items, s, j, x);
      }
    }
  }

  /** The file that makes one not last, and takes it along. */
  lemma {:induction false} Culprit(items: Items, s: Fs, i: nat) returns (x: nat)
    requires Ordered(items) && i < |items| && InPlace(items, s, i) && !Lasting(items, Written(items, s), i)
    ensures x < |items| && InPlace(items, s, x)
    ensures || items[x].path in Baks(items)
            || (items[x].bak in Written(items, s) && Written(items, s)[items[x].bak] != items[x].content)
    ensures forall t: Fs :: !InPlace(items, t, x) ==> !InPlace(items, t, i)
    decreases i
  {
    if j :| 0 <= j < i && items[j].tmp == items[i].path && !Lasting(items, Written(items, s), j) {
      ParentInPlace(items, s, j, i);
      x := Culprit(items, s, j);
      forall t: Fs | !InPlace(items, t, x) ensures !InPlace(items, t, i) {
        if InPlace(items, t, i) {
          ParentInPlace(items, t, j, i);
        }
      }
    } else {
      x := i;
    }
  }

  lemma {:induction false} LostBreaks(items: Items, stale: seq<string>, fs: Fs, i: nat, w: World)
    requires Ordered(items) && i < |items| && Leaves(items, stale, fs, i)
    requires !InPlace(items, RunAll(Script(items, stale), Start(fs), w).end.fs, i)
    ensures !Recovers(items, stale, fs)
  {
    var first := RunAll(Script(items, stale), Start(fs), w);
    var attempts := [Attempt(w, |first.visited| + 1)];
    WholeAttempt(items, stale, fs, w);
    LeftInPlace(items, stale, first.end.fs, i);
    StagedEnd(items, stale, fs, AcceptAll, i);
    StagedEnd(items, stale, first.end.fs, AcceptAll, i);
    EndsDiffer(items, stale, fs, attempts);
  }

  lemma {:induction false} NotLastingBreaks(items: Items, stale: seq<string>, fs: Fs, i: nat)
    requires Ordered(items) && StaleApart(items, stale) && i < |items|
    requires Leaves(items, stale, fs, i) && !Lasting(items, Written(items, fs), i)
    ensures !Recovers(items, stale, fs)
  {
    LeftInPlace(items, stale, fs, i);
    var x := Culprit(items, fs, i);
    if items[x].path in Baks(items) {
      BackupNotInPlace(items, stale, fs, x);
      LostBreaks(items, stale, fs, i, AcceptAll);
    } else {
      OverwrittenNotInPlace(items, stale, fs, x);
      LostBreaks(items, stale, fs, i, RejectNew);
    }
  }

  /** Recovery is exact, overlapping names or not: every accepted run after any
      attempts ends where an uninterrupted one ends, if and only if every staged
      copy that a run would leave belongs to a file that no attempt ever changes. */
  lemma {:induction false} RecoveryIsExact(items: Items, stale: seq<string>, fs: Fs)
    requires Ordered(items) && StaleApart(items, stale)
    ensures Recovers(items, stale, fs) <==> LeftLast(items, stale, fs)
  {
    if LeftLast(items, stale, fs) {
      LastingRecovers(items, stale, fs);
    } else {
      var i :| 0 <= i < |items| && Leaves(items, stale, fs, i) && !Lasting(items, Written(items, fs), i);
      NotLastingBreaks(items, stale, fs, i);
    }
  }

  /** Without any staged copy before, a run leaves none. */
  lemma {:induction false} NoneStagedNoneLeft(items: Items, stale: seq<string>, s: Fs, i: nat)
    requires Ordered(items) && i < |items| && items[i].tmp !in s
    ensures !Leaves(items, stale, s, i)
  {
    if OnlyStaged(items, stale, items[i].tmp) {
      WrittenAbsent(items, s, items[i].tmp);
    }
  }

  /** With names that do not overlap, a run leaves a staged copy beside a file that
      is as planned, and the file lasts unless a stray backup stands beside it. */
  lemma {:induction false} LastingApart(items: Items, stale: seq<string>, s: Fs, i: nat)
    requires Disjoint(items) && i < |items|
    ensures Leaves(items, stale, s, i) <==> Planned(s, items[i]) && items[i].tmp in s && items[i].tmp !in stale
    ensures Leaves(items, stale, s, i) ==> (Lasting(items, Written(items, s), i) <==> !StrayBackup(s, items[i]))
  {
    assert Ordered(items);
    WrittenFrame(items[..i], s, items[i].path);
    assert OnlyStaged(items, stale, items[i].tmp) <==> items[i].tmp !in stale;
    if items[i].tmp !in stale {
      LeftInPlace(items, stale, s, i);
    }
    if InPlace(items, s, i) {
      BackupOnlyAtTurn(items, s, i);
    }
  }
}
