/** The write script of a plan whose names overlap, as when an account is named
    like another one's backup. What holds of every run, what stops holding, and
    for exactly which plans. */
module ManualOverlap {
  import opened Text
  import opened Shell
  import opened ManualScript

  /** No later file's path, backup or staged copy is an earlier file. */
  predicate LaterApart(items: Items) {
    && (forall i :: 0 <= i < |items| ==> items[i].tmp != items[i].path && items[i].bak != items[i].path)
    && (forall i, j :: 0 <= i < j < |items| ==>
          items[i].path != items[j].path && items[i].path != items[j].bak && items[i].path != items[j].tmp)
  }

  lemma {:induction false} WrittenFrame(items: Items, fs: Fs, x: string)
    requires forall i :: 0 <= i < |items| ==> x != items[i].path && x != items[i].bak && x != items[i].tmp
    ensures Same(fs, Written(items, fs), x)
  {
    if items == [] {
    } else {
      assert Same(fs, Updated(fs, items[0]), x);
      WrittenFrame(items[1..], Updated(fs, items[0]), x);
    }
  }

  lemma {:induction false} WrittenContents(items: Items, fs: Fs)
    requires LaterApart(items)
    ensures forall i :: 0 <= i < |items| ==> Planned(Written(items, fs), items[i])
  {
    if items == [] {
    } else {
      var next := Updated(fs, items[0]);
      WrittenContents(items[1..], next);
      WrittenFrame(items[1..], next, items[0].path);
      forall i | 0 <= i < |items| ensures Planned(Written(items, fs), items[i]) {
        if i > 0 {
          assert items[1..][i - 1] == items[i];
        }
      }
    }
  }

  lemma {:induction false} WrittenAbsent(items: Items, fs: Fs, x: string)
    requires x !in fs && forall i :: 0 <= i < |items| ==> x != items[i].path && x != items[i].bak
    ensures x !in Written(items, fs)
  {
    if items == [] {
    } else {
      assert x !in Updated(fs, items[0]);
      WrittenAbsent(items[1..], Updated(fs, items[0]), x);
    }
  }

  // ---- How every run ends, with no assumption on the names -----------------

  /** $nk_new after the updates. */
  function NotedAll(items: Items, fs: Fs): seq<string> {
    if items == [] then []
    else NotedBy(fs, items[0]) + NotedAll(items[1..], Updated(fs, items[0]))
  }

  /** The files after the restores. */
  function AllRestored(items: Items, fs: Fs): Fs {
    if items == [] then fs else AllRestored(items[1..], Restored(fs, items[0]))
  }

  lemma {:induction false} NotedRun(items: Items, m: Machine, w: World)
    requires !m.failed && forall i :: 0 <= i < |items| ==> items[i].tmp != items[i].path
    ensures RunAll(Updates(items), m, w).end
         == m.(fs := Written(items, m.fs), noted := m.noted + NotedAll(items, m.fs))
  {
    if items == [] {
      assert m.noted + [] == m.noted;
    } else {
      var m1 := m.(fs := Updated(m.fs, items[0]), noted := m.noted + NotedBy(m.fs, items[0]));
      UpdateRun(items[0], m, w);
      NotedRun(items[1..], m1, w);
      RunCons(UpdateCode(items[0]), Updates(items[1..]), m, w);
      assert Updates(items) == [UpdateCode(items[0])] + Updates(items[1..]);
      assert m1.noted + NotedAll(items[1..], m1.fs) == m.noted + NotedAll(items, m.fs);
    }
  }

  lemma {:induction false} RestoredRun(items: Items, m: Machine, w: World)
    requires !m.failed
    ensures RunAll(Restores(items), m, w).end == m.(fs := AllRestored(items, m.fs))
  {
    if items == [] {
    } else {
      RestoreRun(items[0], m, w);
      RestoredRun(items[1..], m.(fs := Restored(m.fs, items[0])), w);
      RunCons(RestoreCode(items[0]), Restores(items[1..]), m, w);
      assert Restores(items) == [RestoreCode(items[0])] + Restores(items[1..]);
    }
  }

  /** How every run ends: a host that was broken before is left alone, an accepted
      run removes the backups and the stale files, and a rejected one moves every
      backup that is there, in plan order, and removes what it noted as new. */
  lemma {:induction false} ScriptEnd(items: Items, stale: seq<string>, fs: Fs, w: World)
    requires forall i :: 0 <= i < |items| ==> items[i].tmp != items[i].path
    ensures var end := RunAll(Script(items, stale), Start(fs), w).end;
            if !w.sshd(0, fs) then end.failed && end.fs == fs
            else if w.sshd(1, Written(items, fs)) then
              !end.failed && end.fs == Written(items, fs) - (set p | p in Baks(items) + stale)
            else
              end.failed && end.fs == AllRestored(items, Written(items, fs)) - (set p | p in NotedAll(items, fs))
  {
    var m1 := Start(fs).(checks := 1);
    ScriptShape(items, stale, fs, w);
    NotedRun(items, m1, w);
    var m2 := RunAll(Updates(items), m1, w).end;
    assert [] + NotedAll(items, fs) == NotedAll(items, fs);
    CheckAgainShape(items, m2, w);
    if w.sshd(1, m2.fs) {
      RemovesRun(Baks(items) + stale, m2.(checks := 2), w);
    } else {
      RestoredRun(items, m2.(checks := 2), w);
    }
  }

  // ---- Names that overlap --------------------------------------------------

  /** What a plan of accounts in strict order meets, overlapping or not. */
  predicate Ordered(items: Items) {
    && LaterApart(items)
    && (forall i, j :: 0 <= i < j < |items| ==> items[i].bak != items[j].bak && items[i].tmp != items[j].tmp)
    && (forall i, j :: 0 <= i < |items| && 0 <= j < |items| ==> items[i].bak != items[j].tmp)
  }

  /** A file that is nobody's backup or staged copy. */
  predicate Root(items: Items, p: nat)
    requires p < |items|
  {
    forall i :: 0 <= i < |items| ==> items[p].path != items[i].bak && items[p].path != items[i].tmp
  }

  lemma {:induction false} OverlapFollows(items: Items, p: nat, q: nat)
    requires Ordered(items) && p < |items| && q < |items|
    requires items[q].path == items[p].bak || items[q].path == items[p].tmp
    ensures p < q
  {
  }

  /** Names that overlap do so with a root. */
  lemma {:induction false} RootOf(items: Items, k: nat, c: nat) returns (p: nat, q: nat)
    requires Ordered(items) && k < |items| && c < |items|
    requires items[c].path == items[k].bak || items[c].path == items[k].tmp
    ensures p < |items| && q < |items| && Root(items, p)
    ensures items[q].path == items[p].bak || items[q].path == items[p].tmp
    decreases k
  {
    if Root(items, k) {
      p, q := k, c;
    } else {
      var i :| 0 <= i < |items| && (items[k].path == items[i].bak || items[k].path == items[i].tmp);
      OverlapFollows(items, i, k);
      p, q := RootOf(items, i, k);
    }
  }

  lemma {:induction false} OverlapRoot(items: Items) returns (p: nat, q: nat)
    requires Ordered(items) && !Disjoint(items)
    ensures p < |items| && q < |items| && Root(items, p)
    ensures items[q].path == items[p].bak || items[q].path == items[p].tmp
  {
    var c, k :| 0 <= c < |items| && 0 <= k < |items|
                && (items[c].path == items[k].bak || items[c].path == items[k].tmp);
    p, q := RootOf(items, k, c);
  }

  // ---- Where the updates and restores touch a path -------------------------

  lemma {:induction false} WrittenSplit(items: Items, fs: Fs, k: nat)
    requires k <= |items|
    ensures Written(items, fs) == Written(items[k..], Written(items[..k], fs))
    ensures k < |items| ==>
              Written(items, fs) == Written(items[k + 1..], Updated(Written(items[..k], fs), items[k]))
  {
    if k == 0 {
      assert items[0..] == items;
    } else {
      WrittenSplit(items[1..], Updated(fs, items[0]), k - 1);
      assert items[..k][1..] == items[1..][..k - 1] && items[1..][k - 1..] == items[k..];
      assert k < |items| ==> items[1..][k..] == items[k + 1..] && items[1..][k - 1] == items[k];
    }
  }

  lemma {:induction false} RestoredSplit(items: Items, fs: Fs, k: nat)
    requires k < |items|
    ensures AllRestored(items, fs) == AllRestored(items[k + 1..], Restored(AllRestored(items[..k], fs), items[k]))
  {
    if k == 0 {
    } else {
      RestoredSplit(items[1..], Restored(fs, items[0]), k - 1);
      assert items[..k][1..] == items[1..][..k - 1] && items[1..][k..] == items[k + 1..];
      assert items[1..][k - 1] == items[k];
    }
  }

  lemma {:induction false} RestoredFrame(items: Items, fs: Fs, x: string)
    requires forall i :: 0 <= i < |items| ==> x != items[i].path && x != items[i].bak
    ensures Same(fs, AllRestored(items, fs), x)
  {
    if items == [] {
    } else {
      RestoredFrame(items[1..], Restored(fs, items[0]), x);
    }
  }

  lemma {:induction false} NotedArePaths(items: Items, fs: Fs, x: string)
    requires x in NotedAll(items, fs)
    ensures exists i :: 0 <= i < |items| && items[i].path == x
  {
    if x in NotedAll(items[1..], Updated(fs, items[0])) {
      NotedArePaths(items[1..], Updated(fs, items[0]), x);
      var i :| 0 <= i < |items[1..]| && items[1..][i].path == x;
      assert items[i + 1].path == x;
    } else {
      assert items[0].path == x;
    }
  }

  /** A file is noted as new exactly when it is missing at its turn. */
  lemma {:induction false} NotedAtTurn(items: Items, fs: Fs, k: nat)
    requires k < |items| && forall i, j :: 0 <= i < j < |items| ==> items[i].path != items[j].path
    ensures items[k].path in NotedAll(items, fs) <==> items[k].path !in Written(items[..k], fs)
  {
    var rest := NotedAll(items[1..], Updated(fs, items[0]));
    if k == 0 {
      if items[0].path in rest {
        NotedArePaths(items[1..], Updated(fs, items[0]), items[0].path);
      }
    } else {
      NotedAtTurn(items[1..], Updated(fs, items[0]), k - 1);
      assert items[..k][1..] == items[1..][..k - 1] && items[1..][k - 1] == items[k];
    }
  }

  // ---- What overlapping names do to a rollback -----------------------------

  lemma {:induction false} WrittenFrameIn(items: Items, lo: nat, hi: nat, fs: Fs, x: string)
    requires lo <= hi <= |items|
    requires forall i :: lo <= i < hi ==> x != items[i].path && x != items[i].bak && x != items[i].tmp
    ensures Same(fs, Written(items[lo..hi], fs), x)
  {
    WrittenFrame(items[lo..hi], fs, x);
  }

  /** A prefix of the updates, up to and from one of them. */
  lemma {:induction false} WrittenPrefix(items: Items, fs: Fs, p: nat, q: nat)
    requires p < q <= |items|
    ensures Written(items[..q], fs) == Written(items[p + 1..q], Updated(Written(items[..p], fs), items[p]))
  {
    var before := items[..q];
    assert before[..p] == items[..p] && before[p] == items[p] && before[p + 1..] == items[p + 1..q];
    WrittenSplit(before, fs, p);
  }

  /** At the turn of the file named like a root's backup, the root's old content is in it. */
  lemma {:induction false} BackupAtTurn(items: Items, fs: Fs, p: nat, q: nat)
    requires Ordered(items) && p < |items| && q < |items| && Root(items, p) && items[q].path == items[p].bak
    requires items[p].path in fs && fs[items[p].path] != items[p].content
    ensures items[p].path in Written(items[..p], fs)
    ensures Lookup(Written(items[..q], fs), items[q].path) == Some(fs[items[p].path])
  {
    OverlapFollows(items, p, q);
    WrittenFrame(items[..p], fs, items[p].path);
    WrittenPrefix(items, fs, p, q);
    WrittenFrameIn(items, p + 1, q, Updated(Written(items[..p], fs), items[p]), items[q].path);
  }

  /** After the updates the root's old content is gone from its backup, over which
      the other file was written. */
  lemma {:induction false} BackupOverwritten(items: Items, fs: Fs, p: nat, q: nat)
    requires Ordered(items) && p < |items| && q < |items| && Root(items, p) && items[q].path == items[p].bak
    requires items[p].path in fs && fs[items[p].path] != items[p].content && fs[items[p].path] != items[q].content
    ensures Lookup(Written(items, fs), items[q].path) == Some(items[q].content)
    ensures (forall i :: 0 <= i < |items| ==> items[i].path != items[q].bak) ==>
              Lookup(Written(items, fs), items[q].bak) == Some(fs[items[p].path])
  {
    BackupAtTurn(items, fs, p, q);
    TurnLasts(items, fs, q);
  }

  /** What a file's turn writes is there at the end. */
  lemma {:induction false} TurnLasts(items: Items, fs: Fs, q: nat)
    requires Ordered(items) && q < |items| && !Planned(Written(items[..q], fs), items[q])
    requires items[q].path in Written(items[..q], fs)
    ensures Lookup(Written(items, fs), items[q].path) == Some(items[q].content)
    ensures (forall i :: 0 <= i < |items| ==> items[i].path != items[q].bak) ==>
              Lookup(Written(items, fs), items[q].bak) == Lookup(Written(items[..q], fs), items[q].path)
  {
    var s := Updated(Written(items[..q], fs), items[q]);
    assert items[..|items|] == items;
    WrittenPrefix(items, fs, q, |items|);
    WrittenFrameIn(items, q + 1, |items|, s, items[q].path);
    if forall i :: 0 <= i < |items| ==> items[i].path != items[q].bak {
      WrittenFrameIn(items, q + 1, |items|, s, items[q].bak);
    }
  }

  lemma {:induction false} BackupUnnoted(items: Items, fs: Fs, p: nat, q: nat)
    requires Ordered(items) && p < |items| && q < |items| && Root(items, p) && items[q].path == items[p].bak
    requires items[p].path in fs && fs[items[p].path] != items[p].content
    ensures items[p].path !in NotedAll(items, fs) && items[q].path !in NotedAll(items, fs)
  {
    BackupAtTurn(items, fs, p, q);
    NotedAtTurn(items, fs, p);
    NotedAtTurn(items, fs, q);
  }

  lemma {:induction false} RestoredRoot(items: Items, s: Fs, p: nat)
    requires Ordered(items) && p < |items| && items[p].path !in Baks(items) && items[p].bak in s
    ensures Lookup(AllRestored(items, s), items[p].path) == Some(s[items[p].bak])
  {
    assert forall i :: 0 <= i < |items| ==> items[i].bak == Baks(items)[i];
    RestoredFrame(items[..p], s, items[p].bak);
    RestoredSplit(items, s, p);
    RestoredFrame(items[p + 1..], Restored(AllRestored(items[..p], s), items[p]), items[p].path);
  }

  lemma {:induction false} RestoredOther(items: Items, s: Fs, p: nat, q: nat)
    requires Ordered(items) && p < |items| && q < |items| && items[q].path == items[p].bak
    requires items[q].bak in s && forall i :: 0 <= i < |items| ==> items[i].path != items[q].bak
    ensures Lookup(AllRestored(items, s), items[q].path) == Some(s[items[q].bak])
  {
    OverlapFollows(items, p, q);
    RestoredFrame(items[..q], s, items[q].bak);
    RestoredSplit(items, s, q);
    RestoredFrame(items[q + 1..], Restored(AllRestored(items[..q], s), items[q]), items[q].path);
  }

  predicate Rejected(items: Items, fs: Fs, w: World) {
    w.sshd(0, fs) && !w.sshd(1, Written(items, fs))
  }

  /** Rollback between a root and the file named like its backup: the root ends
      with what was planned for the other, which ends with what the root had. */
  lemma {:induction false} RollbackMixes(items: Items, stale: seq<string>, fs: Fs, w: World, p: nat, q: nat)
    requires Ordered(items) && p < |items| && q < |items| && Root(items, p) && items[q].path == items[p].bak
    requires items[p].path in fs && fs[items[p].path] != items[p].content && fs[items[p].path] != items[q].content
    requires Rejected(items, fs, w)
    ensures var end := RunAll(Script(items, stale), Start(fs), w).end.fs;
            && Lookup(end, items[p].path) == Some(items[q].content)
            && ((forall i :: 0 <= i < |items| ==> items[i].path != items[q].bak) ==>
                  Lookup(end, items[q].path) == Some(fs[items[p].path]))
  {
    ScriptEnd(items, stale, fs, w);
    BackupOverwritten(items, fs, p, q);
    BackupUnnoted(items, fs, p, q);
    RestoredRoot(items, Written(items, fs), p);
    if forall i :: 0 <= i < |items| ==> items[i].path != items[q].bak {
      RestoredOther(items, Written(items, fs), p, q);
    }
  }

  lemma {:induction false} StagedTurn(items: Items, fs: Fs, p: nat, t: nat)
    requires Ordered(items) && p < |items| && t < |items| && Root(items, p) && items[t].path == items[p].tmp
    requires !Planned(fs, items[p])
    ensures p < t && !Planned(Written(items[..p], fs), items[p]) && items[t].path !in Written(items[..t], fs)
  {
    OverlapFollows(items, p, t);
    WrittenFrame(items[..p], fs, items[p].path);
    WrittenPrefix(items, fs, p, t);
    WrittenFrameIn(items, p + 1, t, Updated(Written(items[..p], fs), items[p]), items[t].path);
  }

  /** Rollback between a root and the file named like its staged copy: the other
      file is deleted, although it was there. */
  lemma {:induction false} RollbackDeletes(items: Items, stale: seq<string>, fs: Fs, w: World, p: nat, t: nat)
    requires Ordered(items) && p < |items| && t < |items| && Root(items, p) && items[t].path == items[p].tmp
    requires !Planned(fs, items[p]) && Rejected(items, fs, w)
    ensures items[t].path !in RunAll(Script(items, stale), Start(fs), w).end.fs
  {
    ScriptEnd(items, stale, fs, w);
    StagedTurn(items, fs, p, t);
    NotedAtTurn(items, fs, t);
  }

  /** A rejected run touches nothing the plan does not name. */
  lemma {:induction false} RejectedFrame(items: Items, stale: seq<string>, fs: Fs, w: World, x: string)
    requires Ordered(items) && Rejected(items, fs, w) && !Touched(items, x)
    ensures Same(fs, RunAll(Script(items, stale), Start(fs), w).end.fs, x)
  {
    ScriptEnd(items, stale, fs, w);
    WrittenFrame(items, fs, x);
    RestoredFrame(items, Written(items, fs), x);
    if x in NotedAll(items, fs) {
      NotedArePaths(items, fs, x);
    }
  }

  // ---- Exactly which plans roll back, and whose files stay whole -----------

  /** On every host without stray backups, every rejected run gives every plan
      file back. */
  ghost predicate RollsBack(items: Items, stale: seq<string>) {
    forall fs: Fs, w: World, i: nat :: NoStray(items, fs) && Rejected(items, fs, w) && i < |items| ==>
      Same(fs, RunAll(Script(items, stale), Start(fs), w).end.fs, items[i].path)
  }

  /** On every host without stray backups, any attempts stopped anywhere leave
      every plan file with its whole old or its whole new content. */
  ghost predicate AllStayWhole(items: Items, stale: seq<string>) {
    forall fs: Fs :: NoStray(items, fs) ==> StaysWhole(items, stale, fs)
  }

  /** A content none of two others is. */
  function Third(a: string, b: string): (c: string)
    ensures c != a && c != b
  {
    assert |a + b + "x"| == |a| + |b| + 1;
    a + b + "x"
  }

  /** A host on which overlapping names show: only the root's file is there, and
      the other one where it is named like the staged copy. */
  function OverlapHost(items: Items, p: nat, q: nat): Fs
    requires p < |items| && q < |items|
  {
    var was := Third(items[p].content, items[q].content);
    if items[q].path == items[p].bak then map[items[p].path := was]
    else map[items[p].path := was, items[q].path := was]
  }

  lemma {:induction false} OverlapHostHasNoStray(items: Items, p: nat, q: nat)
    requires Ordered(items) && p < |items| && q < |items| && Root(items, p)
    requires items[q].path == items[p].bak || items[q].path == items[p].tmp
    ensures NoStray(items, OverlapHost(items, p, q))
  {
    forall i | 0 <= i < |items| ensures items[i].bak !in OverlapHost(items, p, q) {
    }
  }

  lemma {:induction false} OverlapBreaksRollback(items: Items, stale: seq<string>, p: nat, q: nat)
    requires Ordered(items) && p < |items| && q < |items| && Root(items, p)
    requires items[q].path == items[p].bak || items[q].path == items[p].tmp
    ensures !RollsBack(items, stale)
  {
    var fs := OverlapHost(items, p, q);
    OverlapHostHasNoStray(items, p, q);
    assert Rejected(items, fs, RejectNew);
    var end := RunAll(Script(items, stale), Start(fs), RejectNew).end.fs;
    if items[q].path == items[p].bak {
      RollbackMixes(items, stale, fs, RejectNew, p, q);
      assert !Same(fs, end, items[p].path);
    } else {
      RollbackDeletes(items, stale, fs, RejectNew, p, q);
      assert !Same(fs, end, items[q].path);
    }
  }

  /** Rollback of every file, on every host without stray backups: exactly for
      the plans whose names do not overlap. */
  lemma {:induction false} RollbackNeedsDisjoint(items: Items, stale: seq<string>)
    requires Ordered(items) && StaleApart(items, stale)
    ensures RollsBack(items, stale) <==> Disjoint(items)
  {
    if Disjoint(items) {
      forall fs: Fs, w: World, i: nat | NoStray(items, fs) && Rejected(items, fs, w) && i < |items|
        ensures Same(fs, RunAll(Script(items, stale), Start(fs), w).end.fs, items[i].path)
      {
        RollbackIsExact(items, stale, fs, w);
      }
    } else {
      var p, q := OverlapRoot(items);
      OverlapBreaksRollback(items, stale, p, q);
    }
  }

  lemma {:induction false} UpdateVisited(items: Items, k: nat, m: Machine, w: World, t: Fs)
    requires k < |items| && !m.failed && forall i :: 0 <= i < |items| ==> items[i].tmp != items[i].path
    requires t in UpdateStates(Written(items[..k], m.fs), items[k], w)
    ensures t in RunAll(Updates(items), m, w).visited
  {
    UpdatesHead(items, 0, m, w);
    assert Updates(items)[0..] == Updates(items) && Updates(items)[1..] == Updates(items[1..]);
    if k == 0 {
    } else {
      var m1 := m.(fs := Updated(m.fs, items[0]), noted := m.noted + NotedBy(m.fs, items[0]));
      assert items[..k][1..] == items[1..][..k - 1] && items[..k][0] == items[0] && items[1..][k - 1] == items[k];
      UpdateVisited(items[1..], k - 1, m1, w, t);
    }
  }

  /** Any state that an update passes through is where some attempt stops. */
  lemma {:induction false} StopsIn(items: Items, stale: seq<string>, fs: Fs, w: World, k: nat, t: Fs)
    returns (a: Attempt)
    requires k < |items| && w.sshd(0, fs) && forall i :: 0 <= i < |items| ==> items[i].tmp != items[i].path
    requires t in UpdateStates(Written(items[..k], fs), items[k], w)
    ensures AfterAttempts(items, stale, fs, [a]) == t
  {
    UpdateVisited(items, k, Start(fs).(checks := 1), w, t);
    var u := RunAll(Updates(items), Start(fs).(checks := 1), w);
    var n :| 0 <= n < |u.visited| && u.visited[n] == t;
    UpdatesComeFirst(items, stale, fs, w, n);
    StopAt(items, stale, fs, w, n);
    a := Attempt(w, n + 1);
  }

  lemma {:induction false} UpdatesComeFirst(items: Items, stale: seq<string>, fs: Fs, w: World, n: nat)
    requires w.sshd(0, fs) && forall i :: 0 <= i < |items| ==> items[i].tmp != items[i].path
    requires n < |RunAll(Updates(items), Start(fs).(checks := 1), w).visited|
    ensures var r := RunAll(Script(items, stale), Start(fs), w);
            n < |r.visited| && r.visited[n] == RunAll(Updates(items), Start(fs).(checks := 1), w).visited[n]
  {
    WrittenRun(items, Start(fs).(checks := 1), w);
    ScriptShape(items, stale, fs, w);
  }

  lemma {:induction false} StopAt(items: Items, stale: seq<string>, fs: Fs, w: World, n: nat)
    requires n < |RunAll(Script(items, stale), Start(fs), w).visited|
    ensures var r := RunAll(Script(items, stale), Start(fs), w);
            AfterAttempts(items, stale, fs, [Attempt(w, n + 1)]) == r.visited[n]
  {
    var a, s := Attempt(w, n + 1), RunAll(Script(items, stale), Start(fs), w).visited[n];
    assert Attempted(items, stale, fs, a) == s;
    assert AfterAttempts(items, stale, s, [a][1..]) == s;
  }

  lemma {:induction false} OverlapBreaksWhole(items: Items, stale: seq<string>, p: nat, q: nat)
    requires Ordered(items) && p < |items| && q < |items| && Root(items, p)
    requires items[q].path == items[p].bak || items[q].path == items[p].tmp
    ensures !AllStayWhole(items, stale)
  {
    var fs := OverlapHost(items, p, q);
    OverlapHostHasNoStray(items, p, q);
    var s := Written(items[..p], fs);
    WrittenFrame(items[..p], fs, items[p].path);
    var t := if items[q].path == items[p].bak then Backed(s, items[p]) else Updated(s, items[p]);
    assert t == UpdateStates(s, items[p], RejectNew)[if items[q].path == items[p].bak then 1 else 4];
    var a := StopsIn(items, stale, fs, RejectNew, p, t);
    assert !Same(fs, t, items[q].path) && !Planned(t, items[q]);
    assert AfterAttempts(items, stale, fs, [a]) == t;
    assert !StaysWhole(items, stale, fs);
  }

  /** Whole files through any attempts, on every host without stray backups:
      exactly for the plans whose names do not overlap. */
  lemma {:induction false} WholeNeedsDisjoint(items: Items, stale: seq<string>)
    requires Ordered(items) && StaleApart(items, stale)
    ensures AllStayWhole(items, stale) <==> Disjoint(items)
  {
    if Disjoint(items) {
      forall fs: Fs | NoStray(items, fs) ensures StaysWhole(items, stale, fs) {
        WholeIsExact(items, stale, fs);
      }
    } else {
      var p, q := OverlapRoot(items);
      OverlapBreaksWhole(items, stale, p, q);
    }
  }

  // ---- What an accepted run leaves, overlapping or not ---------------------

  /** A staged copy that is no file of the plan and is not removed as stale. */
  predicate OnlyStaged(items: Items, stale: seq<string>, x: string) {
    x !in stale && forall i :: 0 <= i < |items| ==> items[i].path != x
  }

  /** Every file an accepted run leaves: planned contents, except where a file is
      named like another one's backup, no backups, no stale files, a staged copy
      only where it was and its file needed no update, the rest as it was. */
  lemma {:induction false} AcceptedFiles(items: Items, stale: seq<string>, fs: Fs, w: World)
    requires Ordered(items) && StaleApart(items, stale) && Accepted(items, fs, w)
    ensures var end := RunAll(Script(items, stale), Start(fs), w).end.fs;
            && (forall i :: 0 <= i < |items| ==>
                  Lookup(end, items[i].path) == if items[i].path in Baks(items) then None else Some(items[i].content))
            && (forall i :: 0 <= i < |items| ==> items[i].bak !in end)
            && (forall x :: x in stale ==> x !in end)
            && (forall i :: 0 <= i < |items| && OnlyStaged(items, stale, items[i].tmp) ==>
                  Lookup(end, items[i].tmp)
                  == if Planned(Written(items[..i], fs), items[i]) then Lookup(fs, items[i].tmp) else None)
            && (forall x :: !Touched(items, x) && x !in stale ==> Same(fs, end, x))
  {
    ScriptEnd(items, stale, fs, w);
    var end := RunAll(Script(items, stale), Start(fs), w).end.fs;
    WrittenContents(items, fs);
    forall i | 0 <= i < |items|
      ensures Lookup(end, items[i].path) == if items[i].path in Baks(items) then None else Some(items[i].content)
      ensures items[i].bak !in end
    {
      assert Planned(Written(items, fs), items[i]) && Baks(items)[i] == items[i].bak;
    }
    forall i | 0 <= i < |items| && OnlyStaged(items, stale, items[i].tmp)
      ensures Lookup(end, items[i].tmp)
           == if Planned(Written(items[..i], fs), items[i]) then Lookup(fs, items[i].tmp) else None
    {
      StagedAtTurn(items, stale, fs, i);
    }
    forall x | !Touched(items, x) && x !in stale ensures Same(fs, end, x) {
      WrittenFrame(items, fs, x);
    }
  }

  lemma {:induction false} StagedAtTurn(items: Items, stale: seq<string>, fs: Fs, i: nat)
    requires Ordered(items) && i < |items| && OnlyStaged(items, stale, items[i].tmp)
    ensures Lookup(Written(items, fs), items[i].tmp)
         == if Planned(Written(items[..i], fs), items[i]) then Lookup(fs, items[i].tmp) else None
  {
    var s := Written(items[..i], fs);
    WrittenFrame(items[..i], fs, items[i].tmp);
    WrittenSplit(items, fs, i);
    WrittenFrame(items[i + 1..], Updated(s, items[i]), items[i].tmp);
  }
}
