/** What a manual sync and its removal mean for the sshd of a host. */
module ManualSync {
  import opened Text
  import opened Sorting
  import opened Shell
  import opened ManualPlan
  import opened ManualOverlap
  import MR = ManualRecovery
  import MS = ManualScript

  const BAK := ".nokku-bak"
  const TMP := ".nokku-tmp"

  /** No reported account is named like the backup or the staged copy of another. */
  predicate NamesApart(accounts: seq<string>) {
    forall a, b :: a in accounts && b in accounts ==> a != b + BAK && a != b + TMP
  }

  predicate Distinct(files: seq<File>) {
    forall i, j :: 0 <= i < j < |files| ==> files[i].path != files[j].path
  }

  predicate FilesApart(files: seq<File>) {
    forall i, j :: 0 <= i < |files| && 0 <= j < |files| ==>
      files[i].path != files[j].path + BAK && files[i].path != files[j].path + TMP
  }

  lemma {:induction false} SuffixCancels(a: string, b: string, s: string)
    requires a + s == b + s
    ensures a == b
  {
    assert |a + s| == |b + s|;
    assert a == (a + s)[..|a|] && b == (b + s)[..|b|];
  }

  lemma {:induction false} BakIsNotTmp(a: string, b: string)
    ensures a + BAK != b + TMP
  {
    var x, y := a + BAK, b + TMP;
    assert x[|x| - 1] == 'k' && y[|y| - 1] == 'p';
  }

  lemma {:induction false} DerivedNamesDiffer(files: seq<File>)
    requires Distinct(files)
    ensures var items := ItemsOf(files);
            && (forall i, j :: 0 <= i < j < |items| ==> items[i].bak != items[j].bak && items[i].tmp != items[j].tmp)
            && (forall i, j :: 0 <= i < |items| && 0 <= j < |items| ==> items[i].bak != items[j].tmp)
  {
    var items := ItemsOf(files);
    forall i, j | 0 <= i < |files| && 0 <= j < |files|
      ensures items[i].bak != items[j].tmp
      ensures i < j ==> items[i].bak != items[j].bak && items[i].tmp != items[j].tmp
    {
      BakIsNotTmp(files[i].path, files[j].path);
      if items[i].bak == items[j].bak {
        SuffixCancels(files[i].path, files[j].path, BAK);
      }
      if items[i].tmp == items[j].tmp {
        SuffixCancels(files[i].path, files[j].path, TMP);
      }
    }
  }

  lemma {:induction false} DisjointFiles(files: seq<File>)
    requires Distinct(files)
    ensures MS.Disjoint(ItemsOf(files)) <==> FilesApart(files)
  {
    var items := ItemsOf(files);
    DerivedNamesDiffer(files);
    forall i, j | 0 <= i < |files| && 0 <= j < |files|
      ensures items[i].path != items[j].bak <==> files[i].path != files[j].path + BAK
      ensures items[i].path != items[j].tmp <==> files[i].path != files[j].path + TMP
    {
    }
    if MS.Disjoint(items) {
      forall i, j | 0 <= i < |files| && 0 <= j < |files|
        ensures files[i].path != files[j].path + BAK && files[i].path != files[j].path + TMP
      {
        assert items[i].path != items[j].bak && items[i].path != items[j].tmp;
      }
    }
  }

  /** The paths a sync uses tell the three kinds of file apart. */
  lemma {:induction false} PathKinds(a: string, s: string)
    ensures CA_PATH + s != PrincipalsPath(a) && DROP_IN_PATH + s != PrincipalsPath(a)
    ensures CA_PATH != PrincipalsPath(a) && DROP_IN_PATH != PrincipalsPath(a)
    ensures CA_PATH != DROP_IN_PATH && CA_PATH + s != DROP_IN_PATH && DROP_IN_PATH + s != CA_PATH
    ensures PrincipalsPath(a) + s == PrincipalsPath(a + s)
  {
    var c, d, p := CA_PATH + s, DROP_IN_PATH + s, PrincipalsPath(a);
    assert c[15] == CA_PATH[15] == 'c' && c[9] == CA_PATH[9] == 'n';
    assert d[9] == DROP_IN_PATH[9] == 's';
    assert p[15] == PRINCIPALS_DIR[15] == 'p' && p[9] == PRINCIPALS_DIR[9] == 'n';
  }

  lemma {:induction false} PrincipalsInjective(a: string, b: string)
    requires PrincipalsPath(a) == PrincipalsPath(b)
    ensures a == b
  {
    var n := |PRINCIPALS_DIR + "/"|;
    assert a == PrincipalsPath(a)[n..] && b == PrincipalsPath(b)[n..];
  }

  // ---- The plan of a sync --------------------------------------------------

  lemma {:induction false} PlanFile(caKey: string, grants: map<string, seq<string>>, h: Host, i: nat)
    requires i < |PlanOf(caKey, grants, h).files|
    ensures var files := PlanOf(caKey, grants, h).files;
            && |files| == |h.accounts| + 2
            && (i == 0 ==> files[i].path == CA_PATH)
            && (i == 1 ==> files[i].path == DROP_IN_PATH)
            && (i >= 2 ==> files[i] == AccountFile(grants, h.accounts[i - 2]))
  {
  }

  lemma {:induction false} PlanPairs(caKey: string, grants: map<string, seq<string>>, h: Host, i: nat, j: nat,
                                     s: string)
    requires i < |PlanOf(caKey, grants, h).files| && j < |PlanOf(caKey, grants, h).files| && s != ""
    ensures var files := PlanOf(caKey, grants, h).files;
            && |files| == |h.accounts| + 2
            && (files[i].path == files[j].path + s <==>
                i >= 2 && j >= 2 && h.accounts[i - 2] == h.accounts[j - 2] + s)
            && (files[i].path == files[j].path <==>
                i == j || (i >= 2 && j >= 2 && h.accounts[i - 2] == h.accounts[j - 2]))
  {
    PlanFile(caKey, grants, h, i);
    PlanFile(caKey, grants, h, j);
    var files := PlanOf(caKey, grants, h).files;
    var pi, pj := files[i].path, files[j].path;
    PathKinds("", s);
    if i >= 2 {
      PathKinds(h.accounts[i - 2], s);
    }
    if j >= 2 {
      PathKinds(h.accounts[j - 2], s);
      var long := h.accounts[j - 2] + s;
      PathKinds(long, s);
      if i >= 2 {
        if pi == pj + s {
          PrincipalsInjective(h.accounts[i - 2], long);
        }
        if pi == pj {
          PrincipalsInjective(h.accounts[i - 2], h.accounts[j - 2]);
        }
      }
    }
    assert |CA_PATH + s| != |CA_PATH| && |DROP_IN_PATH + s| != |DROP_IN_PATH|;
  }

  /** A stale file's account: a safe name the probe listed and did not report. */
  predicate IsStale(names: seq<string>, accounts: seq<string>, x: string) {
    exists k :: 0 <= k < |names| && SafeName(names[k]) && names[k] !in accounts && x == PrincipalsPath(names[k])
  }

  lemma {:induction false} StaleAre(names: seq<string>, accounts: seq<string>)
    ensures forall x :: x in StalePaths(names, accounts) <==> IsStale(names, accounts, x)
  {
    if names == [] {
    } else {
      var last := |names| - 1;
      var init := names[..last];
      StaleAre(init, accounts);
      forall x ensures x in StalePaths(names, accounts) <==> IsStale(names, accounts, x) {
        if x in StalePaths(init, accounts) {
          var k :| 0 <= k < |init| && SafeName(init[k]) && init[k] !in accounts && x == PrincipalsPath(init[k]);
          assert names[k] == init[k];
        }
        if IsStale(names, accounts, x) {
          var k :| 0 <= k < |names| && SafeName(names[k]) && names[k] !in accounts && x == PrincipalsPath(names[k]);
          if k < last {
            assert init[k] == names[k];
          }
        }
      }
    }
  }

  lemma {:induction false} PlanDistinct(caKey: string, grants: map<string, seq<string>>, h: Host)
    requires StrictlySorted(h.accounts)
    ensures Distinct(PlanOf(caKey, grants, h).files)
  {
    var files := PlanOf(caKey, grants, h).files;
    forall i, j | 0 <= i < j < |files| ensures files[i].path != files[j].path {
      PlanPairs(caKey, grants, h, i, j, BAK);
      if i >= 2 {
        assert Less(h.accounts[i - 2], h.accounts[j - 2]);
        LessIrreflexive(h.accounts[i - 2]);
      }
    }
  }

  lemma {:induction false} PlanFilesApart(caKey: string, grants: map<string, seq<string>>, h: Host)
    ensures FilesApart(PlanOf(caKey, grants, h).files) <==> NamesApart(h.accounts)
  {
    var files := PlanOf(caKey, grants, h).files;
    forall i, j | 0 <= i < |files| && 0 <= j < |files|
      ensures files[i].path == files[j].path + BAK <==> i >= 2 && j >= 2 && h.accounts[i - 2] == h.accounts[j - 2] + BAK
      ensures files[i].path == files[j].path + TMP <==> i >= 2 && j >= 2 && h.accounts[i - 2] == h.accounts[j - 2] + TMP
    {
      PlanPairs(caKey, grants, h, i, j, BAK);
      PlanPairs(caKey, grants, h, i, j, TMP);
    }
    if NamesApart(h.accounts) {
      forall i, j | 0 <= i < |files| && 0 <= j < |files|
        ensures files[i].path != files[j].path + BAK && files[i].path != files[j].path + TMP
      {
        assert i >= 2 ==> h.accounts[i - 2] in h.accounts;
        assert j >= 2 ==> h.accounts[j - 2] in h.accounts;
      }
    }
    if FilesApart(files) {
      forall a, b | a in h.accounts && b in h.accounts ensures a != b + BAK && a != b + TMP {
        var i :| 0 <= i < |h.accounts| && h.accounts[i] == a;
        var j :| 0 <= j < |h.accounts| && h.accounts[j] == b;
        assert files[i + 2].path != files[j + 2].path + BAK;
      }
    }
  }

  lemma {:induction false} PlanStaleApart(caKey: string, grants: map<string, seq<string>>, h: Host)
    ensures MS.StaleApart(ItemsOf(PlanOf(caKey, grants, h).files), PlanOf(caKey, grants, h).stale)
  {
    var p := PlanOf(caKey, grants, h);
    StaleAre(h.principals, h.accounts);
    forall i | 0 <= i < |p.files| ensures ItemsOf(p.files)[i].path !in p.stale {
      PlanFile(caKey, grants, h, i);
      forall k | 0 <= k < |h.principals| && h.principals[k] !in h.accounts
        ensures p.files[i].path != PrincipalsPath(h.principals[k])
      {
        PathKinds(h.principals[k], "");
        if i >= 2 && p.files[i].path == PrincipalsPath(h.principals[k]) {
          PrincipalsInjective(h.accounts[i - 2], h.principals[k]);
        }
      }
    }
  }

  /** The plan of a sync meets what the script's guarantees ask of its paths
      exactly when no account is named like another one's backup or staged copy. */
  lemma {:induction false} PlanDisjoint(caKey: string, grants: map<string, seq<string>>, h: Host)
    requires StrictlySorted(h.accounts)
    ensures var p := PlanOf(caKey, grants, h);
            && (MS.Disjoint(ItemsOf(p.files)) <==> NamesApart(h.accounts))
            && MS.StaleApart(ItemsOf(p.files), p.stale)
  {
    PlanDistinct(caKey, grants, h);
    DisjointFiles(PlanOf(caKey, grants, h).files);
    PlanFilesApart(caKey, grants, h);
    PlanStaleApart(caKey, grants, h);
  }

  lemma {:induction false} OrderForbids(a: string, b: string, s: string)
    requires Less(a, b) && s != ""
    ensures a != b && a != b + s
  {
    LessIrreflexive(a);
    LessAsymmetric(a, b);
    LessThanLonger(b, s);
  }

  /** Account names are visited in order, so no update harms an earlier file. */
  lemma {:induction false} PlanLaterApart(caKey: string, grants: map<string, seq<string>>, h: Host)
    requires StrictlySorted(h.accounts)
    ensures LaterApart(ItemsOf(PlanOf(caKey, grants, h).files))
  {
    var files := PlanOf(caKey, grants, h).files;
    var items := ItemsOf(files);
    forall i, j | 0 <= i < j < |items|
      ensures items[i].path != items[j].path && items[i].path != items[j].bak && items[i].path != items[j].tmp
    {
      PlanPairs(caKey, grants, h, i, j, BAK);
      PlanPairs(caKey, grants, h, i, j, TMP);
      if i >= 2 {
        assert Less(h.accounts[i - 2], h.accounts[j - 2]);
        OrderForbids(h.accounts[i - 2], h.accounts[j - 2], BAK);
        OrderForbids(h.accounts[i - 2], h.accounts[j - 2], TMP);
      }
    }
    forall i | 0 <= i < |items| ensures items[i].tmp != items[i].path && items[i].bak != items[i].path {
      assert |items[i].tmp| > |items[i].path| && |items[i].bak| > |items[i].path|;
    }
  }

  lemma {:induction false} PlanOrdered(caKey: string, grants: map<string, seq<string>>, h: Host)
    requires StrictlySorted(h.accounts)
    ensures Ordered(ItemsOf(PlanOf(caKey, grants, h).files))
  {
    PlanLaterApart(caKey, grants, h);
    PlanDistinct(caKey, grants, h);
    DerivedNamesDiffer(PlanOf(caKey, grants, h).files);
  }

  // ---- What sshd reads after a sync ----------------------------------------

  /** The principals sshd reads from a principals file. */
  function Listed(content: string): set<string> {
    set l | l in Split(content, '\n') && l != ""
  }

  /** The non-empty principals granted on an account. */
  function Granted(grants: map<string, seq<string>>, name: string): set<string> {
    set id | id in GrantsOf(grants, name) && id != ""
  }

  /** Rendering principals and reading them back gives exactly the granted ones. */
  lemma {:induction false} RenderedIsGranted(grants: map<string, seq<string>>, name: string)
    requires forall id :: id in GrantsOf(grants, name) ==> '\n' !in id
    ensures Listed(RenderPrincipals(GrantsOf(grants, name))) == Granted(grants, name)
  {
    var ids := GrantsOf(grants, name);
    NonEmptyAre(ids);
    SortUniqueCorrect(NonEmpty(ids));
    SplitLines(SortUnique(NonEmpty(ids)));
  }

  /** The files an accepted sync leaves on the host. */
  function Synced(caKey: string, grants: map<string, seq<string>>, h: Host, fs: Fs, w: World): Fs {
    RunAll(ScriptOf(PlanOf(caKey, grants, h)), Start(fs), w).end.fs
  }

  predicate Accepts(p: Plan, fs: Fs, w: World) {
    MS.Accepted(ItemsOf(p.files), fs, w)
  }

  lemma {:induction false} BakOfAccount(caKey: string, grants: map<string, seq<string>>, h: Host, n: string)
    ensures PrincipalsPath(n) in MS.Baks(ItemsOf(PlanOf(caKey, grants, h).files))
       <==> exists b :: b in h.accounts && n == b + BAK
  {
    var files := PlanOf(caKey, grants, h).files;
    var baks := MS.Baks(ItemsOf(files));
    forall i | 0 <= i < |files|
      ensures baks[i] == PrincipalsPath(n) <==> i >= 2 && n == h.accounts[i - 2] + BAK
    {
      PlanFile(caKey, grants, h, i);
      PathKinds(n, BAK);
      if i >= 2 {
        PathKinds(h.accounts[i - 2], BAK);
        if baks[i] == PrincipalsPath(n) {
          PrincipalsInjective(n, h.accounts[i - 2] + BAK);
        }
      }
    }
    if b :| b in h.accounts && n == b + BAK {
      var k :| 0 <= k < |h.accounts| && h.accounts[k] == b;
      assert baks[k + 2] == PrincipalsPath(n);
    }
  }

  lemma {:induction false} StalePath(h: Host, n: string)
    ensures PrincipalsPath(n) in StalePaths(h.principals, h.accounts)
       <==> n in h.principals && SafeName(n) && n !in h.accounts
  {
    StaleAre(h.principals, h.accounts);
    forall k | 0 <= k < |h.principals| && PrincipalsPath(n) == PrincipalsPath(h.principals[k])
      ensures n == h.principals[k]
    {
      PrincipalsInjective(n, h.principals[k]);
    }
  }

  lemma {:induction false} WrittenAccount(caKey: string, grants: map<string, seq<string>>, h: Host, fs: Fs, n: string)
    requires StrictlySorted(h.accounts) && n in h.accounts
    ensures Lookup(MS.Written(ItemsOf(PlanOf(caKey, grants, h).files), fs), PrincipalsPath(n))
         == Some(RenderPrincipals(GrantsOf(grants, n)))
  {
    var items := ItemsOf(PlanOf(caKey, grants, h).files);
    PlanLaterApart(caKey, grants, h);
    WrittenContents(items, fs);
    var k :| 0 <= k < |h.accounts| && h.accounts[k] == n;
    PlanFile(caKey, grants, h, k + 2);
    assert MS.Planned(MS.Written(items, fs), items[k + 2]);
  }

  lemma {:induction false} SyncEnd(caKey: string, grants: map<string, seq<string>>, h: Host, fs: Fs, w: World)
    requires StrictlySorted(h.accounts) && Accepts(PlanOf(caKey, grants, h), fs, w)
    ensures var p := PlanOf(caKey, grants, h);
            Synced(caKey, grants, h, fs, w)
            == MS.Written(ItemsOf(p.files), fs) - (set x | x in MS.Baks(ItemsOf(p.files)) + p.stale)
  {
    PlanLaterApart(caKey, grants, h);
    ScriptEnd(ItemsOf(PlanOf(caKey, grants, h).files), PlanOf(caKey, grants, h).stale, fs, w);
  }

  predicate IsBackup(p: Plan, path: string) {
    exists j :: 0 <= j < |p.files| && path == p.files[j].path + BAK
  }

  /** The host has every file of the plan as planned and no backup of it. A file
      named like another one's backup is gone with the backups. */
  predicate PlanWritten(p: Plan, fs: Fs) {
    forall i :: 0 <= i < |p.files| ==>
      && (if IsBackup(p, p.files[i].path) then p.files[i].path !in fs else MS.Planned(fs, ItemOf(p.files[i])))
      && p.files[i].path + BAK !in fs
  }

  lemma {:induction false} FilesWritten(p: Plan, fs: Fs)
    requires var items := ItemsOf(p.files);
             && (forall i :: 0 <= i < |items| ==> items[i].bak !in fs)
             && (forall i :: 0 <= i < |items| ==>
                   var gone := items[i].path in MS.Baks(items);
                   Lookup(fs, items[i].path) == if gone then None else Some(items[i].content))
    ensures PlanWritten(p, fs)
  {
    var items := ItemsOf(p.files);
    forall i | 0 <= i < |items|
      ensures items[i].path in MS.Baks(items) <==> IsBackup(p, p.files[i].path)
      ensures items[i].bak == p.files[i].path + BAK && items[i] == ItemOf(p.files[i])
    {
      if items[i].path in MS.Baks(items) {
        var j :| 0 <= j < |items| && MS.Baks(items)[j] == items[i].path;
        assert p.files[i].path == p.files[j].path + BAK;
      }
      if IsBackup(p, p.files[i].path) {
        var j :| 0 <= j < |p.files| && p.files[i].path == p.files[j].path + BAK;
        assert MS.Baks(items)[j] == items[i].path;
      }
    }
  }

  /** What an accepted sync leaves, overlapping names or not: the plan written,
      the stale files gone, every file it does not name as it was, and a staged
      copy only where it was and its file needed no update at its turn. */
  lemma {:induction false} SyncLeaves(caKey: string, grants: map<string, seq<string>>, h: Host, fs: Fs, w: World)
    requires StrictlySorted(h.accounts) && Accepts(PlanOf(caKey, grants, h), fs, w)
    ensures var p := PlanOf(caKey, grants, h);
            var items := ItemsOf(p.files);
            var end := Synced(caKey, grants, h, fs, w);
            && PlanWritten(p, end)
            && (forall x :: x in p.stale ==> x !in end)
            && (forall x :: !MS.Touched(items, x) && x !in p.stale ==> MS.Same(fs, end, x))
            && (forall i :: 0 <= i < |items| && OnlyStaged(items, p.stale, items[i].tmp) ==>
                  Lookup(end, items[i].tmp) == if MR.InPlace(items, fs, i) then Lookup(fs, items[i].tmp) else None)
  {
    var p := PlanOf(caKey, grants, h);
    var items := ItemsOf(p.files);
    PlanOrdered(caKey, grants, h);
    PlanStaleApart(caKey, grants, h);
    assert PlanWritten(p, Synced(caKey, grants, h, fs, w)) by {
      AcceptedFiles(items, p.stale, fs, w);
      FilesWritten(p, Synced(caKey, grants, h, fs, w));
    }
    AcceptedFiles(items, p.stale, fs, w);
  }

  /** End to end: after an accepted sync, the file sshd reads for a reported
      account exists and lists exactly the principals granted on it, unless the
      account is named like the backup of another reported one, whose cleanup
      then takes the file away. */
  lemma {:induction false} SyncGivesGrants(caKey: string, grants: map<string, seq<string>>, h: Host, fs: Fs, w: World,
                                           n: string)
    requires StrictlySorted(h.accounts) && n in h.accounts
    requires forall id :: id in GrantsOf(grants, n) ==> '\n' !in id
    requires Accepts(PlanOf(caKey, grants, h), fs, w)
    ensures var end := Synced(caKey, grants, h, fs, w);
            var path := PrincipalsPath(n);
            if exists b :: b in h.accounts && n == b + BAK then path !in end
            else path in end && Listed(end[path]) == Granted(grants, n)
  {
    SyncEnd(caKey, grants, h, fs, w);
    WrittenAccount(caKey, grants, h, fs, n);
    BakOfAccount(caKey, grants, h, n);
    StalePath(h, n);
    RenderedIsGranted(grants, n);
  }

  /** End to end, the other half: a safe name that was not reported has no
      principals file afterwards. The probe has to have listed it if it was there. */
  lemma {:induction false} SyncDeniesOthers(caKey: string, grants: map<string, seq<string>>, h: Host, fs: Fs,
                                            w: World, n: string)
    requires StrictlySorted(h.accounts) && n !in h.accounts && SafeName(n)
    requires PrincipalsPath(n) in fs ==> n in h.principals
    requires Accepts(PlanOf(caKey, grants, h), fs, w)
    ensures PrincipalsPath(n) !in Synced(caKey, grants, h, fs, w)
  {
    var p := PlanOf(caKey, grants, h);
    var items := ItemsOf(p.files);
    PlanLaterApart(caKey, grants, h);
    ScriptEnd(items, p.stale, fs, w);
    StalePath(h, n);
    if PrincipalsPath(n) !in p.stale && PrincipalsPath(n) !in MS.Baks(items) {
      forall i | 0 <= i < |items| ensures PrincipalsPath(n) != items[i].path && PrincipalsPath(n) != items[i].bak {
        PlanFile(caKey, grants, h, i);
        PathKinds(n, "");
        if i >= 2 && PrincipalsPath(n) == items[i].path {
          PrincipalsInjective(n, h.accounts[i - 2]);
        }
        assert MS.Baks(items)[i] == items[i].bak;
      }
      WrittenAbsent(items, fs, PrincipalsPath(n));
    }
  }

  lemma {:induction false} NonBlankAre(lines: seq<string>)
    ensures forall l :: l in NonBlank(lines) <==> l in lines && TrimSpace(l) != ""
  {
    if lines == [] {
    } else {
      NonBlankAre(lines[..|lines| - 1]);
      assert lines == lines[..|lines| - 1] + [lines[|lines| - 1]];
    }
  }

  lemma {:induction false} SafeNameIsNotBlank(n: string)
    requires SafeName(n)
    ensures TrimSpace(n) == n && !IsMarker(n) && '\n' !in n
  {
    assert SafeChar(n[0]) && SafeChar(n[|n| - 1]);
    assert SECTION_PASSWD[0] == SECTION_HOST_KEY[0] == SECTION_PRINCIPALS[0] == '#';
  }

  /** The host a sync works on, read from what the probe printed there. */
  function HostRead(passwd: seq<string>, keys: seq<string>, listing: seq<string>): Host {
    ProbedHost(ProbeOutput(passwd, keys, listing))
  }

  /** Where the probe listed nothing, as after a host key without its newline, the
      principals file of an account that is gone stays as it is. */
  lemma {:induction false} UnlistedStays(caKey: string, grants: map<string, seq<string>>, h: Host, fs: Fs, w: World,
                                         n: string)
    requires StrictlySorted(h.accounts) && h.principals == [] && n !in h.accounts
    requires forall b :: b in h.accounts ==> n != b + BAK && n != b + TMP
    requires Accepts(PlanOf(caKey, grants, h), fs, w)
    ensures MS.Same(fs, Synced(caKey, grants, h, fs, w), PrincipalsPath(n))
  {
    var p := PlanOf(caKey, grants, h);
    var x := PrincipalsPath(n);
    SyncLeaves(caKey, grants, h, fs, w);
    forall i | 0 <= i < |ItemsOf(p.files)|
      ensures var it := ItemsOf(p.files)[i]; x != it.path && x != it.bak && x != it.tmp
    {
      NotAFile(caKey, grants, h, n, i);
    }
  }

  lemma {:induction false} NotAFile(caKey: string, grants: map<string, seq<string>>, h: Host, n: string, i: nat)
    requires i < |PlanOf(caKey, grants, h).files| && n !in h.accounts
    requires forall b :: b in h.accounts ==> n != b + BAK && n != b + TMP
    ensures var path := PlanOf(caKey, grants, h).files[i].path;
            PrincipalsPath(n) != path && PrincipalsPath(n) != path + BAK && PrincipalsPath(n) != path + TMP
  {
    PlanFile(caKey, grants, h, i);
    PathKinds(n, BAK);
    PathKinds(n, TMP);
    if i >= 2 {
      var b := h.accounts[i - 2];
      assert b in h.accounts;
      PathKinds(b, BAK);
      PathKinds(b, TMP);
      forall m | PrincipalsPath(n) == PrincipalsPath(m) ensures n == m {
        PrincipalsInjective(n, m);
      }
    }
  }

  // ---- Syncs that are cut off or rejected ----------------------------------

  /** A rejected sync fails and touches nothing but the files of its plan. With
      names that do not overlap it leaves no backup, and gives every file of the
      plan its old content or absence back exactly when no leftover backup with
      other content stood beside a file that already was as planned. */
  lemma {:induction false} SyncRollsBack(caKey: string, grants: map<string, seq<string>>, h: Host, fs: Fs, w: World)
    requires StrictlySorted(h.accounts) && Rejected(ItemsOf(PlanOf(caKey, grants, h).files), fs, w)
    ensures var items := ItemsOf(PlanOf(caKey, grants, h).files);
            var end := RunAll(ScriptOf(PlanOf(caKey, grants, h)), Start(fs), w).end;
            && end.failed
            && (forall x :: !MS.Touched(items, x) ==> MS.Same(fs, end.fs, x))
            && (NamesApart(h.accounts) ==>
                  && (forall i :: 0 <= i < |items| ==> items[i].bak !in end.fs)
                  && ((forall i :: 0 <= i < |items| ==> MS.Same(fs, end.fs, items[i].path))
                      <==>
                      (forall i :: 0 <= i < |items| && MS.Planned(fs, items[i]) && items[i].bak in fs ==>
                         fs[items[i].bak] == items[i].content)))
  {
    var p := PlanOf(caKey, grants, h);
    PlanOrdered(caKey, grants, h);
    PlanDisjoint(caKey, grants, h);
    ScriptEnd(ItemsOf(p.files), p.stale, fs, w);
    forall x | !MS.Touched(ItemsOf(p.files), x)
      ensures MS.Same(fs, RunAll(ScriptOf(p), Start(fs), w).end.fs, x)
    {
      RejectedFrame(ItemsOf(p.files), p.stale, fs, w, x);
    }
    if NamesApart(h.accounts) {
      MS.RollbackIsExact(ItemsOf(p.files), p.stale, fs, w);
    }
  }

  /** With names that do not overlap, every file of the plan stays whole through
      any attempts exactly when no stray backup was on the host. */
  lemma {:induction false} SyncStaysWhole(caKey: string, grants: map<string, seq<string>>, h: Host, fs: Fs)
    requires StrictlySorted(h.accounts)
    ensures var p := PlanOf(caKey, grants, h);
            NamesApart(h.accounts) ==>
              (MS.StaysWhole(ItemsOf(p.files), p.stale, fs) <==> MS.NoStray(ItemsOf(p.files), fs))
  {
    PlanDisjoint(caKey, grants, h);
    if NamesApart(h.accounts) {
      MS.WholeIsExact(ItemsOf(PlanOf(caKey, grants, h).files), PlanOf(caKey, grants, h).stale, fs);
    }
  }

  /** Rollback and whole files are promised for every host without stray backups.
      A sync keeps the two promises exactly when no account is named like another
      one's backup or staged copy. */
  lemma {:induction false} NamesDecide(caKey: string, grants: map<string, seq<string>>, h: Host)
    requires StrictlySorted(h.accounts)
    ensures var p := PlanOf(caKey, grants, h);
            && (RollsBack(ItemsOf(p.files), p.stale) <==> NamesApart(h.accounts))
            && (AllStayWhole(ItemsOf(p.files), p.stale) <==> NamesApart(h.accounts))
  {
    var p := PlanOf(caKey, grants, h);
    PlanOrdered(caKey, grants, h);
    PlanDisjoint(caKey, grants, h);
    RollbackNeedsDisjoint(ItemsOf(p.files), p.stale);
    WholeNeedsDisjoint(ItemsOf(p.files), p.stale);
  }

  /** What goes wrong without that: with the accounts `a` and `a.nokku-bak`, a
      rejected sync leaves `a` the principals planned for the other account, and
      the other account what `a` had. */
  lemma {:induction false} RejectedSyncMixesAccounts(a: string, caKey: string, grants: map<string, seq<string>>,
                                                     h: Host,
                                                     fs: Fs, w: World)
    requires h.accounts == [a, a + BAK] && PrincipalsPath(a) in fs && PrincipalsPath(a + BAK) !in fs
    requires fs[PrincipalsPath(a)] != RenderPrincipals(GrantsOf(grants, a))
    requires fs[PrincipalsPath(a)] != RenderPrincipals(GrantsOf(grants, a + BAK))
    requires Rejected(ItemsOf(PlanOf(caKey, grants, h).files), fs, w)
    ensures var end := RunAll(ScriptOf(PlanOf(caKey, grants, h)), Start(fs), w).end;
            && end.failed
            && Lookup(end.fs, PrincipalsPath(a)) == Some(RenderPrincipals(GrantsOf(grants, a + BAK)))
            && Lookup(end.fs, PrincipalsPath(a + BAK)) == Some(fs[PrincipalsPath(a)])
  {
    var p := PlanOf(caKey, grants, h);
    var items := ItemsOf(p.files);
    LessThanLonger(a, BAK);
    PlanOrdered(caKey, grants, h);
    PlanFile(caKey, grants, h, 2);
    PlanFile(caKey, grants, h, 3);
    forall i | 0 <= i < |items|
      ensures items[2].path != items[i].bak && items[2].path != items[i].tmp && items[i].path != items[3].bak
      ensures items[3].path == items[2].bak
    {
      PlanPairs(caKey, grants, h, 2, i, BAK);
      PlanPairs(caKey, grants, h, 2, i, TMP);
      PlanPairs(caKey, grants, h, i, 3, BAK);
      PlanPairs(caKey, grants, h, 3, 2, BAK);
      assert |a| < |a + BAK| < |a + BAK + BAK| && |a| < |a + TMP| && |a| < |a + BAK + TMP|;
    }
    ScriptEnd(items, p.stale, fs, w);
    RollbackMixes(items, p.stale, fs, w, 2, 3);
  }

  /** Recovery of a sync, overlapping names or not: after any attempts cut off
      anywhere, an accepted one leaves the files an uninterrupted sync leaves,
      exactly when every staged copy that a sync would leave belongs to a file that
      no attempt ever changes. So it does on a host without staged copies. With
      names that do not overlap, such a file is one without a stray backup. */
  lemma {:induction false} SyncRecovers(caKey: string, grants: map<string, seq<string>>, h: Host, fs: Fs)
    requires StrictlySorted(h.accounts)
    ensures var p := PlanOf(caKey, grants, h);
            var items := ItemsOf(p.files);
            && (MR.Recovers(items, p.stale, fs) <==> MR.LeftLast(items, p.stale, fs))
            && ((forall i :: 0 <= i < |items| ==> items[i].tmp !in fs) ==> MR.Recovers(items, p.stale, fs))
            && (NamesApart(h.accounts) ==>
                  (MR.Recovers(items, p.stale, fs) <==>
                   forall i :: 0 <= i < |items| && items[i].tmp in fs && items[i].tmp !in p.stale ==>
                     !(MS.Planned(fs, items[i]) && MS.StrayBackup(fs, items[i]))))
  {
    var p := PlanOf(caKey, grants, h);
    var items := ItemsOf(p.files);
    PlanOrdered(caKey, grants, h);
    PlanDisjoint(caKey, grants, h);
    MR.RecoveryIsExact(items, p.stale, fs);
    forall i | 0 <= i < |items| && items[i].tmp !in fs ensures !MR.Leaves(items, p.stale, fs, i) {
      MR.NoneStagedNoneLeft(items, p.stale, fs, i);
    }
    if NamesApart(h.accounts) {
      forall i | 0 <= i < |items|
        ensures MR.Leaves(items, p.stale, fs, i) <==>
                  MS.Planned(fs, items[i]) && items[i].tmp in fs && items[i].tmp !in p.stale
        ensures MR.Leaves(items, p.stale, fs, i) ==>
                  (MR.Lasting(items, MS.Written(items, fs), i) <==> !MS.StrayBackup(fs, items[i]))
      {
        MR.LastingApart(items, p.stale, fs, i);
      }
    }
  }

  // ---- Removal -------------------------------------------------------------

  /** The drop-in goes first and comes back when sshd rejects the config without it. */
  function RemoveChecked(path: string, bak: string): Instr {
    If(Exists(path), [
      Move(path, bak),
      If(Rejects, [Move(bak, path), Exit], []),
      Remove(bak)
    ], [])
  }

  /** manual.RemoveScript. */
  const REMOVE_SCRIPT: seq<Instr> := [
    RemoveChecked(DROP_IN_PATH, DROP_IN_PATH + BAK),
    If(Exists(CA_PATH), [Remove(CA_PATH)], []),
    RemoveUnder(PRINCIPALS_DIR)
  ]

  /** What the check of a removal sees: the file under its backup name. */
  function Aside(fs: Fs, path: string, bak: string): Fs {
    if path in fs then (fs - {path})[bak := fs[path]] else fs
  }

  /** What the removal's `sshd -t` sees. */
  function WithoutDropIn(fs: Fs): Fs {
    Aside(fs, DROP_IN_PATH, DROP_IN_PATH + BAK)
  }

  predicate RemovalRejected(fs: Fs, w: World) {
    DROP_IN_PATH in fs && !w.sshd(0, WithoutDropIn(fs))
  }

  lemma {:induction false} RemoveCheckedRun(path: string, bak: string, m: Machine, w: World)
    requires !m.failed && m.checks == 0 && path != bak
    ensures var r := Exec(RemoveChecked(path, bak), m, w).end;
            if path in m.fs && !w.sshd(0, Aside(m.fs, path, bak)) then r.failed && r.fs == m.fs - {bak}
            else !r.failed && r.fs == (if path in m.fs then m.fs - {path, bak} else m.fs)
  {
    if path in m.fs {
      var m1 := m.(fs := Aside(m.fs, path, bak));
      var check := If(Rejects, [Move(bak, path), Exit], []);
      assert [Move(path, bak), check, Remove(bak)] == [Move(path, bak)] + [check, Remove(bak)];
      RunCons(Move(path, bak), [check, Remove(bak)], m, w);
      assert [check, Remove(bak)] == [check] + [Remove(bak)];
      RunCons(check, [Remove(bak)], m1, w);
      if !w.sshd(0, m1.fs) {
        var m2 := m1.(checks := 1);
        assert [Move(bak, path), Exit] == [Move(bak, path)] + [Exit];
        RunCons(Move(bak, path), [Exit], m2, w);
        var m3 := Exec(Move(bak, path), m2, w).end;
        RunOne(Exit, m3, w);
        assert m3.fs == m.fs - {bak};
      } else {
        RunOne(Remove(bak), m1.(checks := 1), w);
        assert m1.fs - {bak} == m.fs - {path, bak};
      }
    }
  }

  lemma {:induction false} RemoveEnd(fs: Fs, w: World)
    ensures var r := RunAll(REMOVE_SCRIPT, Start(fs), w).end;
            if RemovalRejected(fs, w) then r.failed && r.fs == fs - {DROP_IN_PATH + BAK}
            else
              && !r.failed
              && forall x :: Lookup(r.fs, x) ==
                   if x == CA_PATH || x == DROP_IN_PATH || Under(x, PRINCIPALS_DIR)
                      || (x == DROP_IN_PATH + BAK && DROP_IN_PATH in fs) then None
                   else Lookup(fs, x)
  {
    var m := Start(fs);
    var ca := If(Exists(CA_PATH), [Remove(CA_PATH)], []);
    var dir := RemoveUnder(PRINCIPALS_DIR);
    assert REMOVE_SCRIPT == [REMOVE_SCRIPT[0]] + [ca, dir];
    RunCons(REMOVE_SCRIPT[0], [ca, dir], m, w);
    assert |DROP_IN_PATH + BAK| != |DROP_IN_PATH|;
    RemoveCheckedRun(DROP_IN_PATH, DROP_IN_PATH + BAK, m, w);
    var m1 := Exec(REMOVE_SCRIPT[0], m, w).end;
    if !RemovalRejected(fs, w) {
      assert [ca, dir] == [ca] + [dir];
      RunCons(ca, [dir], m1, w);
      RunOne(Remove(CA_PATH), m1, w);
      var m2 := Exec(ca, m1, w).end;
      RunOne(dir, m2, w);
    }
  }

  /** A rejected removal leaves the host exactly as it was, provided no backup
      of the drop-in was lying around. */
  lemma {:induction false} RejectedRemovalChangesNothing(fs: Fs, w: World)
    requires RemovalRejected(fs, w)
    ensures RunAll(REMOVE_SCRIPT, Start(fs), w).end.failed
    ensures RunAll(REMOVE_SCRIPT, Start(fs), w).end.fs == fs <==> DROP_IN_PATH + BAK !in fs
  {
    RemoveEnd(fs, w);
  }

  /** A host Nokku never wrote to. */
  predicate CleanHost(fs: Fs) {
    && (forall s :: s in {"", BAK, TMP} ==> CA_PATH + s !in fs && DROP_IN_PATH + s !in fs)
    && (forall x :: x in fs ==> !Under(x, PRINCIPALS_DIR))
  }

  lemma {:induction false} PlanPathKinds(caKey: string, grants: map<string, seq<string>>, h: Host, i: nat)
    requires i < |PlanOf(caKey, grants, h).files|
    ensures var f := PlanOf(caKey, grants, h).files[i];
            || f.path == CA_PATH || f.path == DROP_IN_PATH
            || (Under(f.path, PRINCIPALS_DIR) && Under(f.path + BAK, PRINCIPALS_DIR)
                && Under(f.path + TMP, PRINCIPALS_DIR))
  {
    PlanFile(caKey, grants, h, i);
  }

  /** Undo: on a clean host, an accepted removal after an accepted sync gives
      back exactly the files the host had before. */
  lemma {:induction false} RemovalUndoesSync(caKey: string, grants: map<string, seq<string>>, h: Host, fs: Fs,
                                             w1: World, w2: World)
    requires StrictlySorted(h.accounts) && CleanHost(fs) && Accepts(PlanOf(caKey, grants, h), fs, w1)
    requires !RemovalRejected(Synced(caKey, grants, h, fs, w1), w2)
    ensures RunAll(REMOVE_SCRIPT, Start(Synced(caKey, grants, h, fs, w1)), w2).end.fs == fs
  {
    var p := PlanOf(caKey, grants, h);
    var items := ItemsOf(p.files);
    var mid := Synced(caKey, grants, h, fs, w1);
    var end := RunAll(REMOVE_SCRIPT, Start(mid), w2).end.fs;
    PlanLaterApart(caKey, grants, h);
    ScriptEnd(items, p.stale, fs, w1);
    RemoveEnd(mid, w2);
    forall x ensures Lookup(end, x) == Lookup(fs, x) {
      UndoneAt(caKey, grants, h, fs, w1, x);
    }
    assert forall x :: x in end <==> x in fs by {
      forall x ensures x in end <==> x in fs { assert Lookup(end, x) == Lookup(fs, x); }
    }
    assert forall x :: x in fs ==> end[x] == fs[x] by {
      forall x | x in fs ensures end[x] == fs[x] { assert Lookup(end, x) == Lookup(fs, x); }
    }
  }

  /** What a sync of a clean host changes is what the removal takes away. */
  lemma {:induction false} UndoneAt(caKey: string, grants: map<string, seq<string>>, h: Host, fs: Fs, w: World,
                                    x: string)
    requires StrictlySorted(h.accounts) && CleanHost(fs) && Accepts(PlanOf(caKey, grants, h), fs, w)
    ensures || x == CA_PATH || x == DROP_IN_PATH || Under(x, PRINCIPALS_DIR)
            || Lookup(Synced(caKey, grants, h, fs, w), x) == Lookup(fs, x)
    ensures (x == CA_PATH || x == DROP_IN_PATH || x == DROP_IN_PATH + BAK || Under(x, PRINCIPALS_DIR)) ==> x !in fs
  {
    assert "" in {"", BAK, TMP} && BAK in {"", BAK, TMP} && TMP in {"", BAK, TMP};
    assert CA_PATH + "" == CA_PATH && DROP_IN_PATH + "" == DROP_IN_PATH;
    if x != CA_PATH && x != DROP_IN_PATH && !Under(x, PRINCIPALS_DIR) {
      var p := PlanOf(caKey, grants, h);
      var items := ItemsOf(p.files);
      assert x !in p.stale by {
        StaleAre(h.principals, h.accounts);
      }
      SyncLeaves(caKey, grants, h, fs, w);
      if MS.Touched(items, x) {
        var i :| 0 <= i < |items| && (x == items[i].path || x == items[i].bak || x == items[i].tmp);
        PlanPathKinds(caKey, grants, h, i);
        assert x !in fs && x == (if x == items[i].bak then p.files[i].path + BAK else items[i].tmp);
        assert x == items[i].tmp ==> OnlyStaged(items, p.stale, x) by {
          forall k | 0 <= k < |items| ensures items[k].path != x {
            PlanPathKinds(caKey, grants, h, k);
          }
        }
      }
    }
  }
}
