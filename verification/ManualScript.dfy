/** The write script of a manual sync: what Plan.Script emits and what running
    it does to the files of a host. */
module ManualScript {
  import opened Text
  import opened Shell

  /** One file of the plan with the two names the script derives from its path. */
  datatype Item = Item(path: string, bak: string, tmp: string, content: string)

  type Items = seq<Item>

  predicate Planned(fs: Fs, it: Item) {
    it.path in fs && fs[it.path] == it.content
  }

  // ---- The emitted program -------------------------------------------------

  function UpdateCode(it: Item): Instr {
    If(Holds(it.path, it.content), [],
       [If(Exists(it.path), [Copy(it.path, it.bak)], [Note(it.path)]),
        Write(it.content, it.tmp),
        Move(it.tmp, it.path)])
  }

  function RestoreCode(it: Item): Instr {
    If(Exists(it.bak), [Move(it.bak, it.path)], [])
  }

  function Updates(items: Items): seq<Instr> {
    seq(|items|, i requires 0 <= i < |items| => UpdateCode(items[i]))
  }

  function Restores(items: Items): seq<Instr> {
    seq(|items|, i requires 0 <= i < |items| => RestoreCode(items[i]))
  }

  function Removes(paths: seq<string>): seq<Instr> {
    seq(|paths|, i requires 0 <= i < |paths| => Remove(paths[i]))
  }

  function Baks(items: Items): seq<string> {
    seq(|items|, i requires 0 <= i < |items| => items[i].bak)
  }

  const CheckFirst: Instr := If(Rejects, [Exit], [])

  function CheckAgain(items: Items): Instr {
    If(Rejects, Restores(items) + [RemoveNoted, Exit], [])
  }

  function Script(items: Items, stale: seq<string>): seq<Instr> {
    [CheckFirst] + Updates(items) + [CheckAgain(items)] + Removes(Baks(items) + stale)
  }

  // ---- What the paths of a plan have to satisfy ----------------------------

  /** No two of the names the script uses are the same file. */
  predicate Disjoint(items: Items) {
    && (forall i, j :: 0 <= i < j < |items| ==> items[i].path != items[j].path)
    && (forall i, j :: 0 <= i < j < |items| ==> items[i].bak != items[j].bak)
    && (forall i, j :: 0 <= i < j < |items| ==> items[i].tmp != items[j].tmp)
    && (forall i, j :: 0 <= i < |items| && 0 <= j < |items| ==> items[i].path != items[j].bak)
    && (forall i, j :: 0 <= i < |items| && 0 <= j < |items| ==> items[i].path != items[j].tmp)
    && (forall i, j :: 0 <= i < |items| && 0 <= j < |items| ==> items[i].bak != items[j].tmp)
  }

  predicate StaleApart(items: Items, stale: seq<string>) {
    forall i :: 0 <= i < |items| ==> items[i].path !in stale
  }

  predicate Touched(items: Items, x: string) {
    exists i :: 0 <= i < |items| && (x == items[i].path || x == items[i].bak || x == items[i].tmp)
  }

  predicate Same(a: Fs, b: Fs, x: string) {
    Lookup(a, x) == Lookup(b, x)
  }

  // ---- Phase 1: the updates ------------------------------------------------

  function Backed(fs: Fs, it: Item): Fs {
    if it.path in fs then fs[it.bak := fs[it.path]] else fs
  }

  function Updated(fs: Fs, it: Item): Fs {
    if Planned(fs, it) then fs else (Backed(fs, it) - {it.tmp})[it.path := it.content]
  }

  function NotedBy(fs: Fs, it: Item): seq<string> {
    if it.path in fs then [] else [it.path]
  }

  /** The states one update passes through, in order. */
  function UpdateStates(fs: Fs, it: Item, w: World): seq<Fs> {
    if Planned(fs, it) then []
    else
      var b := Backed(fs, it);
      (if it.path in fs then [fs[it.bak := w.torn(fs[it.path])], b] else [])
      + [b[it.tmp := w.torn(it.content)], b[it.tmp := it.content], Updated(fs, it)]
  }

  lemma {:induction false} UpdateRun(it: Item, m: Machine, w: World)
    requires !m.failed && it.tmp != it.path
    ensures Exec(UpdateCode(it), m, w)
         == Run(UpdateStates(m.fs, it, w), m.(fs := Updated(m.fs, it), noted := m.noted + NotedBy(m.fs, it)))
  {
    if !Planned(m.fs, it) {
      var back := If(Exists(it.path), [Copy(it.path, it.bak)], [Note(it.path)]);
      var m1 := m.(fs := Backed(m.fs, it), noted := m.noted + NotedBy(m.fs, it));
      var m2 := m1.(fs := m1.fs[it.tmp := it.content]);
      assert UpdateCode(it).els == [back] + [Write(it.content, it.tmp), Move(it.tmp, it.path)];
      RunCons(back, [Write(it.content, it.tmp), Move(it.tmp, it.path)], m, w);
      RunOne(if it.path in m.fs then Copy(it.path, it.bak) else Note(it.path), m, w);
      assert m.noted + [] == m.noted;
      assert Exec(back, m, w).end == m1;
      var write, move := Write(it.content, it.tmp), Move(it.tmp, it.path);
      assert [write, move] == [write] + [move];
      RunCons(Write(it.content, it.tmp), [Move(it.tmp, it.path)], m1, w);
      RunOne(Move(it.tmp, it.path), m2, w);
      assert (m2.fs - {it.tmp})[it.path := it.content] == Updated(m.fs, it);
      assert RunAll(UpdateCode(it).els, m, w).end == m.(fs := Updated(m.fs, it), noted := m.noted + NotedBy(m.fs, it));
    }
  }

  // ---- What every state of a run keeps -------------------------------------

  /** A backup that a rollback would move over a file that does not want it. */
  predicate StrayBackup(s: Fs, it: Item) {
    it.bak in s && (it.path !in s || Planned(s, it)) && s[it.bak] != it.content
  }

  /** Every plan file is whole: it is as in `orig` or as planned. A backup that a
      rollback would use holds one of the two. */
  ghost predicate Whole(items: Items, orig: Fs, s: Fs) {
    && (forall i :: 0 <= i < |items| ==> Same(orig, s, items[i].path) || Planned(s, items[i]))
    && (forall i :: 0 <= i < |items| && StrayBackup(s, items[i]) ==>
          Lookup(orig, items[i].path) == Some(s[items[i].bak]))
  }

  /** Files the plan does not name are as in `orig`, stale ones may be gone. */
  ghost predicate Framed(items: Items, stale: seq<string>, orig: Fs, s: Fs) {
    forall x :: Touched(items, x) || Same(orig, s, x) || (x in stale && x !in s)
  }

  ghost predicate Keeps(items: Items, stale: seq<string>, orig: Fs, a: Fs, b: Fs) {
    && (Framed(items, stale, orig, a) ==> Framed(items, stale, orig, b))
    && (Whole(items, orig, a) ==> Whole(items, orig, b))
  }

  /** A step that changes only files of the plan, or removes stale ones, keeps the rest. */
  lemma {:induction false} FramedStep(items: Items, stale: seq<string>, orig: Fs, s: Fs, t: Fs)
    requires Framed(items, stale, orig, s)
    requires forall x :: Touched(items, x) || Same(s, t, x) || (x in stale && x !in t)
    ensures Framed(items, stale, orig, t)
  {
    forall x ensures Touched(items, x) || Same(orig, t, x) || (x in stale && x !in t) {
      assert Touched(items, x) || Same(s, t, x) || (x in stale && x !in t);
      assert Touched(items, x) || Same(orig, s, x) || (x in stale && x !in s);
    }
  }

  lemma {:induction false} UpdateFrames(items: Items, k: nat, s: Fs, w: World, t: Fs)
    requires k < |items| && t in UpdateStates(s, items[k], w)
    ensures forall x :: Touched(items, x) || Same(s, t, x)
  {
    var it := items[k];
    forall x | !Touched(items, x) ensures Same(s, t, x) {
      assert x != it.path && x != it.bak && x != it.tmp;
    }
  }

  lemma {:induction false} UpdateKeepsWhole(items: Items, orig: Fs, k: nat, s: Fs, w: World, t: Fs)
    requires k < |items| && Disjoint(items) && t in UpdateStates(s, items[k], w)
    requires Whole(items, orig, s)
    ensures Whole(items, orig, t)
  {
    var it := items[k];
    forall i | 0 <= i < |items|
      ensures Same(orig, t, items[i].path) || Planned(t, items[i])
      ensures StrayBackup(t, items[i]) ==> Lookup(orig, items[i].path) == Some(t[items[i].bak])
    {
      assert items[i].path != it.bak && items[i].path != it.tmp && items[i].bak != it.tmp && items[i].bak != it.path;
      assert i != k ==> items[i].path != it.path && items[i].bak != it.bak;
    }
  }

  lemma {:induction false} UpdateKeeps(items: Items, stale: seq<string>, orig: Fs, k: nat, s: Fs, w: World, t: Fs)
    requires k < |items| && Disjoint(items) && t in UpdateStates(s, items[k], w)
    ensures Keeps(items, stale, orig, s, t)
  {
    if Whole(items, orig, s) {
      UpdateKeepsWhole(items, orig, k, s, w, t);
    }
    if Framed(items, stale, orig, s) {
      UpdateFrames(items, k, s, w, t);
      FramedStep(items, stale, orig, s, t);
    }
  }

  /** What the second `sshd -t` sees: every file of the plan written. */
  function Written(items: Items, fs: Fs): Fs {
    if items == [] then fs else Written(items[1..], Updated(fs, items[0]))
  }

  /** After the first k updates from `a`. */
  ghost predicate Progress(items: Items, k: nat, a: Fs, s: Fs)
    requires k <= |items|
  {
    && (forall i :: 0 <= i < |items| ==>
          if i < k then Planned(s, items[i]) else Same(a, s, items[i].path))
    && (forall i :: 0 <= i < |items| ==>
          if i < k && items[i].path in a && !Planned(a, items[i])
          then Lookup(s, items[i].bak) == Lookup(a, items[i].path)
          else Same(a, s, items[i].bak))
    && (forall i :: 0 <= i < |items| ==>
          if i < k && !Planned(a, items[i]) then items[i].tmp !in s else Same(a, s, items[i].tmp))
    && (forall x :: Touched(items, x) || Same(a, s, x))
  }

  /** $nk_new after the first k updates: exactly the plan files that were not there. */
  ghost predicate NotedNew(items: Items, k: nat, a: Fs, noted: seq<string>)
    requires k <= |items|
  {
    && (forall p :: p in noted ==> exists i :: 0 <= i < k && items[i].path == p && p !in a)
    && (forall i :: 0 <= i < k && items[i].path !in a ==> items[i].path in noted)
  }

  lemma {:induction false} ProgressStep(items: Items, k: nat, a: Fs, s: Fs)
    requires k < |items| && Disjoint(items) && Progress(items, k, a, s)
    ensures Progress(items, k + 1, a, Updated(s, items[k]))
  {
    var it, t := items[k], Updated(s, items[k]);
    assert Same(a, s, it.path);
    assert Same(a, s, it.bak) && Same(a, s, it.tmp);
    forall i | 0 <= i < |items|
      ensures if i < k + 1 then Planned(t, items[i]) else Same(a, t, items[i].path)
      ensures if i < k + 1 && items[i].path in a && !Planned(a, items[i])
              then Lookup(t, items[i].bak) == Lookup(a, items[i].path)
              else Same(a, t, items[i].bak)
      ensures if i < k + 1 && !Planned(a, items[i]) then items[i].tmp !in t else Same(a, t, items[i].tmp)
    {
      assert items[i].path != it.bak && items[i].path != it.tmp && items[i].bak != it.tmp;
      assert items[i].bak != it.path && items[i].tmp != it.path && items[i].tmp != it.bak;
      assert i != k ==> items[i].path != it.path && items[i].bak != it.bak && items[i].tmp != it.tmp;
    }
    forall x ensures Touched(items, x) || Same(a, t, x) {
      assert !Touched(items, x) ==> x != it.path && x != it.bak && x != it.tmp;
    }
  }

  lemma {:induction false} NotedStep(items: Items, k: nat, a: Fs, s: Fs, noted: seq<string>)
    requires k < |items| && NotedNew(items, k, a, noted) && Same(a, s, items[k].path)
    ensures NotedNew(items, k + 1, a, noted + NotedBy(s, items[k]))
  {
    forall p | p in noted + NotedBy(s, items[k])
      ensures exists i :: 0 <= i < k + 1 && items[i].path == p && p !in a
    {
      if p !in noted {
        assert items[k].path == p && p !in a;
      }
    }
  }

  lemma {:induction false} KeepsTrans(items: Items, stale: seq<string>, orig: Fs, a: Fs, b: Fs, c: Fs)
    requires Keeps(items, stale, orig, a, b) && Keeps(items, stale, orig, b, c)
    ensures Keeps(items, stale, orig, a, c)
  {
  }

  lemma {:induction false} UpdatesHead(items: Items, k: nat, m: Machine, w: World)
    requires k < |items| && !m.failed && items[k].tmp != items[k].path
    ensures var m' := m.(fs := Updated(m.fs, items[k]), noted := m.noted + NotedBy(m.fs, items[k]));
            var rest := RunAll(Updates(items)[k + 1..], m', w);
            RunAll(Updates(items)[k..], m, w) == Run(UpdateStates(m.fs, items[k], w) + rest.visited, rest.end)
  {
    UpdateRun(items[k], m, w);
    RunCons(UpdateCode(items[k]), Updates(items)[k + 1..], m, w);
    assert Updates(items)[k..] == [UpdateCode(items[k])] + Updates(items)[k + 1..];
  }

  lemma {:induction false} UpdatesProgress(items: Items, k: nat, a: Fs, m: Machine, w: World)
    requires k <= |items| && Disjoint(items) && !m.failed
    requires Progress(items, k, a, m.fs) && NotedNew(items, k, a, m.noted)
    ensures var end := RunAll(Updates(items)[k..], m, w).end;
            && !end.failed && end.checks == m.checks
            && Progress(items, |items|, a, end.fs) && NotedNew(items, |items|, a, end.noted)
    decreases |items| - k
  {
    if k == |items| {
      assert Updates(items)[k..] == [];
    } else {
      ProgressStep(items, k, a, m.fs);
      NotedStep(items, k, a, m.fs, m.noted);
      UpdatesHead(items, k, m, w);
      var next := m.(fs := Updated(m.fs, items[k]), noted := m.noted + NotedBy(m.fs, items[k]));
      UpdatesProgress(items, k + 1, a, next, w);
    }
  }

  /** Whatever every state of every update keeps, every state of all of them keeps. */
  lemma {:induction false} UpdatesVisit(items: Items, k: nat, m: Machine, w: World, inv: Fs -> bool)
    requires k <= |items| && !m.failed && inv(m.fs)
    requires forall i :: 0 <= i < |items| ==> items[i].tmp != items[i].path
    requires forall i, s, t :: 0 <= i < |items| && inv(s) && t in UpdateStates(s, items[i], w) ==> inv(t)
    ensures var r := RunAll(Updates(items)[k..], m, w);
            inv(r.end.fs) && forall t :: t in r.visited ==> inv(t)
    decreases |items| - k
  {
    if k == |items| {
      assert Updates(items)[k..] == [];
    } else {
      var it := items[k];
      var states := UpdateStates(m.fs, it, w);
      UpdatesHead(items, k, m, w);
      assert Planned(m.fs, it) || Updated(m.fs, it) == states[|states| - 1];
      UpdatesVisit(items, k + 1, m.(fs := Updated(m.fs, it), noted := m.noted + NotedBy(m.fs, it)), w, inv);
    }
  }

  lemma {:induction false} UpdatesRun(items: Items, stale: seq<string>, orig: Fs, a: Fs, m: Machine, w: World)
    requires Disjoint(items) && !m.failed && m.fs == a && m.noted == []
    ensures var r := RunAll(Updates(items), m, w);
            && !r.end.failed && r.end.checks == m.checks
            && Progress(items, |items|, a, r.end.fs) && NotedNew(items, |items|, a, r.end.noted)
            && Keeps(items, stale, orig, a, r.end.fs)
            && forall t :: t in r.visited ==> Keeps(items, stale, orig, a, t)
  {
    assert Updates(items)[0..] == Updates(items);
    UpdatesProgress(items, 0, a, m, w);
    var inv := (s: Fs) => Keeps(items, stale, orig, a, s);
    forall i, s, t | 0 <= i < |items| && inv(s) && t in UpdateStates(s, items[i], w) ensures inv(t) {
      UpdateKeeps(items, stale, orig, i, s, w, t);
      KeepsTrans(items, stale, orig, a, s, t);
    }
    UpdatesVisit(items, 0, m, w, inv);
  }

  // ---- Phase 2: sshd rejects, everything comes back ------------------------

  function Restored(fs: Fs, it: Item): Fs {
    if it.bak in fs then (fs - {it.bak})[it.path := fs[it.bak]] else fs
  }

  lemma {:induction false} RestoreRun(it: Item, m: Machine, w: World)
    requires !m.failed
    ensures var r := Exec(RestoreCode(it), m, w);
            && r.end == m.(fs := Restored(m.fs, it))
            && forall t :: t in r.visited ==> t == Restored(m.fs, it)
  {
    RunOne(Move(it.bak, it.path), m, w);
  }

  /** After the first j restores from `mid`. */
  ghost predicate Restoring(items: Items, j: nat, mid: Fs, s: Fs)
    requires j <= |items|
  {
    && (forall i :: 0 <= i < |items| ==>
          if i < j && items[i].bak in mid then Lookup(s, items[i].path) == Lookup(mid, items[i].bak)
          else Same(mid, s, items[i].path))
    && (forall i :: 0 <= i < |items| ==>
          if i < j then items[i].bak !in s else Same(mid, s, items[i].bak))
    && (forall i :: 0 <= i < |items| ==> Same(mid, s, items[i].tmp))
    && (forall x :: Touched(items, x) || Same(mid, s, x))
  }

  lemma {:induction false} RestoreStep(items: Items, j: nat, mid: Fs, s: Fs)
    requires j < |items| && Disjoint(items) && Restoring(items, j, mid, s)
    ensures Restoring(items, j + 1, mid, Restored(s, items[j]))
  {
    var it, t := items[j], Restored(s, items[j]);
    assert Same(mid, s, it.path) && Same(mid, s, it.bak);
    forall i | 0 <= i < |items|
      ensures if i < j + 1 && items[i].bak in mid then Lookup(t, items[i].path) == Lookup(mid, items[i].bak)
              else Same(mid, t, items[i].path)
      ensures if i < j + 1 then items[i].bak !in t else Same(mid, t, items[i].bak)
      ensures Same(mid, t, items[i].tmp)
    {
      assert items[i].path != it.bak && items[i].bak != it.path && items[i].tmp != it.path && items[i].tmp != it.bak;
      assert i != j ==> items[i].path != it.path && items[i].bak != it.bak;
    }
    forall x ensures Touched(items, x) || Same(mid, t, x) {
      assert !Touched(items, x) ==> x != it.path && x != it.bak;
    }
  }

  lemma {:induction false} RestoreKeepsWhole(items: Items, orig: Fs, a: Fs, mid: Fs, j: nat, s: Fs)
    requires j < |items| && Disjoint(items) && Progress(items, |items|, a, mid)
    requires Restoring(items, j, mid, s) && Whole(items, orig, s)
    ensures Whole(items, orig, Restored(s, items[j]))
  {
    var it, t := items[j], Restored(s, items[j]);
    assert Same(mid, s, it.path) && Planned(mid, it) && Planned(s, it);
    forall i | 0 <= i < |items|
      ensures Same(orig, t, items[i].path) || Planned(t, items[i])
      ensures StrayBackup(t, items[i]) ==> Lookup(orig, items[i].path) == Some(t[items[i].bak])
    {
      assert items[i].path != it.bak && items[i].bak != it.path;
      assert i != j ==> items[i].path != it.path && items[i].bak != it.bak;
    }
  }

  lemma {:induction false} RestoreFrames(items: Items, j: nat, s: Fs)
    requires j < |items|
    ensures forall x :: Touched(items, x) || Same(s, Restored(s, items[j]), x)
  {
    forall x | !Touched(items, x) ensures Same(s, Restored(s, items[j]), x) {
      assert x != items[j].path && x != items[j].bak;
    }
  }

  lemma {:induction false} RestoreKeeps(items: Items, stale: seq<string>, orig: Fs, a: Fs, mid: Fs, j: nat, s: Fs)
    requires j < |items| && Disjoint(items) && Progress(items, |items|, a, mid)
    requires Restoring(items, j, mid, s) && Keeps(items, stale, orig, a, s)
    ensures Keeps(items, stale, orig, a, Restored(s, items[j]))
  {
    if Framed(items, stale, orig, a) {
      RestoreFrames(items, j, s);
      FramedStep(items, stale, orig, s, Restored(s, items[j]));
    }
    if Whole(items, orig, a) {
      RestoreKeepsWhole(items, orig, a, mid, j, s);
    }
  }

  /** Whatever holds step by step holds at every state of the restores. */
  lemma {:induction false} RestoresVisit(items: Items, j: nat, m: Machine, w: World, inv: (nat, Fs) -> bool,
                                         out: Fs -> bool)
    requires j <= |items| && !m.failed && inv(j, m.fs)
    requires forall i: nat, s :: inv(i, s) ==> out(s)
    requires forall i: nat, s :: i < |items| && inv(i, s) ==> inv(i + 1, Restored(s, items[i]))
    ensures var r := RunAll(Restores(items)[j..], m, w);
            && r.end == m.(fs := r.end.fs) && inv(|items|, r.end.fs)
            && forall t :: t in r.visited ==> out(t)
    decreases |items| - j
  {
    if j == |items| {
      assert Restores(items)[j..] == [];
    } else {
      RestoreRun(items[j], m, w);
      RestoresVisit(items, j + 1, m.(fs := Restored(m.fs, items[j])), w, inv, out);
      RunCons(RestoreCode(items[j]), Restores(items)[j + 1..], m, w);
      assert Restores(items)[j..] == [RestoreCode(items[j])] + Restores(items)[j + 1..];
    }
  }

  ghost predicate RestoreKept(items: Items, stale: seq<string>, orig: Fs, a: Fs, mid: Fs, j: nat, s: Fs) {
    j <= |items| && Restoring(items, j, mid, s) && Keeps(items, stale, orig, a, s)
  }

  lemma {:induction false} RestoreKeptStep(items: Items, stale: seq<string>, orig: Fs, a: Fs, mid: Fs, j: nat, s: Fs)
    requires j < |items| && Disjoint(items) && Progress(items, |items|, a, mid)
    requires RestoreKept(items, stale, orig, a, mid, j, s)
    ensures RestoreKept(items, stale, orig, a, mid, j + 1, Restored(s, items[j]))
  {
    RestoreStep(items, j, mid, s);
    RestoreKeeps(items, stale, orig, a, mid, j, s);
  }

  lemma {:induction false} RestoresFrom(items: Items, stale: seq<string>, orig: Fs, a: Fs, mid: Fs, m: Machine,
                                        w: World)
    requires Disjoint(items) && Progress(items, |items|, a, mid) && !m.failed
    requires RestoreKept(items, stale, orig, a, mid, 0, m.fs)
    ensures var r := RunAll(Restores(items), m, w);
            && r.end == m.(fs := r.end.fs) && RestoreKept(items, stale, orig, a, mid, |items|, r.end.fs)
            && forall t :: t in r.visited ==> Keeps(items, stale, orig, a, t)
  {
    var inv := (i: nat, s: Fs) => RestoreKept(items, stale, orig, a, mid, i, s);
    forall i: nat, s | i < |items| && inv(i, s) ensures inv(i + 1, Restored(s, items[i])) {
      RestoreKeptStep(items, stale, orig, a, mid, i, s);
    }
    assert Restores(items)[0..] == Restores(items);
    RestoresVisit(items, 0, m, w, inv, s => Keeps(items, stale, orig, a, s));
  }

  lemma {:induction false} RestoresRun(items: Items, stale: seq<string>, orig: Fs, a: Fs, m: Machine, w: World)
    requires Disjoint(items) && !m.failed && Progress(items, |items|, a, m.fs)
    requires Keeps(items, stale, orig, a, m.fs)
    ensures var r := RunAll(Restores(items), m, w);
            && r.end == m.(fs := r.end.fs)
            && Restoring(items, |items|, m.fs, r.end.fs) && Keeps(items, stale, orig, a, r.end.fs)
            && forall t :: t in r.visited ==> Keeps(items, stale, orig, a, t)
  {
    RestoresFrom(items, stale, orig, a, m.fs, m, w);
  }

  /** Removing `paths` one by one only ever takes some of them away. */
  lemma {:induction false} RemovedVisits(fs: Fs, paths: seq<string>)
    ensures forall t, x :: t in Removed(fs, paths).visited ==> Same(fs, t, x) || (x in paths && x !in t)
  {
    if paths == [] {
    } else {
      RemovedVisits(fs - {paths[0]}, paths[1..]);
      forall t, x | t in Removed(fs, paths).visited ensures Same(fs, t, x) || (x in paths && x !in t) {
        if t in Removed(fs - {paths[0]}, paths[1..]).visited {
          assert Same(fs - {paths[0]}, t, x) || (x in paths[1..] && x !in t);
        }
      }
    }
  }

  lemma {:induction false} RemovesRun(paths: seq<string>, m: Machine, w: World)
    requires !m.failed
    ensures RunAll(Removes(paths), m, w)
         == Run(Removed(m.fs, paths).visited, m.(fs := Removed(m.fs, paths).end.fs))
  {
    if paths == [] {
    } else {
      RemovesRun(paths[1..], m.(fs := m.fs - {paths[0]}), w);
      RunCons(Remove(paths[0]), Removes(paths[1..]), m, w);
      assert Removes(paths) == [Remove(paths[0])] + Removes(paths[1..]);
    }
  }

  /** The end of a rejected run that started in `a`. A leftover backup beside a
      file that already was as planned is restored over it. */
  ghost predicate RolledBack(items: Items, a: Fs, s: Fs) {
    && (forall i :: 0 <= i < |items| ==>
          if Planned(a, items[i]) && items[i].bak in a then Lookup(s, items[i].path) == Lookup(a, items[i].bak)
          else Same(a, s, items[i].path))
    && (forall i :: 0 <= i < |items| ==> items[i].bak !in s)
    && (forall i :: 0 <= i < |items| ==>
          if !Planned(a, items[i]) then items[i].tmp !in s else Same(a, s, items[i].tmp))
    && (forall x :: Touched(items, x) || Same(a, s, x))
  }

  lemma {:induction false} NotedPaths(items: Items, a: Fs, noted: seq<string>, i: nat)
    requires i < |items| && Disjoint(items) && NotedNew(items, |items|, a, noted)
    ensures items[i].path in noted <==> items[i].path !in a
    ensures items[i].bak !in noted && items[i].tmp !in noted
  {
  }

  lemma {:induction false} UnnotedKeepsWhole(items: Items, orig: Fs, a: Fs, mid: Fs, s: Fs, noted: seq<string>, t: Fs)
    requires Disjoint(items) && Restoring(items, |items|, mid, s) && NotedNew(items, |items|, a, noted)
    requires Whole(items, orig, a) && Whole(items, orig, s)
    requires forall x :: Same(s, t, x) || (x in noted && x !in t)
    ensures Whole(items, orig, t)
  {
    forall i | 0 <= i < |items|
      ensures Same(orig, t, items[i].path) || Planned(t, items[i])
      ensures items[i].bak !in t
    {
      NotedPaths(items, a, noted, i);
      assert Same(s, t, items[i].path) || (items[i].path in noted && items[i].path !in t);
      assert Same(s, t, items[i].bak);
      assert Same(orig, s, items[i].path) || Planned(s, items[i]);
      assert Same(orig, a, items[i].path) || Planned(a, items[i]);
    }
  }

  lemma {:induction false} UnnotedFrames(items: Items, a: Fs, s: Fs, noted: seq<string>, t: Fs)
    requires NotedNew(items, |items|, a, noted)
    requires forall x :: Same(s, t, x) || (x in noted && x !in t)
    ensures forall x :: Touched(items, x) || Same(s, t, x)
  {
    forall x | !Touched(items, x) ensures Same(s, t, x) {
      assert Same(s, t, x) || (x in noted && x !in t);
    }
  }

  lemma {:induction false} UnnotedKeeps(items: Items, stale: seq<string>, orig: Fs, a: Fs, mid: Fs, s: Fs,
                                        noted: seq<string>, t: Fs)
    requires Disjoint(items) && Progress(items, |items|, a, mid)
    requires Restoring(items, |items|, mid, s) && NotedNew(items, |items|, a, noted)
    requires Keeps(items, stale, orig, a, s)
    requires forall x :: Same(s, t, x) || (x in noted && x !in t)
    ensures Keeps(items, stale, orig, a, t)
  {
    if Framed(items, stale, orig, a) {
      UnnotedFrames(items, a, s, noted, t);
      FramedStep(items, stale, orig, s, t);
    }
    if Whole(items, orig, a) {
      UnnotedKeepsWhole(items, orig, a, mid, s, noted, t);
    }
  }

  lemma {:induction false} UnnotedRolledBack(items: Items, a: Fs, mid: Fs, s: Fs, noted: seq<string>, t: Fs)
    requires Disjoint(items) && Progress(items, |items|, a, mid)
    requires Restoring(items, |items|, mid, s) && NotedNew(items, |items|, a, noted)
    requires t == s - (set p | p in noted)
    ensures RolledBack(items, a, t)
  {
    forall i | 0 <= i < |items|
      ensures if Planned(a, items[i]) && items[i].bak in a then Lookup(t, items[i].path) == Lookup(a, items[i].bak)
              else Same(a, t, items[i].path)
      ensures items[i].bak !in t
      ensures if !Planned(a, items[i]) then items[i].tmp !in t else Same(a, t, items[i].tmp)
    {
      NotedPaths(items, a, noted, i);
      assert Same(mid, s, items[i].tmp);
      assert Planned(mid, items[i]);
      assert if items[i].bak in mid then Lookup(s, items[i].path) == Lookup(mid, items[i].bak)
             else Same(mid, s, items[i].path);
      assert if items[i].path in a && !Planned(a, items[i])
             then Lookup(mid, items[i].bak) == Lookup(a, items[i].path)
             else Same(a, mid, items[i].bak);
    }
    forall x ensures Touched(items, x) || Same(a, t, x) {
      assert Touched(items, x) || Same(mid, s, x);
      assert Touched(items, x) || Same(a, mid, x);
    }
  }

  // ---- Phase 3: sshd accepts, backups and stale files go -------------------

  /** What removing backups and stale files leaves alone. */
  lemma {:induction false} PrunedAt(items: Items, stale: seq<string>, s: Fs, t: Fs, i: nat)
    requires i < |items| && Disjoint(items) && StaleApart(items, stale)
    requires forall x :: Same(s, t, x) || (x in Baks(items) + stale && x !in t)
    ensures Same(s, t, items[i].path) && (items[i].bak in t ==> Same(s, t, items[i].bak))
    ensures Same(s, t, items[i].tmp) || (items[i].tmp in stale && items[i].tmp !in t)
  {
    assert items[i].path !in Baks(items) + stale && items[i].tmp !in Baks(items);
    assert Same(s, t, items[i].tmp) || (items[i].tmp in Baks(items) + stale && items[i].tmp !in t);
  }

  lemma {:induction false} PrunedKeepsWhole(items: Items, stale: seq<string>, orig: Fs, s: Fs, t: Fs)
    requires Disjoint(items) && StaleApart(items, stale) && Whole(items, orig, s)
    requires forall x :: Same(s, t, x) || (x in Baks(items) + stale && x !in t)
    ensures Whole(items, orig, t)
  {
    forall i | 0 <= i < |items|
      ensures Same(orig, t, items[i].path) || Planned(t, items[i])
      ensures StrayBackup(t, items[i]) ==> Lookup(orig, items[i].path) == Some(t[items[i].bak])
    {
      PrunedAt(items, stale, s, t, i);
    }
  }

  lemma {:induction false} PrunedFrames(items: Items, stale: seq<string>, s: Fs, t: Fs)
    requires forall x :: Same(s, t, x) || (x in Baks(items) + stale && x !in t)
    ensures forall x :: Touched(items, x) || Same(s, t, x) || (x in stale && x !in t)
  {
    forall x ensures Touched(items, x) || Same(s, t, x) || (x in stale && x !in t) {
      assert Same(s, t, x) || (x in Baks(items) + stale && x !in t);
      assert x in Baks(items) ==> Touched(items, x);
    }
  }

  lemma {:induction false} PrunedKeeps(items: Items, stale: seq<string>, orig: Fs, a: Fs, s: Fs, t: Fs)
    requires Disjoint(items) && StaleApart(items, stale) && Keeps(items, stale, orig, a, s)
    requires forall x :: Same(s, t, x) || (x in Baks(items) + stale && x !in t)
    ensures Keeps(items, stale, orig, a, t)
  {
    if Framed(items, stale, orig, a) {
      PrunedFrames(items, stale, s, t);
      FramedStep(items, stale, orig, s, t);
    }
    if Whole(items, orig, a) {
      PrunedKeepsWhole(items, stale, orig, s, t);
    }
  }

  // ---- The whole script ----------------------------------------------------

  lemma {:induction false} WrittenRun(items: Items, m: Machine, w: World)
    requires !m.failed && forall i :: 0 <= i < |items| ==> items[i].tmp != items[i].path
    ensures var r := RunAll(Updates(items), m, w);
            r.end.fs == Written(items, m.fs) && !r.end.failed && r.end.checks == m.checks
  {
    if items == [] {
    } else {
      UpdateRun(items[0], m, w);
      WrittenRun(items[1..], Exec(UpdateCode(items[0]), m, w).end, w);
      RunCons(UpdateCode(items[0]), Updates(items[1..]), m, w);
      assert Updates(items) == [UpdateCode(items[0])] + Updates(items[1..]);
    }
  }

  lemma {:induction false} CheckAgainShape(items: Items, m: Machine, w: World)
    requires !m.failed
    ensures var m1 := m.(checks := m.checks + 1);
            var back := RunAll(Restores(items), m1, w);
            !w.sshd(m.checks, m.fs) && !back.end.failed ==>
              var gone := Removed(back.end.fs, back.end.noted);
              Exec(CheckAgain(items), m, w)
              == Run(back.visited + gone.visited, back.end.(fs := gone.end.fs, failed := true))
    ensures w.sshd(m.checks, m.fs) ==> Exec(CheckAgain(items), m, w) == Run([], m.(checks := m.checks + 1))
  {
    var m1 := m.(checks := m.checks + 1);
    var m2 := RunAll(Restores(items), m1, w).end;
    if !w.sshd(m.checks, m.fs) && !m2.failed {
      RunAppend(Restores(items), [RemoveNoted, Exit], m1, w);
      var gone := Removed(m2.fs, m2.noted);
      RunCons(RemoveNoted, [Exit], m2, w);
      assert [RemoveNoted, Exit] == [RemoveNoted] + [Exit];
      RunOne(Exit, m2.(fs := gone.end.fs), w);
    }
  }

  lemma {:induction false} UnnotedAllKeep(items: Items, stale: seq<string>, orig: Fs, a: Fs, mid: Fs, s: Fs,
                                          noted: seq<string>)
    requires Disjoint(items) && Progress(items, |items|, a, mid)
    requires Restoring(items, |items|, mid, s) && NotedNew(items, |items|, a, noted)
    requires Keeps(items, stale, orig, a, s)
    ensures var gone := Removed(s, noted);
            && Keeps(items, stale, orig, a, gone.end.fs)
            && forall t :: t in gone.visited ==> Keeps(items, stale, orig, a, t)
  {
    var gone := Removed(s, noted);
    RemovedVisits(s, noted);
    UnnotedKeeps(items, stale, orig, a, mid, s, noted, gone.end.fs);
    forall t | t in gone.visited ensures Keeps(items, stale, orig, a, t) {
      UnnotedKeeps(items, stale, orig, a, mid, s, noted, t);
    }
  }

  lemma {:induction false} CheckAgainVisits(items: Items, m: Machine, w: World, inv: Fs -> bool)
    requires !m.failed && !w.sshd(m.checks, m.fs)
    requires var back := RunAll(Restores(items), m.(checks := m.checks + 1), w);
             && !back.end.failed && (forall t :: t in back.visited ==> inv(t))
             && forall t :: t in Removed(back.end.fs, back.end.noted).visited ==> inv(t)
    ensures var back := RunAll(Restores(items), m.(checks := m.checks + 1), w);
            var r := Exec(CheckAgain(items), m, w);
            && r.end.failed && r.end.fs == Removed(back.end.fs, back.end.noted).end.fs
            && forall t :: t in r.visited ==> inv(t)
  {
    CheckAgainShape(items, m, w);
  }

  lemma {:induction false} CheckAgainRun(items: Items, stale: seq<string>, orig: Fs, a: Fs, m: Machine, w: World)
    requires Disjoint(items) && !m.failed
    requires Progress(items, |items|, a, m.fs) && NotedNew(items, |items|, a, m.noted)
    requires Keeps(items, stale, orig, a, m.fs) && !w.sshd(m.checks, m.fs)
    ensures var r := Exec(CheckAgain(items), m, w);
            && (forall t :: t in r.visited ==> Keeps(items, stale, orig, a, t))
            && r.end.failed && RolledBack(items, a, r.end.fs) && Keeps(items, stale, orig, a, r.end.fs)
  {
    var m1 := m.(checks := m.checks + 1);
    var s := RunAll(Restores(items), m1, w).end.fs;
    RestoresRun(items, stale, orig, a, m1, w);
    UnnotedRolledBack(items, a, m.fs, s, m.noted, Removed(s, m.noted).end.fs);
    UnnotedAllKeep(items, stale, orig, a, m.fs, s, m.noted);
    CheckAgainVisits(items, m, w, t => Keeps(items, stale, orig, a, t));
  }

  lemma {:induction false} CleanupRun(items: Items, stale: seq<string>, orig: Fs, a: Fs, m: Machine, w: World)
    requires Disjoint(items) && StaleApart(items, stale) && !m.failed
    requires Progress(items, |items|, a, m.fs) && Keeps(items, stale, orig, a, m.fs)
    ensures var r := RunAll(Removes(Baks(items) + stale), m, w);
            && (forall t :: t in r.visited ==> Keeps(items, stale, orig, a, t))
            && !r.end.failed && Keeps(items, stale, orig, a, r.end.fs)
  {
    var gone := Baks(items) + stale;
    RemovesRun(gone, m, w);
    RemovedVisits(m.fs, gone);
    var r := Removed(m.fs, gone);
    PrunedKeeps(items, stale, orig, a, m.fs, r.end.fs);
    forall t | t in r.visited ensures Keeps(items, stale, orig, a, t) {
      PrunedKeeps(items, stale, orig, a, m.fs, t);
    }
  }

  lemma {:induction false} ScriptShape(items: Items, stale: seq<string>, a: Fs, w: World)
    ensures var r := RunAll(Script(items, stale), Start(a), w);
            var u := RunAll(Updates(items), Start(a).(checks := 1), w);
            var c := Exec(CheckAgain(items), u.end, w);
            var d := RunAll(Removes(Baks(items) + stale), c.end, w);
            && (!w.sshd(0, a) ==> r == Run([], Machine(a, [], 1, true)))
            && (w.sshd(0, a) && !u.end.failed ==> r == Run(u.visited + (c.visited + d.visited), d.end))
  {
    var tail := Removes(Baks(items) + stale);
    var rest := Updates(items) + ([CheckAgain(items)] + tail);
    var m1 := Start(a).(checks := 1);
    RunCons(CheckFirst, rest, Start(a), w);
    assert Script(items, stale) == [CheckFirst] + rest;
    if !w.sshd(0, a) {
      RunOne(Exit, m1, w);
    } else {
      RunAppend(Updates(items), [CheckAgain(items)] + tail, m1, w);
      var m2 := RunAll(Updates(items), m1, w).end;
      if !m2.failed {
        RunCons(CheckAgain(items), tail, m2, w);
      }
    }
  }

  /** One run of the script, whatever sshd answers: how it ends, and what every
      file system it passes through keeps. */
  lemma {:induction false} ScriptRun(items: Items, stale: seq<string>, orig: Fs, a: Fs, w: World)
    requires Disjoint(items) && StaleApart(items, stale)
    ensures var r := RunAll(Script(items, stale), Start(a), w);
            && (forall t :: t in r.visited ==> Keeps(items, stale, orig, a, t))
            && Keeps(items, stale, orig, a, r.end.fs)
            && (if !w.sshd(0, a) then r.end.failed && r.visited == [] && r.end.fs == a
                else if !w.sshd(1, Written(items, a)) then r.end.failed && RolledBack(items, a, r.end.fs)
                else !r.end.failed)
  {
    ScriptShape(items, stale, a, w);
    var m1 := Start(a).(checks := 1);
    if w.sshd(0, a) {
      UpdatesRun(items, stale, orig, a, m1, w);
      WrittenRun(items, m1, w);
      var m2 := RunAll(Updates(items), m1, w).end;
      CheckAgainShape(items, m2, w);
      if w.sshd(1, m2.fs) {
        CleanupRun(items, stale, orig, a, m2.(checks := 2), w);
      } else {
        CheckAgainRun(items, stale, orig, a, m2, w);
      }
    }
  }

  // ---- Main results --------------------------------------------------------

  /** Rollback: a rejected run gives every plan file its original content or
      absence back and leaves no backup, exactly when no leftover backup with
      other content stood beside a file that already was as planned. */
  lemma {:induction false} RollbackIsExact(items: Items, stale: seq<string>, fs: Fs, w: World)
    requires Disjoint(items) && StaleApart(items, stale)
    requires w.sshd(0, fs) && !w.sshd(1, Written(items, fs))
    ensures var end := RunAll(Script(items, stale), Start(fs), w).end;
            && end.failed
            && (forall i :: 0 <= i < |items| ==> items[i].bak !in end.fs)
            && (forall x :: !Touched(items, x) ==> Same(fs, end.fs, x))
            && ((forall i :: 0 <= i < |items| ==> Same(fs, end.fs, items[i].path))
                <==>
                (forall i :: 0 <= i < |items| && Planned(fs, items[i]) && items[i].bak in fs ==>
                   fs[items[i].bak] == items[i].content))
  {
    ScriptRun(items, stale, fs, fs, w);
  }

  /** One attempt at the script: what the host answered and where it stopped. */
  datatype Attempt = Attempt(world: World, stop: nat)

  function Attempted(items: Items, stale: seq<string>, fs: Fs, a: Attempt): Fs {
    StoppedAt(RunAll(Script(items, stale), Start(fs), a.world), fs, a.stop)
  }

  lemma {:induction false} AttemptKeeps(items: Items, stale: seq<string>, orig: Fs, fs: Fs, a: Attempt)
    requires Disjoint(items) && StaleApart(items, stale)
    ensures Keeps(items, stale, orig, fs, Attempted(items, stale, fs, a))
  {
    ScriptRun(items, stale, orig, fs, a.world);
  }

  /** The host after any number of attempts, each one stopped anywhere. */
  function AfterAttempts(items: Items, stale: seq<string>, fs: Fs, attempts: seq<Attempt>): Fs
    decreases |attempts|
  {
    if attempts == [] then fs
    else AfterAttempts(items, stale, Attempted(items, stale, fs, attempts[0]), attempts[1..])
  }

  lemma {:induction false} AttemptsKeep(items: Items, stale: seq<string>, orig: Fs, fs: Fs, attempts: seq<Attempt>)
    requires Disjoint(items) && StaleApart(items, stale)
    ensures Keeps(items, stale, orig, fs, AfterAttempts(items, stale, fs, attempts))
    decreases |attempts|
  {
    if attempts == [] {
    } else {
      var next := Attempted(items, stale, fs, attempts[0]);
      AttemptKeeps(items, stale, orig, fs, attempts[0]);
      AttemptsKeep(items, stale, orig, next, attempts[1..]);
      KeepsTrans(items, stale, orig, fs, next, AfterAttempts(items, stale, next, attempts[1..]));
    }
  }

  /** Both answers of sshd are yes. */
  predicate Accepted(items: Items, fs: Fs, w: World) {
    w.sshd(0, fs) && w.sshd(1, Written(items, fs))
  }

  /** An sshd that accepts everything, and one that rejects whatever was written. */
  const AcceptAll: World := World((n: nat, _: Fs) => true, (c: string) => c)
  const RejectNew: World := World((n: nat, _: Fs) => n == 0, (c: string) => c)

  ghost predicate NoStray(items: Items, fs: Fs) {
    forall i :: 0 <= i < |items| ==> !StrayBackup(fs, items[i])
  }

  /** Whatever happens to the script, any number of times, every plan file holds
      its whole old or its whole new content. */
  ghost predicate StaysWhole(items: Items, stale: seq<string>, fs: Fs) {
    forall attempts: seq<Attempt>, i: nat :: i < |items| ==>
      var s := AfterAttempts(items, stale, fs, attempts);
      Same(fs, s, items[i].path) || Planned(s, items[i])
  }

  lemma {:induction false} EndIsVisited(code: seq<Instr>, m: Machine, w: World)
    ensures var r := RunAll(code, m, w); r.end.fs == m.fs || r.end.fs in r.visited
    decreases code, 1
  {
    if code == [] || m.failed {
    } else {
      var a := Exec(code[0], m, w);
      ExecEndIsVisited(code[0], m, w);
      EndIsVisited(code[1..], a.end, w);
    }
  }

  lemma {:induction false} ExecEndIsVisited(i: Instr, m: Machine, w: World)
    ensures var r := Exec(i, m, w); r.end.fs == m.fs || r.end.fs in r.visited
    decreases i, 0
  {
    match i
    case RemoveNoted => RemovedEndIsVisited(m.fs, m.noted);
    case If(test, thn, els) => EndIsVisited(if True(test, m, w) then thn else els, Tested(test, m), w);
    case _ =>
  }

  lemma {:induction false} RemovedEndIsVisited(fs: Fs, paths: seq<string>)
    ensures var r := Removed(fs, paths); r.end.fs == fs || r.end.fs in r.visited
  {
    if paths == [] {
    } else {
      RemovedEndIsVisited(fs - {paths[0]}, paths[1..]);
    }
  }

  /** The files right after the restores of a rejected run. */
  function AfterRestores(items: Items, fs: Fs, w: World): Fs {
    var u := RunAll(Updates(items), Start(fs).(checks := 1), w);
    RunAll(Restores(items), u.end.(checks := 2), w).end.fs
  }

  lemma {:induction false} RestoredOverPlanned(items: Items, fs: Fs, mid: Fs, s: Fs, k: nat)
    requires k < |items| && StrayBackup(fs, items[k])
    requires Progress(items, |items|, fs, mid) && Restoring(items, |items|, mid, s)
    ensures Lookup(s, items[k].path) == Some(fs[items[k].bak]) && s != mid
  {
    assert Planned(mid, items[k]) && Same(fs, mid, items[k].bak);
  }

  lemma {:induction false} UpdatesEnd(items: Items, fs: Fs, w: World)
    requires Disjoint(items)
    ensures var u := RunAll(Updates(items), Start(fs).(checks := 1), w).end;
            Progress(items, |items|, fs, u.fs) && !u.failed
  {
    UpdatesRun(items, [], fs, fs, Start(fs).(checks := 1), w);
  }

  lemma {:induction false} RestoresEnd(items: Items, fs: Fs, m: Machine, w: World)
    requires Disjoint(items) && Progress(items, |items|, fs, m.fs) && !m.failed
    ensures Restoring(items, |items|, m.fs, RunAll(Restores(items), m, w).end.fs)
  {
    var inv := (i: nat, s: Fs) => i <= |items| && Restoring(items, i, m.fs, s);
    forall i: nat, s | i < |items| && inv(i, s) ensures inv(i + 1, Restored(s, items[i])) {
      RestoreStep(items, i, m.fs, s);
    }
    assert Restores(items)[0..] == Restores(items);
    RestoresVisit(items, 0, m, w, inv, _ => true);
  }

  lemma {:induction false} StrayRestored(items: Items, fs: Fs, k: nat, w: World)
    requires Disjoint(items) && k < |items| && StrayBackup(fs, items[k])
    ensures Lookup(AfterRestores(items, fs, w), items[k].path) == Some(fs[items[k].bak])
    ensures AfterRestores(items, fs, w) != RunAll(Updates(items), Start(fs).(checks := 1), w).end.fs
  {
    UpdatesEnd(items, fs, w);
    var u := RunAll(Updates(items), Start(fs).(checks := 1), w).end;
    RestoresEnd(items, fs, u.(checks := 2), w);
    RestoredOverPlanned(items, fs, u.fs, AfterRestores(items, fs, w), k);
  }

  lemma {:induction false} RestoresVisited(items: Items, stale: seq<string>, fs: Fs, w: World)
    requires forall i :: 0 <= i < |items| ==> items[i].tmp != items[i].path
    requires w.sshd(0, fs) && !w.sshd(1, Written(items, fs))
    requires AfterRestores(items, fs, w) != RunAll(Updates(items), Start(fs).(checks := 1), w).end.fs
    ensures AfterRestores(items, fs, w) in RunAll(Script(items, stale), Start(fs), w).visited
  {
    var m1 := Start(fs).(checks := 1);
    WrittenRun(items, m1, w);
    ScriptShape(items, stale, fs, w);
    var u := RunAll(Updates(items), m1, w).end;
    CheckAgainShape(items, u, w);
    EndIsVisited(Restores(items), u.(checks := 2), w);
    RestoresSucceed(items, u.(checks := 2), w);
  }

  lemma {:induction false} RestoresSucceed(items: Items, m: Machine, w: World)
    requires !m.failed
    ensures !RunAll(Restores(items), m, w).end.failed
  {
    if items == [] {
    } else {
      RestoreRun(items[0], m, w);
      RestoresSucceed(items[1..], Exec(RestoreCode(items[0]), m, w).end, w);
      RunCons(RestoreCode(items[0]), Restores(items[1..]), m, w);
      assert Restores(items) == [RestoreCode(items[0])] + Restores(items[1..]);
    }
  }

  /** With a stray backup, one rejected attempt stopped after its restores leaves a
      file that is neither. */
  lemma {:induction false} StrayBackupBreaks(items: Items, stale: seq<string>, fs: Fs, k: nat) returns (a: Attempt)
    requires Disjoint(items) && k < |items| && StrayBackup(fs, items[k])
    ensures var s := AfterAttempts(items, stale, fs, [a]);
            !Same(fs, s, items[k].path) && !Planned(s, items[k])
  {
    StrayRestored(items, fs, k, RejectNew);
    RestoresVisited(items, stale, fs, RejectNew);
    var s := AfterRestores(items, fs, RejectNew);
    var r := RunAll(Script(items, stale), Start(fs), RejectNew);
    var n :| 0 <= n < |r.visited| && r.visited[n] == s;
    a := Attempt(RejectNew, n + 1);
    assert AfterAttempts(items, stale, s, [a][1..]) == s;
  }

  /** No sshd ever reads a torn or foreign file if and only if no stray backup was
      on the host. */
  lemma {:induction false} WholeIsExact(items: Items, stale: seq<string>, fs: Fs)
    requires Disjoint(items) && StaleApart(items, stale)
    ensures StaysWhole(items, stale, fs) <==> NoStray(items, fs)
  {
    if NoStray(items, fs) {
      forall attempts: seq<Attempt>, i: nat | i < |items|
        ensures var s := AfterAttempts(items, stale, fs, attempts);
                Same(fs, s, items[i].path) || Planned(s, items[i])
      {
        AttemptsKeep(items, stale, fs, fs, attempts);
      }
    } else {
      var k :| 0 <= k < |items| && StrayBackup(fs, items[k]);
      var a := StrayBackupBreaks(items, stale, fs, k);
      var s := AfterAttempts(items, stale, fs, [a]);
      assert !(Same(fs, s, items[k].path) || Planned(s, items[k]));
    }
  }
}
