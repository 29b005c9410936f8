/** The part of the POSIX shell that nk's host scripts use, over a host whose
    regular files are a map from path to content.

    A run records every file system it passes through. Stopping a script
    anywhere, whether by a crash, a lost connection or `set -e` on a failing
    command, leaves the host in one of the recorded file systems. */
module Shell {

  type Fs = map<string, string>

  datatype Test =
    | Exists(path: string)                    // [ -f path ]
    | Holds(path: string, content: string)    // [ -f path ] && printf '%s' content | cmp -s - path
    | Rejects                                 // ! sshd -t

  datatype Instr =
    | Copy(src: string, dst: string)          // cp -p src dst
    | Write(content: string, dst: string)     // printf '%s' content > dst
    | Move(src: string, dst: string)          // mv -f src dst
    | Remove(path: string)                    // rm -f path
    | RemoveUnder(dir: string)                // rm -rf dir
    | Note(path: string)                      // nk_new="$nk_new "path
    | RemoveNoted                             // for f in $nk_new; do rm -f "$f"; done
    | If(test: Test, thn: seq<Instr>, els: seq<Instr>)
    | Exit                                    // exit 1

  /** What the script cannot decide itself. `sshd` answers the n-th `sshd -t`
      given the files it sees, `torn` is what a write cut short leaves behind. */
  datatype World = World(sshd: (nat, Fs) -> bool, torn: string -> string)

  /** A shell between two commands. `noted` is $nk_new, `checks` counts the
      calls of `sshd -t`, and `failed` is a non-zero exit. */
  datatype Machine = Machine(fs: Fs, noted: seq<string>, checks: nat, failed: bool)

  datatype Run = Run(visited: seq<Fs>, end: Machine)

  function Start(fs: Fs): Machine {
    Machine(fs, [], 0, false)
  }

  predicate True(t: Test, m: Machine, w: World) {
    match t
    case Exists(p) => p in m.fs
    case Holds(p, c) => p in m.fs && m.fs[p] == c
    case Rejects => !w.sshd(m.checks, m.fs)
  }

  /** The machine after a test ran, which only counts calls of sshd. */
  function Tested(t: Test, m: Machine): Machine {
    if t.Rejects? then m.(checks := m.checks + 1) else m
  }

  predicate Under(path: string, dir: string) {
    dir + "/" <= path
  }

  function Removed(fs: Fs, paths: seq<string>): Run
    ensures Removed(fs, paths).end.fs == fs - (set p | p in paths)
    ensures !Removed(fs, paths).end.failed
  {
    if paths == [] then Run([], Start(fs))
    else
      var fs' := fs - {paths[0]};
      var rest := Removed(fs', paths[1..]);
      Run([fs'] + rest.visited, rest.end)
  }

  function Exec(i: Instr, m: Machine, w: World): Run
    decreases i, 0
  {
    match i
    case Copy(src, dst) =>
      if src !in m.fs then Run([], m.(failed := true))
      else Put(m, dst, m.fs[src], w)
    case Write(content, dst) => Put(m, dst, content, w)
    case Move(src, dst) =>
      if src !in m.fs then Run([], m.(failed := true))
      else
        var fs' := (m.fs - {src})[dst := m.fs[src]];
        Run([fs'], m.(fs := fs'))
    case Remove(path) =>
      var fs' := m.fs - {path};
      Run([fs'], m.(fs := fs'))
    case RemoveUnder(dir) =>
      var fs' := map p | p in m.fs && !Under(p, dir) :: m.fs[p];
      Run([fs'], m.(fs := fs'))
    case Note(path) => Run([], m.(noted := m.noted + [path]))
    case RemoveNoted =>
      var r := Removed(m.fs, m.noted);
      Run(r.visited, m.(fs := r.end.fs))
    case If(test, thn, els) =>
      RunAll(if True(test, m, w) then thn else els, Tested(test, m), w)
    case Exit => Run([], m.(failed := true))
  }

  /** A write is not atomic: the file is torn before it is whole. */
  function Put(m: Machine, dst: string, content: string, w: World): Run {
    var fs' := m.fs[dst := content];
    Run([m.fs[dst := w.torn(content)], fs'], m.(fs := fs'))
  }

  function RunAll(code: seq<Instr>, m: Machine, w: World): Run
    decreases code, 1
  {
    if code == [] || m.failed then Run([], m)
    else
      var a := Exec(code[0], m, w);
      var b := RunAll(code[1..], a.end, w);
      Run(a.visited + b.visited, b.end)
  }

  /** Where the host ends up when the script is stopped after `stop` recorded
      file systems. A stop past the end is a run that was not stopped. */
  function StoppedAt(r: Run, start: Fs, stop: nat): Fs {
    if stop == 0 then start
    else if stop <= |r.visited| then r.visited[stop - 1]
    else r.end.fs
  }

  lemma {:induction false} RunCons(i: Instr, rest: seq<Instr>, m: Machine, w: World)
    requires !m.failed
    ensures var a := Exec(i, m, w);
            var b := RunAll(rest, a.end, w);
            RunAll([i] + rest, m, w) == Run(a.visited + b.visited, b.end)
  {
    assert ([i] + rest)[1..] == rest;
  }

  lemma {:induction false} RunOne(i: Instr, m: Machine, w: World)
    requires !m.failed
    ensures RunAll([i], m, w) == Exec(i, m, w)
  {
    RunCons(i, [], m, w);
    assert [i] + [] == [i];
  }

  lemma {:induction false} RunAppend(a: seq<Instr>, b: seq<Instr>, m: Machine, w: World)
    ensures RunAll(a + b, m, w).end == RunAll(b, RunAll(a, m, w).end, w).end
    ensures RunAll(a + b, m, w).visited
         == RunAll(a, m, w).visited + RunAll(b, RunAll(a, m, w).end, w).visited
  {
    if a == [] {
      assert a + b == b;
    } else if !m.failed {
      assert (a + b)[1..] == a[1..] + b;
      RunAppend(a[1..], b, Exec(a[0], m, w).end, w);
    }
  }
}
