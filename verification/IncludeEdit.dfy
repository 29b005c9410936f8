/** The one line nk puts on top of the user's ssh config, and taking it out again. */
module IncludeEdit {
  import opened Text
  import SshConfig

  function StripQuotes(s: string): string {
    if s == [] then [] else (if s[0] == '"' then [] else [s[0]]) + StripQuotes(s[1..])
  }

  /** includeLine, for the path of the file nk generates. */
  function IncludeLine(path: string): string {
    "Include " + SshConfig.ConfigValue(path)
  }

  predicate IsInclude(path: string, line: string) {
    StripQuotes(TrimSpace(line)) == StripQuotes(IncludeLine(path))
  }

  predicate HasInclude(path: string, data: string) {
    exists k :: 0 <= k < |Split(data, '\n')| && IsInclude(path, Split(data, '\n')[k])
  }

  function Filter(keep: string -> bool, lines: seq<string>): seq<string> {
    if lines == [] then []
    else
      var last := lines[|lines| - 1];
      Filter(keep, lines[..|lines| - 1]) + (if keep(last) then [last] else [])
  }

  function Kept(path: string, lines: seq<string>): seq<string> {
    Filter((l: string) => !IsInclude(path, l), lines)
  }

  function TrimNewlines(s: string): string {
    if s != [] && s[0] == '\n' then TrimNewlines(s[1..]) else s
  }

  function Ensured(path: string, data: string): string {
    if HasInclude(path, data) then data else IncludeLine(path) + "\n\n" + data
  }

  function Removed(path: string, data: string): string {
    if HasInclude(path, data) then TrimNewlines(Join(Kept(path, Split(data, '\n')), '\n')) else data
  }

  /** What ensuring and removing make of the file. It is None while there is none. */
  function EnsuredFile(path: string, file: Option<string>): Option<string> {
    var text := if file.Some? then file.value else "";
    if HasInclude(path, text) then file else Some(Ensured(path, text))
  }

  function RemovedFile(path: string, file: Option<string>): Option<string> {
    if file.Some? then Some(Removed(path, file.value)) else None
  }

  method AnyLine(found: string -> bool, lines: seq<string>) returns (r: bool)
    ensures r <==> exists k :: 0 <= k < |lines| && found(lines[k])
  {
    for k := 0 to |lines|
      invariant forall i :: 0 <= i < k ==> !found(lines[i])
    {
      if found(lines[k]) {
        return true;
      }
    }
    r := false;
  }

  /** ~/.ssh/config, None while it does not exist. */
  class ConfigFile {
    var data: Option<string>

    constructor (data: Option<string>)
      ensures this.data == data
    {
      this.data := data;
    }

    method Has(path: string, text: string) returns (r: bool)
      ensures r <==> HasInclude(path, text)
    {
      var isInclude := (line: string) => IsInclude(path, line);
      r := AnyLine(isInclude, Split(text, '\n'));
      assert r <==> exists k :: 0 <= k < |Split(text, '\n')| && isInclude(Split(text, '\n')[k]);
    }

    /** ensureInclude. `writable` is whether the file can be written. */
    method EnsureInclude(path: string, writable: bool) returns (ok: bool)
      modifies this
      ensures var text := if old(data).Some? then old(data).value else "";
              && (ok <==> HasInclude(path, text) || writable)
              && data == (if ok then EnsuredFile(path, old(data)) else old(data))
    {
      var text := if data.Some? then data.value else "";
      var has := Has(path, text);
      if has {
        return true;
      }
      var out := IncludeLine(path) + "\n\n" + text;
      if !writable {
        return false;
      }
      data := Some(out);
      ok := true;
    }

    /** RemoveInclude. */
    method RemoveInclude(path: string, writable: bool) returns (ok: bool)
      modifies this
      ensures ok <==> old(data).None? || !HasInclude(path, old(data).value) || writable
      ensures data == if ok then RemovedFile(path, old(data)) else old(data)
    {
      if data.None? {
        return true;
      }
      var has := Has(path, data.value);
      if !has {
        return true;
      }
      var kept: seq<string> := [];
      var lines := Split(data.value, '\n');
      for k := 0 to |lines|
        invariant kept == Kept(path, lines[..k]) && data == old(data)
      {
        assert lines[..k + 1] == lines[..k] + [lines[k]];
        KeptSnoc(path, lines[..k], lines[k]);
        if !IsInclude(path, lines[k]) {
          kept := kept + [lines[k]];
        }
      }
      assert lines[..|lines|] == lines;
      var out := TrimNewlines(Join(kept, '\n'));
      if !writable {
        return false;
      }
      data := Some(out);
      ok := true;
    }
  }

  lemma {:induction false} KeptSnoc(path: string, lines: seq<string>, last: string)
    ensures Kept(path, lines + [last]) == Kept(path, lines) + (if IsInclude(path, last) then [] else [last])
  {
    assert (lines + [last])[..|lines|] == lines;
  }

  // ---- Main results --------------------------------------------------------

  lemma {:induction false} EscapedFree(v: string)
    requires '\n' !in v
    ensures '\n' !in SshConfig.Escaped(v)
  {
    if v == [] {
    } else {
      EscapedFree(v[1..]);
    }
  }

  lemma {:induction false} IncludeLineShape(path: string)
    requires '\n' !in path
    ensures '\n' !in IncludeLine(path) && TrimSpace(IncludeLine(path)) == IncludeLine(path)
    ensures IsInclude(path, IncludeLine(path))
  {
    EscapedFree(path);
    var line := IncludeLine(path);
    assert line[0] == 'I' && line[|line| - 1] == '"';
  }

  lemma {:induction false} EmptyIsNoInclude(path: string)
    ensures !IsInclude(path, "")
  {
    assert IncludeLine(path)[0] == 'I';
    assert StripQuotes(IncludeLine(path))[0] == 'I';
  }

  lemma {:induction false} FilterAre(keep: string -> bool, lines: seq<string>)
    ensures forall l :: l in Filter(keep, lines) <==> l in lines && keep(l)
  {
    if lines == [] {
    } else {
      FilterAre(keep, lines[..|lines| - 1]);
      assert lines == lines[..|lines| - 1] + [lines[|lines| - 1]];
    }
  }

  lemma {:induction false} FilterAll(keep: string -> bool, lines: seq<string>)
    requires forall l :: l in lines ==> keep(l)
    ensures Filter(keep, lines) == lines
  {
    if lines == [] {
    } else {
      FilterAll(keep, lines[..|lines| - 1]);
      assert lines == lines[..|lines| - 1] + [lines[|lines| - 1]];
    }
  }

  /** A line that is dropped in front does not matter. */
  lemma {:induction false} FilterFirst(keep: string -> bool, first: string, lines: seq<string>)
    requires !keep(first)
    ensures Filter(keep, [first] + lines) == Filter(keep, lines)
  {
    var all := [first] + lines;
    if lines == [] {
      assert all == [first] && all[..0] == [];
    } else {
      FilterFirst(keep, first, lines[..|lines| - 1]);
      assert all[..|all| - 1] == [first] + lines[..|lines| - 1];
    }
  }

  lemma {:induction false} KeptAre(path: string, lines: seq<string>)
    ensures forall l :: l in Kept(path, lines) <==> l in lines && !IsInclude(path, l)
  {
    FilterAre((l: string) => !IsInclude(path, l), lines);
  }

  lemma {:induction false} KeptBehindInclude(path: string, lines: seq<string>)
    requires IsInclude(path, IncludeLine(path)) && forall l :: l in lines ==> !IsInclude(path, l)
    ensures Kept(path, [IncludeLine(path)] + lines) == lines
  {
    FilterFirst((l: string) => !IsInclude(path, l), IncludeLine(path), lines);
    FilterAll((l: string) => !IsInclude(path, l), lines);
  }

  /** Trimming newlines only drops empty lines. */
  lemma {:induction false} TrimDropsEmptyLines(s: string)
    ensures forall l :: l in Split(TrimNewlines(s), '\n') ==> l in Split(s, '\n')
  {
    if s == [] || s[0] != '\n' {
    } else {
      TrimDropsEmptyLines(s[1..]);
    }
  }

  lemma {:induction false} TrimIsIdentity(s: string)
    ensures |TrimNewlines(s)| <= |s|
    ensures TrimNewlines(s) == s <==> s == [] || s[0] != '\n'
  {
    if s == [] || s[0] != '\n' {
    } else {
      TrimIsIdentity(s[1..]);
    }
  }

  lemma {:induction false} SplitBehindLine(line: string, data: string)
    requires '\n' !in line
    ensures Split(line + "\n\n" + data, '\n') == [line] + ([""] + Split(data, '\n'))
  {
    assert line + "\n\n" + data == line + ['\n'] + ("" + ['\n'] + data);
    SplitAtFirst(line, "" + ['\n'] + data, '\n');
    SplitAtFirst("", data, '\n');
  }

  lemma {:induction false} EnsuredLines(path: string, data: string)
    requires '\n' !in path && !HasInclude(path, data)
    ensures Split(Ensured(path, data), '\n') == [IncludeLine(path)] + ([""] + Split(data, '\n'))
  {
    assert '\n' !in IncludeLine(path) by {
      IncludeLineShape(path);
    }
    SplitBehindLine(IncludeLine(path), data);
  }

  lemma {:induction false} NoneIncluded(path: string, data: string)
    requires !HasInclude(path, data)
    ensures forall l :: l in [""] + Split(data, '\n') ==> !IsInclude(path, l)
  {
    EmptyIsNoInclude(path);
  }

  /** Ensuring puts the line there and a second time changes nothing. */
  lemma {:induction false} EnsureIsIdempotent(path: string, data: string)
    requires '\n' !in path
    ensures HasInclude(path, Ensured(path, data))
    ensures Ensured(path, Ensured(path, data)) == Ensured(path, data)
  {
    if !HasInclude(path, data) {
      EnsuredLines(path, data);
      IncludeLineShape(path);
      assert IsInclude(path, Split(Ensured(path, data), '\n')[0]);
    }
  }

  /** The line is the first one of the file, so no Host line in front of it limits
      it, ssh takes the path of nk's file from it, and the rest stays as it was. */
  lemma {:induction false} IncludeIsFirst(path: string, data: string)
    requires '\n' !in path && !HasInclude(path, data)
    ensures var lines := Split(Ensured(path, data), '\n');
            && "Include " <= lines[0] && SshConfig.Unquoted(lines[0][8..]) == Some(path)
            && lines[1..] == [""] + Split(data, '\n')
  {
    EnsuredLines(path, data);
    SshConfig.ValueRoundTrip(path);
    assert IncludeLine(path)[8..] == SshConfig.ConfigValue(path);
    assert "Include " <= IncludeLine(path);
  }

  lemma {:induction false} StripAppend(a: string, b: string)
    ensures StripQuotes(a + b) == StripQuotes(a) + StripQuotes(b)
  {
    if a == [] {
      assert a + b == b;
    } else {
      assert (a + b)[1..] == a[1..] + b;
      StripAppend(a[1..], b);
    }
  }

  lemma {:induction false} StripPlain(s: string)
    requires '"' !in s
    ensures StripQuotes(s) == s
  {
    if s == [] {
    } else {
      StripPlain(s[1..]);
    }
  }

  lemma {:induction false} EscapedPlain(v: string)
    requires '"' !in v && '\\' !in v
    ensures SshConfig.Escaped(v) == v
  {
    if v == [] {
    } else {
      EscapedPlain(v[1..]);
    }
  }

  lemma {:induction false} StripQuote()
    ensures StripQuotes("\"") == []
  {
    assert "\""[1..] == [];
  }

  lemma {:induction false} StripAround(q: string, v: string)
    requires StripQuotes(q) == [] && '"' !in v
    ensures StripQuotes(q + v + q) == v
  {
    StripAppend(q + v, q);
    StripAppend(q, v);
    StripPlain(v);
    assert [] + v == v && v + [] == v;
  }

  lemma {:induction false} StripQuoted(key: string, v: string, quoted: string)
    requires '"' !in key && StripQuotes(quoted) == v
    ensures StripQuotes(key + quoted) == key + v
  {
    StripAppend(key, quoted);
    StripPlain(key);
  }

  lemma {:induction false} StrippedLine(path: string, key: string, quoted: string)
    requires '"' !in key && '"' !in path && quoted == "\"" + path + "\""
    ensures StripQuotes(key + quoted) == key + path
  {
    assert StripQuotes(quoted) == path by {
      StripQuote();
      StripAround("\"", path);
    }
    StripQuoted(key, path, quoted);
  }

  lemma {:induction false} StrippedInclude(path: string)
    requires '"' !in path && '\\' !in path
    ensures StripQuotes(IncludeLine(path)) == "Include " + path
    ensures IncludeLine(path) == "Include \"" + path + "\""
  {
    EscapedPlain(path);
    StrippedLine(path, "Include ", SshConfig.ConfigValue(path));
  }

  /** Which lines count as the include of a plain path: without quotes exactly the
      keyword and the path, blanks around them aside, and with quotes around the
      path as well. */
  lemma {:induction false} IncludeForms(path: string, line: string)
    requires '"' !in path && '\\' !in path
    ensures '"' !in line ==> (IsInclude(path, line) <==> TrimSpace(line) == "Include " + path)
    ensures TrimSpace(line) == "Include \"" + path + "\"" ==> IsInclude(path, line)
  {
    StrippedInclude(path);
    if '"' !in line {
      TrimKeepsChars(line);
      StripPlain(TrimSpace(line));
    }
  }

  lemma {:induction false} TrimKeepsChars(s: string)
    requires '"' !in s
    ensures '"' !in TrimSpace(s)
  {
    TrimDropsBlanks(s);
    var a, b :| Blank(a) && Blank(b) && s == a + TrimSpace(s) + b;
  }

  lemma {:induction false} EnsuredKept(path: string, data: string)
    requires '\n' !in path && !HasInclude(path, data)
    ensures Kept(path, Split(Ensured(path, data), '\n')) == [""] + Split(data, '\n')
  {
    EnsuredLines(path, data);
    NoneIncluded(path, data);
    assert IsInclude(path, IncludeLine(path)) by {
      IncludeLineShape(path);
    }
    KeptBehindInclude(path, [""] + Split(data, '\n'));
  }

  lemma {:induction false} TrimBehindEmptyLine(data: string)
    ensures TrimNewlines(Join([""] + Split(data, '\n'), '\n')) == TrimNewlines(data)
  {
    var lines := [""] + Split(data, '\n');
    JoinAfterSplit(data, '\n');
    assert lines[1..] == Split(data, '\n');
    assert Join(lines, '\n') == "\n" + data;
    assert ("\n" + data)[1..] == data;
  }

  lemma {:induction false} RemoveUndoesText(path: string, data: string)
    requires '\n' !in path && !HasInclude(path, data)
    ensures Removed(path, Ensured(path, data)) == data <==> data == [] || data[0] != '\n'
  {
    assert HasInclude(path, Ensured(path, data)) by {
      EnsureIsIdempotent(path, data);
    }
    EnsuredKept(path, data);
    TrimBehindEmptyLine(data);
    TrimIsIdentity(data);
  }

  /** Removing after ensuring gives back a file that had no include, exactly when
      it exists and does not begin with an empty line. One that did not exist
      stays behind empty. */
  lemma {:induction false} RemoveUndoesEnsure(path: string, file: Option<string>)
    requires '\n' !in path && (file.Some? ==> !HasInclude(path, file.value))
    ensures RemovedFile(path, EnsuredFile(path, file)) == file
       <==> file.Some? && (file.value == [] || file.value[0] != '\n')
    ensures file.None? ==> RemovedFile(path, EnsuredFile(path, file)) == Some("")
  {
    EmptyIsNoInclude(path);
    assert Split("", '\n') == [""];
    RemoveUndoesText(path, if file.Some? then file.value else "");
  }

  /** Whatever the file was, after a removal it includes nk's file no more. */
  lemma {:induction false} RemoveIsComplete(path: string, data: string)
    ensures !HasInclude(path, Removed(path, data))
  {
    if HasInclude(path, data) {
      var lines := Split(data, '\n');
      var kept := Kept(path, lines);
      KeptAre(path, lines);
      SplitPartsFree(data, '\n');
      EmptyIsNoInclude(path);
      if kept != [] {
        SplitAfterJoin(kept, '\n');
      }
      TrimDropsEmptyLines(Join(kept, '\n'));
      var after := Split(Removed(path, data), '\n');
      forall k | 0 <= k < |after| ensures !IsInclude(path, after[k]) {
        assert after[k] in Split(Join(kept, '\n'), '\n');
      }
    }
  }
}
