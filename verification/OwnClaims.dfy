/** What a file of the user's ssh config claims, line by line, and what an Include
    line stands for. */
module OwnClaims {
  import opened Text
  import opened OwnLine
  import opened OwnConfig

  predicate IsOpener(l: Line) {
    l.key == "host" || l.key == "match"
  }

  predicate IsDest(l: Line) {
    l.key == "hostname" || l.key == "proxyjump" || l.key == "proxycommand"
  }

  /** A Host line that names the host in lower case, or a Match line one of whose
      host criteria does. */
  predicate OpensFor(l: Line, name: string) {
    || (l.key == "host" && Names(LowerAll(l.args), ToLower(name)))
    || (l.key == "match" && Names(MatchHostsFrom(l.args, 0), ToLower(name)))
  }

  /** The lines of a file, none where there is no such file. */
  function LinesOf(d: Disk, file: string): seq<Line> {
    if file in d.files then Parsed(Split(d.files[file], '\n')) else []
  }

  /** Line i opens a block for the name, and line j of that block says where to connect. */
  predicate ClaimedAt(ls: seq<Line>, name: string, i: nat, j: nat)
    requires i < j < |ls|
  {
    OpensFor(ls[i], name) && IsDest(ls[j]) && forall k :: i < k < j ==> !IsOpener(ls[k])
  }

  predicate ClaimedSomewhere(ls: seq<Line>, name: string) {
    exists i, j :: 0 <= i < j < |ls| && ClaimedAt(ls, name, i, j)
  }

  predicate NoIncludes(ls: seq<Line>) {
    forall i :: 0 <= i < |ls| ==> ls[i].key != "include"
  }

  function PlainOf(l: Line): seq<Plain> {
    if l.key == "host" then [Opens(LowerAll(l.args))]
    else if l.key == "match" then [Opens(MatchHostsFrom(l.args, 0))]
    else if IsDest(l) then [Destination]
    else []
  }

  function PlainLines(ls: seq<Line>): seq<Plain> {
    if ls == [] then [] else PlainOf(ls[0]) + PlainLines(ls[1..])
  }

  lemma {:induction false} PlainLinesAppend(a: seq<Line>, b: seq<Line>)
    ensures PlainLines(a + b) == PlainLines(a) + PlainLines(b)
  {
    if a == [] {
      assert a + b == b && [] + PlainLines(b) == PlainLines(b);
    } else {
      assert (a + b)[1..] == a[1..] + b;
      PlainLinesAppend(a[1..], b);
    }
  }

  lemma {:induction false} ThenEmpty(a: Inlined)
    ensures Then(a, Inlined([], a.files, [])) == a
  {
    assert a.lines + [] == a.lines && a.depths + [] == a.depths;
  }

  lemma {:induction false} EmptyThen(a: Inlined, files: nat)
    ensures Then(Inlined([], files, []), a) == a
  {
    assert [] + a.lines == a.lines && [] + a.depths == a.depths;
  }

  lemma {:induction false} ThenAssoc(a: Inlined, b: Inlined, c: Inlined)
    ensures Then(Then(a, b), c) == Then(a, Then(b, c))
  {
    assert (a.lines + b.lines) + c.lines == a.lines + (b.lines + c.lines);
    assert (a.depths + b.depths) + c.depths == a.depths + (b.depths + c.depths);
  }

  lemma {:induction false} InlinePlainLine(d: Disk, l: Line, depth: nat, files: nat)
    requires depth <= MAX_INCLUDE_DEPTH && l.key != "include"
    ensures InlineLine(d, l, depth, files) == Inlined(PlainOf(l), files, [])
  {
  }

  lemma {:induction false} InlinePlain(d: Disk, ls: seq<Line>, depth: nat, files: nat)
    requires depth <= MAX_INCLUDE_DEPTH && NoIncludes(ls)
    ensures InlineLines(d, ls, depth, files) == Inlined(PlainLines(ls), files, [])
    decreases |ls|
  {
    if ls == [] {
    } else {
      InlinePlainLine(d, ls[0], depth, files);
      InlinePlain(d, ls[1..], depth, files);
    }
  }

  /** Some line of the block that is open at the start says where to connect. */
  predicate DestFirst(ls: seq<Line>) {
    exists j :: 0 <= j < |ls| && IsDest(ls[j]) && forall k :: 0 <= k < j ==> !IsOpener(ls[k])
  }

  lemma {:induction false} DestFirstStep(ls: seq<Line>)
    requires ls != []
    ensures DestFirst(ls) <==> IsDest(ls[0]) || (!IsOpener(ls[0]) && DestFirst(ls[1..]))
  {
    var rest := ls[1..];
    if DestFirst(ls) && !IsDest(ls[0]) {
      var j :| 0 <= j < |ls| && IsDest(ls[j]) && forall k :: 0 <= k < j ==> !IsOpener(ls[k]);
      assert IsDest(rest[j - 1]) && forall k :: 0 <= k < j - 1 ==> rest[k] == ls[k + 1];
    }
    if !IsOpener(ls[0]) && DestFirst(rest) {
      var j :| 0 <= j < |rest| && IsDest(rest[j]) && forall k :: 0 <= k < j ==> !IsOpener(rest[k]);
      assert IsDest(ls[j + 1]) && forall k :: 0 < k < j + 1 ==> ls[k] == rest[k - 1];
    }
  }

  lemma {:induction false} DestAheadMeans(ls: seq<Line>)
    ensures DestAhead(PlainLines(ls)) <==> DestFirst(ls)
  {
    if ls == [] {
    } else {
      DestFirstStep(ls);
      DestAheadMeans(ls[1..]);
      assert [] + PlainLines(ls[1..]) == PlainLines(ls[1..]);
    }
  }

  lemma {:induction false} ClaimedInTail(ls: seq<Line>, name: string, i: nat, j: nat)
    requires 0 < i < j < |ls|
    ensures ClaimedAt(ls, name, i, j) <==> ClaimedAt(ls[1..], name, i - 1, j - 1)
  {
    var rest := ls[1..];
    assert rest[i - 1] == ls[i] && rest[j - 1] == ls[j];
    assert forall k :: i < k < j ==> ls[k] == rest[k - 1];
    assert forall k :: i - 1 < k < j - 1 ==> rest[k] == ls[k + 1];
  }

  lemma {:induction false} ClaimedByFirst(ls: seq<Line>, name: string)
    requires ls != []
    ensures (exists j :: 0 < j < |ls| && ClaimedAt(ls, name, 0, j)) <==> OpensFor(ls[0], name) && DestFirst(ls[1..])
  {
    var rest := ls[1..];
    if j :| 0 < j < |ls| && ClaimedAt(ls, name, 0, j) {
      assert rest[j - 1] == ls[j] && forall k :: 0 <= k < j - 1 ==> rest[k] == ls[k + 1];
    }
    if OpensFor(ls[0], name) && DestFirst(rest) {
      var j :| 0 <= j < |rest| && IsDest(rest[j]) && forall k :: 0 <= k < j ==> !IsOpener(rest[k]);
      assert ls[j + 1] == rest[j] && forall k :: 0 < k < j + 1 ==> ls[k] == rest[k - 1];
      assert ClaimedAt(ls, name, 0, j + 1);
    }
  }

  lemma {:induction false} ClaimedStep(ls: seq<Line>, name: string)
    requires ls != []
    ensures ClaimedSomewhere(ls, name) <==>
              (OpensFor(ls[0], name) && DestFirst(ls[1..])) || ClaimedSomewhere(ls[1..], name)
  {
    ClaimedByFirst(ls, name);
    if ClaimedSomewhere(ls, name) {
      var i, j :| 0 <= i < j < |ls| && ClaimedAt(ls, name, i, j);
      if i > 0 {
        ClaimedInTail(ls, name, i, j);
      }
    }
    if ClaimedSomewhere(ls[1..], name) {
      var i, j :| 0 <= i < j < |ls[1..]| && ClaimedAt(ls[1..], name, i, j);
      ClaimedInTail(ls, name, i + 1, j + 1);
    }
  }

  lemma {:induction false} ClaimsCons(b: Block, rest: seq<Block>, name: string)
    ensures Claims([b] + rest, name) <==> (b.dest && Names(b.patterns, ToLower(name))) || Claims(rest, name)
  {
    var all := [b] + rest;
    assert all[0] == b && forall k :: 0 < k < |all| ==> all[k] == rest[k - 1];
    if Claims(rest, name) {
      var k :| 0 <= k < |rest| && rest[k].dest && Names(rest[k].patterns, ToLower(name));
      assert all[k + 1] == rest[k];
    }
  }

  lemma {:induction false} BlocksClaim(ls: seq<Line>, name: string)
    ensures Claims(BlocksOf(PlainLines(ls)), name) <==> ClaimedSomewhere(ls, name)
  {
    if ls == [] {
    } else {
      var rest := PlainLines(ls[1..]);
      BlocksClaim(ls[1..], name);
      ClaimedStep(ls, name);
      if IsOpener(ls[0]) {
        var patterns := if ls[0].key == "host" then LowerAll(ls[0].args) else MatchHostsFrom(ls[0].args, 0);
        assert PlainOf(ls[0]) == [Opens(patterns)] && ([Opens(patterns)] + rest)[1..] == rest;
        DestAheadMeans(ls[1..]);
        ClaimsCons(Block(patterns, DestAhead(rest)), BlocksOf(rest), name);
      } else if IsDest(ls[0]) {
        assert ([Destination] + rest)[1..] == rest;
      } else {
        assert [] + rest == rest;
      }
    }
  }

  /** A file without includes claims a name exactly when a Host or Match line of it
      names the host and a line of the same block says where to connect. */
  lemma {:induction false} FileClaims(d: Disk, file: string, name: string)
    requires file in d.files && file !in d.own && NoIncludes(LinesOf(d, file))
    ensures Claims(FlatPass([], InlineFile(d, file, 0, 0).lines), name)
       <==> ClaimedSomewhere(LinesOf(d, file), name)
  {
    var ls := LinesOf(d, file);
    IncludedFile(d, file, 0, 0);
    FlatPassIsBlocksOf(PlainLines(ls));
    BlocksClaim(ls, name);
  }

  lemma {:induction false} InlineAppend(d: Disk, a: seq<Line>, b: seq<Line>, depth: nat, files: nat)
    requires depth <= MAX_INCLUDE_DEPTH
    ensures var first := InlineLines(d, a, depth, files);
            InlineLines(d, a + b, depth, files) == Then(first, InlineLines(d, b, depth, first.files))
  {
    if a == [] {
      assert a + b == b;
      EmptyThen(InlineLines(d, b, depth, files), files);
    } else {
      var head := InlineLine(d, a[0], depth, files);
      assert (a + b)[1..] == a[1..] + b;
      InlineAppend(d, a[1..], b, depth, head.files);
      var mid := InlineLines(d, a[1..], depth, head.files);
      ThenAssoc(head, mid, InlineLines(d, b, depth, mid.files));
    }
  }

  lemma {:induction false} IncludedFile(d: Disk, file: string, depth: nat, files: nat)
    requires depth <= MAX_INCLUDE_DEPTH + 1 && NoIncludes(LinesOf(d, file))
    ensures InlineFile(d, file, depth, files).lines ==
            if file in d.files && file !in d.own && files < 256 && depth <= 16
            then PlainLines(LinesOf(d, file)) else []
  {
    if !Skipped(d, file, depth, files) {
      var ls := LinesOf(d, file);
      InlinePlain(d, ls, depth, files + 1);
      assert [] + PlainLines(ls) == PlainLines(ls);
    }
  }

  lemma {:induction false} IncludedOnce(d: Disk, arg: string, file: string, depth: nat, files: nat)
    requires d.glob(arg) == [file] && depth <= MAX_INCLUDE_DEPTH
    ensures InlineLines(d, [Line("include", [arg])], depth, files) == InlineFile(d, file, depth + 1, files)
  {
    var one := InlineFile(d, file, depth + 1, files);
    var inc := Line("include", [arg]);
    assert [inc][1..] == [] && [arg][1..] == [] && [file][1..] == [];
    ThenEmpty(one);
    assert InlinePaths(d, [file], depth, files) == one;
    assert InlineArgs(d, [arg], depth, files) == one;
    assert InlineLine(d, inc, depth, files) == one;
  }

  lemma {:induction false} AroundInclude(d: Disk, before: seq<Line>, arg: string, file: string, after: seq<Line>,
                                         depth: nat, files: nat)
    requires d.glob(arg) == [file] && depth <= MAX_INCLUDE_DEPTH && NoIncludes(before) && NoIncludes(after)
    ensures InlineLines(d, before + [Line("include", [arg])] + after, depth, files).lines
         == PlainLines(before) + InlineFile(d, file, depth + 1, files).lines + PlainLines(after)
  {
    var inc := [Line("include", [arg])];
    InlineAppend(d, before + inc, after, depth, files);
    InlineAppend(d, before, inc, depth, files);
    InlinePlain(d, before, depth, files);
    IncludedOnce(d, arg, file, depth, files);
    InlinePlain(d, after, depth, InlineLines(d, before + inc, depth, files).files);
  }

  lemma {:induction false} PlainAround(before: seq<Line>, ls: seq<Line>, after: seq<Line>)
    ensures PlainLines(before) + PlainLines(ls) + PlainLines(after) == PlainLines(before + ls + after)
    ensures PlainLines(before) + [] + PlainLines(after) == PlainLines(before + after)
  {
    PlainLinesAppend(before + ls, after);
    PlainLinesAppend(before, ls);
    PlainLinesAppend(before, after);
    assert PlainLines(before) + [] == PlainLines(before);
  }

  /** An Include line stands for the lines of the file it names, as long as that is
      readable, not nk's own, and within the budgets of 256 files and 16 levels.
      Else it stands for nothing. */
  lemma {:induction false} IncludeSplices(d: Disk, before: seq<Line>, arg: string, file: string, after: seq<Line>,
                                          depth: nat, files: nat)
    requires d.glob(arg) == [file] && depth <= 16 && NoIncludes(before) && NoIncludes(after)
    requires NoIncludes(LinesOf(d, file))
    ensures InlineLines(d, before + [Line("include", [arg])] + after, depth, files).lines ==
            if file in d.files && file !in d.own && files < 256 && depth < 16
            then PlainLines(before + LinesOf(d, file) + after)
            else PlainLines(before + after)
  {
    var spliced := InlineFile(d, file, depth + 1, files).lines;
    assert spliced == if file in d.files && file !in d.own && files < 256 && depth < 16
                      then PlainLines(LinesOf(d, file)) else [] by {
      IncludedFile(d, file, depth + 1, files);
    }
    AroundInclude(d, before, arg, file, after, depth, files);
    PlainAround(before, LinesOf(d, file), after);
  }

  lemma {:induction false} ArgsAppend(d: Disk, a: seq<string>, b: seq<string>, depth: nat, files: nat)
    requires depth <= MAX_INCLUDE_DEPTH
    ensures var first := InlineArgs(d, a, depth, files);
            InlineArgs(d, a + b, depth, files) == Then(first, InlineArgs(d, b, depth, first.files))
  {
    if a == [] {
      assert a + b == b;
      EmptyThen(InlineArgs(d, b, depth, files), files);
    } else {
      var head := InlinePaths(d, d.glob(a[0]), depth, files);
      assert (a + b)[1..] == a[1..] + b;
      ArgsAppend(d, a[1..], b, depth, head.files);
      var mid := InlineArgs(d, a[1..], depth, head.files);
      ThenAssoc(head, mid, InlineArgs(d, b, depth, mid.files));
    }
  }

  lemma {:induction false} PathsAppend(d: Disk, a: seq<string>, b: seq<string>, depth: nat, files: nat)
    requires depth <= MAX_INCLUDE_DEPTH
    ensures var first := InlinePaths(d, a, depth, files);
            InlinePaths(d, a + b, depth, files) == Then(first, InlinePaths(d, b, depth, first.files))
  {
    if a == [] {
      assert a + b == b;
      EmptyThen(InlinePaths(d, b, depth, files), files);
    } else {
      var head := InlineFile(d, a[0], depth + 1, files);
      assert (a + b)[1..] == a[1..] + b;
      PathsAppend(d, a[1..], b, depth, head.files);
      var mid := InlinePaths(d, a[1..], depth, head.files);
      ThenAssoc(head, mid, InlinePaths(d, b, depth, mid.files));
    }
  }

  lemma {:induction false} IncludeLineIs(d: Disk, args: seq<string>, depth: nat, files: nat)
    requires depth <= MAX_INCLUDE_DEPTH
    ensures InlineLines(d, [Line("include", args)], depth, files) == InlineArgs(d, args, depth, files)
  {
    var inc := Line("include", args);
    assert [inc][1..] == [];
    ThenEmpty(InlineArgs(d, args, depth, files));
  }

  /** An Include line with several arguments is one Include line after the other, and
      a glob that several files match is one file after the other, in that order and
      within the same budget. */
  lemma {:induction false} IncludesApart(d: Disk, a: seq<string>, b: seq<string>, arg: string, some: string,
                                         others: string, depth: nat, files: nat)
    requires depth <= 16
    ensures InlineLines(d, [Line("include", a + b)], depth, files)
         == InlineLines(d, [Line("include", a), Line("include", b)], depth, files)
    ensures d.glob(arg) == d.glob(some) + d.glob(others) ==>
              InlineLines(d, [Line("include", [arg])], depth, files)
              == InlineLines(d, [Line("include", [some]), Line("include", [others])], depth, files)
    ensures d.glob(arg) == [] ==> InlineLines(d, [Line("include", [arg])], depth, files) == Inlined([], files, [])
    ensures InlineLines(d, [Line("include", [])], depth, files) == Inlined([], files, [])
  {
    TwoIncludes(d, a, b, depth, files);
    TwoIncludes(d, [some], [others], depth, files);
    IncludeLineIs(d, [], depth, files);
    OneArgument(d, arg, depth, files);
    assert InlineArgs(d, [some] + [others], depth, files)
        == Then(InlinePaths(d, d.glob(some), depth, files),
                InlinePaths(d, d.glob(others), depth, InlinePaths(d, d.glob(some), depth, files).files)) by {
      ArgsAppend(d, [some], [others], depth, files);
      OneArgument(d, some, depth, files);
      OneArgument(d, others, depth, InlinePaths(d, d.glob(some), depth, files).files);
    }
    PathsAppend(d, d.glob(some), d.glob(others), depth, files);
  }

  lemma {:induction false} OneArgument(d: Disk, arg: string, depth: nat, files: nat)
    requires depth <= MAX_INCLUDE_DEPTH
    ensures InlineArgs(d, [arg], depth, files) == InlinePaths(d, d.glob(arg), depth, files)
    ensures InlineLines(d, [Line("include", [arg])], depth, files) == InlinePaths(d, d.glob(arg), depth, files)
  {
    assert [arg][1..] == [];
    ThenEmpty(InlinePaths(d, d.glob(arg), depth, files));
    IncludeLineIs(d, [arg], depth, files);
  }

  lemma {:induction false} TwoIncludes(d: Disk, a: seq<string>, b: seq<string>, depth: nat, files: nat)
    requires depth <= MAX_INCLUDE_DEPTH
    ensures InlineLines(d, [Line("include", a), Line("include", b)], depth, files)
         == InlineLines(d, [Line("include", a + b)], depth, files) == InlineArgs(d, a + b, depth, files)
  {
    ArgsAppend(d, a, b, depth, files);
    IncludeLineIs(d, a + b, depth, files);
    IncludeLineIs(d, a, depth, files);
    IncludeLineIs(d, b, depth, InlineArgs(d, a, depth, files).files);
    InlineAppend(d, [Line("include", a)], [Line("include", b)], depth, files);
    assert [Line("include", a)] + [Line("include", b)] == [Line("include", a), Line("include", b)];
  }
}
