/** Reading the user's own ssh config: pattern lists, and the recursive include
    reader with its budgets. */
module OwnConfig {
  import opened Text
  import opened OwnLine

  const MAX_INCLUDE_DEPTH := 16
  const MAX_OWN_FILES := 256

  function LowerAll(args: seq<string>): (r: seq<string>)
    ensures |r| == |args| && forall i :: 0 <= i < |args| ==> r[i] == ToLower(args[i])
  {
    seq(|args|, i requires 0 <= i < |args| => ToLower(args[i]))
  }

  /** What a word of a Match line is. Every other criterion takes one argument. */
  datatype Criterion = Alone | HostList | Other

  function CriterionOf(word: string): Criterion {
    if word == "all" || word == "final" || word == "canonical" then Alone
    else if word == "host" || word == "originalhost" then HostList
    else Other
  }

  /** The host patterns of a Match line from position i on. */
  function MatchHostsFrom(args: seq<string>, i: nat): seq<string>
    decreases |args| - i
  {
    if i >= |args| then []
    else
      match CriterionOf(ToLower(args[i]))
      case Alone => MatchHostsFrom(args, i + 1)
      case HostList =>
        (if i + 1 < |args| then Split(ToLower(args[i + 1]), ',') else []) + MatchHostsFrom(args, i + 2)
      case Other => MatchHostsFrom(args, i + 2)
  }

  method MatchHosts(args: seq<string>) returns (out: seq<string>)
    ensures out == MatchHostsFrom(args, 0)
  {
    out := [];
    var i := 0;
    while i < |args|
      invariant out + MatchHostsFrom(args, i) == MatchHostsFrom(args, 0)
    {
      match CriterionOf(ToLower(args[i])) {
        case Alone =>
        case HostList =>
          if i + 1 < |args| {
            out := out + Split(ToLower(args[i + 1]), ',');
          }
          i := i + 1;
        case Other =>
          i := i + 1;
      }
      i := i + 1;
    }
  }

  /** A criterion of a Match line as it is written. */
  datatype Written =
    | AloneWord(word: string)                       // all, final, canonical
    | Hosts(word: string, patterns: string)         // host, originalhost
    | OneArgument(word: string, arg: string)        // any other

  predicate WrittenOk(w: Written) {
    match w
    case AloneWord(word) => ToLower(word) in {"all", "final", "canonical"}
    case Hosts(word, _) => ToLower(word) in {"host", "originalhost"}
    case OneArgument(word, _) => ToLower(word) !in {"all", "final", "canonical", "host", "originalhost"}
  }

  function WrittenWords(w: Written): seq<string> {
    match w
    case AloneWord(word) => [word]
    case Hosts(word, patterns) => [word, patterns]
    case OneArgument(word, arg) => [word, arg]
  }

  function WrittenArgs(ws: seq<Written>): seq<string> {
    if ws == [] then [] else WrittenWords(ws[0]) + WrittenArgs(ws[1..])
  }

  /** The patterns of all host criteria, in order and in lower case. */
  function WrittenHosts(ws: seq<Written>): seq<string> {
    if ws == [] then []
    else (if ws[0].Hosts? then Split(ToLower(ws[0].patterns), ',') else []) + WrittenHosts(ws[1..])
  }

  lemma {:induction false} MatchShift(a: seq<string>, b: seq<string>, i: nat)
    ensures MatchHostsFrom(a + b, |a| + i) == MatchHostsFrom(b, i)
    decreases |b| - i
  {
    if i >= |b| {
    } else {
      assert (a + b)[|a| + i] == b[i] && (i + 1 < |b| ==> (a + b)[|a| + i + 1] == b[i + 1]);
      MatchShift(a, b, i + 1);
      MatchShift(a, b, i + 2);
    }
  }

  lemma {:induction false} MatchHead(w: Written, rest: seq<string>)
    requires WrittenOk(w)
    ensures MatchHostsFrom(WrittenWords(w) + rest, 0)
         == (if w.Hosts? then Split(ToLower(w.patterns), ',') else []) + MatchHostsFrom(rest, 0)
  {
    MatchShift(WrittenWords(w), rest, 0);
    var args := WrittenWords(w) + rest;
    assert args[0] == w.word && (!w.AloneWord? ==> args[1] == WrittenWords(w)[1]);
    assert [] + MatchHostsFrom(rest, 0) == MatchHostsFrom(rest, 0);
  }

  /** From a Match line exactly the patterns of its host criteria are taken, whatever
      else narrows the block. A last criterion may lack its argument. */
  lemma {:induction false} MatchLineHosts(ws: seq<Written>, last: string)
    requires forall i :: 0 <= i < |ws| ==> WrittenOk(ws[i])
    ensures MatchHostsFrom(WrittenArgs(ws), 0) == WrittenHosts(ws)
    ensures MatchHostsFrom(WrittenArgs(ws) + [last], 0) == WrittenHosts(ws)
  {
    if ws == [] {
      assert [] + [last] == [last];
    } else {
      MatchLineHosts(ws[1..], last);
      MatchHead(ws[0], WrittenArgs(ws[1..]));
      MatchHead(ws[0], WrittenArgs(ws[1..]) + [last]);
      assert WrittenArgs(ws) + [last] == WrittenWords(ws[0]) + (WrittenArgs(ws[1..]) + [last]);
    }
  }

  // ---- Pattern lists -------------------------------------------------------

  /** path.Match for patterns of `*`, `?` and plain characters, on a name without `/`. */
  predicate Glob(p: string, name: string)
    decreases |p| + |name|
  {
    if p == [] then name == []
    else if p[0] == '*' then Glob(p[1..], name) || (name != [] && Glob(p, name[1..]))
    else name != [] && (p[0] == '?' || p[0] == name[0]) && Glob(p[1..], name[1..])
  }

  /** A pattern matches a name in parts, each part its share of the name. */
  lemma {:induction false} GlobAppend(a: string, b: string, name: string)
    ensures Glob(a + b, name) <==> exists k :: 0 <= k <= |name| && Glob(a, name[..k]) && Glob(b, name[k..])
    decreases |a| + |name|
  {
    if a == [] {
      assert a + b == b && name[0..] == name && name[..0] == [];
      assert Glob(b, name) ==> Glob(a, name[..0]) && Glob(b, name[0..]);
    } else {
      assert (a + b)[1..] == a[1..] + b && (a + b)[0] == a[0];
      GlobAppend(a[1..], b, name);
      if name != [] {
        GlobAppend(a, b, name[1..]);
        GlobAppend(a[1..], b, name[1..]);
      }
      if Glob(a + b, name) {
        GlobSplits(a, b, name);
      }
      if k :| 0 <= k <= |name| && Glob(a, name[..k]) && Glob(b, name[k..]) {
        GlobJoins(a, b, name, k);
      }
    }
  }

  lemma {:induction false} GlobSplits(a: string, b: string, name: string)
    requires a != [] && Glob(a + b, name) && (a + b)[1..] == a[1..] + b
    requires Glob(a[1..] + b, name) ==>
               exists k :: 0 <= k <= |name| && Glob(a[1..], name[..k]) && Glob(b, name[k..])
    requires name != [] && Glob(a + b, name[1..]) ==>
               exists k :: 0 <= k <= |name[1..]| && Glob(a, name[1..][..k]) && Glob(b, name[1..][k..])
    requires name != [] && Glob(a[1..] + b, name[1..]) ==>
               exists k :: 0 <= k <= |name[1..]| && Glob(a[1..], name[1..][..k]) && Glob(b, name[1..][k..])
    ensures exists k :: 0 <= k <= |name| && Glob(a, name[..k]) && Glob(b, name[k..])
  {
    if a[0] == '*' && Glob(a[1..] + b, name) {
      var k :| 0 <= k <= |name| && Glob(a[1..], name[..k]) && Glob(b, name[k..]);
      assert Glob(a, name[..k]);
    } else {
      var p := if a[0] == '*' then a else a[1..];
      var k :| 0 <= k <= |name[1..]| && Glob(p, name[1..][..k]) && Glob(b, name[1..][k..]);
      assert name[..k + 1][1..] == name[1..][..k] && name[k + 1..] == name[1..][k..];
      assert Glob(a, name[..k + 1]);
    }
  }

  lemma {:induction false} GlobJoins(a: string, b: string, name: string, k: nat)
    requires a != [] && k <= |name| && Glob(a, name[..k]) && Glob(b, name[k..]) && (a + b)[1..] == a[1..] + b
    requires forall j :: 0 <= j <= |name| && Glob(a[1..], name[..j]) && Glob(b, name[j..]) ==> Glob(a[1..] + b, name)
    requires name != [] ==>
               forall j :: 0 <= j <= |name[1..]| && Glob(a, name[1..][..j]) && Glob(b, name[1..][j..]) ==>
                 Glob(a + b, name[1..])
    requires name != [] ==>
               forall j :: 0 <= j <= |name[1..]| && Glob(a[1..], name[1..][..j]) && Glob(b, name[1..][j..]) ==>
                 Glob(a[1..] + b, name[1..])
    ensures Glob(a + b, name)
  {
    if a[0] == '*' && Glob(a[1..], name[..k]) {
    } else {
      assert k > 0;
      assert name[..k][1..] == name[1..][..k - 1] && name[k..] == name[1..][k - 1..];
    }
  }

  /** What each character of a pattern matches on its own. */
  lemma {:induction false} GlobChar(c: char, name: string)
    ensures Glob([c], name) <==> c == '*' || (|name| == 1 && (c == '?' || name[0] == c))
  {
    assert [c][1..] == [];
    if c == '*' && name != [] {
      GlobChar(c, name[1..]);
    }
  }

  /** A pattern without wildcards. */
  predicate NoWildcard(s: string) {
    '*' !in s && '?' !in s
  }

  lemma {:induction false} GlobPlain(p: string, name: string)
    requires NoWildcard(p)
    ensures Glob(p, name) <==> p == name
  {
    if p == [] || name == [] {
    } else {
      GlobPlain(p[1..], name[1..]);
      assert p == [p[0]] + p[1..] && name == [name[0]] + name[1..];
    }
  }

  lemma {:induction false} LowerPlain(s: string)
    requires NoWildcard(s)
    ensures NoWildcard(ToLower(s))
  {
  }

  /** A pattern of wildcards only holds defaults and names nothing. */
  predicate WildOnly(p: string) {
    forall i :: 0 <= i < |p| ==> p[i] == '*' || p[i] == '?'
  }

  predicate Negated(raw: string) {
    raw != [] && raw[0] == '!'
  }

  function Pattern(raw: string): string {
    if Negated(raw) then raw[1..] else raw
  }

  datatype Block = Block(patterns: seq<string>, dest: bool)

  /** ssh's rule: no negated pattern matches and some other one names the host. */
  predicate Names(patterns: seq<string>, name: string) {
    && (forall i :: 0 <= i < |patterns| && Negated(patterns[i]) ==> !Glob(Pattern(patterns[i]), name))
    && (exists i :: 0 <= i < |patterns| && !Negated(patterns[i]) && Glob(patterns[i], name) && !WildOnly(patterns[i]))
  }

  /** ownBlock.matches. */
  method Matches(patterns: seq<string>, name: string) returns (r: bool)
    ensures r <==> Names(patterns, name)
  {
    var named := false;
    for k := 0 to |patterns|
      invariant forall i :: 0 <= i < k && Negated(patterns[i]) ==> !Glob(Pattern(patterns[i]), name)
      invariant named <==>
        exists i :: 0 <= i < k && !Negated(patterns[i]) && Glob(patterns[i], name) && !WildOnly(patterns[i])
    {
      var p := Pattern(patterns[k]);
      if !Glob(p, name) {
        continue;
      }
      if Negated(patterns[k]) {
        return false;
      }
      named := named || !WildOnly(p);
    }
    r := named;
  }

  /** What one more pattern does to a list: a negated one that matches keeps the name
      out, one of wildcards only changes nothing, and a name in plain claims itself
      unless a negated pattern matches it. */
  lemma {:induction false} PatternRules(ps: seq<string>, p: string, name: string)
    ensures Glob(p, name) ==> !Names(ps + ["!" + p], name)
    ensures !Glob(p, name) ==> (Names(ps + ["!" + p], name) <==> Names(ps, name))
    ensures WildOnly(p) ==> (Names(ps + [p], name) <==> Names(ps, name))
    ensures !WildOnly(p) && !Negated(p) && Glob(p, name) ==>
              (Names(ps + [p], name) <==>
               forall i :: 0 <= i < |ps| && Negated(ps[i]) ==> !Glob(Pattern(ps[i]), name))
  {
    var neg, more := ps + ["!" + p], ps + [p];
    assert ("!" + p)[1..] == p && Pattern(neg[|ps|]) == p && Negated(neg[|ps|]);
    assert forall i :: 0 <= i < |ps| ==> neg[i] == ps[i] && more[i] == ps[i];
    assert more[|ps|] == p;
    if Names(ps, name) {
      var i :| 0 <= i < |ps| && !Negated(ps[i]) && Glob(ps[i], name) && !WildOnly(ps[i]);
      assert neg[i] == ps[i] && more[i] == ps[i];
    }
  }

  /** The user's config sends `name` somewhere itself. */
  predicate Claims(blocks: seq<Block>, name: string) {
    exists k :: 0 <= k < |blocks| && blocks[k].dest && Names(blocks[k].patterns, ToLower(name))
  }

  // ---- The flat pass -------------------------------------------------------

  /** A line's effect on the list of blocks, includes aside. */
  datatype Plain = Opens(patterns: seq<string>) | Destination

  function Apply(blocks: seq<Block>, p: Plain): seq<Block> {
    match p
    case Opens(patterns) => blocks + [Block(patterns, false)]
    case Destination =>
      if blocks == [] then [] else blocks[|blocks| - 1 := blocks[|blocks| - 1].(dest := true)]
  }

  /** One left-to-right pass over a stream of lines, with one active block, the last. */
  function FlatPass(blocks: seq<Block>, lines: seq<Plain>): seq<Block> {
    if lines == [] then blocks else Apply(FlatPass(blocks, lines[..|lines| - 1]), lines[|lines| - 1])
  }

  lemma {:induction false} FlatPassAppend(blocks: seq<Block>, a: seq<Plain>, b: seq<Plain>)
    ensures FlatPass(blocks, a + b) == FlatPass(FlatPass(blocks, a), b)
  {
    if b == [] {
      assert a + b == a;
    } else {
      FlatPassAppend(blocks, a, b[..|b| - 1]);
      assert (a + b)[..|a + b| - 1] == a + b[..|b| - 1];
    }
  }

  /** A Destination line comes before the next block opens. */
  predicate DestAhead(lines: seq<Plain>) {
    lines != [] && lines[0].Destination?
  }

  /** The blocks read off the stream from the other end: each line that opens one
      begins a block, which says where to connect if such a line follows before
      the next block opens. Lines before the first block belong to none. */
  function BlocksOf(lines: seq<Plain>): seq<Block> {
    if lines == [] then []
    else
      match lines[0]
      case Opens(patterns) => [Block(patterns, DestAhead(lines[1..]))] + BlocksOf(lines[1..])
      case Destination => BlocksOf(lines[1..])
  }

  lemma {:induction false} FlatPassFront(blocks: seq<Block>, lines: seq<Plain>)
    requires lines != []
    ensures FlatPass(blocks, lines) == FlatPass(Apply(blocks, lines[0]), lines[1..])
  {
    assert lines == [lines[0]] + lines[1..];
    FlatPassAppend(blocks, [lines[0]], lines[1..]);
    assert [lines[0]][..0] == [];
    assert FlatPass(blocks, []) == blocks;
    assert FlatPass(blocks, [lines[0]]) == Apply(blocks, lines[0]);
  }

  /** What the lines up to the next block do to the active one. */
  function WithActive(blocks: seq<Block>, dest: bool): seq<Block> {
    if blocks == [] || !dest then blocks
    else blocks[|blocks| - 1 := blocks[|blocks| - 1].(dest := true)]
  }

  lemma {:induction false} FlatPassFrom(blocks: seq<Block>, lines: seq<Plain>)
    ensures FlatPass(blocks, lines) == WithActive(blocks, DestAhead(lines)) + BlocksOf(lines)
    decreases |lines|
  {
    if lines == [] {
    } else {
      FlatPassFront(blocks, lines);
      FlatPassFrom(Apply(blocks, lines[0]), lines[1..]);
      FrontLine(blocks, lines);
    }
  }

  /** One line, before the others are read. */
  lemma {:induction false} FrontLine(blocks: seq<Block>, lines: seq<Plain>)
    requires lines != []
    ensures WithActive(Apply(blocks, lines[0]), DestAhead(lines[1..])) + BlocksOf(lines[1..])
         == WithActive(blocks, DestAhead(lines)) + BlocksOf(lines)
  {
    var rest := lines[1..];
    match lines[0] {
      case Opens(patterns) =>
        var block := Block(patterns, DestAhead(rest));
        assert WithActive(blocks + [Block(patterns, false)], DestAhead(rest)) == blocks + [block];
        assert blocks + [block] + BlocksOf(rest) == blocks + ([block] + BlocksOf(rest));
      case Destination =>
        assert WithActive(Apply(blocks, Destination), DestAhead(rest)) == WithActive(blocks, true);
    }
  }

  /** The flat pass and the reading from the other end give the same blocks. */
  lemma {:induction false} FlatPassIsBlocksOf(lines: seq<Plain>)
    ensures FlatPass([], lines) == BlocksOf(lines)
  {
    FlatPassFrom([], lines);
    assert [] + BlocksOf(lines) == BlocksOf(lines);
  }

  // ---- Includes ------------------------------------------------------------

  /** The user's files. Only readable regular files of at most 1 MiB count, nk's
      own file is in `own`, and `glob` resolves one Include argument. */
  datatype Disk = Disk(files: map<string, string>, own: set<string>, glob: string -> seq<string>)

  function Parsed(lines: seq<string>): (ls: seq<Line>)
    ensures |ls| == |lines|
  {
    seq(|lines|, i requires 0 <= i < |lines| => LineOf(lines[i]))
  }

  /** What a reading inlines: the lines, the files read so far, and the depth at
      which each file was read. */
  datatype Inlined = Inlined(lines: seq<Plain>, files: nat, depths: seq<nat>)

  function Then(a: Inlined, b: Inlined): Inlined {
    Inlined(a.lines + b.lines, b.files, a.depths + b.depths)
  }

  predicate Skipped(d: Disk, file: string, depth: nat, files: nat) {
    depth > MAX_INCLUDE_DEPTH || files >= MAX_OWN_FILES || file in d.own || file !in d.files
  }

  function InlineFile(d: Disk, file: string, depth: nat, files: nat): Inlined
    requires depth <= MAX_INCLUDE_DEPTH + 1
    decreases MAX_INCLUDE_DEPTH + 1 - depth, 3, 0
  {
    if Skipped(d, file, depth, files) then Inlined([], files, [])
    else
      Then(Inlined([], files, [depth]), InlineLines(d, Parsed(Split(d.files[file], '\n')), depth, files + 1))
  }

  function InlineLines(d: Disk, lines: seq<Line>, depth: nat, files: nat): Inlined
    requires depth <= MAX_INCLUDE_DEPTH
    decreases MAX_INCLUDE_DEPTH + 1 - depth, 2, |lines|
  {
    if lines == [] then Inlined([], files, [])
    else
      var first := InlineLine(d, lines[0], depth, files);
      Then(first, InlineLines(d, lines[1..], depth, first.files))
  }

  function InlineLine(d: Disk, l: Line, depth: nat, files: nat): Inlined
    requires depth <= MAX_INCLUDE_DEPTH
    decreases MAX_INCLUDE_DEPTH + 1 - depth, 1, |l.args| + 1
  {
    if l.key == "host" then Inlined([Opens(LowerAll(l.args))], files, [])
    else if l.key == "match" then Inlined([Opens(MatchHostsFrom(l.args, 0))], files, [])
    else if l.key == "hostname" || l.key == "proxyjump" || l.key == "proxycommand"
    then Inlined([Destination], files, [])
    else if l.key == "include" then InlineArgs(d, l.args, depth, files)
    else Inlined([], files, [])
  }

  function InlineArgs(d: Disk, args: seq<string>, depth: nat, files: nat): Inlined
    requires depth <= MAX_INCLUDE_DEPTH
    decreases MAX_INCLUDE_DEPTH + 1 - depth, 1, |args|
  {
    if args == [] then Inlined([], files, [])
    else
      var first := InlinePaths(d, d.glob(args[0]), depth, files);
      Then(first, InlineArgs(d, args[1..], depth, first.files))
  }

  function InlinePaths(d: Disk, paths: seq<string>, depth: nat, files: nat): Inlined
    requires depth <= MAX_INCLUDE_DEPTH
    decreases MAX_INCLUDE_DEPTH + 1 - depth, 0, |paths|
  {
    if paths == [] then Inlined([], files, [])
    else
      var first := InlineFile(d, paths[0], depth + 1, files);
      Then(first, InlinePaths(d, paths[1..], depth, first.files))
  }

  ghost predicate Within(r: Inlined, depth: nat, files: nat) {
    && r.files == files + |r.depths|
    && (files <= MAX_OWN_FILES ==> r.files <= MAX_OWN_FILES)
    && (forall i :: 0 <= i < |r.depths| ==> depth <= r.depths[i] <= MAX_INCLUDE_DEPTH)
  }

  lemma {:induction false} FileWithin(d: Disk, file: string, depth: nat, files: nat)
    requires depth <= MAX_INCLUDE_DEPTH + 1
    ensures Within(InlineFile(d, file, depth, files), depth, files)
    decreases MAX_INCLUDE_DEPTH + 1 - depth, 3, 0
  {
    if !Skipped(d, file, depth, files) {
      LinesWithin(d, Parsed(Split(d.files[file], '\n')), depth, files + 1);
    }
  }

  lemma {:induction false} LinesWithin(d: Disk, lines: seq<Line>, depth: nat, files: nat)
    requires depth <= MAX_INCLUDE_DEPTH
    ensures Within(InlineLines(d, lines, depth, files), depth, files)
    decreases MAX_INCLUDE_DEPTH + 1 - depth, 2, |lines|
  {
    if lines == [] {
    } else {
      var l := lines[0];
      if l.key == "include" {
        ArgsWithin(d, l.args, depth, files);
      }
      LinesWithin(d, lines[1..], depth, InlineLine(d, l, depth, files).files);
    }
  }

  lemma {:induction false} ArgsWithin(d: Disk, args: seq<string>, depth: nat, files: nat)
    requires depth <= MAX_INCLUDE_DEPTH
    ensures Within(InlineArgs(d, args, depth, files), depth, files)
    decreases MAX_INCLUDE_DEPTH + 1 - depth, 1, |args|
  {
    if args == [] {
    } else {
      PathsWithin(d, d.glob(args[0]), depth, files);
      ArgsWithin(d, args[1..], depth, InlinePaths(d, d.glob(args[0]), depth, files).files);
    }
  }

  lemma {:induction false} PathsWithin(d: Disk, paths: seq<string>, depth: nat, files: nat)
    requires depth <= MAX_INCLUDE_DEPTH
    ensures Within(InlinePaths(d, paths, depth, files), depth, files)
    decreases MAX_INCLUDE_DEPTH + 1 - depth, 0, |paths|
  {
    if paths == [] {
    } else {
      FileWithin(d, paths[0], depth + 1, files);
      PathsWithin(d, paths[1..], depth, InlineFile(d, paths[0], depth + 1, files).files);
    }
  }

  /** On any graph of files, cycles included, reading ends, takes at most 256
      files, and nests at most 16 includes deep. */
  lemma {:induction false} ReadingIsBounded(d: Disk, file: string)
    ensures var r := InlineFile(d, file, 0, 0);
            && r.files == |r.depths| <= 256
            && forall i :: 0 <= i < |r.depths| ==> r.depths[i] <= 16
  {
    FileWithin(d, file, 0, 0);
  }
}
