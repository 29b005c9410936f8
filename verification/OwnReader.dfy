/** ownReader: the blocks are objects that the reader goes on changing through
    `cur` while it is inside other files. */
module OwnReader {
  import opened Text
  import opened OwnLine
  import opened OwnConfig

  class OwnBlock {
    const patterns: seq<string>
    var dest: bool

    constructor (patterns: seq<string>)
      ensures this.patterns == patterns && !dest
    {
      this.patterns := patterns;
      dest := false;
    }
  }

  class Reader {
    var blocks: seq<OwnBlock>
    var cur: OwnBlock?
    var files: nat

    /** The active block is always the last one, and no block is there twice. */
    ghost predicate Valid()
      reads this
    {
      && (forall i, j :: 0 <= i < j < |blocks| ==> blocks[i] != blocks[j])
      && (if blocks == [] then cur == null else cur == blocks[|blocks| - 1])
    }

    /** The blocks as values. */
    ghost function Contents(): (c: seq<Block>)
      reads this, blocks
      ensures |c| == |blocks|
    {
      seq(|blocks|, i requires 0 <= i < |blocks| reads this, blocks => Block(blocks[i].patterns, blocks[i].dest))
    }

    constructor ()
      ensures Valid() && Contents() == [] && files == 0 && blocks == []
    {
      blocks := [];
      cur := null;
      files := 0;
    }

    method Open(patterns: seq<string>)
      requires Valid()
      modifies this
      ensures Valid() && files == old(files)
      ensures Contents() == Apply(old(Contents()), Opens(patterns))
      ensures forall b :: b in blocks ==> b in old(blocks) || fresh(b)
    {
      cur := new OwnBlock(patterns);
      blocks := blocks + [cur];
    }

    method MarkDest()
      requires Valid()
      modifies this, blocks
      ensures Valid() && files == old(files) && blocks == old(blocks)
      ensures Contents() == Apply(old(Contents()), Destination)
    {
      if cur != null {
        cur.dest := true;
      }
    }

    /** read: what it does to the blocks is the flat pass over the inlined lines. */
    method Read(d: Disk, file: string, depth: nat)
      requires Valid() && depth <= MAX_INCLUDE_DEPTH + 1
      modifies this, blocks
      ensures Valid() && (forall b :: b in blocks ==> b in old(blocks) || fresh(b))
      ensures var whole := InlineFile(d, file, depth, old(files));
              files == whole.files && Contents() == FlatPass(old(Contents()), whole.lines)
      decreases MAX_INCLUDE_DEPTH + 1 - depth, 4
    {
      if depth > MAX_INCLUDE_DEPTH || files >= MAX_OWN_FILES || file in d.own {
        return;
      }
      if file !in d.files {
        return;
      }
      CountFile();
      ReadLines(d, Split(d.files[file], '\n'), depth);
      ghost var whole := InlineLines(d, Parsed(Split(d.files[file], '\n')), depth, old(files) + 1);
      assert [] + whole.lines == whole.lines;
    }

    method CountFile()
      requires Valid()
      modifies this`files
      ensures Valid() && files == old(files) + 1 && Contents() == old(Contents())
    {
      files := files + 1;
    }

    /** Line by line. */
    method ReadLines(d: Disk, lines: seq<string>, depth: nat)
      requires Valid() && depth <= MAX_INCLUDE_DEPTH
      modifies this, blocks
      ensures Valid() && (forall b :: b in blocks ==> b in old(blocks) || fresh(b))
      ensures var whole := InlineLines(d, Parsed(lines), depth, old(files));
              files == whole.files && Contents() == FlatPass(old(Contents()), whole.lines)
      decreases MAX_INCLUDE_DEPTH + 1 - depth, 3
    {
      ghost var start := Contents();
      ghost var ls := Parsed(lines);
      ghost var whole := InlineLines(d, ls, depth, files);
      for i := 0 to |lines|
        invariant Valid() && (forall b :: b in blocks ==> b in old(blocks) || fresh(b))
        invariant var rest := InlineLines(d, ls[i..], depth, files);
                  whole.files == rest.files && FlatPass(start, whole.lines) == FlatPass(Contents(), rest.lines)
      {
        LinesHead(d, ls, i, depth, files, Contents());
        assert forall k :: 0 <= k < |blocks| ==> blocks[k] in blocks;
        ReadLine(d, lines[i], depth);
      }
      assert ls[|lines|..] == [];
    }

    /** One line of a file that is being read. */
    method ReadLine(d: Disk, raw: string, depth: nat)
      requires Valid() && depth <= MAX_INCLUDE_DEPTH
      modifies this, blocks
      ensures Valid() && (forall b :: b in blocks ==> b in old(blocks) || fresh(b))
      ensures var whole := InlineLine(d, LineOf(raw), depth, old(files));
              files == whole.files && Contents() == FlatPass(old(Contents()), whole.lines)
      decreases MAX_INCLUDE_DEPTH + 1 - depth, 2
    {
      var l := ConfigLine(raw);
      ghost var start := Contents();
      if l.key == "host" {
        FlatPassOne(start, Opens(LowerAll(l.args)));
        Open(LowerAll(l.args));
      } else if l.key == "match" {
        var patterns := MatchHosts(l.args);
        FlatPassOne(start, Opens(patterns));
        Open(patterns);
      } else if l.key == "hostname" || l.key == "proxyjump" || l.key == "proxycommand" {
        FlatPassOne(start, Destination);
        MarkDest();
      } else if l.key == "include" {
        Include(d, l.args, depth);
      }
    }

    /** An Include line: each argument is a glob, each match is read in turn. */
    method Include(d: Disk, args: seq<string>, depth: nat)
      requires Valid() && depth <= MAX_INCLUDE_DEPTH
      modifies this, blocks
      ensures Valid() && (forall b :: b in blocks ==> b in old(blocks) || fresh(b))
      ensures var whole := InlineArgs(d, args, depth, old(files));
              files == whole.files && Contents() == FlatPass(old(Contents()), whole.lines)
      decreases MAX_INCLUDE_DEPTH + 1 - depth, 1
    {
      ghost var whole := InlineArgs(d, args, depth, files);
      ghost var start := Contents();
      for a := 0 to |args|
        invariant Valid() && (forall b :: b in blocks ==> b in old(blocks) || fresh(b))
        invariant var rest := InlineArgs(d, args[a..], depth, files);
                  whole.files == rest.files && FlatPass(start, whole.lines) == FlatPass(Contents(), rest.lines)
      {
        ArgsHead(d, args, a, depth, files, Contents());
        assert forall k :: 0 <= k < |blocks| ==> blocks[k] in blocks;
        IncludeFiles(d, d.glob(args[a]), depth);
      }
      assert args[|args|..] == [];
    }

    method IncludeFiles(d: Disk, paths: seq<string>, depth: nat)
      requires Valid() && depth <= MAX_INCLUDE_DEPTH
      modifies this, blocks
      ensures Valid() && (forall b :: b in blocks ==> b in old(blocks) || fresh(b))
      ensures var whole := InlinePaths(d, paths, depth, old(files));
              files == whole.files && Contents() == FlatPass(old(Contents()), whole.lines)
      decreases MAX_INCLUDE_DEPTH + 1 - depth, 0
    {
      ghost var whole := InlinePaths(d, paths, depth, files);
      ghost var start := Contents();
      for p := 0 to |paths|
        invariant Valid() && (forall b :: b in blocks ==> b in old(blocks) || fresh(b))
        invariant var rest := InlinePaths(d, paths[p..], depth, files);
                  whole.files == rest.files && FlatPass(start, whole.lines) == FlatPass(Contents(), rest.lines)
      {
        PathsHead(d, paths, p, depth, files, Contents());
        assert forall k :: 0 <= k < |blocks| ==> blocks[k] in blocks;
        Read(d, paths[p], depth + 1);
      }
      assert paths[|paths|..] == [];
    }
  }

  lemma {:induction false} LinesHead(d: Disk, lines: seq<Line>, i: nat, depth: nat, files: nat, c: seq<Block>)
    requires i < |lines| && depth <= MAX_INCLUDE_DEPTH
    ensures var rest := InlineLines(d, lines[i..], depth, files);
            var first := InlineLine(d, lines[i], depth, files);
            var next := InlineLines(d, lines[i + 1..], depth, first.files);
            rest.files == next.files && FlatPass(c, rest.lines) == FlatPass(FlatPass(c, first.lines), next.lines)
  {
    assert lines[i..][1..] == lines[i + 1..];
    var first := InlineLine(d, lines[i], depth, files);
    FlatPassAppend(c, first.lines, InlineLines(d, lines[i + 1..], depth, first.files).lines);
  }

  lemma {:induction false} ArgsHead(d: Disk, args: seq<string>, a: nat, depth: nat, files: nat, c: seq<Block>)
    requires a < |args| && depth <= MAX_INCLUDE_DEPTH
    ensures var rest := InlineArgs(d, args[a..], depth, files);
            var first := InlinePaths(d, d.glob(args[a]), depth, files);
            var next := InlineArgs(d, args[a + 1..], depth, first.files);
            rest.files == next.files && FlatPass(c, rest.lines) == FlatPass(FlatPass(c, first.lines), next.lines)
  {
    assert args[a..][1..] == args[a + 1..];
    var first := InlinePaths(d, d.glob(args[a]), depth, files);
    FlatPassAppend(c, first.lines, InlineArgs(d, args[a + 1..], depth, first.files).lines);
  }

  lemma {:induction false} PathsHead(d: Disk, paths: seq<string>, p: nat, depth: nat, files: nat, c: seq<Block>)
    requires p < |paths| && depth <= MAX_INCLUDE_DEPTH
    ensures var rest := InlinePaths(d, paths[p..], depth, files);
            var first := InlineFile(d, paths[p], depth + 1, files);
            var next := InlinePaths(d, paths[p + 1..], depth, first.files);
            rest.files == next.files && FlatPass(c, rest.lines) == FlatPass(FlatPass(c, first.lines), next.lines)
  {
    assert paths[p..][1..] == paths[p + 1..];
    var first := InlineFile(d, paths[p], depth + 1, files);
    FlatPassAppend(c, first.lines, InlinePaths(d, paths[p + 1..], depth, first.files).lines);
  }

  lemma {:induction false} FlatPassOne(blocks: seq<Block>, p: Plain)
    ensures FlatPass(blocks, [p]) == Apply(blocks, p)
  {
    assert [p][..0] == [];
    assert FlatPass(blocks, []) == blocks;
  }

  /** readOwnHosts: the user's config, read from the top. */
  method ReadOwnHosts(d: Disk, userConfig: string) returns (r: Reader)
    ensures r.Valid() && fresh(r)
    ensures r.Contents() == FlatPass([], InlineFile(d, userConfig, 0, 0).lines)
    ensures r.files <= MAX_OWN_FILES
  {
    r := new Reader();
    r.Read(d, userConfig, 0);
    ReadingIsBounded(d, userConfig);
  }
}
