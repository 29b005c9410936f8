/** How the emitted script names files: single-quoted words, and the unquoted
    `$nk_new` that the shell splits into fields (sections 2.2.2 and 2.6.5 of the
    POSIX.1-2017 Shell Command Language). */
module Quoting {
  import opened Text
  import MP = ManualPlan

  function EscapeChar(c: char): string {
    if c == '\'' then "'\\''" else [c]
  }

  /** strings.ReplaceAll(s, "'", `'\''`) */
  function EscapeQuotes(s: string): string {
    if s == [] then [] else EscapeChar(s[0]) + EscapeQuotes(s[1..])
  }

  /** script.go's q. */
  function Q(s: string): string {
    "'" + EscapeQuotes(s) + "'"
  }

  function QuotedList(paths: seq<string>): string {
    Join(seq(|paths|, i requires 0 <= i < |paths| => Q(paths[i])), ' ')
  }

  predicate Blank(c: char) {
    c == ' ' || c == '\t' || c == '\n'
  }

  /** Characters that do more than stand for themselves outside quotes. */
  predicate Active(c: char) {
    c in "|&;<>()$`\"*?[#~=%!{}"
  }

  /** Where the shell is in a word: outside quotes, with the word read so far if
      one was begun, or inside single quotes. */
  datatype Mode = Unquoted(begun: Option<string>) | Quoted(word: string)

  function WithWord(begun: Option<string>, tail: Option<seq<string>>): Option<seq<string>> {
    if begun.None? || tail.None? then tail else Some([begun.value] + tail.value)
  }

  function WordOf(begun: Option<string>): string {
    if begun.None? then "" else begun.value
  }

  /** The words of a simple command line. None when a quote is left open, a
      backslash ends the text, or something other than plain text is unquoted. */
  function Words(text: string, mode: Mode): Option<seq<string>>
    decreases |text|
  {
    if text == [] then
      if mode.Quoted? then None else WithWord(mode.begun, Some([]))
    else if mode.Quoted? then
      Words(text[1..], if text[0] == '\'' then Unquoted(Some(mode.word)) else Quoted(mode.word + [text[0]]))
    else
      var w := WordOf(mode.begun);
      if text[0] == '\'' then Words(text[1..], Quoted(w))
      else if text[0] == '\\' then
        if |text| == 1 then None else Words(text[2..], Unquoted(Some(w + [text[1]])))
      else if Blank(text[0]) then WithWord(mode.begun, Words(text[1..], Unquoted(None)))
      else if Active(text[0]) then None
      else Words(text[1..], Unquoted(Some(w + [text[0]])))
  }

  lemma {:induction false} CloseQuote(w: string, rest: string)
    ensures Words("'" + rest, Quoted(w)) == Words(rest, Unquoted(Some(w)))
  {
    assert ("'" + rest)[1..] == rest;
  }

  lemma {:induction false} OpenQuote(begun: Option<string>, rest: string)
    ensures Words("'" + rest, Unquoted(begun)) == Words(rest, Quoted(WordOf(begun)))
  {
    assert ("'" + rest)[1..] == rest;
  }

  lemma {:induction false} Backslash(w: string, c: char, rest: string)
    ensures Words(['\\', c] + rest, Unquoted(Some(w))) == Words(rest, Unquoted(Some(w + [c])))
  {
    assert (['\\', c] + rest)[2..] == rest;
  }

  lemma {:induction false} QuotedChar(w: string, c: char, rest: string)
    requires c != '\''
    ensures Words([c] + rest, Quoted(w)) == Words(rest, Quoted(w + [c]))
  {
    assert ([c] + rest)[1..] == rest;
  }

  lemma {:induction false} EscapedChar(c: char, w: string, tail: string)
    ensures Words(EscapeChar(c) + tail, Quoted(w)) == Words(tail, Quoted(w + [c]))
  {
    if c == '\'' {
      assert EscapeChar(c) + tail == "'" + (['\\', '\''] + ("'" + tail));
      CloseQuote(w, ['\\', '\''] + ("'" + tail));
      Backslash(w, '\'', "'" + tail);
      OpenQuote(Some(w + ['\'']), tail);
    } else {
      QuotedChar(w, c, tail);
    }
  }

  lemma {:induction false} QuotedText(s: string, w: string, rest: string)
    ensures Words(EscapeQuotes(s) + "'" + rest, Quoted(w)) == Words(rest, Unquoted(Some(w + s)))
  {
    if s == [] {
      assert EscapeQuotes(s) + "'" + rest == "'" + rest;
      assert w + s == w;
      CloseQuote(w, rest);
    } else {
      var tail := EscapeQuotes(s[1..]) + "'" + rest;
      assert EscapeQuotes(s) + "'" + rest == EscapeChar(s[0]) + tail;
      EscapedChar(s[0], w, tail);
      QuotedText(s[1..], w + [s[0]], rest);
      assert w + [s[0]] + s[1..] == w + s;
    }
  }

  /** The shell reads a quoted string back as the one word it came from. */
  lemma {:induction false} QuoteRoundTrip(s: string)
    ensures Words(Q(s), Unquoted(None)) == Some([s])
  {
    QuotedText(s, "", "");
    assert Q(s) == "'" + (EscapeQuotes(s) + "'" + "");
    OpenQuote(None, EscapeQuotes(s) + "'" + "");
    assert ["" + s] + [] == ["" + s];
    assert "" + s == s;
  }

  lemma {:induction false} QuotedListHead(paths: seq<string>)
    requires |paths| > 1
    ensures QuotedList(paths) == Q(paths[0]) + [' '] + QuotedList(paths[1..])
  {
    var quoted := seq(|paths|, i requires 0 <= i < |paths| => Q(paths[i]));
    assert quoted[1..] == seq(|paths[1..]|, i requires 0 <= i < |paths[1..]| => Q(paths[1..][i]));
  }

  /** The quoted list of a `for` loop splits back into the same paths. */
  lemma {:induction false} QuotedListRoundTrip(paths: seq<string>)
    ensures Words(QuotedList(paths), Unquoted(None)) == Some(paths)
  {
    if paths == [] {
    } else if |paths| == 1 {
      QuoteRoundTrip(paths[0]);
      assert paths == [paths[0]];
    } else {
      var tail := QuotedList(paths[1..]);
      QuotedListHead(paths);
      assert Q(paths[0]) + [' '] + tail == "'" + (EscapeQuotes(paths[0]) + "'" + ([' '] + tail));
      OpenQuote(None, EscapeQuotes(paths[0]) + "'" + ([' '] + tail));
      QuotedText(paths[0], "", [' '] + tail);
      assert "" + paths[0] == paths[0];
      assert ([' '] + tail)[1..] == tail;
      QuotedListRoundTrip(paths[1..]);
      assert paths == [paths[0]] + paths[1..];
    }
  }

  /** The value of nk_new after noting `paths` in turn. */
  function NkNew(paths: seq<string>): string {
    if paths == [] then "" else NkNew(paths[..|paths| - 1]) + " " + paths[|paths| - 1]
  }

  /** Field splitting with the default IFS. `field` is the field being read. */
  function Fields(value: string, field: string): seq<string> {
    if value == [] then (if field == "" then [] else [field])
    else if Blank(value[0]) then (if field == "" then [] else [field]) + Fields(value[1..], "")
    else Fields(value[1..], field + [value[0]])
  }

  predicate BlankFree(s: string) {
    forall i :: 0 <= i < |s| ==> !Blank(s[i])
  }

  lemma {:induction false} FieldsAppend(value: string, field: string, p: string)
    requires p != "" && BlankFree(p)
    ensures Fields(value + " " + p, field) == Fields(value, field) + [p]
  {
    if value == [] {
      var text := " " + p;
      assert value + " " + p == text && text[1..] == p;
      FieldsWord(p, "");
      assert "" + p == p;
    } else {
      var f := if Blank(value[0]) then "" else field + [value[0]];
      FieldsAppend(value[1..], f, p);
      assert (value + " " + p)[1..] == value[1..] + " " + p;
    }
  }

  lemma {:induction false} FieldsWord(p: string, field: string)
    requires BlankFree(p) && field + p != ""
    ensures Fields(p, field) == [field + p]
  {
    if p == [] {
      assert field + p == field;
    } else {
      FieldsWord(p[1..], field + [p[0]]);
      assert field + [p[0]] + p[1..] == field + p;
    }
  }

  lemma {:induction false} FieldsAreWords(value: string, field: string)
    requires BlankFree(field)
    ensures forall f :: f in Fields(value, field) ==> f != "" && BlankFree(f)
  {
    if value == [] {
    } else {
      FieldsAreWords(value[1..], if Blank(value[0]) then "" else field + [value[0]]);
    }
  }

  lemma {:induction false} NotedSplit(paths: seq<string>)
    requires forall p :: p in paths ==> p != "" && BlankFree(p)
    ensures Fields(NkNew(paths), "") == paths
  {
    if paths == [] {
    } else {
      var n := |paths| - 1;
      assert forall p :: p in paths[..n] ==> p in paths;
      NotedSplit(paths[..n]);
      assert paths[n] in paths;
      FieldsAppend(NkNew(paths[..n]), "", paths[n]);
      assert paths == paths[..n] + [paths[n]];
    }
  }

  /** Unquoted $nk_new splits into exactly the noted paths if and only if none
      of them is empty or holds a blank. */
  lemma {:induction false} NkNewSplits(paths: seq<string>)
    ensures Fields(NkNew(paths), "") == paths <==> forall p :: p in paths ==> p != "" && BlankFree(p)
  {
    FieldsAreWords(NkNew(paths), "");
    if forall p :: p in paths ==> p != "" && BlankFree(p) {
      NotedSplit(paths);
    }
  }

  predicate PlainChar(c: char) {
    MP.SafeChar(c) || c == '/'
  }

  lemma {:induction false} PlainCharIsInert(c: char)
    requires PlainChar(c)
    ensures !Blank(c) && !Active(c) && c != '\\' && c != '\''
  {
  }

  predicate PlainText(s: string) {
    forall c :: c in s ==> PlainChar(c)
  }

  lemma {:induction false} FixedPathsPlain()
    ensures PlainText(MP.CA_PATH) && PlainText(MP.DROP_IN_PATH) && PlainText(MP.PRINCIPALS_DIR)
  {
  }

  lemma {:induction false} PrincipalsPathPlain(a: string)
    requires MP.SafeName(a)
    ensures PlainText(MP.PrincipalsPath(a))
  {
    FixedPathsPlain();
    assert PlainText(a);
    forall c | c in MP.PrincipalsPath(a) ensures PlainChar(c) {
      assert c in MP.PRINCIPALS_DIR || c == '/' || c in a;
    }
  }

  /** Every path of a plan is a word of plain characters, so $nk_new keeps it in
      one field and it survives pathname expansion and double quotes. */
  lemma {:induction false} PlanPathsArePlain(caKey: string, grants: map<string, seq<string>>, h: MP.Host, k: nat)
    requires forall a :: a in h.accounts ==> MP.SafeName(a)
    requires k < |MP.PlanOf(caKey, grants, h).files|
    ensures var path := MP.PlanOf(caKey, grants, h).files[k].path;
            path != "" && BlankFree(path) && PlainText(path)
  {
    var path := MP.PlanOf(caKey, grants, h).files[k].path;
    if k >= 2 {
      assert h.accounts[k - 2] in h.accounts;
      PrincipalsPathPlain(h.accounts[k - 2]);
    } else {
      FixedPathsPlain();
    }
    forall i | 0 <= i < |path| ensures !Blank(path[i]) {
      assert path[i] in path;
      PlainCharIsInert(path[i]);
    }
  }
}
