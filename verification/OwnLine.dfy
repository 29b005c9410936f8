/** One line of an ssh config: the tokenizer, and what it makes of every line as
    it may be written. */
module OwnLine {
  import opened Text

  predicate Space(c: char) {
    c == ' ' || c == '\t'
  }

  function TrimLeftSpace(s: string): (r: string)
    ensures |r| <= |s|
  {
    if s != [] && Space(s[0]) then TrimLeftSpace(s[1..]) else s
  }

  /** Where the keyword ends: at a blank or an equals sign. */
  function KeyLength(line: string): (n: nat)
    ensures n <= |line|
    ensures forall i :: 0 <= i < n ==> !Space(line[i]) && line[i] != '='
    ensures n < |line| ==> Space(line[n]) || line[n] == '='
  {
    if line == [] || Space(line[0]) || line[0] == '=' then 0 else 1 + KeyLength(line[1..])
  }

  /** What follows the keyword, without the one equals sign ssh allows there. */
  function AfterKey(line: string): string {
    var rest := TrimLeftSpace(line[KeyLength(line)..]);
    if rest != [] && rest[0] == '=' then rest[1..] else rest
  }

  /** The arguments read from `rest`, having read `args` and, when `begun`, part
      of one more. A blank is added at the end, so the last argument is closed. */
  function Args(rest: string, quoted: bool, begun: bool, arg: string): seq<string>
    decreases |rest|
  {
    if rest == [] then (if begun && !quoted then [arg] else [])
    else if rest[0] == '"' then Args(rest[1..], !quoted, true, arg)
    else if quoted || (!Space(rest[0]) && rest[0] != '#') then Args(rest[1..], quoted, true, arg + [rest[0]])
    else
      (if begun then [arg] else []) + (if rest[0] == '#' then [] else Args(rest[1..], false, false, []))
  }

  datatype Line = Line(key: string, args: seq<string>)

  function LineOf(raw: string): Line {
    var line := TrimSpace(raw);
    if line == [] || line[0] == '#' then Line("", [])
    else Line(ToLower(line[..KeyLength(line)]), Args(AfterKey(line), false, false, []))
  }

  method ConfigLine(raw: string) returns (l: Line)
    ensures l == LineOf(raw)
  {
    var line := TrimSpace(raw);
    if line == "" || line[0] == '#' {
      return Line("", []);
    }
    var args := ReadArgs(AfterKey(line));
    l := Line(ToLower(line[..KeyLength(line)]), args);
  }

  method ReadArgs(rest: string) returns (args: seq<string>)
    ensures args == Args(rest, false, false, [])
  {
    args := [];
    var arg: string := [];
    var quoted, begun := false, false;
    for i := 0 to |rest|
      invariant begun || (arg == [] && !quoted)
      invariant args + Args(rest[i..], quoted, begun, arg) == Args(rest, false, false, [])
    {
      var c := rest[i];
      assert rest[i..][1..] == rest[i + 1..];
      if c == '"' {
        quoted, begun := !quoted, true;
      } else if quoted || (!Space(c) && c != '#') {
        arg := arg + [c];
        begun := true;
      } else {
        if begun {
          args := args + [arg];
          arg := [];
          begun := false;
        }
        if c == '#' {
          return;
        }
      }
    }
    if begun && !quoted {
      args := args + [arg];
    }
  }

  // ---- Lines as they are written -------------------------------------------

  /** Part of a word: plain characters, or text in double quotes. */
  datatype Piece = Bare(text: string) | InQuotes(text: string)

  type Word = seq<Piece>

  /** A word with the blanks in front of it. */
  datatype Spaced = Spaced(gap: string, word: Word)

  /** How a line ends: with blanks, with a comment, or in a quote that is never closed. */
  datatype Tail =
    | Blanks(gap: string)
    | Comment(gap: string, text: string)
    | Unclosed(gap: string, word: Word, text: string)

  predicate BareChar(c: char) {
    !IsSpace(c) && c != '"' && c != '#'
  }

  predicate PieceOk(p: Piece) {
    match p
    case Bare(text) => text != [] && forall i :: 0 <= i < |text| ==> BareChar(text[i])
    case InQuotes(text) => '"' !in text
  }

  predicate WordOk(w: Word) {
    w != [] && forall i :: 0 <= i < |w| ==> PieceOk(w[i])
  }

  predicate AllBlank(s: string) {
    forall i :: 0 <= i < |s| ==> Space(s[i])
  }

  /** Words are set apart by any positive number of blanks. */
  predicate WordsOk(ws: seq<Spaced>) {
    && (forall i :: 0 <= i < |ws| ==> AllBlank(ws[i].gap) && WordOk(ws[i].word))
    && (forall i :: 0 < i < |ws| ==> ws[i].gap != [])
  }

  predicate TailOk(t: Tail) {
    && AllBlank(t.gap)
    && (t.Unclosed? ==> t.gap != [] && '"' !in t.text && (t.word == [] || WordOk(t.word)))
  }

  function PieceText(p: Piece): string {
    match p
    case Bare(text) => text
    case InQuotes(text) => "\"" + text + "\""
  }

  function WordText(w: Word): string {
    if w == [] then [] else PieceText(w[0]) + WordText(w[1..])
  }

  /** What a word stands for: its text without the quotes. */
  function WordValue(w: Word): string {
    if w == [] then [] else w[0].text + WordValue(w[1..])
  }

  function WordsText(ws: seq<Spaced>): string {
    if ws == [] then [] else ws[0].gap + WordText(ws[0].word) + WordsText(ws[1..])
  }

  function Values(ws: seq<Spaced>): seq<string> {
    seq(|ws|, i requires 0 <= i < |ws| => WordValue(ws[i].word))
  }

  function TailText(t: Tail): string {
    match t
    case Blanks(gap) => gap
    case Comment(gap, text) => gap + ("#" + text)
    case Unclosed(gap, word, text) => (gap + WordText(word)) + ("\"" + text)
  }

  lemma {:induction false} BareArgs(t: string, rest: string, begun: bool, arg: string)
    requires t != [] && forall i :: 0 <= i < |t| ==> BareChar(t[i])
    ensures Args(t + rest, false, begun, arg) == Args(rest, false, true, arg + t)
  {
    assert (t + rest)[1..] == t[1..] + rest && BareChar(t[0]);
    if |t| == 1 {
      assert t[1..] + rest == rest && arg + t == arg + [t[0]];
    } else {
      BareArgs(t[1..], rest, true, arg + [t[0]]);
      assert arg + [t[0]] + t[1..] == arg + t;
    }
  }

  lemma {:induction false} QuotedArg(a: string, arg: string, rest: string)
    requires '"' !in a
    ensures Args(a + "\"" + rest, true, true, arg) == Args(rest, false, true, arg + a)
  {
    if a == [] {
      assert a + "\"" + rest == "\"" + rest && ("\"" + rest)[1..] == rest;
      assert arg + a == arg;
    } else {
      var text := a + "\"" + rest;
      assert text[1..] == a[1..] + "\"" + rest && text[0] == a[0];
      QuotedArg(a[1..], arg + [a[0]], rest);
      assert arg + [a[0]] + a[1..] == arg + a;
    }
  }

  lemma {:induction false} PieceArgs(p: Piece, rest: string, begun: bool, arg: string)
    requires PieceOk(p)
    ensures Args(PieceText(p) + rest, false, begun, arg) == Args(rest, false, true, arg + p.text)
  {
    match p
    case Bare(text) => BareArgs(text, rest, begun, arg);
    case InQuotes(text) =>
      assert PieceText(p) + rest == ['"'] + (text + "\"" + rest);
      assert (['"'] + (text + "\"" + rest))[1..] == text + "\"" + rest;
      QuotedArg(text, arg, rest);
  }

  lemma {:induction false} WordArgs(w: Word, rest: string, begun: bool, arg: string)
    requires WordOk(w)
    ensures Args(WordText(w) + rest, false, begun, arg) == Args(rest, false, true, arg + WordValue(w))
  {
    var tail := WordText(w[1..]) + rest;
    assert WordText(w) + rest == PieceText(w[0]) + tail;
    PieceArgs(w[0], tail, begun, arg);
    if |w| == 1 {
      assert tail == rest && WordValue(w) == w[0].text + [];
      assert w[0].text + [] == w[0].text;
    } else {
      WordArgs(w[1..], rest, true, arg + w[0].text);
      assert arg + w[0].text + WordValue(w[1..]) == arg + WordValue(w);
    }
  }

  lemma {:induction false} BlankArgs(gap: string, rest: string, begun: bool, arg: string)
    requires AllBlank(gap)
    ensures Args(gap + rest, false, begun, arg)
         == if gap == [] then Args(rest, false, begun, arg)
            else (if begun then [arg] else []) + Args(rest, false, false, [])
  {
    if gap == [] {
      assert gap + rest == rest;
    } else {
      assert Space(gap[0]) && (gap + rest)[1..] == gap[1..] + rest;
      BlankArgs(gap[1..], rest, false, []);
      assert [] + Args(rest, false, false, []) == Args(rest, false, false, []);
    }
  }

  lemma {:induction false} OpenQuoteArgs(text: string, arg: string)
    requires '"' !in text
    ensures Args(text, true, true, arg) == []
  {
    if text == [] {
    } else {
      OpenQuoteArgs(text[1..], arg + [text[0]]);
    }
  }

  lemma {:induction false} Assoc(a: string, b: string, c: string)
    ensures (a + b) + c == a + (b + c)
  {
  }

  lemma {:induction false} UnclosedArgs(word: Word, text: string)
    requires '"' !in text && (word == [] || WordOk(word))
    ensures Args(WordText(word) + ("\"" + text), false, false, []) == []
  {
    assert ("\"" + text)[1..] == text;
    if word == [] {
      assert WordText(word) + ("\"" + text) == "\"" + text;
      OpenQuoteArgs(text, []);
    } else {
      WordArgs(word, "\"" + text, false, []);
      OpenQuoteArgs(text, [] + WordValue(word));
    }
  }

  /** A comment and an unclosed quote add nothing, and close the word before. */
  lemma {:induction false} TailArgs(t: Tail, begun: bool, arg: string)
    requires TailOk(t) && (begun || arg == [])
    ensures Args(TailText(t), false, begun, arg) == if begun then [arg] else []
  {
    match t
    case Blanks(gap) =>
      assert gap + [] == gap;
      BlankArgs(gap, [], begun, arg);
    case Comment(gap, text) =>
      BlankArgs(gap, "#" + text, begun, arg);
    case Unclosed(gap, word, text) =>
      Assoc(gap, WordText(word), "\"" + text);
      BlankArgs(gap, WordText(word) + ("\"" + text), begun, arg);
      UnclosedArgs(word, text);
  }

  lemma {:induction false} FirstWordArgs(s: Spaced, rest: string, begun: bool, arg: string)
    requires AllBlank(s.gap) && WordOk(s.word) && (begun ==> s.gap != []) && (begun || arg == [])
    ensures Args(s.gap + (WordText(s.word) + rest), false, begun, arg)
         == (if begun then [arg] else []) + Args(rest, false, true, WordValue(s.word))
  {
    BlankArgs(s.gap, WordText(s.word) + rest, begun, arg);
    WordArgs(s.word, rest, false, []);
    assert [] + WordValue(s.word) == WordValue(s.word);
  }

  lemma {:induction false} WordsTextHead(ws: seq<Spaced>, tail: string)
    requires ws != []
    ensures WordsText(ws) + tail == ws[0].gap + (WordText(ws[0].word) + (WordsText(ws[1..]) + tail))
  {
  }

  lemma {:induction false} WordsOkTail(ws: seq<Spaced>)
    requires WordsOk(ws) && ws != []
    ensures WordsOk(ws[1..]) && AllBlank(ws[0].gap) && WordOk(ws[0].word)
    ensures ws[1..] != [] ==> ws[1..][0].gap != []
  {
    assert forall i :: 0 <= i < |ws| - 1 ==> ws[1..][i] == ws[i + 1];
  }

  lemma {:induction false} ValuesHead(ws: seq<Spaced>)
    requires ws != []
    ensures Values(ws) == [WordValue(ws[0].word)] + Values(ws[1..])
  {
  }

  lemma {:induction false} WordsArgs(ws: seq<Spaced>, t: Tail, begun: bool, arg: string)
    requires WordsOk(ws) && TailOk(t) && (begun && ws != [] ==> ws[0].gap != []) && (begun || arg == [])
    ensures Args(WordsText(ws) + TailText(t), false, begun, arg) == (if begun then [arg] else []) + Values(ws)
  {
    if ws == [] {
      assert WordsText(ws) + TailText(t) == TailText(t);
      TailArgs(t, begun, arg);
    } else {
      WordsTextHead(ws, TailText(t));
      WordsOkTail(ws);
      FirstWordArgs(ws[0], WordsText(ws[1..]) + TailText(t), begun, arg);
      WordsArgs(ws[1..], t, true, WordValue(ws[0].word));
      ValuesHead(ws);
    }
  }

  /** Arguments are read back as they are written, whatever is quoted and however
      they are set apart, without what ends the line. */
  lemma {:induction false} ArgumentsRead(ws: seq<Spaced>, t: Tail)
    requires WordsOk(ws) && TailOk(t)
    ensures Args(WordsText(ws) + TailText(t), false, false, []) == Values(ws)
  {
    WordsArgs(ws, t, false, []);
    assert [] + Values(ws) == Values(ws);
  }

  predicate KeyChar(c: char) {
    !IsSpace(c) && c != '=' && c != '#' && c != '"'
  }

  lemma {:induction false} KeyEnds(key: string, rest: string)
    requires forall i :: 0 <= i < |key| ==> KeyChar(key[i])
    requires rest == [] || Space(rest[0]) || rest[0] == '='
    ensures KeyLength(key + rest) == |key|
  {
    if key == [] {
      assert key + rest == rest;
    } else {
      assert KeyChar(key[0]);
      assert (key + rest)[1..] == key[1..] + rest;
      KeyEnds(key[1..], rest);
    }
  }

  /** What stands between the keyword and the words: nothing but their own blanks,
      or one equals sign after any blanks. */
  datatype Sep = NoSign | Sign(gap: string)

  function SepText(sep: Sep): string {
    match sep
    case NoSign => ""
    case Sign(gap) => gap + "="
  }

  predicate StartsWithSign(w: Word) {
    WordText(w) != [] && WordText(w)[0] == '='
  }

  /** Without the sign a blank has to follow the keyword, unless the line ends
      there, and what comes then must not look like the sign. */
  predicate SepOk(sep: Sep, ws: seq<Spaced>, t: Tail) {
    match sep
    case Sign(gap) => AllBlank(gap)
    case NoSign =>
      if ws != [] then ws[0].gap != [] && !StartsWithSign(ws[0].word)
      else t == Blanks([]) || (t.gap != [] && (t.Unclosed? ==> !StartsWithSign(t.word)))
  }

  /** The same of the text after the keyword. */
  predicate TextFollows(sep: Sep, rest: string) {
    match sep
    case Sign(gap) => AllBlank(gap)
    case NoSign =>
      rest == [] || (Space(rest[0]) && (TrimLeftSpace(rest) != [] ==> TrimLeftSpace(rest)[0] != '='))
  }

  lemma {:induction false} TrimBlanks(gap: string, rest: string)
    requires AllBlank(gap) && (rest == [] || !Space(rest[0]))
    ensures TrimLeftSpace(gap + rest) == rest
  {
    if gap == [] {
      assert gap + rest == rest;
    } else {
      assert (gap + rest)[1..] == gap[1..] + rest && Space(gap[0]);
      TrimBlanks(gap[1..], rest);
    }
  }

  lemma {:induction false} WordStarts(w: Word)
    requires WordOk(w)
    ensures WordText(w) != [] && !Space(WordText(w)[0])
  {
    assert w[0].Bare? ==> BareChar(w[0].text[0]);
  }

  lemma {:induction false} GapFollows(gap: string, rest: string)
    requires AllBlank(gap) && gap != [] && (rest == [] || (!Space(rest[0]) && rest[0] != '='))
    ensures TextFollows(NoSign, gap + rest)
  {
    TrimBlanks(gap, rest);
  }

  lemma {:induction false} UnclosedFollows(gap: string, word: Word, text: string)
    requires AllBlank(gap) && gap != [] && (word == [] || (WordOk(word) && !StartsWithSign(word)))
    ensures TextFollows(NoSign, (gap + WordText(word)) + ("\"" + text))
  {
    if word != [] {
      WordStarts(word);
    }
    Assoc(gap, WordText(word), "\"" + text);
    GapFollows(gap, WordText(word) + ("\"" + text));
  }

  lemma {:induction false} WordsFollow(ws: seq<Spaced>, tail: string)
    requires WordsOk(ws) && ws != [] && ws[0].gap != [] && !StartsWithSign(ws[0].word)
    ensures TextFollows(NoSign, WordsText(ws) + tail)
  {
    WordStarts(ws[0].word);
    WordsTextHead(ws, tail);
    GapFollows(ws[0].gap, WordText(ws[0].word) + (WordsText(ws[1..]) + tail));
  }

  lemma {:induction false} TailFollows(t: Tail)
    requires TailOk(t) && SepOk(NoSign, [], t)
    ensures TextFollows(NoSign, TailText(t))
  {
    match t
    case Blanks(gap) =>
      if gap != [] {
        assert gap + [] == gap;
        GapFollows(gap, []);
      }
    case Comment(gap, text) => GapFollows(gap, "#" + text);
    case Unclosed(gap, word, text) => UnclosedFollows(gap, word, text);
  }

  lemma {:induction false} SepFits(sep: Sep, ws: seq<Spaced>, t: Tail)
    requires WordsOk(ws) && TailOk(t) && SepOk(sep, ws, t)
    ensures TextFollows(sep, WordsText(ws) + TailText(t))
  {
    if sep.NoSign? {
      if ws == [] {
        assert WordsText(ws) + TailText(t) == TailText(t);
        TailFollows(t);
      } else {
        WordsFollow(ws, TailText(t));
      }
    }
  }

  lemma {:induction false} TrimmedArgs(rest: string)
    ensures Args(TrimLeftSpace(rest), false, false, []) == Args(rest, false, false, [])
  {
    if rest != [] && Space(rest[0]) {
      TrimmedArgs(rest[1..]);
      assert [] + Args(rest[1..], false, false, []) == Args(rest[1..], false, false, []);
    }
  }

  lemma {:induction false} AfterKeyArgs(key: string, sep: Sep, rest: string)
    requires (forall i :: 0 <= i < |key| ==> KeyChar(key[i])) && TextFollows(sep, rest)
    ensures var line := key + (SepText(sep) + rest);
            && line[..KeyLength(line)] == key
            && Args(AfterKey(line), false, false, []) == Args(rest, false, false, [])
  {
    var after := SepText(sep) + rest;
    var line := key + after;
    match sep {
      case NoSign =>
        assert after == rest;
        TrimmedArgs(rest);
      case Sign(gap) =>
        assert after == gap + ("=" + rest) && ("=" + rest)[1..] == rest;
        assert gap != [] ==> after[0] == gap[0];
        TrimBlanks(gap, "=" + rest);
    }
    KeyEnds(key, after);
    assert line[..|key|] == key && line[|key|..] == after;
  }

  lemma {:induction false} TrimLeftLead(lead: string, body: string)
    requires (forall i :: 0 <= i < |lead| ==> IsSpace(lead[i])) && body != [] && !IsSpace(body[0])
    ensures TrimLeft(lead + body) == body
  {
    if lead == [] {
      assert lead + body == body;
    } else {
      assert (lead + body)[1..] == lead[1..] + body;
      TrimLeftLead(lead[1..], body);
    }
  }

  lemma {:induction false} TrimRightKeeps(body: string, rest: string)
    requires body != [] && !IsSpace(body[|body| - 1])
    ensures TrimRight(body + rest) == body + TrimRight(rest)
  {
    if rest == [] {
      assert body + rest == body;
    } else if IsSpace(rest[|rest| - 1]) {
      assert (body + rest)[..|body + rest| - 1] == body + rest[..|rest| - 1];
      TrimRightKeeps(body, rest[..|rest| - 1]);
    }
  }

  lemma {:induction false} TrimRightAll(s: string)
    requires forall i :: 0 <= i < |s| ==> IsSpace(s[i])
    ensures TrimRight(s) == []
  {
    if s == [] {
    } else {
      TrimRightAll(s[..|s| - 1]);
    }
  }

  lemma {:induction false} WordEnds(w: Word)
    requires WordOk(w)
    ensures WordText(w) != [] && !IsSpace(WordText(w)[|WordText(w)| - 1])
  {
    if |w| == 1 {
      assert w[0].Bare? ==> BareChar(w[0].text[|w[0].text| - 1]);
    } else {
      WordEnds(w[1..]);
    }
  }

  lemma {:induction false} WordsEnd(ws: seq<Spaced>)
    requires WordsOk(ws) && ws != []
    ensures WordsText(ws) != [] && !IsSpace(WordsText(ws)[|WordsText(ws)| - 1])
  {
    if |ws| == 1 {
      WordEnds(ws[0].word);
    } else {
      assert forall i :: 0 <= i < |ws| - 1 ==> ws[1..][i] == ws[i + 1];
      WordsEnd(ws[1..]);
    }
  }

  predicate White(s: string) {
    forall i :: 0 <= i < |s| ==> IsSpace(s[i])
  }

  /** A tail, and what is left of it once the line is trimmed. */
  predicate Shortened(t: Tail, t': Tail) {
    && TailOk(t')
    && (t' == Blanks([])
        || (t'.gap == t.gap && !t'.Blanks? && (t'.Unclosed? ==> t.Unclosed? && t'.word == t.word)))
  }

  lemma {:induction false} TrimComment(body: string, gap: string, text: string, trail: string)
    ensures TrimRight(body + (gap + ("#" + text) + trail)) == body + (gap + ("#" + TrimRight(text + trail)))
  {
    var head := body + gap + "#";
    assert body + (gap + ("#" + text) + trail) == head + (text + trail);
    TrimRightKeeps(head, text + trail);
    assert head + TrimRight(text + trail) == body + (gap + ("#" + TrimRight(text + trail)));
  }

  lemma {:induction false} TrimUnclosed(body: string, front: string, text: string, trail: string)
    ensures TrimRight(body + (front + ("\"" + text) + trail)) == body + (front + ("\"" + TrimRight(text + trail)))
  {
    var head := body + front + "\"";
    assert body + (front + ("\"" + text) + trail) == head + (text + trail);
    TrimRightKeeps(head, text + trail);
    assert head + TrimRight(text + trail) == body + (front + ("\"" + TrimRight(text + trail)));
  }

  lemma {:induction false} TrimBlankTail(body: string, gap: string, trail: string)
    requires body != [] && !IsSpace(body[|body| - 1]) && AllBlank(gap) && White(trail)
    ensures TrimRight(body + (gap + trail)) == body
  {
    TrimRightKeeps(body, gap + trail);
    TrimRightAll(gap + trail);
    assert body + [] == body;
  }

  lemma {:induction false} QuoteFree(text: string, trail: string)
    requires '"' !in text && White(trail)
    ensures '"' !in TrimRight(text + trail)
  {
    assert '"' !in text + trail;
  }

  /** White space at the end of a line only shortens its tail. */
  lemma {:induction false} TrimTail(body: string, t: Tail, trail: string) returns (t': Tail)
    requires body != [] && !IsSpace(body[|body| - 1]) && TailOk(t) && White(trail)
    ensures Shortened(t, t') && TrimRight(body + (TailText(t) + trail)) == body + TailText(t')
  {
    match t {
      case Blanks(gap) =>
        t' := Blanks([]);
        TrimBlankTail(body, gap, trail);
        assert body + [] == body;
      case Comment(gap, text) =>
        t' := Comment(gap, TrimRight(text + trail));
        TrimComment(body, gap, text, trail);
      case Unclosed(gap, word, text) =>
        t' := Unclosed(gap, word, TrimRight(text + trail));
        QuoteFree(text, trail);
        TrimUnclosed(body, gap + WordText(word), text, trail);
    }
  }

  lemma {:induction false} LineText(lead: string, key: string, sep: string, words: string, tail: string, trail: string)
    ensures lead + (key + (sep + (words + tail))) + trail == lead + ((key + sep + words) + (tail + trail))
    ensures key + (sep + (words + tail)) == (key + sep + words) + tail
  {
  }

  lemma {:induction false} BodyEnds(key: string, sep: Sep, ws: seq<Spaced>)
    requires key != [] && (forall i :: 0 <= i < |key| ==> KeyChar(key[i])) && WordsOk(ws)
    ensures var body := key + SepText(sep) + WordsText(ws);
            body != [] && body[0] == key[0] && !IsSpace(body[0]) && body[0] != '#' && !IsSpace(body[|body| - 1])
  {
    assert KeyChar(key[0]) && KeyChar(key[|key| - 1]);
    if ws != [] {
      WordsEnd(ws);
    }
  }

  /** A whole line is read as it is written: the keyword in lower case, then every
      word, mixed ones included, set apart by any blanks, after a blank or an equals
      sign, whatever white space is around it and whatever ends it. */
  lemma {:induction false} LineReads(lead: string, key: string, sep: Sep, ws: seq<Spaced>, t: Tail, trail: string)
    requires White(lead) && White(trail) && key != [] && forall i :: 0 <= i < |key| ==> KeyChar(key[i])
    requires WordsOk(ws) && TailOk(t) && SepOk(sep, ws, t)
    ensures LineOf(lead + (key + (SepText(sep) + (WordsText(ws) + TailText(t)))) + trail)
         == Line(ToLower(key), Values(ws))
  {
    var body := key + SepText(sep) + WordsText(ws);
    BodyEnds(key, sep, ws);
    var t' := TrimTail(body, t, trail);
    LineTrims(lead, key, sep, ws, t, trail, t');
    TrimmedLine(lead + (key + (SepText(sep) + (WordsText(ws) + TailText(t)))) + trail, key, sep, ws, t');
  }

  lemma {:induction false} LineTrims(lead: string, key: string, sep: Sep, ws: seq<Spaced>, t: Tail, trail: string,
                                     t': Tail)
    requires White(lead)
    requires var body := key + SepText(sep) + WordsText(ws);
             body != [] && !IsSpace(body[0]) && TrimRight(body + (TailText(t) + trail)) == body + TailText(t')
    ensures TrimSpace(lead + (key + (SepText(sep) + (WordsText(ws) + TailText(t)))) + trail)
         == key + (SepText(sep) + (WordsText(ws) + TailText(t')))
  {
    var body := key + SepText(sep) + WordsText(ws);
    LineText(lead, key, SepText(sep), WordsText(ws), TailText(t), trail);
    TrimLeftLead(lead, body + (TailText(t) + trail));
    LineText([], key, SepText(sep), WordsText(ws), TailText(t'), []);
  }

  lemma {:induction false} TrimmedLine(raw: string, key: string, sep: Sep, ws: seq<Spaced>, t: Tail)
    requires key != [] && forall i :: 0 <= i < |key| ==> KeyChar(key[i])
    requires WordsOk(ws) && TailOk(t) && SepOk(sep, ws, t)
    requires TrimSpace(raw) == key + (SepText(sep) + (WordsText(ws) + TailText(t)))
    ensures LineOf(raw) == Line(ToLower(key), Values(ws))
  {
    var rest := WordsText(ws) + TailText(t);
    assert KeyChar(key[0]) && (key + (SepText(sep) + rest))[0] == key[0];
    SepFits(sep, ws, t);
    AfterKeyArgs(key, sep, rest);
    ArgumentsRead(ws, t);
  }

  /** A comment line and a blank one say nothing. */
  lemma {:induction false} SilentLines(lead: string, text: string)
    requires White(lead)
    ensures LineOf(lead) == Line("", []) && LineOf(lead + ("#" + text)) == Line("", [])
  {
    if lead == [] {
    } else {
      WhiteTrims(lead);
    }
    TrimLeftLead(lead, "#" + text);
    TrimRightKeeps("#", text);
    assert TrimSpace(lead + ("#" + text)) == "#" + TrimRight(text);
  }

  lemma {:induction false} WhiteTrims(s: string)
    requires White(s)
    ensures TrimSpace(s) == ""
  {
    if s == [] {
    } else {
      WhiteTrims(s[1..]);
    }
  }
}
