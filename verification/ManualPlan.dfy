/** Reading a daemonless host and planning what a sync writes there. */
module ManualPlan {
  import opened Text
  import opened Sorting
  import opened Shell
  import MS = ManualScript

  const CA_PATH := "/etc/ssh/nokku_ca.pub"
  const PRINCIPALS_DIR := "/etc/ssh/nokku_principals"
  const DROP_IN_PATH := "/etc/ssh/sshd_config.d/60-nokku.conf"
  const MAX_LOCAL_ACCOUNTS := 200

  const SECTION_PASSWD := "#nk passwd"
  const SECTION_HOST_KEY := "#nk hostkey"
  const SECTION_PRINCIPALS := "#nk principals"

  const DROP_IN_CONTENT :=
    "TrustedUserCAKeys " + CA_PATH + "\nAuthorizedPrincipalsFile " + PRINCIPALS_DIR + "/%u\n"

  datatype Host = Host(accounts: seq<string>, hostKey: string, principals: seq<string>)

  datatype File = File(path: string, content: string)

  datatype Plan = Plan(files: seq<File>, stale: seq<string>)

  // ---- Accounts ------------------------------------------------------------

  predicate SafeChar(c: char) {
    'a' <= c <= 'z' || 'A' <= c <= 'Z' || '0' <= c <= '9' || c == '_' || c == '-' || c == '.'
  }

  predicate SafeName(name: string) {
    name != [] && name[0] != '.' && name[0] != '-' && forall i :: 0 <= i < |name| ==> SafeChar(name[i])
  }

  predicate NoLoginShell(shell: string) {
    HasSuffix(shell, "nologin") || HasSuffix(shell, "false") || HasSuffix(shell, "sync")
  }

  predicate AllDigits(s: string) {
    s != [] && forall i :: 0 <= i < |s| ==> '0' <= s[i] <= '9'
  }

  function Digits(s: string): (n: int)
    requires s == [] || AllDigits(s)
    ensures n >= 0
  {
    if s == [] then 0 else 10 * Digits(s[..|s| - 1]) + (s[|s| - 1] as int - '0' as int)
  }

  /** strconv.Atoi on a 64-bit machine. */
  function Atoi(s: string): Option<int> {
    var signed := s != [] && (s[0] == '-' || s[0] == '+');
    var digits := if signed then s[1..] else s;
    if !AllDigits(digits) then None
    else
      var n: int := if signed && s[0] == '-' then -Digits(digits) else Digits(digits);
      if -0x8000_0000_0000_0000 <= n <= 0x7fff_ffff_ffff_ffff then Some(n) else None
  }

  /** A passwd line of an account a human may log in as. */
  predicate LoginLine(line: string) {
    var fields := Split(line, ':');
    |fields| >= 7 && SafeName(fields[0]) && !NoLoginShell(fields[6])
    && Atoi(fields[2]).Some? && (Atoi(fields[2]).value == 0 || Atoi(fields[2]).value >= 1000)
  }

  function LoginName(line: string): Option<string> {
    if LoginLine(line) then Some(Split(line, ':')[0]) else None
  }

  /** What `f` finds in the lines, in order. */
  function Collect(f: string -> Option<string>, lines: seq<string>): seq<string> {
    if lines == [] then []
    else
      var found := f(lines[|lines| - 1]);
      Collect(f, lines[..|lines| - 1]) + (if found.Some? then [found.value] else [])
  }

  function LoginNames(passwd: seq<string>): seq<string> {
    Collect(LoginName, passwd)
  }

  function AccountsOf(passwd: seq<string>): seq<string> {
    var all := SortUnique(LoginNames(passwd));
    all[..if |all| < MAX_LOCAL_ACCOUNTS then |all| else MAX_LOCAL_ACCOUNTS]
  }

  method LocalAccounts(passwd: seq<string>) returns (accounts: seq<string>)
    ensures accounts == AccountsOf(passwd)
  {
    accounts := [];
    for k := 0 to |passwd|
      invariant accounts == LoginNames(passwd[..k])
    {
      var fields := Split(passwd[k], ':');
      assert passwd[..k + 1][..k] == passwd[..k];
      if |fields| < 7 || !SafeName(fields[0]) {
        continue;
      }
      var uid := Atoi(fields[2]);
      if uid.None? || (uid.value != 0 && uid.value < 1000) || NoLoginShell(fields[6]) {
        continue;
      }
      accounts := accounts + [fields[0]];
    }
    assert passwd[..|passwd|] == passwd;
    accounts := SortUnique(accounts);
    accounts := accounts[..if |accounts| < MAX_LOCAL_ACCOUNTS then |accounts| else MAX_LOCAL_ACCOUNTS];
  }

  lemma {:induction false} CollectAre(f: string -> Option<string>, lines: seq<string>)
    ensures forall n :: n in Collect(f, lines) <==> exists k :: 0 <= k < |lines| && f(lines[k]) == Some(n)
  {
    if lines == [] {
    } else {
      var last := |lines| - 1;
      CollectAre(f, lines[..last]);
      forall n ensures n in Collect(f, lines) <==> exists k :: 0 <= k < |lines| && f(lines[k]) == Some(n) {
        if n in Collect(f, lines[..last]) {
          var k :| 0 <= k < last && f(lines[..last][k]) == Some(n);
          assert f(lines[k]) == Some(n);
        }
        if k :| 0 <= k < |lines| && f(lines[k]) == Some(n) {
          assert k < last ==> f(lines[..last][k]) == Some(n);
        }
      }
    }
  }

  /** What a sync reports: safe names of login accounts in strict order, at most
      200. Where one is missing there are 200, all before it in the order. */
  lemma {:induction false} AccountsAre(passwd: seq<string>)
    ensures var accounts := AccountsOf(passwd);
            && StrictlySorted(accounts) && |accounts| <= 200
            && (forall n :: n in accounts ==> SafeName(n))
            && (forall n :: n in accounts ==> exists k :: 0 <= k < |passwd| && LoginName(passwd[k]) == Some(n))
            && (forall k, n :: 0 <= k < |passwd| && LoginName(passwd[k]) == Some(n) && n !in accounts ==>
                  |accounts| == 200 && forall a :: a in accounts ==> Less(a, n))
  {
    CollectAre(LoginName, passwd);
    SortUniqueCorrect(LoginNames(passwd));
    var all := SortUnique(LoginNames(passwd));
    var accounts := AccountsOf(passwd);
    forall n | n in accounts
      ensures SafeName(n)
      ensures exists k :: 0 <= k < |passwd| && LoginName(passwd[k]) == Some(n)
    {
      assert n in all;
      assert n in LoginNames(passwd);
      var k :| 0 <= k < |passwd| && LoginName(passwd[k]) == Some(n);
      assert LoginLine(passwd[k]);
    }
    forall k, n | 0 <= k < |passwd| && LoginName(passwd[k]) == Some(n) && n !in accounts
      ensures |accounts| == MAX_LOCAL_ACCOUNTS && forall a :: a in accounts ==> Less(a, n)
    {
      assert n in LoginNames(passwd);
      var j :| 0 <= j < |all| && all[j] == n;
      assert |accounts| <= j;
    }
  }

  // ---- The probe -----------------------------------------------------------

  predicate IsMarker(line: string) {
    line == SECTION_PASSWD || line == SECTION_HOST_KEY || line == SECTION_PRINCIPALS
  }

  type Sections = map<string, seq<string>>

  function SectionOf(sections: Sections, name: string): seq<string> {
    if name in sections then sections[name] else []
  }

  datatype Reading = Reading(sections: Sections, current: string)

  function ReadLine(r: Reading, line: string): Reading {
    if IsMarker(line) then r.(current := line)
    else if r.current != "" && TrimSpace(line) != "" then
      r.(sections := r.sections[r.current := SectionOf(r.sections, r.current) + [line]])
    else r
  }

  function ReadLines(lines: seq<string>): Reading {
    if lines == [] then Reading(map[], "")
    else ReadLine(ReadLines(lines[..|lines| - 1]), lines[|lines| - 1])
  }

  function HostOf(sections: Sections): Host {
    var keys := SectionOf(sections, SECTION_HOST_KEY);
    Host(AccountsOf(SectionOf(sections, SECTION_PASSWD)),
         if keys == [] then "" else TrimSpace(keys[0]),
         SectionOf(sections, SECTION_PRINCIPALS))
  }

  function ProbedHost(out: string): Host {
    HostOf(ReadLines(Split(out, '\n')).sections)
  }

  lemma {:induction false} ProbedAccounts(out: string)
    ensures StrictlySorted(ProbedHost(out).accounts)
  {
    AccountsAre(SectionOf(ReadLines(Split(out, '\n')).sections, SECTION_PASSWD));
  }

  method ParseProbe(out: string) returns (h: Host, ok: bool)
    ensures h == ProbedHost(out)
    ensures ok <==> h.hostKey != ""
  {
    var sections: Sections := map[];
    var current := "";
    var lines := Split(out, '\n');
    for k := 0 to |lines|
      invariant Reading(sections, current) == ReadLines(lines[..k])
    {
      var line := lines[k];
      assert lines[..k + 1][..k] == lines[..k];
      if line == SECTION_PASSWD || line == SECTION_HOST_KEY || line == SECTION_PRINCIPALS {
        current := line;
      } else if current != "" && TrimSpace(line) != "" {
        sections := sections[current := SectionOf(sections, current) + [line]];
      }
    }
    assert lines[..|lines|] == lines;
    var accounts := LocalAccounts(SectionOf(sections, SECTION_PASSWD));
    h := Host(accounts, "", SectionOf(sections, SECTION_PRINCIPALS));
    var keys := SectionOf(sections, SECTION_HOST_KEY);
    if |keys| > 0 {
      h := h.(hostKey := TrimSpace(keys[0]));
    }
    ok := h.hostKey != "";
  }

  function NonBlank(lines: seq<string>): seq<string> {
    if lines == [] then []
    else
      var last := lines[|lines| - 1];
      NonBlank(lines[..|lines| - 1]) + (if TrimSpace(last) != "" then [last] else [])
  }

  predicate PlainLines(lines: seq<string>) {
    forall l :: l in lines ==> '\n' !in l && !IsMarker(l)
  }

  /** What ProbeCommand prints on a host with these passwd lines, host keys and
      files in the principals directory. */
  function ProbeOutput(passwd: seq<string>, keys: seq<string>, listing: seq<string>): string {
    Lines([SECTION_PASSWD] + passwd + [SECTION_HOST_KEY] + keys + [SECTION_PRINCIPALS] + listing)
  }

  /** A reading after plain lines of the section it is in. */
  function WithBody(r: Reading, body: seq<string>): Reading {
    var kept := NonBlank(body);
    if kept == [] then r
    else r.(sections := r.sections[r.current := SectionOf(r.sections, r.current) + kept])
  }

  lemma {:induction false} ReadPlainLine(r: Reading, body: seq<string>, line: string)
    requires !IsMarker(line) && r.current != ""
    ensures ReadLine(WithBody(r, body), line) == WithBody(r, body + [line])
  {
    assert (body + [line])[..|body|] == body;
    assert NonBlank(body) + [] == NonBlank(body);
    if TrimSpace(line) != "" {
      var first, kept := SectionOf(r.sections, r.current), NonBlank(body);
      assert NonBlank(body + [line]) == kept + [line] && [] + [line] == [line];
      assert first + [] == first && (first + kept) + [line] == first + (kept + [line]);
      assert r.sections[r.current := first + kept][r.current := first + kept + [line]]
          == r.sections[r.current := first + kept + [line]];
      assert SectionOf(WithBody(r, body).sections, r.current) == first + kept;
    }
  }

  lemma {:induction false} ReadBody(before: seq<string>, body: seq<string>)
    requires PlainLines(body) && ReadLines(before).current != ""
    ensures ReadLines(before + body) == WithBody(ReadLines(before), body)
  {
    if body == [] {
      assert before + body == before;
    } else {
      var n := |body| - 1;
      assert body[n] in body && body[..n] + [body[n]] == body;
      ReadBody(before, body[..n]);
      ReadPlainLine(ReadLines(before), body[..n], body[n]);
      assert (before + body)[..|before + body| - 1] == before + body[..n];
    }
  }

  lemma {:induction false} ReadMarker(before: seq<string>, marker: string)
    requires IsMarker(marker)
    ensures ReadLines(before + [marker]) == ReadLines(before).(current := marker)
  {
    assert (before + [marker])[..|before|] == before;
  }

  lemma {:induction false} ReadSection(before: seq<string>, marker: string, body: seq<string>)
    requires IsMarker(marker) && marker != "" && PlainLines(body)
    ensures var r := ReadLines(before);
            var r' := ReadLines(before + [marker] + body);
            && r'.current == marker
            && SectionOf(r'.sections, marker) == SectionOf(r.sections, marker) + NonBlank(body)
            && forall s :: s != marker ==> SectionOf(r'.sections, s) == SectionOf(r.sections, s)
  {
    ReadMarker(before, marker);
    ReadBody(before + [marker], body);
  }

  lemma {:induction false} ReadSections(m1: string, m2: string, m3: string, b1: seq<string>, b2: seq<string>,
                                        b3: seq<string>)
    requires IsMarker(m1) && IsMarker(m2) && IsMarker(m3) && m1 != "" && m2 != "" && m3 != ""
    requires m1 != m2 && m1 != m3 && m2 != m3
    requires PlainLines(b1) && PlainLines(b2) && PlainLines(b3)
    ensures var r := ReadLines([m1] + b1 + [m2] + b2 + [m3] + b3);
            && SectionOf(r.sections, m1) == NonBlank(b1)
            && SectionOf(r.sections, m2) == NonBlank(b2)
            && SectionOf(r.sections, m3) == NonBlank(b3)
  {
    ReadSection([], m1, b1);
    assert [] + [m1] + b1 == [m1] + b1;
    ReadSection([m1] + b1, m2, b2);
    ReadSection([m1] + b1 + [m2] + b2, m3, b3);
  }

  lemma {:induction false} MarkersDiffer()
    ensures SECTION_PASSWD != SECTION_HOST_KEY && SECTION_PASSWD != SECTION_PRINCIPALS
    ensures SECTION_HOST_KEY != SECTION_PRINCIPALS
    ensures '\n' !in SECTION_PASSWD && '\n' !in SECTION_HOST_KEY && '\n' !in SECTION_PRINCIPALS
  {
    assert SECTION_PASSWD[5] == 'a' && SECTION_HOST_KEY[5] == 'o' && SECTION_PRINCIPALS[5] == 'r';
  }

  lemma {:induction false} EmptyLineIgnored(lines: seq<string>)
    ensures ReadLines(lines + [[]]).sections == ReadLines(lines).sections
  {
    assert (lines + [[]])[..|lines|] == lines;
  }

  /** The probe is read back as it was printed: each section's own lines, blank
      ones aside, never mixed up with another's. */
  lemma {:induction false} ProbeReadsHost(passwd: seq<string>, keys: seq<string>, listing: seq<string>)
    requires PlainLines(passwd) && PlainLines(keys) && PlainLines(listing)
    ensures var h := ProbedHost(ProbeOutput(passwd, keys, listing));
            && h.accounts == AccountsOf(NonBlank(passwd))
            && h.principals == NonBlank(listing)
            && h.hostKey == (if NonBlank(keys) == [] then "" else TrimSpace(NonBlank(keys)[0]))
  {
    MarkersDiffer();
    ReadPrinted(SECTION_PASSWD, SECTION_HOST_KEY, SECTION_PRINCIPALS, passwd, keys, listing);
  }

  lemma {:induction false} ReadPrinted(m1: string, m2: string, m3: string, b1: seq<string>, b2: seq<string>,
                                       b3: seq<string>)
    requires IsMarker(m1) && IsMarker(m2) && IsMarker(m3) && m1 != "" && m2 != "" && m3 != ""
    requires m1 != m2 && m1 != m3 && m2 != m3
    requires PlainLines(b1) && PlainLines(b2) && PlainLines(b3)
    ensures var r := ReadLines(Split(Lines([m1] + b1 + [m2] + b2 + [m3] + b3), '\n'));
            && SectionOf(r.sections, m1) == NonBlank(b1)
            && SectionOf(r.sections, m2) == NonBlank(b2)
            && SectionOf(r.sections, m3) == NonBlank(b3)
  {
    assert forall l :: l in [m1] + b1 + [m2] + b2 + [m3] + b3 ==> '\n' !in l by {
      NoNewlines(m1, m2, b1, b2);
      NoNewlines(m2, m3, b2, b3);
    }
    ReadBack([m1] + b1 + [m2] + b2 + [m3] + b3);
    ReadSections(m1, m2, m3, b1, b2, b3);
  }

  lemma {:induction false} ReadBack(lines: seq<string>)
    requires forall l :: l in lines ==> '\n' !in l
    ensures ReadLines(Split(Lines(lines), '\n')).sections == ReadLines(lines).sections
  {
    SplitLines(lines);
    EmptyLineIgnored(lines);
  }

  // ---- A printed file without its last newline -----------------------------

  lemma {:induction false} LinesGlue(a: seq<string>, last: string, marker: string, b: seq<string>)
    ensures Lines(a) + last + Lines([marker] + b) == Lines(a + [last + marker] + b)
  {
    if a == [] {
      assert [last + marker] + b == [] + [last + marker] + b && ([last + marker] + b)[1..] == b;
      assert ([marker] + b)[1..] == b;
      assert [] + last == last && last + (marker + "\n" + Lines(b)) == (last + marker) + "\n" + Lines(b);
    } else {
      LinesGlue(a[1..], last, marker, b);
      assert (a + [last + marker] + b)[1..] == a[1..] + [last + marker] + b;
      var tail := Lines([marker] + b);
      assert a[0] + "\n" + Lines(a[1..]) + last + tail == a[0] + "\n" + (Lines(a[1..]) + last + tail);
    }
  }

  lemma {:induction false} NonBlankAppend(a: seq<string>, b: seq<string>)
    ensures NonBlank(a + b) == NonBlank(a) + NonBlank(b)
  {
    if b == [] {
      assert a + b == a;
    } else {
      var init, last := b[..|b| - 1], b[|b| - 1];
      NonBlankAppend(a, init);
      var kept := if TrimSpace(last) != "" then [last] else [];
      assert (a + b)[..|a + b| - 1] == a + init && (a + b)[|a + b| - 1] == last;
      assert NonBlank(a + b) == NonBlank(a) + NonBlank(init) + kept == NonBlank(a) + (NonBlank(init) + kept);
    }
  }

  lemma {:induction false} TrimKeepsEnd(s: string)
    requires s != [] && !IsSpace(s[|s| - 1])
    ensures TrimSpace(s) != ""
  {
    if !IsSpace(s[0]) {
    } else {
      TrimKeepsEnd(s[1..]);
    }
  }

  lemma {:induction false} MarkerEnds(m: string)
    requires IsMarker(m)
    ensures m != [] && !IsSpace(m[|m| - 1]) && '\n' !in m
    ensures forall n :: IsMarker(n) && n != [] && n[|n| - 1] == m[|m| - 1] ==> |n| == |m|
  {
    MarkersDiffer();
    assert SECTION_PASSWD[|SECTION_PASSWD| - 1] == 'd' && SECTION_HOST_KEY[|SECTION_HOST_KEY| - 1] == 'y';
    assert SECTION_PRINCIPALS[|SECTION_PRINCIPALS| - 1] == 's';
  }

  /** A line that swallowed a marker is neither a marker nor blank. */
  lemma {:induction false} GluedLine(last: string, marker: string)
    requires IsMarker(marker) && last != "" && '\n' !in last
    ensures !IsMarker(last + marker) && TrimSpace(last + marker) != "" && '\n' !in last + marker
  {
    MarkerEnds(marker);
    var glued := last + marker;
    assert glued[|glued| - 1] == marker[|marker| - 1] && |glued| > |marker|;
    TrimKeepsEnd(glued);
  }

  /** The sections of two markers, and of one that was swallowed. */
  lemma {:induction false} ReadTwoSections(m1: string, m2: string, m3: string, b1: seq<string>, b2: seq<string>)
    requires IsMarker(m1) && IsMarker(m2) && m1 != "" && m2 != "" && m1 != m2 && m3 != m1 && m3 != m2
    requires PlainLines(b1) && PlainLines(b2)
    ensures var r := ReadLines([m1] + b1 + [m2] + b2);
            && SectionOf(r.sections, m1) == NonBlank(b1)
            && SectionOf(r.sections, m2) == NonBlank(b2)
            && SectionOf(r.sections, m3) == []
  {
    ReadSection([], m1, b1);
    assert [] + [m1] + b1 == [m1] + b1;
    ReadSection([m1] + b1, m2, b2);
  }

  lemma {:induction false} PlainTogether(a: seq<string>, line: string, b: seq<string>)
    requires PlainLines(a) && PlainLines(b) && '\n' !in line && !IsMarker(line) && TrimSpace(line) != ""
    ensures PlainLines(a + [line] + b) && NonBlank(a + [line] + b) == NonBlank(a) + [line] + NonBlank(b)
  {
    NonBlankAppend(a + [line], b);
    NonBlankAppend(a, [line]);
    assert [line][..0] == [] && NonBlank([line]) == [line];
  }

  /** Where a file ends without a newline, its last line takes the marker. */
  lemma {:induction false} ReadGlued(head: seq<string>, last: string, marker: string, rest: seq<string>)
    requires forall l :: l in head + [last + marker] + rest ==> '\n' !in l
    ensures ReadLines(Split(Lines(head) + last + Lines([marker] + rest), '\n')).sections
         == ReadLines(head + [last + marker] + rest).sections
  {
    LinesGlue(head, last, marker, rest);
    ReadBack(head + [last + marker] + rest);
  }

  lemma {:induction false} NoNewlines(m1: string, m2: string, b1: seq<string>, b2: seq<string>)
    requires IsMarker(m1) && IsMarker(m2) && PlainLines(b1) && PlainLines(b2)
    ensures forall l :: l in [m1] + b1 + [m2] + b2 ==> '\n' !in l
  {
    MarkerEnds(m1);
    MarkerEnds(m2);
  }

  /** The middle one of three files has no newline at its end. */
  lemma {:induction false} ReadUnterminated(m1: string, m2: string, m3: string, b1: seq<string>, b2: seq<string>,
                                            last: string, b3: seq<string>)
    requires IsMarker(m1) && IsMarker(m2) && IsMarker(m3) && m1 != "" && m2 != "" && m1 != m2 && m3 != m1 && m3 != m2
    requires PlainLines(b1) && PlainLines(b2) && PlainLines(b3) && last != "" && '\n' !in last
    ensures var r := ReadLines(Split(Lines([m1] + b1 + [m2] + b2) + last + Lines([m3] + b3), '\n'));
            && SectionOf(r.sections, m1) == NonBlank(b1)
            && SectionOf(r.sections, m2) == NonBlank(b2) + [last + m3] + NonBlank(b3)
            && SectionOf(r.sections, m3) == []
  {
    var glued := last + m3;
    var body := b2 + [glued] + b3;
    assert PlainLines(body) && NonBlank(body) == NonBlank(b2) + [glued] + NonBlank(b3) by {
      GluedLine(last, m3);
      PlainTogether(b2, glued, b3);
    }
    assert [m1] + b1 + [m2] + b2 + [glued] + b3 == [m1] + b1 + [m2] + body;
    assert forall l :: l in [m1] + b1 + [m2] + body ==> '\n' !in l by {
      NoNewlines(m1, m2, b1, body);
    }
    ReadGlued([m1] + b1 + [m2] + b2, last, m3, b3);
    ReadTwoSections(m1, m2, m3, b1, body);
  }

  /** The first one of three files has no newline at its end. */
  lemma {:induction false} ReadUnterminatedFirst(m1: string, m2: string, m3: string, b1: seq<string>, last: string,
                                                 b2: seq<string>, b3: seq<string>)
    requires IsMarker(m1) && IsMarker(m2) && IsMarker(m3) && m1 != "" && m3 != "" && m1 != m3 && m2 != m1 && m3 != m2
    requires PlainLines(b1) && PlainLines(b2) && PlainLines(b3) && last != "" && '\n' !in last
    ensures var r := ReadLines(Split(Lines([m1] + b1) + last + Lines([m2] + (b2 + [m3] + b3)), '\n'));
            SectionOf(r.sections, m2) == []
  {
    var glued := last + m2;
    var body := b1 + [glued] + b2;
    assert PlainLines(body) by {
      GluedLine(last, m2);
      PlainTogether(b1, glued, b2);
    }
    assert [m1] + b1 + [glued] + (b2 + [m3] + b3) == [m1] + body + [m3] + b3;
    assert forall l :: l in [m1] + body + [m3] + b3 ==> '\n' !in l by {
      NoNewlines(m1, m3, body, b3);
    }
    ReadGlued([m1] + b1, last, m2, b2 + [m3] + b3);
    ReadTwoSections(m1, m3, m2, body, b3);
  }

  /** A host key file whose last line has no newline takes the marker after it
      into the key: the listing is read as more keys, so no principals file is
      known, and the key itself has the marker at its end if it was the only one. */
  lemma {:induction false} UnterminatedKeys(passwd: seq<string>, keys: seq<string>, last: string, listing: seq<string>)
    requires PlainLines(passwd) && PlainLines(keys) && PlainLines(listing) && last != "" && '\n' !in last
    ensures var h := ProbedHost(Lines([SECTION_PASSWD] + passwd + [SECTION_HOST_KEY] + keys) + last
                                + Lines([SECTION_PRINCIPALS] + listing));
            && h.accounts == AccountsOf(NonBlank(passwd))
            && h.principals == []
            && h.hostKey == TrimSpace((NonBlank(keys) + [last + SECTION_PRINCIPALS])[0])
  {
    MarkersDiffer();
    ReadUnterminated(SECTION_PASSWD, SECTION_HOST_KEY, SECTION_PRINCIPALS, passwd, keys, last, listing);
  }

  /** A passwd file whose last line has no newline takes the host key's marker
      with it: no key is found and the probe is refused. */
  lemma {:induction false} UnterminatedPasswd(passwd: seq<string>, last: string, keys: seq<string>,
                                              listing: seq<string>)
    requires PlainLines(passwd) && PlainLines(keys) && PlainLines(listing) && last != "" && '\n' !in last
    ensures ProbedHost(Lines([SECTION_PASSWD] + passwd) + last
                       + Lines([SECTION_HOST_KEY] + (keys + [SECTION_PRINCIPALS] + listing))).hostKey == ""
  {
    MarkersDiffer();
    ReadUnterminatedFirst(SECTION_PASSWD, SECTION_HOST_KEY, SECTION_PRINCIPALS, passwd, last, keys, listing);
  }

  // ---- The plan ------------------------------------------------------------

  function PrincipalsPath(name: string): string {
    PRINCIPALS_DIR + "/" + name
  }

  function NonEmpty(ids: seq<string>): seq<string> {
    if ids == [] then [] else (if ids[0] == "" then [] else [ids[0]]) + NonEmpty(ids[1..])
  }

  lemma {:induction false} NonEmptyAre(ids: seq<string>)
    ensures forall id :: id in NonEmpty(ids) <==> id in ids && id != ""
  {
    if ids == [] {
    } else {
      NonEmptyAre(ids[1..]);
    }
  }

  function RenderPrincipals(ids: seq<string>): string {
    Lines(SortUnique(NonEmpty(ids)))
  }

  function GrantsOf(grants: map<string, seq<string>>, name: string): seq<string> {
    if name in grants then grants[name] else []
  }

  function AccountFile(grants: map<string, seq<string>>, name: string): File {
    File(PrincipalsPath(name), RenderPrincipals(GrantsOf(grants, name)))
  }

  function AccountFiles(grants: map<string, seq<string>>, accounts: seq<string>): seq<File> {
    seq(|accounts|, i requires 0 <= i < |accounts| => AccountFile(grants, accounts[i]))
  }

  function StalePaths(names: seq<string>, accounts: seq<string>): seq<string> {
    if names == [] then []
    else
      var last := names[|names| - 1];
      StalePaths(names[..|names| - 1], accounts)
      + (if SafeName(last) && last !in accounts then [PrincipalsPath(last)] else [])
  }

  function PlanOf(caKey: string, grants: map<string, seq<string>>, h: Host): Plan {
    Plan([File(CA_PATH, TrimSpace(caKey) + "\n"), File(DROP_IN_PATH, DROP_IN_CONTENT)]
         + AccountFiles(grants, h.accounts),
         StalePaths(h.principals, h.accounts))
  }

  method NewPlan(caKey: string, grants: map<string, seq<string>>, h: Host) returns (p: Plan)
    ensures p == PlanOf(caKey, grants, h)
  {
    var files: seq<File> := [];
    for i := 0 to |h.accounts|
      invariant files == AccountFiles(grants, h.accounts[..i])
    {
      files := files + [AccountFile(grants, h.accounts[i])];
    }
    assert h.accounts[..|h.accounts|] == h.accounts;
    var stale := StaleFiles(h.principals, h.accounts);
    p := Plan([File(CA_PATH, TrimSpace(caKey) + "\n"), File(DROP_IN_PATH, DROP_IN_CONTENT)] + files, stale);
  }

  method StaleFiles(names: seq<string>, accounts: seq<string>) returns (stale: seq<string>)
    ensures stale == StalePaths(names, accounts)
  {
    stale := [];
    for i := 0 to |names|
      invariant stale == StalePaths(names[..i], accounts)
    {
      assert names[..i + 1][..i] == names[..i];
      if SafeName(names[i]) && names[i] !in accounts {
        stale := stale + [PrincipalsPath(names[i])];
      }
    }
    assert names[..|names|] == names;
  }

  function ItemOf(f: File): MS.Item {
    MS.Item(f.path, f.path + ".nokku-bak", f.path + ".nokku-tmp", f.content)
  }

  function ItemsOf(files: seq<File>): MS.Items {
    seq(|files|, i requires 0 <= i < |files| => ItemOf(files[i]))
  }

  function ScriptOf(p: Plan): seq<Instr> {
    MS.Script(ItemsOf(p.files), p.stale)
  }

  /** Plan.Script: emits the program block by block. */
  method Script(p: Plan) returns (code: seq<Instr>)
    ensures code == ScriptOf(p)
  {
    var restore: seq<Instr> := [];
    var cleanup: seq<Instr> := [];
    for i := 0 to |p.files|
      invariant restore == MS.Restores(ItemsOf(p.files[..i]))
      invariant cleanup == MS.Removes(MS.Baks(ItemsOf(p.files[..i])))
    {
      var path := p.files[i].path;
      restore := restore + [If(Exists(path + ".nokku-bak"), [Move(path + ".nokku-bak", path)], [])];
      cleanup := cleanup + [Remove(path + ".nokku-bak")];
    }
    code := [If(Rejects, [Exit], [])];
    for i := 0 to |p.files|
      invariant code == [MS.CheckFirst] + MS.Updates(ItemsOf(p.files[..i]))
    {
      var f := p.files[i];
      var tmp := f.path + ".nokku-tmp";
      code := code + [
        If(Holds(f.path, f.content), [],
           [If(Exists(f.path), [Copy(f.path, f.path + ".nokku-bak")], [Note(f.path)]),
            Write(f.content, tmp),
            Move(tmp, f.path)])];
    }
    assert p.files[..|p.files|] == p.files;
    code := code + [If(Rejects, restore + [RemoveNoted, Exit], [])] + cleanup;
    var items := ItemsOf(p.files);
    ghost var base := code;
    for i := 0 to |p.stale|
      invariant code == base + MS.Removes(p.stale[..i])
    {
      code := code + [Remove(p.stale[i])];
    }
    assert p.stale[..|p.stale|] == p.stale;
    assert MS.Removes(MS.Baks(items)) + MS.Removes(p.stale) == MS.Removes(MS.Baks(items) + p.stale);
    assert code == ScriptOf(p);
  }
}
