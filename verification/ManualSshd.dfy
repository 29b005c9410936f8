/** What sshd makes of the files that a manual sync leaves: it takes each option
    from the first line that names it, and puts the account for `%u`. */
module ManualSshd {
  import opened Text
  import opened Shell
  import opened Sorting
  import opened ManualPlan
  import opened ManualSync
  import MS = ManualScript

  // ---- sshd's options ------------------------------------------------------

  /** The length of a line's first word. */
  function WordLength(s: string): (n: nat)
    ensures n <= |s|
  {
    if s == [] || IsSpace(s[0]) then 0 else 1 + WordLength(s[1..])
  }

  /** The first word of a line, without regard to case. */
  function Keyword(line: string): string {
    var s := TrimLeft(line);
    ToLower(s[..WordLength(s)])
  }

  function Argument(line: string): string {
    var s := TrimLeft(line);
    TrimSpace(s[WordLength(s)..])
  }

  function FirstOf(lines: seq<string>, key: string): Option<string> {
    if lines == [] then None
    else if Keyword(lines[0]) == key then Some(Argument(lines[0]))
    else FirstOf(lines[1..], key)
  }

  /** What a config says about an option. */
  function Setting(config: string, key: string): Option<string> {
    FirstOf(Split(config, '\n'), key)
  }

  /** `%u` in a path is the account that logs in, `%%` a percent sign. */
  function ForUser(path: string, user: string): string {
    if |path| < 2 then path
    else if path[0] == '%' && path[1] == 'u' then user + ForUser(path[2..], user)
    else if path[0] == '%' && path[1] == '%' then "%" + ForUser(path[2..], user)
    else [path[0]] + ForUser(path[1..], user)
  }

  /** The files that the Include line of a stock sshd_config takes in. */
  predicate TakenIn(path: string) {
    "/etc/ssh/sshd_config.d/" <= path && HasSuffix(path, ".conf")
  }

  /** A word of visible ASCII characters. */
  predicate OneWord(s: string) {
    s != [] && forall i :: 0 <= i < |s| ==> '!' <= s[i] <= '~'
  }

  lemma {:induction false} WordIsFirst(w: string, rest: string)
    requires OneWord(w) && (rest == [] || IsSpace(rest[0]))
    ensures WordLength(w + rest) == |w|
  {
    if |w| == 1 {
      assert (w + rest)[1..] == rest;
    } else {
      assert (w + rest)[1..] == w[1..] + rest;
      WordIsFirst(w[1..], rest);
    }
  }

  lemma {:induction false} BlankBefore(value: string)
    requires OneWord(value)
    ensures TrimSpace(" " + value) == value
  {
    assert (" " + value)[1..] == value;
    assert !IsSpace(value[0]) && !IsSpace(value[|value| - 1]);
    assert TrimLeft(" " + value) == TrimLeft(value) == value;
  }

  lemma {:induction false} OptionLine(key: string, value: string)
    requires OneWord(key) && OneWord(value)
    ensures Keyword(key + " " + value) == ToLower(key) && Argument(key + " " + value) == value
  {
    var line := key + " " + value;
    var rest := " " + value;
    assert line == key + rest;
    WordIsFirst(key, rest);
    assert !IsSpace(line[0]) && TrimLeft(line) == line;
    assert line[..|key|] == key && line[|key|..] == rest;
    BlankBefore(value);
  }

  lemma {:induction false} NoNewlineInOption(key: string, value: string)
    requires OneWord(key) && OneWord(value)
    ensures '\n' !in key + " " + value
  {
  }

  lemma {:induction false} FirstOfTwo(l1: string, l2: string, key: string)
    ensures FirstOf([l1, l2, []], key) == if Keyword(l1) == key then Some(Argument(l1))
                                          else FirstOf([l2, []], key)
    ensures Keyword(l2) == key ==> FirstOf([l2, []], key) == Some(Argument(l2))
  {
    assert [l1, l2, []][1..] == [l2, []];
  }

  /** A config of two options. */
  lemma {:induction false} TwoOptions(k1: string, v1: string, k2: string, v2: string)
    requires OneWord(k1) && OneWord(v1) && OneWord(k2) && OneWord(v2) && ToLower(k1) != ToLower(k2)
    ensures var config := Lines([k1 + " " + v1, k2 + " " + v2]);
            Setting(config, ToLower(k1)) == Some(v1) && Setting(config, ToLower(k2)) == Some(v2)
  {
    var l1, l2 := k1 + " " + v1, k2 + " " + v2;
    NoNewlineInOption(k1, v1);
    NoNewlineInOption(k2, v2);
    SplitLines([l1, l2]);
    assert [l1, l2] + [[]] == [l1, l2, []];
    OptionLine(k1, v1);
    OptionLine(k2, v2);
    FirstOfTwo(l1, l2, ToLower(k1));
    FirstOfTwo(l1, l2, ToLower(k2));
  }

  lemma {:induction false} ForUserPrefix(a: string, b: string, user: string)
    requires '%' !in a
    ensures ForUser(a + b, user) == a + ForUser(b, user)
  {
    if a == [] {
      assert a + b == b;
    } else {
      assert (a + b)[1..] == a[1..] + b;
      ForUserPrefix(a[1..], b, user);
    }
  }

  // ---- The drop-in of a sync -----------------------------------------------

  lemma {:induction false} LinesOfTwo(a: string, b: string)
    ensures Lines([a, b]) == a + "\n" + (b + "\n")
  {
    assert [a, b][1..] == [b] && [b][1..] == [];
    assert Lines([b]) == b + "\n" + [] == b + "\n";
  }

  lemma {:induction false} Reassociated(k1: string, v1: string, k2: string, dir: string, user: string)
    ensures (k1 + " ") + v1 + ("\n" + k2 + " ") + dir + (user + "\n")
         == (k1 + " " + v1) + "\n" + ((k2 + " " + (dir + user)) + "\n")
  {
  }

  lemma {:induction false} DropInIsTwoLines()
    ensures DROP_IN_CONTENT
         == Lines(["TrustedUserCAKeys" + " " + CA_PATH, "AuthorizedPrincipalsFile" + " " + (PRINCIPALS_DIR + "/%u")])
  {
    assert "TrustedUserCAKeys" + " " == "TrustedUserCAKeys ";
    assert "\n" + "AuthorizedPrincipalsFile" + " " == "\nAuthorizedPrincipalsFile ";
    assert "/%u" + "\n" == "/%u\n";
    Reassociated("TrustedUserCAKeys", CA_PATH, "AuthorizedPrincipalsFile", PRINCIPALS_DIR, "/%u");
    LinesOfTwo("TrustedUserCAKeys" + " " + CA_PATH, "AuthorizedPrincipalsFile" + " " + (PRINCIPALS_DIR + "/%u"));
  }

  lemma {:induction false} CaOption()
    ensures OneWord("TrustedUserCAKeys") && ToLower("TrustedUserCAKeys") == "trustedusercakeys"
  {
  }

  lemma {:induction false} PrincipalsOption()
    ensures OneWord("AuthorizedPrincipalsFile") && ToLower("AuthorizedPrincipalsFile") == "authorizedprincipalsfile"
  {
  }

  lemma {:induction false} OptionValues()
    ensures OneWord(CA_PATH) && OneWord(PRINCIPALS_DIR + "/%u") && '%' !in PRINCIPALS_DIR + "/"
  {
  }

  lemma {:induction false} DropInSays(n: string)
    ensures Setting(DROP_IN_CONTENT, "trustedusercakeys") == Some(CA_PATH)
    ensures Setting(DROP_IN_CONTENT, "authorizedprincipalsfile") == Some(PRINCIPALS_DIR + "/%u")
    ensures ForUser(PRINCIPALS_DIR + "/%u", n) == PrincipalsPath(n)
  {
    DropInIsTwoLines();
    CaOption();
    PrincipalsOption();
    OptionValues();
    assert "trustedusercakeys"[0] == 't' && "authorizedprincipalsfile"[0] == 'a';
    TwoOptions("TrustedUserCAKeys", CA_PATH, "AuthorizedPrincipalsFile", PRINCIPALS_DIR + "/%u");
    assert PRINCIPALS_DIR + "/%u" == (PRINCIPALS_DIR + "/") + "%u";
    ForUserPrefix(PRINCIPALS_DIR + "/", "%u", n);
    assert ForUser("%u", n) == n + ForUser("", n) == n;
  }

  lemma {:induction false} SplitTerminated(s: string, c: char)
    ensures Split(s + [c], c) == Split(s, c) + [[]]
  {
    if s == [] {
      assert (s + [c])[1..] == [];
    } else {
      assert (s + [c])[1..] == s[1..] + [c];
      SplitTerminated(s[1..], c);
    }
  }

  /** The drop-in and the CA file are never taken away with the backups. */
  lemma {:induction false} FirstTwoFiles(caKey: string, grants: map<string, seq<string>>, h: Host, fs: Fs, w: World)
    requires StrictlySorted(h.accounts) && Accepts(PlanOf(caKey, grants, h), fs, w)
    ensures Lookup(Synced(caKey, grants, h, fs, w), CA_PATH) == Some(TrimSpace(caKey) + "\n")
    ensures Lookup(Synced(caKey, grants, h, fs, w), DROP_IN_PATH) == Some(DROP_IN_CONTENT)
  {
    var p := PlanOf(caKey, grants, h);
    var end := Synced(caKey, grants, h, fs, w);
    SyncLeaves(caKey, grants, h, fs, w);
    forall i, j | 0 <= i < 2 && 0 <= j < |p.files| ensures p.files[i].path != p.files[j].path + BAK {
      PlanPairs(caKey, grants, h, i, j, BAK);
    }
    assert !IsBackup(p, p.files[0].path) && !IsBackup(p, p.files[1].path);
    assert MS.Planned(end, ItemOf(p.files[0])) && MS.Planned(end, ItemOf(p.files[1]));
  }

  /** What sshd takes from the drop-in that is on the host. */
  function SshdOption(fs: Fs, key: string): Option<string> {
    if "/etc/ssh/sshd_config.d/60-nokku.conf" in fs then Setting(fs["/etc/ssh/sshd_config.d/60-nokku.conf"], key)
    else None
  }

  /** The file in which sshd looks up the principals of an account. */
  function PrincipalsFileOf(fs: Fs, user: string): Option<string> {
    var path := SshdOption(fs, "authorizedprincipalsfile");
    if path.Some? then Some(ForUser(path.value, user)) else None
  }

  /** After an accepted sync sshd trusts the keys of the file that the drop-in
      names: line by line those given, without blanks around them. */
  lemma {:induction false} SshdTrustsTheKey(caKey: string, grants: map<string, seq<string>>, h: Host, fs: Fs, w: World)
    requires StrictlySorted(h.accounts) && Accepts(PlanOf(caKey, grants, h), fs, w)
    ensures var end := Synced(caKey, grants, h, fs, w);
            var trusted := SshdOption(end, "trustedusercakeys");
            && TakenIn("/etc/ssh/sshd_config.d/60-nokku.conf")
            && trusted.Some? && trusted.value in end
            && Split(end[trusted.value], '\n') == Split(TrimSpace(caKey), '\n') + [""]
  {
    FirstTwoFiles(caKey, grants, h, fs, w);
    DropInSays("");
    SplitTerminated(TrimSpace(caKey), '\n');
    assert HasSuffix("/etc/ssh/sshd_config.d/60-nokku.conf", ".conf");
    assert DROP_IN_PATH == "/etc/ssh/sshd_config.d/60-nokku.conf";
  }

  lemma {:induction false} PrincipalsFileIs(caKey: string, grants: map<string, seq<string>>, h: Host, fs: Fs, w: World,
                                            n: string)
    requires StrictlySorted(h.accounts) && Accepts(PlanOf(caKey, grants, h), fs, w)
    ensures PrincipalsFileOf(Synced(caKey, grants, h, fs, w), n) == Some(PrincipalsPath(n))
  {
    FirstTwoFiles(caKey, grants, h, fs, w);
    DropInSays(n);
    assert DROP_IN_PATH == "/etc/ssh/sshd_config.d/60-nokku.conf";
  }

  lemma {:induction false} PathInDirectory(n: string)
    ensures PrincipalsPath(n) == "/etc/ssh/nokku_principals/" + n
  {
    assert PRINCIPALS_DIR + "/" == "/etc/ssh/nokku_principals/";
  }

  /** From the text of the probe to what sshd finds, for every safe name: the file
      that the drop-in sends it to lists exactly the principals granted on a
      reported account, and is not there for any other name. The files of the
      principals directory are those the probe listed. */
  lemma {:induction false} ProbeToGrants(passwd: seq<string>, keys: seq<string>, listing: seq<string>,
                                         caKey: string, grants: map<string, seq<string>>, fs: Fs, w: World, n: string)
    requires PlainLines(passwd) && PlainLines(keys) && PlainLines(listing)
    requires SafeName(n) && ("/etc/ssh/nokku_principals/" + n in fs ==> n in listing)
    requires forall id :: id in GrantsOf(grants, n) ==> '\n' !in id
    requires Accepts(PlanOf(caKey, grants, HostRead(passwd, keys, listing)), fs, w)
    ensures var end := Synced(caKey, grants, HostRead(passwd, keys, listing), fs, w);
            var reported := AccountsOf(NonBlank(passwd));
            var file := PrincipalsFileOf(end, n);
            && file.Some?
            && if n in reported && !(exists b :: b in reported && n == b + BAK)
               then file.value in end && Listed(end[file.value]) == Granted(grants, n)
               else file.value !in end
  {
    var h := HostRead(passwd, keys, listing);
    PathInDirectory(n);
    ProbeReadsHost(passwd, keys, listing);
    AccountsAre(NonBlank(passwd));
    NonBlankAre(listing);
    SafeNameIsNotBlank(n);
    PrincipalsFileIs(caKey, grants, h, fs, w, n);
    if n in h.accounts {
      SyncGivesGrants(caKey, grants, h, fs, w, n);
    } else {
      SyncDeniesOthers(caKey, grants, h, fs, w, n);
    }
  }
}
