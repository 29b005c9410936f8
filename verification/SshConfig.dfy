/** The ssh config generated for the targets, and how ssh reads it: top to
    bottom, the first value of a keyword in an active block wins. */
module SshConfig {
  import opened Text
  import opened OwnConfig
  import opened HostNames

  datatype Keyword =
    | User | ProxyCommand | HostKeyAlias | CertificateFile | IdentityFile | IdentityAgent
    | UserKnownHostsFile | IdentitiesOnly | PasswordAuthentication | StrictHostKeyChecking
    | ServerAliveInterval | LogLevel

  datatype Directive =
    | MatchExec(originalHost: string, command: string)
    | Host(pattern: string)
    | Set(keyword: Keyword, value: string)

  /** Where nk and its files are on this machine. */
  datatype Places = Places(nk: string, certificate: string -> string, pubKey: string, agent: string, knownHosts: string)

  function ConfigChar(c: char): string {
    if c == '\\' || c == '"' then ['\\', c] else [c]
  }

  function Escaped(v: string): string {
    if v == [] then [] else ConfigChar(v[0]) + Escaped(v[1..])
  }

  function ConfigValue(v: string): string {
    "\"" + Escaped(v) + "\""
  }

  function Options(t: Target, at: Places): seq<Directive>
    requires |t.usernames| > 0
  {
    [Set(User, t.usernames[0]),
     Set(ProxyCommand, at.nk + " proxy " + t.id + " %p"),
     Set(HostKeyAlias, t.id),
     Set(CertificateFile, ConfigValue(at.certificate(t.id)))]
    + [Set(IdentityFile, ConfigValue(at.pubKey)),
       Set(IdentityAgent, ConfigValue(at.agent)),
       Set(UserKnownHostsFile, ConfigValue(at.knownHosts)),
       Set(IdentitiesOnly, "yes"),
       Set(PasswordAuthentication, "no"),
       Set(StrictHostKeyChecking, "yes"),
       Set(ServerAliveInterval, "60"),
       Set(LogLevel, "ERROR")]
  }

  function TargetBlock(t: Target, alias: string, at: Places): seq<Directive>
    requires |t.usernames| > 0
  {
    [MatchExec(alias, ConfigValue(at.nk + " prepare " + t.id)), Host(alias)] + Options(t, at)
  }

  function Rendered(ts: seq<Target>, aliases: map<string, string>, at: Places): seq<Directive>
    requires forall t :: t in ts && t.id in aliases ==> |t.usernames| > 0
  {
    if ts == [] then []
    else
      var last := ts[|ts| - 1];
      Rendered(ts[..|ts| - 1], aliases, at)
      + (if last.id in aliases then TargetBlock(last, aliases[last.id], at) else [])
  }

  method RenderSshConfig(ts: seq<Target>, aliases: map<string, string>, at: Places) returns (out: seq<Directive>)
    requires forall t :: t in ts && t.id in aliases ==> |t.usernames| > 0
    ensures out == Rendered(ts, aliases, at)
  {
    out := [];
    for k := 0 to |ts|
      invariant out == Rendered(ts[..k], aliases, at)
    {
      assert ts[..k + 1][..k] == ts[..k];
      if ts[k].id !in aliases {
        continue;
      }
      out := out + TargetBlock(ts[k], aliases[ts[k].id], at);
    }
    assert ts[..|ts|] == ts;
  }

  // ---- How ssh reads it ----------------------------------------------------

  /** The rest of a quoted argument: a backslash takes a quote or backslash after
      it as it is, and the closing quote has to be the end of the line. */
  function ToQuote(s: string): Option<string> {
    if s == [] then None
    else if s[0] == '"' then if |s| == 1 then Some([]) else None
    else
      var escaped := s[0] == '\\' && |s| > 1 && s[1] in "\\\"";
      var rest := ToQuote(if escaped then s[2..] else s[1..]);
      if rest.None? then None else Some([if escaped then s[1] else s[0]] + rest.value)
  }

  function Unquoted(s: string): Option<string> {
    if s == [] || s[0] != '"' then None else ToQuote(s[1..])
  }

  lemma {:induction false} EscapedReads(v: string)
    ensures ToQuote(Escaped(v) + "\"") == Some(v)
  {
    if v == [] {
    } else {
      EscapedReads(v[1..]);
      var c := ConfigChar(v[0]);
      var s := Escaped(v) + "\"";
      assert s == c + (Escaped(v[1..]) + "\"");
      assert s[|c|..] == Escaped(v[1..]) + "\"";
      assert [v[0]] + v[1..] == v;
      if |c| == 2 {
        assert s[0] == '\\' && s[1] == v[0] && v[0] in "\\\"";
        assert ToQuote(s) == Some([v[0]] + v[1..]);
      } else {
        assert s[0] == v[0] && v[0] != '"' && v[0] != '\\';
        assert ToQuote(s) == Some([v[0]] + v[1..]);
      }
    }
  }

  /** A quoted value is read back as it was, whatever it holds. */
  lemma {:induction false} ValueRoundTrip(v: string)
    ensures Unquoted(ConfigValue(v)) == Some(v)
  {
    EscapedReads(v);
    assert ConfigValue(v)[1..] == Escaped(v) + "\"";
  }

  predicate HostMatches(pattern: string, host: string) {
    Glob(ToLower(pattern), ToLower(host))
  }

  /** Whether a line leaves the options after it active. `exec` is what the
      command of a Match line says. */
  function ActiveAfter(d: Directive, host: string, active: bool, exec: string -> bool): bool {
    match d
    case MatchExec(h, command) => HostMatches(h, host) && exec(command)
    case Host(p) => HostMatches(p, host)
    case Set(_, _) => active
  }

  function First(ds: seq<Directive>, host: string, key: Keyword, active: bool, exec: string -> bool): Option<string> {
    if ds == [] then None
    else if active && ds[0].Set? && ds[0].keyword == key then Some(ds[0].value)
    else First(ds[1..], host, key, ActiveAfter(ds[0], host, active, exec), exec)
  }

  function ActiveEnd(ds: seq<Directive>, host: string, active: bool, exec: string -> bool): bool {
    if ds == [] then active else ActiveEnd(ds[1..], host, ActiveAfter(ds[0], host, active, exec), exec)
  }

  /** The value ssh uses for `host`: nothing is active before the first block. */
  function ValueFor(ds: seq<Directive>, host: string, key: Keyword, exec: string -> bool): Option<string> {
    First(ds, host, key, false, exec)
  }

  /** How many Host lines apply to `host`. */
  function HostLines(ds: seq<Directive>, host: string): nat {
    if ds == [] then 0
    else (if ds[0].Host? && HostMatches(ds[0].pattern, host) then 1 else 0) + HostLines(ds[1..], host)
  }

  /** The commands of the Match lines that name `host`, in the order ssh runs them. */
  function Ran(ds: seq<Directive>, host: string): seq<Option<string>> {
    if ds == [] then []
    else
      (if ds[0].MatchExec? && HostMatches(ds[0].originalHost, host) then [Unquoted(ds[0].command)] else [])
      + Ran(ds[1..], host)
  }

  lemma {:induction false} RanAppend(a: seq<Directive>, b: seq<Directive>, host: string)
    ensures Ran(a + b, host) == Ran(a, host) + Ran(b, host)
  {
    if a == [] {
      assert a + b == b;
    } else {
      assert (a + b)[1..] == a[1..] + b;
      RanAppend(a[1..], b, host);
      var first := if a[0].MatchExec? && HostMatches(a[0].originalHost, host) then [Unquoted(a[0].command)] else [];
      assert first + (Ran(a[1..], host) + Ran(b, host)) == (first + Ran(a[1..], host)) + Ran(b, host);
    }
  }

  lemma {:induction false} SetsRunNothing(ds: seq<Directive>, host: string)
    requires forall d :: d in ds ==> d.Set?
    ensures Ran(ds, host) == []
  {
    if ds == [] {
    } else {
      assert ds[0] in ds;
      SetsRunNothing(ds[1..], host);
    }
  }

  /** A block runs its own command for its own host. */
  lemma {:induction false} BlockRuns(t: Target, alias: string, at: Places, host: string)
    requires |t.usernames| > 0 && NoWildcard(alias)
    ensures Ran(TargetBlock(t, alias, at), host)
         == if ToLower(alias) == ToLower(host) then [Some(at.nk + " prepare " + t.id)] else []
  {
    var command := at.nk + " prepare " + t.id;
    var m, h := MatchExec(alias, ConfigValue(command)), Host(alias);
    LowerPlain(alias);
    GlobPlain(ToLower(alias), ToLower(host));
    ValueRoundTrip(command);
    OptionsAreSets(t, at);
    SetsRunNothing(Options(t, at), host);
    RanAppend([m, h], Options(t, at), host);
    assert [m, h][1..] == [h] && [h][1..] == [];
    assert Ran([h], host) == [];
  }

  lemma {:induction false} FirstAppend(a: seq<Directive>, b: seq<Directive>, host: string, key: Keyword, active: bool,
                                       exec: string -> bool)
    ensures First(a + b, host, key, active, exec)
         == if First(a, host, key, active, exec).Some? then First(a, host, key, active, exec)
            else First(b, host, key, ActiveEnd(a, host, active, exec), exec)
    ensures ActiveEnd(a + b, host, active, exec) == ActiveEnd(b, host, ActiveEnd(a, host, active, exec), exec)
    ensures HostLines(a + b, host) == HostLines(a, host) + HostLines(b, host)
  {
    if a == [] {
      assert a + b == b;
    } else {
      assert (a + b)[1..] == a[1..] + b;
      FirstAppend(a[1..], b, host, key, ActiveAfter(a[0], host, active, exec), exec);
    }
  }

  lemma {:induction false} FirstCons(d: Directive, rest: seq<Directive>, host: string, key: Keyword, active: bool,
                                     exec: string -> bool)
    ensures var after := ActiveAfter(d, host, active, exec);
            && First([d] + rest, host, key, active, exec)
               == (if active && d.Set? && d.keyword == key then Some(d.value) else First(rest, host, key, after, exec))
            && ActiveEnd([d] + rest, host, active, exec) == ActiveEnd(rest, host, after, exec)
            && HostLines([d] + rest, host)
               == (if d.Host? && HostMatches(d.pattern, host) then 1 else 0) + HostLines(rest, host)
  {
    assert ([d] + rest)[1..] == rest;
  }

  lemma {:induction false} SetsOnly(ds: seq<Directive>, host: string, key: Keyword, active: bool, exec: string -> bool)
    requires forall d :: d in ds ==> d.Set?
    ensures ActiveEnd(ds, host, active, exec) == active && HostLines(ds, host) == 0
    ensures !active ==> First(ds, host, key, active, exec) == None
  {
    if ds == [] {
    } else {
      assert ds[0] in ds;
      SetsOnly(ds[1..], host, key, active, exec);
    }
  }

  lemma {:induction false} HeadedReads(m: Directive, alias: string, rest: seq<Directive>, host: string, key: Keyword,
                                       active: bool, exec: string -> bool)
    requires m.MatchExec? && NoWildcard(alias) && forall d :: d in rest ==> d.Set?
    ensures var b := [m, Host(alias)] + rest;
            var applies := ToLower(alias) == ToLower(host);
            && HostLines(b, host) == (if applies then 1 else 0)
            && ActiveEnd(b, host, active, exec) == applies
            && First(b, host, key, active, exec) == First(rest, host, key, applies, exec)
            && (!applies ==> First(b, host, key, active, exec) == None)
  {
    LowerPlain(alias);
    GlobPlain(ToLower(alias), ToLower(host));
    assert [m, Host(alias)] + rest == [m] + ([Host(alias)] + rest);
    FirstCons(m, [Host(alias)] + rest, host, key, active, exec);
    FirstCons(Host(alias), rest, host, key, ActiveAfter(m, host, active, exec), exec);
    SetsOnly(rest, host, key, ToLower(alias) == ToLower(host), exec);
  }

  lemma {:induction false} OptionsAreSets(t: Target, at: Places)
    requires |t.usernames| > 0
    ensures forall d :: d in Options(t, at) ==> d.Set?
  {
  }

  /** What a block gives a host to which its Host line does or does not apply. */
  lemma {:induction false} BlockReads(t: Target, alias: string, at: Places, host: string, key: Keyword, active: bool,
                                      exec: string -> bool)
    requires |t.usernames| > 0 && NoWildcard(alias)
    ensures var b := TargetBlock(t, alias, at);
            var applies := ToLower(alias) == ToLower(host);
            && HostLines(b, host) == (if applies then 1 else 0)
            && ActiveEnd(b, host, active, exec) == applies
            && First(b, host, key, active, exec) == First(Options(t, at), host, key, applies, exec)
            && (!applies ==> First(b, host, key, active, exec) == None)
  {
    OptionsAreSets(t, at);
    var head := MatchExec(alias, ConfigValue(at.nk + " prepare " + t.id));
    HeadedReads(head, alias, Options(t, at), host, key, active, exec);
  }

  lemma {:induction false} FirstAt(ds: seq<Directive>, host: string, k: nat, exec: string -> bool)
    requires k < |ds| && ds[k].Set?
    requires forall j :: 0 <= j < k ==> ds[j].Set? && ds[j].keyword != ds[k].keyword
    ensures First(ds, host, ds[k].keyword, true, exec) == Some(ds[k].value)
  {
    if k > 0 {
      FirstAt(ds[1..], host, k - 1, exec);
    }
  }

  /** What a target's block has to say about each keyword, as ssh takes it. */
  predicate Says(t: Target, at: Places, key: Keyword, value: string)
    requires |t.usernames| > 0
  {
    match key
    case User => value == t.usernames[0]
    case ProxyCommand => value == at.nk + " proxy " + t.id + " %p"
    case HostKeyAlias => value == t.id
    case CertificateFile => Unquoted(value) == Some(at.certificate(t.id))
    case IdentityFile => Unquoted(value) == Some(at.pubKey)
    case IdentityAgent => Unquoted(value) == Some(at.agent)
    case UserKnownHostsFile => Unquoted(value) == Some(at.knownHosts)
    case IdentitiesOnly => value == "yes"
    case PasswordAuthentication => value == "no"
    case StrictHostKeyChecking => value == "yes"
    case ServerAliveInterval => value == "60"
    case LogLevel => value == "ERROR"
  }

  function Position(key: Keyword): nat {
    match key
    case User => 0 case ProxyCommand => 1 case HostKeyAlias => 2 case CertificateFile => 3
    case IdentityFile => 4 case IdentityAgent => 5 case UserKnownHostsFile => 6 case IdentitiesOnly => 7
    case PasswordAuthentication => 8 case StrictHostKeyChecking => 9 case ServerAliveInterval => 10
    case LogLevel => 11
  }

  lemma {:induction false} OptionAt(t: Target, at: Places, key: Keyword)
    requires |t.usernames| > 0
    ensures var o := Options(t, at);
            && |o| == 12 && o[Position(key)].Set? && o[Position(key)].keyword == key
            && Says(t, at, key, o[Position(key)].value)
  {
    ValueRoundTrip(at.certificate(t.id));
    ValueRoundTrip(at.pubKey);
    ValueRoundTrip(at.agent);
    ValueRoundTrip(at.knownHosts);
  }

  lemma {:induction false} KeywordAt(t: Target, at: Places, j: nat)
    requires |t.usernames| > 0 && j < 12
    ensures var o := Options(t, at);
            |o| == 12 && o[j].Set? && Position(o[j].keyword) == j
  {
  }

  /** The options of a target's block, each for that target. */
  lemma {:induction false} OptionsSay(t: Target, at: Places, host: string, key: Keyword, exec: string -> bool)
    requires |t.usernames| > 0
    ensures var value := First(Options(t, at), host, key, true, exec);
            value.Some? && Says(t, at, key, value.value)
  {
    var o := Options(t, at);
    OptionAt(t, at, key);
    forall j | 0 <= j < Position(key) ensures o[j].Set? && o[j].keyword != key {
      KeywordAt(t, at, j);
    }
    FirstAt(o, host, Position(key), exec);
  }

  // ---- Main results --------------------------------------------------------

  predicate Ready(ts: seq<Target>, aliases: map<string, string>) {
    forall t :: t in ts && t.id in aliases ==> |t.usernames| > 0 && NoWildcard(aliases[t.id])
  }

  predicate AliasesApart(ts: seq<Target>, aliases: map<string, string>) {
    forall i, j :: 0 <= i < j < |ts| && ts[i].id in aliases && ts[j].id in aliases ==>
      ToLower(aliases[ts[i].id]) != ToLower(aliases[ts[j].id])
  }

  /** A host that is no alias gets nothing from the generated config. */
  lemma {:induction false} OthersGetNothing(ts: seq<Target>, aliases: map<string, string>, at: Places, host: string,
                                            key: Keyword, exec: string -> bool)
    requires Ready(ts, aliases)
    requires forall i :: 0 <= i < |ts| && ts[i].id in aliases ==> ToLower(aliases[ts[i].id]) != ToLower(host)
    ensures var ds := Rendered(ts, aliases, at);
            && ValueFor(ds, host, key, exec) == None && HostLines(ds, host) == 0
            && Ran(ds, host) == [] && !ActiveEnd(ds, host, false, exec)
  {
    if ts == [] {
    } else {
      var init, last := ts[..|ts| - 1], ts[|ts| - 1];
      OthersGetNothing(init, aliases, at, host, key, exec);
      assert last in ts;
      assert last.id !in aliases ==> Rendered(ts, aliases, at) == Rendered(init, aliases, at);
      if last.id in aliases {
        var block := TargetBlock(last, aliases[last.id], at);
        FirstAppend(Rendered(init, aliases, at), block, host, key, false, exec);
        assert ToLower(aliases[ts[|ts| - 1].id]) != ToLower(host);
        BlockReads(last, aliases[last.id], at, host, key, false, exec);
        RanAppend(Rendered(init, aliases, at), block, host);
        BlockRuns(last, aliases[last.id], at, host);
      }
    }
  }

  /** The part of a config in front of a last block, for a host that block does not name. */
  lemma {:induction false} LastBlockSilent(ts: seq<Target>, aliases: map<string, string>, at: Places, host: string,
                                           key: Keyword, exec: string -> bool)
    requires ts != [] && Ready(ts, aliases)
    requires var last := ts[|ts| - 1]; last.id in aliases ==> ToLower(aliases[last.id]) != ToLower(host)
    ensures var ds := Rendered(ts, aliases, at);
            var before := Rendered(ts[..|ts| - 1], aliases, at);
            HostLines(ds, host) == HostLines(before, host) && Ran(ds, host) == Ran(before, host)
            && ValueFor(ds, host, key, exec) == ValueFor(before, host, key, exec)
  {
    var last := ts[|ts| - 1];
    var before := Rendered(ts[..|ts| - 1], aliases, at);
    if last.id !in aliases {
      assert Rendered(ts, aliases, at) == before;
    } else {
      assert last in ts;
      FirstAppend(before, TargetBlock(last, aliases[last.id], at), host, key, false, exec);
      BlockReads(last, aliases[last.id], at, host, key, ActiveEnd(before, host, false, exec), exec);
      RanAppend(before, TargetBlock(last, aliases[last.id], at), host);
      BlockRuns(last, aliases[last.id], at, host);
    }
  }

  /** A last block that names a host nothing before it names. */
  lemma {:induction false} LastBlockAnswers(ts: seq<Target>, aliases: map<string, string>, at: Places, host: string,
                                            key: Keyword, exec: string -> bool)
    requires ts != [] && Ready(ts, aliases)
    requires var last := ts[|ts| - 1]; last.id in aliases && ToLower(aliases[last.id]) == ToLower(host)
    requires forall i :: 0 <= i < |ts| - 1 && ts[i].id in aliases ==> ToLower(aliases[ts[i].id]) != ToLower(host)
    ensures var last := ts[|ts| - 1];
            var ds := Rendered(ts, aliases, at);
            && |last.usernames| > 0
            && HostLines(ds, host) == 1 && Ran(ds, host) == [Some(at.nk + " prepare " + last.id)]
            && ValueFor(ds, host, key, exec) == First(Options(last, at), host, key, true, exec)
  {
    var last := ts[|ts| - 1];
    var init := ts[..|ts| - 1];
    assert last in ts;
    OthersGetNothing(init, aliases, at, host, key, exec);
    FirstAppend(Rendered(init, aliases, at), TargetBlock(last, aliases[last.id], at), host, key, false, exec);
    BlockReads(last, aliases[last.id], at, host, key, false, exec);
    RanAppend(Rendered(init, aliases, at), TargetBlock(last, aliases[last.id], at), host);
    BlockRuns(last, aliases[last.id], at, host);
  }

  /** Scanning the whole config for a target's alias, in any case, finds exactly
      one Host line that applies, and every option comes from that target's block. */
  lemma {:induction false} AliasResolves(ts: seq<Target>, aliases: map<string, string>, at: Places, host: string,
                                         k: nat, key: Keyword, exec: string -> bool)
    requires Ready(ts, aliases) && AliasesApart(ts, aliases)
    requires k < |ts| && ts[k].id in aliases && ToLower(host) == ToLower(aliases[ts[k].id])
    ensures |ts[k].usernames| > 0
    ensures var ds := Rendered(ts, aliases, at);
            && HostLines(ds, host) == 1 && Ran(ds, host) == [Some(at.nk + " prepare " + ts[k].id)]
            && ValueFor(ds, host, key, exec) == First(Options(ts[k], at), host, key, true, exec)
  {
    var n := |ts| - 1;
    assert ts[k] in ts;
    if k == n {
      LastBlockAnswers(ts, aliases, at, host, key, exec);
    } else {
      LastBlockSilent(ts, aliases, at, host, key, exec);
      AliasResolves(ts[..n], aliases, at, host, k, key, exec);
    }
  }

  /** Ids that stand for themselves in a Host pattern, as UUIDs do. */
  predicate IdsPlain(ts: seq<Target>) {
    forall t :: t in ts ==> NoWildcard(t.id)
  }

  lemma {:induction false} AliasesReady(ts: seq<Target>, own: seq<Block>)
    requires IdsUnique(ts) && IdsPlain(ts)
    requires forall i, j :: 0 <= i < |ts| && 0 <= j < |ts| ==> !NameTakesId(ts, own, i, j)
    ensures Ready(ts, AliasMap(ts, own, ts)) && AliasesApart(ts, AliasMap(ts, own, ts))
  {
    var aliases := AliasMap(ts, own, ts);
    forall i | 0 <= i < |ts|
      ensures Lookup(aliases, ts[i].id) == if Usable(ts[i]) then Some(AliasOf(ts, own, ts[i])) else None
      ensures Usable(ts[i]) ==> NoWildcard(AliasOf(ts, own, ts[i]))
    {
      AliasMapAt(ts, own, ts, i);
      assert NoWildcard(PREFIX);
    }
    AliasesAreDistinct(ts, own);
    forall t | t in ts && t.id in aliases ensures |t.usernames| > 0 && NoWildcard(aliases[t.id]) {
      var i :| 0 <= i < |ts| && ts[i] == t;
    }
  }

  /** The config nk generates: ssh reaches every usable target by its alias, in
      any case, through that target's own block and no other, whatever the command
      of its Match line says. That command is the only one it runs. */
  lemma {:induction false} GeneratedConfigResolves(ts: seq<Target>, own: seq<Block>, at: Places, host: string, k: nat,
                                                   key: Keyword, exec: string -> bool)
    requires IdsUnique(ts) && IdsPlain(ts)
    requires forall i, j :: 0 <= i < |ts| && 0 <= j < |ts| ==> !NameTakesId(ts, own, i, j)
    requires k < |ts| && Usable(ts[k]) && ToLower(host) == ToLower(AliasOf(ts, own, ts[k]))
    ensures Ready(ts, AliasMap(ts, own, ts))
    ensures var ds := Rendered(ts, AliasMap(ts, own, ts), at);
            var value := ValueFor(ds, host, key, exec);
            && HostLines(ds, host) == 1
            && Ran(ds, host) == [Some(at.nk + " prepare " + ts[k].id)]
            && value.Some? && Says(ts[k], at, key, value.value)
  {
    AliasesReady(ts, own);
    AliasMapAt(ts, own, ts, k);
    AliasResolves(ts, AliasMap(ts, own, ts), at, host, k, key, exec);
    OptionsSay(ts[k], at, host, key, exec);
  }
}
