/** The persisted session and access snapshot: two files on disk that any number
    of nk processes read and write, for servers that change with --api. Tokens
    and targets remember the server they came from. */
module Session {
  import opened Text

  type Server = string

  datatype Token = Token(text: string, origin: Server)

  datatype Target = Target(id: string, origin: Server)

  /** config.json */
  datatype Config = Config(apiUrl: Server, session: Option<Token>, expiresAt: int)

  /** cache.json */
  datatype Cache = Cache(server: Server, syncedAt: int, failedAt: int, identity: bool, targets: seq<Target>)

  const NO_CONFIG := Config("", None, 0)
  const NO_CACHE := Cache("", 0, 0, false, [])

  datatype Mem = Mem(config: Config, cache: Cache)

  /** None is a file that is missing or cannot be read. */
  datatype Disk = Disk(config: Option<Config>, cache: Option<Cache>)

  function ReadConfig(d: Disk): Config {
    if d.config.Some? then d.config.value else NO_CONFIG
  }

  /** LoadCache: a snapshot of another server is never used. */
  function ReadCache(d: Disk, apiUrl: Server): Cache {
    if d.cache.None? then NO_CACHE
    else if d.cache.value.server != "" && d.cache.value.server != apiUrl then NO_CACHE
    else d.cache.value
  }

  /** loadState: another server never gets this session or shows its targets. */
  function LoadedState(d: Disk, api: Server, isSet: bool): Mem {
    var config := ReadConfig(d);
    if config.apiUrl != api && (config.apiUrl == "" || isSet) then Mem(Config(api, None, 0), NO_CACHE)
    else Mem(config, ReadCache(d, config.apiUrl))
  }

  function FromServer(server: Server, ids: seq<string>): (targets: seq<Target>)
    ensures |targets| == |ids|
    ensures forall i :: 0 <= i < |ids| ==> targets[i].id == ids[i] && targets[i].origin == server
  {
    seq(|ids|, i requires 0 <= i < |ids| => Target(ids[i], server))
  }

  // ---- What isolation means ------------------------------------------------

  predicate ConfigOk(c: Config) {
    c.session.Some? ==> c.session.value.origin == c.apiUrl
  }

  /** A snapshot with targets carries the server they came from. */
  predicate CacheOk(c: Cache) {
    && (forall i :: 0 <= i < |c.targets| ==> c.targets[i].origin == c.server)
    && (c.targets != [] ==> c.server != "")
  }

  predicate DiskOk(d: Disk) {
    (d.config.Some? ==> ConfigOk(d.config.value)) && (d.cache.Some? ==> CacheOk(d.cache.value))
  }

  predicate MemOk(m: Mem) {
    ConfigOk(m.config) && CacheOk(m.cache) && (m.cache.server == "" || m.cache.server == m.config.apiUrl)
  }

  /** The session and every target in memory come from the server in use. */
  predicate Isolated(m: Mem) {
    && (m.config.session.Some? ==> m.config.session.value.origin == m.config.apiUrl)
    && (forall i :: 0 <= i < |m.cache.targets| ==> m.cache.targets[i].origin == m.config.apiUrl)
  }

  lemma {:induction false} OkIsIsolated(m: Mem)
    requires MemOk(m)
    ensures Isolated(m)
  {
  }

  lemma {:induction false} LoadedStateOk(d: Disk, api: Server, isSet: bool)
    requires DiskOk(d)
    ensures MemOk(LoadedState(d, api, isSet))
    ensures isSet || ReadConfig(d).apiUrl == "" ==> LoadedState(d, api, isSet).config.apiUrl == api
  {
  }

  /** What a completed Save wrote is what the next command for that server loads. */
  lemma {:induction false} SaveLoadRoundTrip(m: Mem, api: Server, isSet: bool)
    requires MemOk(m) && m.config.apiUrl != "" && (api == m.config.apiUrl || !isSet)
    ensures LoadedState(Disk(Some(m.config), Some(m.cache)), api, isSet) == m
  {
  }

  /** A kill between the two writes of Save leaves the new config with the old
      snapshot: it is used when it is of the same server, and dropped otherwise. */
  lemma {:induction false} KilledBetweenWrites(m: Mem, before: Disk, api: Server)
    requires MemOk(m) && DiskOk(before) && m.config.apiUrl != ""
    ensures var loaded := LoadedState(before.(config := Some(m.config)), api, false);
            && loaded.config == m.config && Isolated(loaded)
            && (before.cache.Some? ==>
                  if before.cache.value.server == m.config.apiUrl then loaded.cache == before.cache.value
                  else loaded.cache.targets == [])
  {
    LoadedStateOk(before.(config := Some(m.config)), api, false);
  }

  // ---- Any number of processes, write by write -----------------------------

  type Pid = nat

  datatype World = World(disk: Disk, procs: map<Pid, Mem>)

  datatype Event =
    | Start(p: Pid, api: Server, isSet: bool)          // a command runs loadState
    | Reload(p: Pid)                                   // LoadCache
    | SignIn(p: Pid, token: string, expiresAt: int)    // the server in use issued a session
    | SignOut(p: Pid)                                  // the stored session was rejected
    | Fetch(p: Pid, ids: seq<string>, identity: bool, now: int)
    | Stamp(p: Pid, now: int)                          // FailedAt
    | WriteConfig(p: Pid)
    | WriteCache(p: Pid)
    | Lose(config: bool, cache: bool)                  // files deleted or damaged from outside
    | Kill(p: Pid)

  function Become(w: World, p: Pid, m: Mem): World {
    w.(procs := w.procs[p := m])
  }

  function Step(w: World, e: Event): World {
    match e
    case Start(p, api, isSet) => if p in w.procs then w else Become(w, p, LoadedState(w.disk, api, isSet))
    case Reload(p) =>
      if p !in w.procs then w
      else Become(w, p, w.procs[p].(cache := ReadCache(w.disk, w.procs[p].config.apiUrl)))
    case SignIn(p, token, expiresAt) =>
      if p !in w.procs then w
      else
        var c := w.procs[p].config;
        Become(w, p, w.procs[p].(config := c.(session := Some(Token(token, c.apiUrl)), expiresAt := expiresAt)))
    case SignOut(p) =>
      if p !in w.procs then w
      else Become(w, p, w.procs[p].(config := w.procs[p].config.(session := None, expiresAt := 0)))
    case Fetch(p, ids, identity, now) =>
      if p !in w.procs || w.procs[p].config.apiUrl == "" then w
      else
        var server := w.procs[p].config.apiUrl;
        Become(w, p, w.procs[p].(cache := Cache(server, now, 0, identity, FromServer(server, ids))))
    case Stamp(p, now) =>
      if p !in w.procs then w else Become(w, p, w.procs[p].(cache := w.procs[p].cache.(failedAt := now)))
    case WriteConfig(p) => if p !in w.procs then w else w.(disk := w.disk.(config := Some(w.procs[p].config)))
    case WriteCache(p) => if p !in w.procs then w else w.(disk := w.disk.(cache := Some(w.procs[p].cache)))
    case Lose(config, cache) =>
      w.(disk := Disk(if config then None else w.disk.config, if cache then None else w.disk.cache))
    case Kill(p) => w.(procs := w.procs - {p})
  }

  function Run(w: World, es: seq<Event>): World {
    if es == [] then w else Step(Run(w, es[..|es| - 1]), es[|es| - 1])
  }

  predicate WorldOk(w: World) {
    DiskOk(w.disk) && forall p :: p in w.procs ==> MemOk(w.procs[p])
  }

  lemma {:induction false} StepOk(w: World, e: Event)
    requires WorldOk(w)
    ensures WorldOk(Step(w, e))
  {
    if e.Start? {
      LoadedStateOk(w.disk, e.api, e.isSet);
    }
  }

  /** Isolation: whatever nk processes do, in any order, write by write, with any
      switches of server, failures and kills, no process ever holds a session or
      a target of another server than the one it uses. It starts from files whose
      snapshot, if it has targets, carries its server. */
  lemma {:induction false} IsolationHolds(w: World, es: seq<Event>)
    requires WorldOk(w)
    ensures WorldOk(Run(w, es))
    ensures forall p :: p in Run(w, es).procs ==> Isolated(Run(w, es).procs[p])
  {
    if es == [] {
    } else {
      IsolationHolds(w, es[..|es| - 1]);
      StepOk(Run(w, es[..|es| - 1]), es[|es| - 1]);
    }
    forall p | p in Run(w, es).procs ensures Isolated(Run(w, es).procs[p]) {
      OkIsIsolated(Run(w, es).procs[p]);
    }
  }

  lemma {:induction false} RunSnoc(w: World, es: seq<Event>, e: Event)
    ensures Run(w, es + [e]) == Step(Run(w, es), e)
  {
    assert (es + [e])[..|es|] == es;
  }

  /** A command with --api b that is killed between the two writes of its Save. */
  function SwitchTo(b: Server): seq<Event> {
    [Start(0, b, true)] + [WriteConfig(0)] + [Kill(0)] + [Start(0, b, true)]
  }

  lemma {:induction false} SwitchEnd(d: Disk, b: Server)
    requires b != ReadConfig(d).apiUrl
    ensures var w := Run(World(d, map[]), SwitchTo(b));
            0 in w.procs && w.procs[0] == Mem(Config(b, None, 0), ReadCache(d, b))
  {
    var w := World(d, map[]);
    assert [] + [Start(0, b, true)] == [Start(0, b, true)];
    RunSnoc(w, [], Start(0, b, true));
    RunSnoc(w, [Start(0, b, true)], WriteConfig(0));
    RunSnoc(w, [Start(0, b, true)] + [WriteConfig(0)], Kill(0));
    RunSnoc(w, [Start(0, b, true)] + [WriteConfig(0)] + [Kill(0)], Start(0, b, true));
  }

  /** A snapshot from before the field existed is taken for one of whatever server
      comes next: any other server than the stored one and the targets' own gets
      to see the targets, after one kill between the two writes of a Save. */
  lemma {:induction false} LegacySnapshotLeaks(d: Disk, b: Server)
    requires d.cache.Some? && d.cache.value.server == "" && d.cache.value.targets != []
    requires b != ReadConfig(d).apiUrl
    requires exists i :: 0 <= i < |d.cache.value.targets| && d.cache.value.targets[i].origin != b
    ensures var w := Run(World(d, map[]), SwitchTo(b));
            0 in w.procs && w.procs[0].config.apiUrl == b && !Isolated(w.procs[0])
  {
    SwitchEnd(d, b);
  }

  ghost predicate StaysIsolated(d: Disk) {
    forall es: seq<Event>, p: Pid :: p in Run(World(d, map[]), es).procs ==>
      Isolated(Run(World(d, map[]), es).procs[p])
  }

  lemma {:induction false} FirstCommandLeaks(d: Disk)
    requires !Isolated(LoadedState(d, ReadConfig(d).apiUrl, false))
    ensures !StaysIsolated(d)
  {
    var start := Start(0, ReadConfig(d).apiUrl, false);
    RunSnoc(World(d, map[]), [], start);
    assert 0 in Run(World(d, map[]), [] + [start]).procs;
  }

  lemma {:induction false} SwitchLeaks(d: Disk, b: Server)
    requires b != ReadConfig(d).apiUrl && !Isolated(Mem(Config(b, None, 0), ReadCache(d, b)))
    ensures !StaysIsolated(d)
  {
    SwitchEnd(d, b);
    assert 0 in Run(World(d, map[]), SwitchTo(b)).procs;
  }

  lemma {:induction false} BadDiskLeaks(d: Disk)
    requires !DiskOk(d)
    ensures !StaysIsolated(d)
  {
    var stored := ReadConfig(d).apiUrl;
    if !ConfigOk(ReadConfig(d)) {
      FirstCommandLeaks(d);
    } else {
      var c := d.cache.value;
      assert c.targets != [];
      if c.server == "" {
        var b := c.targets[0].origin + stored + "x";
        assert |b| > |stored| && |b| > |c.targets[0].origin|;
        LegacySnapshotLeaks(d, b);
        SwitchLeaks(d, b);
      } else if c.server == stored {
        FirstCommandLeaks(d);
      } else {
        SwitchLeaks(d, c.server);
      }
    }
  }

  /** Isolation is exact: no run of any processes breaks it if and only if the
      stored session belongs to the stored server and a snapshot with targets
      carries the server they came from. */
  lemma {:induction false} IsolationIsExact(d: Disk)
    ensures StaysIsolated(d) <==> DiskOk(d)
  {
    if DiskOk(d) {
      forall es: seq<Event>, p: Pid | p in Run(World(d, map[]), es).procs
        ensures Isolated(Run(World(d, map[]), es).procs[p])
      {
        IsolationHolds(World(d, map[]), es);
      }
    } else {
      BadDiskLeaks(d);
    }
  }

  // ---- The code ------------------------------------------------------------

  /** The two files. `left` is how many more writes of this process work: the ones
      after that fail, or the process was killed before them. */
  class Files {
    var config: Option<Config>
    var cache: Option<Cache>
    var left: nat

    constructor (d: Disk, left: nat)
      ensures Value() == d && this.left == left
    {
      config, cache := d.config, d.cache;
      this.left := left;
    }

    function Value(): Disk
      reads this
    {
      Disk(config, cache)
    }
  }

  /** How the backend answered GetMyAccess. `cleaned` says whether the certificates
      of removed targets could be deleted then, `configured` whether the ssh files
      could be written. */
  datatype Answer =
    | Access(ids: seq<string>, identity: bool, cleaned: bool, configured: bool)
    | Unauthenticated | Untrusted | Unreachable

  /** What a device sign-in brought. `expiresIn` is 0 when the server gave none. */
  datatype Login = Login(token: string, expiresIn: int)

  datatype Outcome = Done | Rejected | Distrusted | Failed

  // ---- When a sync succeeds ------------------------------------------------

  /** An access request that is answered, taken over and written. */
  predicate Finishes(answer: Answer, left: nat) {
    answer.Access? && answer.cleaned && answer.configured && left >= 2
  }

  /** What is known before a sync: whether this is a service account, whether the
      session counts as valid, when it ends, and how many writes still work. */
  datatype Before = Before(service: bool, valid: bool, expiresAt: int, left: nat)

  /** The request is made: the session holds, or a sign-in replaces it and is saved. */
  predicate CanAsk(b: Before, interactive: bool, login: Option<Login>) {
    b.valid || (interactive && login.Some? && b.left >= 2)
  }

  /** The same after a request that brought no snapshot. */
  function Asked(b: Before, now: int, login: Option<Login>): Before {
    if b.valid || login.None? then b
    else
      var expiresAt := if login.value.expiresIn > 0 then now + login.value.expiresIn else b.expiresAt;
      Before(b.service, expiresAt == 0 || now < expiresAt, expiresAt, if b.left < 2 then 0 else b.left - 2)
  }

  /** A request after a rejected session was replaced, for which only a person has
      to sign in anew. */
  predicate RenewedDone(b: Before, interactive: bool, login: Option<Login>, answer: Answer) {
    interactive && if b.service then Finishes(answer, b.left)
                   else login.Some? && b.left >= 2 && Finishes(answer, b.left - 2)
  }

  /** The routes of a sync: the first request finishes, or the second one once the
      operator trusted the server, or the one after a rejected session was replaced. */
  predicate Succeeds(b: Before, now: int, interactive: bool, pinned: bool, confirmed: bool,
                     logins: seq<Option<Login>>, answers: seq<Answer>)
    requires |logins| == 3 && |answers| == 3
  {
    var c := Asked(b, now, logins[0]);
    var d := Asked(c, now, logins[1]);
    && pinned && CanAsk(b, interactive, logins[0])
    && (|| Finishes(answers[0], c.left)
        || (answers[0] == Unauthenticated && RenewedDone(c, interactive, logins[2], answers[2]))
        || (answers[0] == Untrusted && confirmed && CanAsk(c, interactive, logins[1])
            && (|| Finishes(answers[1], d.left)
                || (answers[1] == Unauthenticated && RenewedDone(d, interactive, logins[2], answers[2])))))
  }

  /** With a session that holds, two writes are enough for each route, and two more
      for a person's new sign-in. */
  lemma {:induction false} ValidSessionSyncs(b: Before, now: int, interactive: bool, confirmed: bool,
                                             logins: seq<Option<Login>>, answers: seq<Answer>)
    requires |logins| == 3 && |answers| == 3 && b.valid && b.left >= 2
    ensures answers[0].Access? && answers[0].cleaned && answers[0].configured ==>
              Succeeds(b, now, interactive, true, confirmed, logins, answers)
    ensures answers[0] == Untrusted && answers[1].Access? && answers[1].cleaned && answers[1].configured ==>
              (Succeeds(b, now, interactive, true, confirmed, logins, answers) <==> confirmed)
    ensures answers[0] == Unauthenticated && answers[2].Access? && answers[2].cleaned && answers[2].configured ==>
              (Succeeds(b, now, interactive, true, confirmed, logins, answers) <==>
               interactive && (b.service || (logins[2].Some? && b.left >= 4)))
    ensures answers[0] == Unreachable || (answers[0].Access? && !(answers[0].cleaned && answers[0].configured)) ==>
              !Succeeds(b, now, interactive, true, confirmed, logins, answers)
  {
  }

  /** Without one, nothing is asked unless a person signs in. */
  lemma {:induction false} NoSessionNoSync(b: Before, now: int, interactive: bool, pinned: bool, confirmed: bool,
                                           logins: seq<Option<Login>>, answers: seq<Answer>)
    requires |logins| == 3 && |answers| == 3 && !b.valid
    ensures !interactive || logins[0].None? ==>
              !Succeeds(b, now, interactive, pinned, confirmed, logins, answers)
    ensures interactive && pinned && logins[0].Some? && answers[0].Access? && answers[0].cleaned
            && answers[0].configured ==>
              (Succeeds(b, now, interactive, pinned, confirmed, logins, answers) <==> b.left >= 4)
  {
  }

  class State {
    var config: Config
    var cache: Cache
    const serviceAccount: bool

    function Value(): Mem
      reads this
    {
      Mem(config, cache)
    }

    /** loadState of the global flags. */
    constructor Load(f: Files, api: Server, isSet: bool, serviceAccount: bool)
      ensures Value() == LoadedState(f.Value(), api, isSet)
      ensures this.serviceAccount == serviceAccount
      ensures DiskOk(f.Value()) ==> MemOk(Value())
    {
      this.serviceAccount := serviceAccount;
      config := if f.config.Some? then f.config.value else NO_CONFIG;
      cache := NO_CACHE;
      new;
      LoadCache(f);
      if config.apiUrl != api && (config.apiUrl == "" || isSet) {
        config := Config(api, None, 0);
        cache := NO_CACHE;
      }
    }

    method LoadCache(f: Files)
      modifies this`cache
      ensures cache == ReadCache(f.Value(), config.apiUrl)
      ensures DiskOk(f.Value()) && ConfigOk(config) ==> MemOk(Value())
    {
      cache := NO_CACHE;
      if f.cache.Some? {
        cache := f.cache.value;
      }
      if cache.server != "" && cache.server != config.apiUrl {
        cache := NO_CACHE;
      }
    }

    /** Save writes the config, then the snapshot. Other processes may replace the
        files in between, and either write may fail or come after a kill. */
    method Save(f: Files, others: Option<Disk>) returns (ok: bool)
      modifies f
      ensures ok <==> old(f.left) >= 2
      ensures f.left == (if old(f.left) < 2 then 0 else old(f.left) - 2)
      ensures var between := if others.Some? then others.value
                             else if old(f.left) == 0 then old(f.Value()) else old(f.Value()).(config := Some(config));
              f.Value() == (if !ok then between else between.(cache := Some(cache)))
      ensures MemOk(Value()) && DiskOk(old(f.Value())) && (others.Some? ==> DiskOk(others.value)) ==> DiskOk(f.Value())
    {
      var first := f.left > 0;
      if first {
        f.config := Some(config);
        f.left := f.left - 1;
      }
      if others.Some? {
        f.config, f.cache := others.value.config, others.value.cache;
      }
      if !first || f.left == 0 {
        return false;
      }
      f.cache := Some(cache);
      f.left := f.left - 1;
      ok := true;
    }

    method MarkSyncFailed(f: Files, now: int)
      modifies this`cache, f
      ensures cache == old(cache).(failedAt := now)
      ensures f.left == if old(f.left) > 0 then old(f.left) - 1 else 0
      ensures f.Value() == (if old(f.left) > 0 then old(f.Value()).(cache := Some(cache)) else old(f.Value()))
      ensures old(MemOk(Value())) ==> MemOk(Value())
      ensures old(MemOk(Value()) && DiskOk(f.Value())) ==> DiskOk(f.Value())
    {
      cache := cache.(failedAt := now);
      if f.left > 0 {
        f.cache := Some(cache);
        f.left := f.left - 1;
      }
    }

    predicate SessionValid(now: int)
      reads this
    {
      serviceAccount || (config.session.Some? && (config.expiresAt == 0 || now < config.expiresAt))
    }

    predicate HasCachedData()
      reads this
    {
      cache.targets != [] && cache.identity
    }

    function Now(f: Files, now: int): Before
      reads this, f
    {
      Before(serviceAccount, SessionValid(now), config.expiresAt, f.left)
    }

    /** ensureSession: a sign-in only when it may ask, and it is saved at once. A
        server that gives no expiry leaves the old one standing, so the new session
        counts as valid exactly when it has its own expiry or the old one is not past. */
    method EnsureSession(f: Files, interactive: bool, now: int, login: Option<Login>) returns (ok: bool)
      requires MemOk(Value()) && DiskOk(f.Value())
      modifies this`config, f
      ensures MemOk(Value()) && DiskOk(f.Value()) && config.apiUrl == old(config.apiUrl)
      ensures ok <==>
                || serviceAccount
                || old(config.session.Some? && (config.expiresAt == 0 || now < config.expiresAt))
                || (interactive && login.Some? && old(f.left) >= 2)
      ensures old(SessionValid(now)) || !interactive || login.None? ==>
                config == old(config) && f.Value() == old(f.Value())
      ensures f.left == if old(SessionValid(now)) || !interactive || login.None? then old(f.left)
                        else if old(f.left) < 2 then 0 else old(f.left) - 2
      ensures ok && !old(SessionValid(now)) ==>
                config.expiresAt ==
                if login.value.expiresIn > 0 then now + login.value.expiresIn else old(config.expiresAt)
      ensures ok && !old(SessionValid(now)) ==> f.config == Some(config)
      ensures ok && !old(SessionValid(now)) ==> config.session == Some(Token(login.value.token, config.apiUrl))
      ensures ok && !old(SessionValid(now)) ==>
                (SessionValid(now) <==>
                 login.value.expiresIn > 0 || old(config.expiresAt) == 0 || now < old(config.expiresAt))
    {
      if serviceAccount {
        return true;
      }
      if SessionValid(now) {
        return true;
      }
      if !interactive || login.None? {
        return false;
      }
      config := config.(session := Some(Token(login.value.token, config.apiUrl)));
      if login.value.expiresIn > 0 {
        config := config.(expiresAt := now + login.value.expiresIn);
      }
      ok := Save(f, None);
    }

    /** The snapshot an answer brings. */
    function Snapshot(answer: Answer, now: int): Cache
      requires answer.Access?
      reads this
    {
      Cache(config.apiUrl, now, 0, answer.identity, FromServer(config.apiUrl, answer.ids))
    }

    /** Whether an access request is made: with a session, old or new. */
    predicate Ready(f: Files, interactive: bool, now: int, login: Option<Login>)
      reads this, f
    {
      SessionValid(now) || (interactive && login.Some? && f.left >= 2)
    }

    /** sync: one access request to the server in use. The snapshot is taken over
        once the old certificates are gone, and the call succeeds when it is on
        disk and the ssh files are written. */
    method SyncOnce(f: Files, interactive: bool, now: int, login: Option<Login>, answer: Answer)
      returns (r: Outcome, asked: bool)
      requires MemOk(Value()) && DiskOk(f.Value()) && config.apiUrl != ""
      modifies this, f
      ensures MemOk(Value()) && DiskOk(f.Value()) && config.apiUrl == old(config.apiUrl)
      ensures asked == old(Ready(f, interactive, now, login))
      ensures r == Rejected <==> asked && answer == Unauthenticated
      ensures r == Distrusted <==> asked && answer == Untrusted
      ensures r == Done <==> asked && answer.Access? && answer.cleaned && answer.configured
                             && old(f.left) >= (if old(SessionValid(now)) then 2 else 4)
      ensures cache == if asked && answer.Access? && answer.cleaned then Snapshot(answer, now) else old(cache)
      ensures r == Done ==> f.cache == Some(cache) && f.config == Some(config)
      ensures old(SessionValid(now)) && !answer.Access? ==>
                Value() == old(Value()) && f.Value() == old(f.Value()) && f.left == old(f.left)
      ensures asked && !answer.Access? ==> Now(f, now) == Asked(old(Now(f, now)), now, login)
    {
      asked := EnsureSession(f, interactive, now, login);
      if !asked {
        return Failed, false;
      }
      match answer {
        case Unauthenticated => return Rejected, true;
        case Untrusted => return Distrusted, true;
        case Unreachable => return Failed, true;
        case Access(ids, identity, cleaned, configured) =>
          if !cleaned {
            return Failed, true;
          }
          cache := Cache(config.apiUrl, now, 0, identity, FromServer(config.apiUrl, ids));
          var ok := Save(f, None);
          return if ok && configured then Done else Failed, true;
      }
    }

    /** A rejected session is dropped, then a sign-in and one more request. */
    method SignInAgain(f: Files, now: int, login: Option<Login>, answer: Answer) returns (ok: bool, asked: bool)
      requires MemOk(Value()) && DiskOk(f.Value()) && config.apiUrl != ""
      modifies this, f
      ensures MemOk(Value()) && DiskOk(f.Value()) && config.apiUrl == old(config.apiUrl)
      ensures asked <==> serviceAccount || (login.Some? && old(f.left) >= 2)
      ensures ok <==> asked && Finishes(answer, if serviceAccount then old(f.left) else old(f.left) - 2)
      ensures ok ==> cache == Snapshot(answer, now) && f.cache == Some(cache) && f.config == Some(config)
    {
      config := config.(session := None, expiresAt := 0);
      var signedIn := EnsureSession(f, true, now, login);
      if !signedIn {
        return false, false;
      }
      var r;
      r, asked := SyncOnce(f, false, now, None, answer);
      ok := r == Done;
    }

    /** Sync: once more after the operator trusted the server's CA, and once more
        after a rejected session was replaced by a sign-in. `second` and `third`
        say whether those requests were made. */
    method Sync(f: Files, interactive: bool, now: int, pinned: bool, confirmed: bool,
                logins: seq<Option<Login>>, answers: seq<Answer>)
      returns (ok: bool, second: bool, third: bool)
      requires |logins| == 3 && |answers| == 3
      requires MemOk(Value()) && DiskOk(f.Value()) && config.apiUrl != ""
      modifies this, f
      ensures MemOk(Value()) && DiskOk(f.Value()) && config.apiUrl == old(config.apiUrl)
      ensures !pinned || (answers[0] == Unreachable && old(SessionValid(now))) ==>
                !ok && !third && Value() == old(Value()) && f.Value() == old(f.Value())
      ensures second ==> pinned && confirmed && answers[0] == Untrusted && old(Ready(f, interactive, now, logins[0]))
      ensures pinned && confirmed && answers[0] == Untrusted && old(SessionValid(now)) ==> second
      ensures third ==> pinned && interactive && (if second then answers[1] else answers[0]) == Unauthenticated
                        && (serviceAccount || logins[2].Some?)
      ensures pinned && interactive && answers[0] == Unauthenticated && old(SessionValid(now)) ==>
                (serviceAccount || (logins[2].Some? && old(f.left) >= 2) ==> third)
      ensures ok ==> var last := if third then answers[2] else if second then answers[1] else answers[0];
                     && last.Access? && cache.identity == last.identity && cache.server == config.apiUrl
                     && cache.syncedAt == now && cache.failedAt == 0
                     && cache.targets == FromServer(config.apiUrl, last.ids)
      ensures ok ==> f.cache == Some(cache) && f.config == Some(config)
      ensures ok <==> Succeeds(old(Now(f, now)), now, interactive, pinned, confirmed, logins, answers)
    {
      second, third := false, false;
      if !pinned {
        return false, false, false;
      }
      var r, asked := SyncOnce(f, interactive, now, logins[0], answers[0]);
      if r == Distrusted {
        if !confirmed {
          return false, false, false;
        }
        r, second := SyncOnce(f, interactive, now, logins[1], answers[1]);
      }
      if r != Rejected || !interactive {
        return r == Done, second, false;
      }
      ok, third := SignInAgain(f, now, logins[2], answers[2]);
    }

    /** SyncOrCache: the snapshot on disk when the sync failed. Other processes may
        have replaced the files meanwhile. */
    method SyncOrCache(f: Files, interactive: bool, now: int, pinned: bool, confirmed: bool,
                       logins: seq<Option<Login>>, answers: seq<Answer>, others: Option<Disk>, failedAt: int)
      returns (ok: bool, synced: bool)
      requires |logins| == 3 && |answers| == 3
      requires MemOk(Value()) && DiskOk(f.Value()) && config.apiUrl != ""
      requires others.Some? ==> DiskOk(others.value)
      modifies this, f
      ensures MemOk(Value()) && DiskOk(f.Value()) && config.apiUrl == old(config.apiUrl)
      ensures synced <==> Succeeds(old(Now(f, now)), now, interactive, pinned, confirmed, logins, answers)
      ensures synced ==> ok && cache.syncedAt == now && cache.failedAt == 0 && f.cache == Some(cache)
      ensures ok && !synced ==> cache.targets != [] && cache.identity && cache.failedAt == failedAt
      ensures ok && !synced ==> f.cache == Some(cache) || (f.left == 0 && f.cache.Some?)
      ensures !synced && others.Some? ==>
                var read := ReadCache(others.value, config.apiUrl);
                && (ok <==> read.targets != [] && read.identity)
                && cache == if ok then read.(failedAt := failedAt) else read
      ensures answers[0] == Unreachable && old(SessionValid(now)) && others.None? ==>
                var read := ReadCache(old(f.Value()), config.apiUrl);
                && !synced && (ok <==> read.targets != [] && read.identity)
                && cache == if ok then read.(failedAt := failedAt) else read
    {
      var done, second, third := Sync(f, interactive, now, pinned, confirmed, logins, answers);
      synced := done;
      if synced {
        return true, true;
      }
      if others.Some? {
        f.config, f.cache := others.value.config, others.value.cache;
      }
      LoadCache(f);
      if !HasCachedData() {
        return false, false;
      }
      MarkSyncFailed(f, failedAt);
      ok := true;
    }
  }
}
