/** nk sync and nk rm on a daemonless host: the order in which the host is written
    and Nokku is told. */
module TargetCommands {
  import opened Text
  import opened Sorting
  import opened Shell
  import opened ManualPlan
  import opened ManualSync
  import opened ManualOverlap

  /** A call that changes something in Nokku, whether it is answered or not, with
      the files of the host at that moment. */
  datatype Effect =
    | Created(hostKey: string, host: Fs)
    | Reported(accounts: seq<string>, hostKey: string, plan: Plan, host: Fs)
    | Deleted(keepHost: bool, host: Fs)

  /** How one ssh run of a script goes: what sshd answers, whether and where the
      connection breaks off, and whether ssh still reports success. */
  datatype Link = Link(world: World, stop: Option<nat>, reachable: bool)

  /** What the backend, the operator and the host say to one command. */
  datatype Ask = Ask(
    found: bool, pinnedKey: string, acceptKey: bool,
    probed: bool, probe: string,
    seeds: seq<string>,                          // accounts of --grant
    caKey: string, grants: Option<map<string, seq<string>>>,
    created: bool, reported: bool, deleted: bool)

  /** Nothing of Nokku's is left where sshd reads. */
  ghost predicate Cleaned(fs: Fs) {
    CA_PATH !in fs && DROP_IN_PATH !in fs && forall x :: x in fs ==> !Under(x, PRINCIPALS_DIR)
  }

  /** Nokku is told of a sync only with the host written, and of a removal only
      with the host cleaned or left alone on purpose. */
  ghost predicate InOrder(e: Effect) {
    match e
    case Created(_, _) => true
    case Reported(accounts, _, plan, host) => PlanWritten(plan, host)
    case Deleted(keepHost, host) => keepHost || Cleaned(host)
  }

  ghost predicate AllInOrder(log: seq<Effect>) {
    forall k :: 0 <= k < |log| ==> InOrder(log[k])
  }

  /** The host the probe reads, and the plan a sync makes for it. */
  function HostSeen(ask: Ask): Host {
    ProbedHost(ask.probe)
  }

  function PlanFor(ask: Ask): Plan {
    PlanOf(ask.caKey, if ask.grants.Some? then ask.grants.value else map[], HostSeen(ask))
  }

  /** The probe lets a sync go on: it read a host key, for a known target the
      pinned one unless a change is accepted, and for a new one every account of a
      grant is on the host. */
  predicate ProbeAccepted(ask: Ask) {
    && ask.probed && HostSeen(ask).hostKey != ""
    && (if ask.found then ask.pinnedKey in {"", HostSeen(ask).hostKey} || ask.acceptKey
        else forall k :: 0 <= k < |ask.seeds| ==> ask.seeds[k] in HostSeen(ask).accounts)
  }

  /** The script ran to its end and sshd accepted the host before and after. */
  predicate ScriptWorks(plan: Plan, host: Fs, link: Link) {
    link.reachable && link.stop.None? && Accepts(plan, host, link.world)
  }

  /** The removal ran to its end: sshd accepted the host without the drop-in. */
  predicate RemovalWorks(host: Fs, link: Link) {
    && link.reachable && link.stop.None?
    && (DROP_IN_PATH in host ==> link.world.sshd(0, WithoutDropIn(host)))
  }

  class Operator {
    var host: Fs
    var log: seq<Effect>

    constructor (host: Fs)
      ensures this.host == host && log == []
    {
      this.host := host;
      log := [];
    }

    /** remote.run of a script. The host keeps whatever the script got done. */
    method Run(code: seq<Instr>, link: Link) returns (ok: bool)
      modifies this`host
      ensures var r := RunAll(code, Start(old(host)), link.world);
              && (!link.reachable ==> !ok && host == old(host))
              && (link.reachable && link.stop.Some? ==> !ok && host == StoppedAt(r, old(host), link.stop.value))
              && (link.reachable && link.stop.None? ==> ok == !r.end.failed && host == r.end.fs)
    {
      if !link.reachable {
        return false;
      }
      var r := RunAll(code, Start(host), link.world);
      if link.stop.Some? {
        host := StoppedAt(r, host, link.stop.value);
        return false;
      }
      host := r.end.fs;
      ok := !r.end.failed;
    }

    /** applyPlan: the host first, Nokku only once that worked. */
    method ApplyPlan(h: Host, plan: Plan, ask: Ask, link: Link) returns (ok: bool)
      requires StrictlySorted(h.accounts)
      requires plan == PlanOf(ask.caKey, if ask.grants.Some? then ask.grants.value else map[], h)
      modifies this
      ensures old(AllInOrder(log)) ==> AllInOrder(log)
      ensures log == old(log) + if ScriptWorks(plan, old(host), link)
                                then [Reported(h.accounts, h.hostKey, plan, host)] else []
      ensures ok <==> ScriptWorks(plan, old(host), link) && ask.reported
    {
      ScriptSucceeds(plan, old(host), link.world);
      var code := Script(plan);
      var done := Run(code, link);
      if !done {
        return false;
      }
      AcceptedIsWritten(ask.caKey, if ask.grants.Some? then ask.grants.value else map[], h, old(host), link.world);
      log := log + [Reported(h.accounts, h.hostKey, plan, host)];
      ok := ask.reported;
    }

    /** checkHostKey: a changed key is never handed to users unnoticed. */
    method CheckHostKey(pinned: string, seen: string, accept: bool) returns (ok: bool)
      ensures ok <==> !(pinned != "" && pinned != seen && !accept)
    {
      if pinned == "" || pinned == seen {
        return true;
      }
      ok := accept;
    }

    /** A grant to an account the host does not have stops the sync. */
    method AccountsExist(seeds: seq<string>, accounts: seq<string>) returns (ok: bool)
      ensures ok <==> forall k :: 0 <= k < |seeds| ==> seeds[k] in accounts
    {
      for i := 0 to |seeds|
        invariant forall k :: 0 <= k < i ==> seeds[k] in accounts
      {
        if seeds[i] !in accounts {
          return false;
        }
      }
      ok := true;
    }

    /** probe: it stops when the host key changed and that was not accepted, or
        when a grant names an account the host does not have. */
    method Probe(ask: Ask, pinned: string, seeds: seq<string>) returns (h: Host, ok: bool)
      ensures ok ==> h == HostSeen(ask) && StrictlySorted(h.accounts)
      ensures ok <==>
                && ask.probed && HostSeen(ask).hostKey != ""
                && (pinned in {"", HostSeen(ask).hostKey} || ask.acceptKey)
                && forall k :: 0 <= k < |seeds| ==> seeds[k] in HostSeen(ask).accounts
    {
      if !ask.probed {
        return Host([], "", []), false;
      }
      h, ok := ParseProbe(ask.probe);
      if !ok {
        return h, false;
      }
      ok := CheckHostKey(pinned, h.hostKey, ask.acceptKey);
      if !ok {
        return h, false;
      }
      ProbedAccounts(ask.probe);
      ok := AccountsExist(seeds, h.accounts);
    }

    /** A first sync adds the target. */
    method Create(ask: Ask, h: Host) returns (ok: bool)
      modifies this`log
      ensures log == old(log) + [Created(h.hostKey, host)] && ok == ask.created
      ensures old(AllInOrder(log)) ==> AllInOrder(log)
    {
      log := log + [Created(h.hostKey, host)];
      ok := ask.created;
    }

    /** What targetSync does once the probe is accepted. */
    method SyncProbed(ask: Ask, h: Host, dryRun: bool, link: Link) returns (ok: bool)
      requires StrictlySorted(h.accounts) && h == HostSeen(ask)
      modifies this
      ensures old(AllInOrder(log)) ==> AllInOrder(log)
      ensures dryRun ==> host == old(host) && log == old(log) && (ok <==> ask.found ==> ask.grants.Some?)
      ensures !dryRun ==>
                var goesOn := (ask.found || ask.created) && ask.grants.Some?;
                && (ok <==> goesOn && ScriptWorks(PlanFor(ask), old(host), link) && ask.reported)
                && log == old(log)
                          + (if ask.found then [] else [Created(h.hostKey, old(host))])
                          + (if goesOn && ScriptWorks(PlanFor(ask), old(host), link)
                             then [Reported(h.accounts, h.hostKey, PlanFor(ask), host)] else [])
                && (!goesOn ==> host == old(host))
    {
      if !ask.found && !dryRun {
        var created := Create(ask, h);
        if !created {
          return false;
        }
      }
      var grants: map<string, seq<string>> := map[];
      if ask.found || !dryRun {
        if ask.grants.None? {
          return false;
        }
        grants := ask.grants.value;
      }
      var plan := NewPlan(ask.caKey, grants, h);
      if dryRun {
        return true;
      }
      ok := ApplyPlan(h, plan, ask, link);
    }

    /** targetSync after the target was looked up. It succeeds exactly when nothing
        stands in its way, Nokku hears of it in this order, and of nothing else. */
    method TargetSync(ask: Ask, dryRun: bool, link: Link) returns (ok: bool)
      modifies this
      ensures old(AllInOrder(log)) ==> AllInOrder(log)
      ensures dryRun || !ProbeAccepted(ask) ==> host == old(host) && log == old(log)
      ensures !ProbeAccepted(ask) ==> !ok
      ensures ProbeAccepted(ask) && dryRun ==> (ok <==> ask.found ==> ask.grants.Some?)
      ensures ProbeAccepted(ask) && !dryRun ==>
                var h := HostSeen(ask);
                var goesOn := (ask.found || ask.created) && ask.grants.Some?;
                && (ok <==> goesOn && ScriptWorks(PlanFor(ask), old(host), link) && ask.reported)
                && log == old(log)
                          + (if ask.found then [] else [Created(h.hostKey, old(host))])
                          + (if goesOn && ScriptWorks(PlanFor(ask), old(host), link)
                             then [Reported(h.accounts, h.hostKey, PlanFor(ask), host)] else [])
                && (!goesOn ==> host == old(host))
    {
      var h, go := Probe(ask, if ask.found then ask.pinnedKey else "", if ask.found then [] else ask.seeds);
      if !go {
        return false;
      }
      ok := SyncProbed(ask, h, dryRun, link);
    }

    /** targetDelete: the host is cleaned first, unless it is to be kept. */
    method TargetDelete(ask: Ask, keepHost: bool, link: Link) returns (ok: bool)
      modifies this
      ensures old(AllInOrder(log)) ==> AllInOrder(log)
      ensures log == old(log) + if ask.found && (keepHost || RemovalWorks(old(host), link))
                                then [Deleted(keepHost, host)] else []
      ensures ok <==> ask.found && (keepHost || RemovalWorks(old(host), link)) && ask.deleted
      ensures keepHost || !ask.found ==> host == old(host)
    {
      if !ask.found {
        return false;
      }
      if !keepHost {
        var done := Run(REMOVE_SCRIPT, link);
        RemoveEnd(old(host), link.world);
        if !done {
          return false;
        }
        RemovedIsCleaned(old(host), link.world);
      }
      log := log + [Deleted(keepHost, host)];
      ok := ask.deleted;
    }
  }

  lemma {:induction false} ScriptSucceeds(p: Plan, fs: Fs, w: World)
    ensures !RunAll(ScriptOf(p), Start(fs), w).end.failed <==> Accepts(p, fs, w)
  {
    ScriptEnd(ItemsOf(p.files), p.stale, fs, w);
  }

  lemma {:induction false} AcceptedIsWritten(caKey: string, grants: map<string, seq<string>>, h: Host, fs: Fs, w: World)
    requires StrictlySorted(h.accounts)
    requires !RunAll(ScriptOf(PlanOf(caKey, grants, h)), Start(fs), w).end.failed
    ensures PlanWritten(PlanOf(caKey, grants, h), RunAll(ScriptOf(PlanOf(caKey, grants, h)), Start(fs), w).end.fs)
  {
    var p := PlanOf(caKey, grants, h);
    PlanOrdered(caKey, grants, h);
    assert Accepts(p, fs, w) by {
      ScriptEnd(ItemsOf(p.files), p.stale, fs, w);
    }
    SyncLeaves(caKey, grants, h, fs, w);
  }

  lemma {:induction false} RemovedIsCleaned(fs: Fs, w: World)
    requires !RunAll(REMOVE_SCRIPT, Start(fs), w).end.failed
    ensures Cleaned(RunAll(REMOVE_SCRIPT, Start(fs), w).end.fs)
  {
    RemoveEnd(fs, w);
    var end := RunAll(REMOVE_SCRIPT, Start(fs), w).end.fs;
    forall x | x in end ensures !Under(x, PRINCIPALS_DIR) && x != CA_PATH && x != DROP_IN_PATH {
      assert Lookup(end, x).Some?;
    }
  }

  /** One command of an operator, in whatever circumstances. */
  datatype Command = SyncHost(dryRun: bool) | DeleteTarget(keepHost: bool)

  /** Over all runs of commands: Nokku never hears of a sync whose host was not
      written, and never loses a target whose host still trusts the CA unless
      that was asked for. */
  method RunCommands(o: Operator, commands: seq<(Command, Ask, Link)>)
    requires AllInOrder(o.log)
    modifies o
    ensures AllInOrder(o.log) && old(o.log) <= o.log
  {
    for k := 0 to |commands|
      invariant AllInOrder(o.log) && old(o.log) <= o.log
    {
      var (command, ask, link) := commands[k];
      match command {
        case SyncHost(dryRun) => var _ := o.TargetSync(ask, dryRun, link);
        case DeleteTarget(keepHost) => var _ := o.TargetDelete(ask, keepHost, link);
      }
    }
  }
}
