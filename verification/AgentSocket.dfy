/** One background agent owns the agent socket. Any number of processes run
    listenAgent, close their listener from several shutdown sources, or crash,
    interleaved system call by system call. */
module AgentSocket {
  import opened Text

  type Pid = nat

  datatype Stage =
    | Starting      // RunAgent found no agent answering
    | Locked        // holds the flock
    | Cleared       // removed the stale socket file
    | Bound         // listens on the path
    | Ended         // gave up, exited or crashed

  /** One call of lockedListener.Close. Go unlinks a unix socket by its path,
      once per listener, before it closes the descriptor. */
  datatype Closer = Called | PastUnlink | PastClose | Returned

  datatype Proc = Proc(stage: Stage, lockOpen: bool, bound: bool, listening: bool, unlinked: bool,
                       closers: map<nat, Closer>)

  /** `holder` has the flock, `path` is whose socket file is at the path. */
  datatype Os = Os(holder: Option<Pid>, path: Option<Pid>, procs: map<Pid, Proc>)

  const BOOT := Os(None, None, map[])

  datatype Event =
    | Spawn(p: Pid)
    | TryLock(p: Pid)
    | Clear(p: Pid, ok: bool)             // os.Remove of a stale socket
    | Bind(p: Pid, ok: bool)              // Listen, which also fails when the path is taken
    | CallClose(p: Pid, c: nat)           // idle timer, context, shutdown request, failed chmod
    | Unlink(p: Pid, c: nat)
    | CloseSocket(p: Pid, c: nat)
    | CloseLock(p: Pid, c: nat)
    | Die(p: Pid)                         // exit or crash, the kernel closes everything

  function Put(s: Os, p: Pid, proc: Proc): Os {
    s.(procs := s.procs[p := proc])
  }

  /** Closing the lock file gives up the flock if this process still has it. */
  function Unlocked(s: Os, p: Pid): Os {
    if s.holder == Some(p) then s.(holder := None) else s
  }

  function End(s: Os, p: Pid): Os
    requires p in s.procs
  {
    Put(Unlocked(s, p), p, s.procs[p].(stage := Ended, lockOpen := false, listening := false))
  }

  predicate At(s: Os, p: Pid, stage: Stage) {
    p in s.procs && s.procs[p].stage == stage
  }

  predicate Closing(s: Os, p: Pid, c: nat, at: Closer) {
    At(s, p, Bound) && c in s.procs[p].closers && s.procs[p].closers[c] == at
  }

  function Moved(s: Os, p: Pid, c: nat, to: Closer): Os
    requires p in s.procs
  {
    Put(s, p, s.procs[p].(closers := s.procs[p].closers[c := to]))
  }

  function Step(s: Os, e: Event): Os {
    match e
    case Spawn(p) =>
      if p in s.procs then s else Put(s, p, Proc(Starting, false, false, false, false, map[]))
    case TryLock(p) =>
      if !At(s, p, Starting) then s
      else if s.holder.Some? then End(s, p)
      else Put(s.(holder := Some(p)), p, s.procs[p].(stage := Locked, lockOpen := true))
    case Clear(p, ok) =>
      if !At(s, p, Locked) then s
      else if !ok then End(s, p)
      else Put(s.(path := None), p, s.procs[p].(stage := Cleared))
    case Bind(p, ok) =>
      if !At(s, p, Cleared) then s
      else if !ok || s.path.Some? then End(s, p)
      else Put(s.(path := Some(p)), p, s.procs[p].(stage := Bound, bound := true, listening := true))
    case CallClose(p, c) =>
      if !At(s, p, Bound) || c in s.procs[p].closers then s else Moved(s, p, c, Called)
    case Unlink(p, c) =>
      if !Closing(s, p, c, Called) then s
      else if s.procs[p].unlinked then Moved(s, p, c, PastUnlink)
      else
        var proc := s.procs[p];
        Put(s.(path := None), p, proc.(unlinked := true, closers := proc.closers[c := PastUnlink]))
    case CloseSocket(p, c) =>
      if !Closing(s, p, c, PastUnlink) then s
      else
        var proc := s.procs[p];
        Put(s, p, proc.(listening := false, closers := proc.closers[c := PastClose]))
    case CloseLock(p, c) =>
      if !Closing(s, p, c, PastClose) then s
      else
        var proc := s.procs[p];
        Put(if proc.lockOpen then Unlocked(s, p) else s, p,
            proc.(lockOpen := false, closers := proc.closers[c := Returned]))
    case Die(p) => if p !in s.procs || s.procs[p].stage == Ended then s else End(s, p)
  }

  function Run(s: Os, es: seq<Event>): Os {
    if es == [] then s else Step(Run(s, es[..|es| - 1]), es[|es| - 1])
  }

  // ---- What every interleaving keeps ---------------------------------------

  /** An agent that listens and has not begun to take its socket down. */
  predicate Live(s: Os, p: Pid) {
    At(s, p, Bound) && s.procs[p].listening && !s.procs[p].unlinked
  }

  predicate ProcInv(s: Os, p: Pid)
    requires p in s.procs
  {
    var proc := s.procs[p];
    && (proc.lockOpen <==> s.holder == Some(p))
    && (proc.stage == Locked || proc.stage == Cleared ==>
          proc.lockOpen && !proc.bound && !proc.unlinked && proc.closers == map[])
    && (proc.stage == Starting ==> !proc.lockOpen && !proc.bound && !proc.unlinked && proc.closers == map[])
    && (s.path == Some(p) ==> proc.bound && !proc.unlinked)
    && (proc.stage == Bound ==> proc.bound)
    && (proc.stage == Cleared ==> s.path.None?)
    && (proc.stage == Bound && !proc.unlinked ==> proc.lockOpen && proc.listening && s.path == Some(p))
    && (proc.stage == Bound && !proc.unlinked ==> forall c :: c in proc.closers ==> proc.closers[c] == Called)
    && (proc.stage == Ended ==> !proc.lockOpen && !proc.listening)
  }

  ghost predicate Inv(s: Os) {
    && (s.holder.Some? ==> s.holder.value in s.procs)
    && (s.path.Some? ==> s.path.value in s.procs)
    && (forall p :: p in s.procs ==> ProcInv(s, p))
  }

  function Actor(e: Event): Pid {
    match e
    case Spawn(p) => p
    case TryLock(p) => p
    case Clear(p, _) => p
    case Bind(p, _) => p
    case CallClose(p, _) => p
    case Unlink(p, _) => p
    case CloseSocket(p, _) => p
    case CloseLock(p, _) => p
    case Die(p) => p
  }

  /** An event of another process leaves a process its lock, and its socket too
      unless that was unlinked already. */
  lemma {:induction false} StepOther(s: Os, e: Event, p: Pid)
    requires p in s.procs && ProcInv(s, p) && p != Actor(e)
    requires Actor(e) in s.procs ==> ProcInv(s, Actor(e))
    ensures p in Step(s, e).procs && Step(s, e).procs[p] == s.procs[p]
    ensures Step(s, e).holder == Some(p) <==> s.holder == Some(p)
    ensures Step(s, e).path == Some(p) ==> s.path == Some(p)
    ensures s.procs[p].stage == Bound && !s.procs[p].unlinked ==> Step(s, e).path == Some(p)
    ensures s.procs[p].stage == Cleared ==> Step(s, e).path.None?
  {
    match e
    case TryLock(_) =>
    case Clear(_, _) =>
    case Bind(_, _) =>
    case Unlink(_, _) =>
    case _ =>
  }

  lemma {:induction false} OtherInv(s: Os, e: Event, p: Pid)
    requires p in s.procs && ProcInv(s, p) && p != Actor(e)
    requires Actor(e) in s.procs ==> ProcInv(s, Actor(e))
    ensures p in Step(s, e).procs && ProcInv(Step(s, e), p)
  {
    StepOther(s, e, p);
  }

  lemma {:induction false} StartInv(s: Os, e: Event)
    requires e.Spawn? || e.TryLock? || e.Clear? || e.Bind?
    requires Inv(s)
    ensures Actor(e) in Step(s, e).procs ==> ProcInv(Step(s, e), Actor(e))
  {
    assert Actor(e) in s.procs ==> ProcInv(s, Actor(e));
    match e
    case Spawn(_) =>
    case TryLock(_) =>
    case Clear(_, _) =>
    case Bind(_, _) =>
    case _ =>
  }

  lemma {:induction false} StopInv(s: Os, e: Event)
    requires !(e.Spawn? || e.TryLock? || e.Clear? || e.Bind?)
    requires Inv(s)
    ensures Actor(e) in Step(s, e).procs ==> ProcInv(Step(s, e), Actor(e))
  {
    assert Actor(e) in s.procs ==> ProcInv(s, Actor(e));
    match e
    case CallClose(_, _) =>
    case Unlink(_, _) =>
    case CloseSocket(_, _) =>
    case CloseLock(_, _) =>
    case _ =>
  }

  lemma {:induction false} StepOwners(s: Os, e: Event)
    requires Inv(s)
    ensures var t := Step(s, e);
            && (t.holder.Some? ==> t.holder.value in t.procs)
            && (t.path.Some? ==> t.path.value in t.procs)
            && (forall p :: p in t.procs ==> p in s.procs || p == Actor(e))
  {
  }

  lemma {:induction false} StepInv(s: Os, e: Event)
    requires Inv(s)
    ensures Inv(Step(s, e))
  {
    var t := Step(s, e);
    StepOwners(s, e);
    forall p | p in t.procs ensures ProcInv(t, p) {
      if p == Actor(e) {
        if e.Spawn? || e.TryLock? || e.Clear? || e.Bind? {
          StartInv(s, e);
        } else {
          StopInv(s, e);
        }
      } else {
        OtherInv(s, e, p);
      }
    }
  }

  lemma {:induction false} RunInv(es: seq<Event>)
    ensures Inv(Run(BOOT, es))
  {
    if es == [] {
    } else {
      RunInv(es[..|es| - 1]);
      StepInv(Run(BOOT, es[..|es| - 1]), es[|es| - 1]);
    }
  }

  // ---- Main results, for every interleaving --------------------------------

  /** Between lock and unlock there is at most one process, it is the lock's
      holder, and a live agent is always such a process. */
  lemma {:induction false} OneOwner(es: seq<Event>, p: Pid, q: Pid)
    requires var s := Run(BOOT, es); p in s.procs && q in s.procs && s.procs[p].lockOpen && s.procs[q].lockOpen
    ensures p == q && Run(BOOT, es).holder == Some(p)
  {
    RunInv(es);
    assert ProcInv(Run(BOOT, es), p) && ProcInv(Run(BOOT, es), q);
  }

  /** The socket at the path is a live agent's own, so there is never a second one. */
  lemma {:induction false} LiveOwnsPath(es: seq<Event>, p: Pid)
    requires Live(Run(BOOT, es), p)
    ensures Run(BOOT, es).path == Some(p) && Run(BOOT, es).procs[p].lockOpen
    ensures forall q :: Live(Run(BOOT, es), q) ==> q == p
  {
    var s := Run(BOOT, es);
    RunInv(es);
    assert ProcInv(s, p);
    forall q | Live(s, q) ensures q == p {
      assert ProcInv(s, q);
    }
  }

  /** A live agent's socket leaves the path only by that agent's own close, and
      the agent stays live until then or until it dies. */
  lemma {:induction false} NobodyUnlinksALiveSocket(es: seq<Event>, e: Event, p: Pid)
    requires Live(Run(BOOT, es), p)
    ensures var t := Step(Run(BOOT, es), e);
            && (t.path != Some(p) ==> e.Unlink? && e.p == p)
            && (!Live(t, p) ==> (e.Unlink? || e.Die?) && Actor(e) == p)
  {
    var s := Run(BOOT, es);
    RunInv(es);
    assert ProcInv(s, p);
    if Actor(e) in s.procs {
      assert ProcInv(s, Actor(e));
    }
  }

  /** However often and from wherever a listener is closed, its socket is
      unlinked once: a close that comes after the unlink leaves the path to
      whoever has it by then. */
  lemma {:induction false} LateCloseIsHarmless(es: seq<Event>, e: Event)
    requires var s := Run(BOOT, es); Actor(e) in s.procs && s.procs[Actor(e)].unlinked
    ensures Step(Run(BOOT, es), e).path == Run(BOOT, es).path
  {
    RunInv(es);
    assert ProcInv(Run(BOOT, es), Actor(e));
  }

  lemma {:induction false} RunSnoc(es: seq<Event>, e: Event)
    ensures Run(BOOT, es + [e]) == Step(Run(BOOT, es), e)
  {
    assert (es + [e])[..|es|] == es;
  }

  /** The lock is free once its holder died: the next agent gets it, finds the
      socket file of the dead one still at the path, and takes its place. */
  lemma {:induction false} NextAgentTakesOver(es: seq<Event>, p: Pid, q: Pid)
    requires var s := Run(BOOT, es); At(s, p, Bound) && s.holder in {None, Some(p)} && q !in s.procs
    ensures var dead := Run(BOOT, es + [Die(p)]);
            && At(dead, p, Ended) && dead.holder.None? && dead.path == Run(BOOT, es).path
            && var t := Run(BOOT, es + [Die(p)] + [Spawn(q)] + [TryLock(q)] + [Clear(q, true)] + [Bind(q, true)]);
               Live(t, q) && t.holder == Some(q) && t.path == Some(q)
  {
    var es1 := es + [Die(p)];
    RunSnoc(es, Die(p));
    RunSnoc(es1, Spawn(q));
    RunSnoc(es1 + [Spawn(q)], TryLock(q));
    RunSnoc(es1 + [Spawn(q)] + [TryLock(q)], Clear(q, true));
    RunSnoc(es1 + [Spawn(q)] + [TryLock(q)] + [Clear(q, true)], Bind(q, true));
  }

  /** While an agent lives, another one gets neither the lock nor the path. */
  lemma {:induction false} SecondAgentGivesUp(es: seq<Event>, p: Pid, q: Pid)
    requires Live(Run(BOOT, es), p) && At(Run(BOOT, es), q, Starting)
    ensures var t := Run(BOOT, es + [TryLock(q)]);
            At(t, q, Ended) && Live(t, p) && t.holder == Some(p) && t.path == Some(p)
  {
    Facts(es, p);
    RunSnoc(es, TryLock(q));
  }

  lemma {:induction false} Facts(past: seq<Event>, p: Pid)
    requires p in Run(BOOT, past).procs
    ensures ProcInv(Run(BOOT, past), p)
  {
    RunInv(past);
  }

  // ---- The code ------------------------------------------------------------

  predicate Without(es: seq<Event>, p: Pid) {
    forall i :: 0 <= i < |es| ==> Actor(es[i]) != p
  }

  /** Any processes, and other closers of process p itself. */
  predicate Spares(es: seq<Event>, p: Pid, c: nat) {
    forall i :: 0 <= i < |es| ==>
      Actor(es[i]) != p
      || ((es[i].CallClose? || es[i].Unlink? || es[i].CloseSocket? || es[i].CloseLock?) && es[i].c != c)
  }

  /** No closer takes over another one's call or brings the socket back. */
  lemma {:induction false} SparedStep(s: Os, e: Event, p: Pid, c: nat, at: Closer)
    requires Closing(s, p, c, at) && Spares([e], p, c)
    ensures Closing(Step(s, e), p, c, at) && (s.procs[p].unlinked ==> Step(s, e).procs[p].unlinked)
  {
    assert Actor([e][0]) != p || [e][0].c != c;
  }

  /** The operating system every process shares, and what happened on it so far. */
  class Kernel {
    var os: Os
    ghost var past: seq<Event>

    ghost predicate Valid()
      reads this
    {
      os == Run(BOOT, past)
    }

    constructor ()
      ensures Valid() && past == []
    {
      os := BOOT;
      past := [];
    }

    /** One system call. */
    method Do(e: Event)
      requires Valid()
      modifies this
      ensures Valid() && past == old(past) + [e] && os == Step(old(os), e)
    {
      os := Step(os, e);
      past := past + [e];
      assert past[..|past| - 1] == old(past);
    }

    /** Other processes run between two system calls of process p. */
    method Interfere(es: seq<Event>, p: Pid)
      requires Valid() && p in os.procs
      requires Without(es, p)
      modifies this
      ensures Valid() && past == old(past) + es
      ensures p in os.procs && os.procs[p] == old(os.procs[p])
    {
      for i := 0 to |es|
        invariant Valid() && past == old(past) + es[..i]
        invariant p in os.procs && os.procs[p] == old(os.procs[p])
      {
        Do(es[i]);
      }
    }

    /** Any processes run between two steps of a close, other closers of the same
        listener among them. */
    method InterfereClosing(es: seq<Event>, p: Pid, c: nat, ghost at: Closer)
      requires Valid() && Closing(os, p, c, at) && os.procs[p].unlinked
      requires Spares(es, p, c)
      modifies this
      ensures Valid() && past == old(past) + es
      ensures Closing(os, p, c, at) && os.procs[p].unlinked
    {
      for i := 0 to |es|
        invariant Valid() && past == old(past) + es[..i]
        invariant Closing(os, p, c, at) && os.procs[p].unlinked
      {
        SparedStep(os, es[i], p, c, at);
        Do(es[i]);
      }
    }

    /** lockedListener.Close, call c of it, with other processes and other closers
        of the same listener running between its steps. Afterwards process p holds
        no lock and its socket is gone. */
    method Close(p: Pid, c: nat, gap1: seq<Event>, gap2: seq<Event>)
      requires Valid() && At(os, p, Bound) && c !in os.procs[p].closers
      requires Spares(gap1, p, c)
      requires Spares(gap2, p, c)
      modifies this
      ensures Valid() && old(past) <= past
      ensures At(os, p, Bound) && !os.procs[p].lockOpen && os.holder != Some(p) && os.path != Some(p)
    {
      Do(CallClose(p, c));
      Do(Unlink(p, c));
      InterfereClosing(gap1, p, c, PastUnlink);
      Do(CloseSocket(p, c));
      InterfereClosing(gap2, p, c, PastClose);
      Do(CloseLock(p, c));
      Facts(past, p);
    }

    /** flock without waiting. */
    method Flock(p: Pid) returns (free: bool)
      requires Valid() && At(os, p, Starting)
      modifies this
      ensures Valid() && past == old(past) + [TryLock(p)] && p in os.procs && ProcInv(os, p)
      ensures free == old(os.holder.None?) && At(os, p, if free then Locked else Ended) && os.path != Some(p)
    {
      Facts(past, p);
      free := os.holder.None?;
      Do(TryLock(p));
      Facts(past, p);
    }

    /** os.Remove of a stale socket. */
    method RemoveStale(p: Pid, ok: bool)
      requires Valid() && At(os, p, Locked)
      modifies this
      ensures Valid() && past == old(past) + [Clear(p, ok)] && p in os.procs && ProcInv(os, p)
      ensures At(os, p, if ok then Cleared else Ended) && os.path != Some(p)
    {
      Facts(past, p);
      Do(Clear(p, ok));
      Facts(past, p);
    }

    /** Listen: the path is free here, whatever the other processes did. */
    method Listen(p: Pid, ok: bool)
      requires Valid() && At(os, p, Cleared)
      modifies this
      ensures Valid() && past == old(past) + [Bind(p, ok)] && p in os.procs && ProcInv(os, p)
      ensures if ok then Live(os, p) && os.procs[p].closers == map[] else At(os, p, Ended) && os.path != Some(p)
    {
      Facts(past, p);
      Do(Bind(p, ok));
      Facts(past, p);
    }

    /** Chmod, which takes the socket down again when it fails. */
    method Protect(p: Pid, ok: bool)
      requires Valid() && Live(os, p) && os.procs[p].closers == map[]
      modifies this
      ensures Valid() && old(past) <= past && p in os.procs && ProcInv(os, p)
      ensures if ok then Live(os, p) else !Live(os, p) && os.path != Some(p) && os.holder != Some(p)
    {
      if !ok {
        Close(p, 0, [], []);
      }
      Facts(past, p);
    }

    /** listenAgent once it has the lock: remove, listen, chmod. */
    method TakePath(p: Pid, gap2: seq<Event>, gap3: seq<Event>, gap4: seq<Event>,
                    clearOk: bool, bindOk: bool, chmodOk: bool)
      returns (ok: bool)
      requires Valid() && At(os, p, Locked)
      requires Without(gap2, p)
      requires Without(gap3, p)
      requires Without(gap4, p)
      modifies this
      ensures Valid() && old(past) <= past && p in os.procs && ProcInv(os, p)
      ensures ok <==> clearOk && bindOk && chmodOk
      ensures ok ==> Live(os, p)
      ensures !ok ==> !Live(os, p) && os.path != Some(p) && os.holder != Some(p)
    {
      Interfere(gap2, p);
      RemoveStale(p, clearOk);
      if !clearOk {
        return false;
      }
      Interfere(gap3, p);
      Listen(p, bindOk);
      if !bindOk {
        return false;
      }
      Interfere(gap4, p);
      Protect(p, chmodOk);
      ok := chmodOk;
    }

    /** listenAgent in process p. Between its system calls any other processes may
        run. It succeeds exactly when nobody held the lock and its own calls
        worked, and then its socket is the one at the path. When it fails it
        holds no lock and left no socket. */
    method ListenAgent(p: Pid, gap1: seq<Event>, gap2: seq<Event>, gap3: seq<Event>, gap4: seq<Event>,
                       clearOk: bool, bindOk: bool, chmodOk: bool)
      returns (ok: bool, free: bool)
      requires Valid() && p !in os.procs
      requires Without(gap1, p)
      requires Without(gap2, p)
      requires Without(gap3, p)
      requires Without(gap4, p)
      modifies this
      ensures Valid() && old(past) <= past && p in os.procs
      ensures ok <==> free && clearOk && bindOk && chmodOk
      ensures free <==> Run(BOOT, old(past) + [Spawn(p)] + gap1).holder.None?
      ensures ok ==> Live(os, p) && os.path == Some(p) && os.holder == Some(p)
      ensures !ok ==> !Live(os, p) && os.path != Some(p) && os.holder != Some(p)
    {
      Do(Spawn(p));
      Interfere(gap1, p);
      free := Flock(p);
      if !free {
        return false, free;
      }
      ok := TakePath(p, gap2, gap3, gap4, clearOk, bindOk, chmodOk);
    }
  }
}
