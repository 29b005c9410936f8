/** The dial race of an ssh connection: direct dials, a delayed relay, one
    unbuffered channel, and a drain that closes the losers. Goroutines, the
    clock and the choice of `select` are an arbitrary sequence of events. */
module DialRace {
  import opened Text

  const RELAY_HEAD_START := 300

  datatype Dial = Direct(endpoint: nat) | Relay

  datatype Timer = Off | Due(at: int)

  datatype Phase = Racing | Won(conn: Dial) | Failed

  /** Where a launched dial is. */
  datatype Place =
    | Dialing                          // its dial has not returned
    | Offering(ok: bool)               // its goroutine is blocked on the send, with a connection or an error
    | Reported                         // its error was recorded
    | Piped                            // its connection won
    | Closed                           // closeLosers closed its connection
    | Ignored                          // closeLosers dropped its error

  /** When the relay was dialed, and how many results were still missing then. */
  datatype RelayStart = RelayStart(at: int, outstanding: int)

  datatype Target = Target(manual: bool, endpoints: nat)

  datatype Race = Race(
    target: Target, force: bool, start: int,
    now: int,
    timer: Timer,                      // relayStart
    pending: int,
    errs: seq<Dial>,                   // whose error was recorded, in order
    place: map<Dial, Place>,
    conns: set<Dial>,                 // dials that ever returned a connection
    phase: Phase,
    left: int,                         // results closeLosers still waits for
    relay: Option<RelayStart>,
    turns: nat)                        // passes of the loop

  datatype Event =
    | Tick(ms: nat)
    | Return(dial: Dial, ok: bool)     // a dial returns, its goroutine offers the result
    | Fire                             // select takes the timer
    | Receive(dial: Dial)              // select takes a result
    | Drain(dial: Dial)                // closeLosers takes a result

  function Directs(n: nat): map<Dial, Place> {
    map i | 0 <= i < n :: Direct(i) := Dialing
  }

  /** Proxy refuses these before it dials. */
  predicate Refused(t: Target, force: bool) {
    (force && t.manual) || (t.manual && t.endpoints == 0)
  }

  function DialCount(t: Target, force: bool): nat {
    if force then 0 else t.endpoints
  }

  function Launch(t: Target, force: bool, now: int): Race {
    var dials := DialCount(t, force);
    Race(t, force, now, now,
         if t.manual then Off else if dials == 0 then Due(now) else Due(now + RELAY_HEAD_START),
         dials, [], Directs(dials), {}, Racing, 0, None, 0)
  }

  predicate CanFire(r: Race) {
    r.phase == Racing && r.timer.Due? && r.timer.at <= r.now
  }

  predicate Offers(r: Race, d: Dial) {
    d in r.place && r.place[d].Offering?
  }

  /** select takes an error: it is recorded, the relay joins at once when nothing
      else is pending, and the loop ends when no relay is left to start. */
  function TakeError(r: Race, d: Dial): Race {
    var pending := r.pending - 1;
    var timer := if pending == 0 && r.timer != Off then Due(r.now) else r.timer;
    r.(pending := pending, errs := r.errs + [d], place := r.place[d := Reported], timer := timer,
       phase := if pending <= 0 && timer == Off then Failed else Racing, turns := r.turns + 1)
  }

  function Step(r: Race, e: Event): Race {
    match e
    case Tick(ms) => r.(now := r.now + ms)
    case Return(d, ok) =>
      if d !in r.place || r.place[d] != Dialing then r
      else r.(place := r.place[d := Offering(ok)], conns := if ok then r.conns + {d} else r.conns)
    case Fire =>
      if !CanFire(r) then r
      else r.(timer := Off, pending := r.pending + 1, place := r.place[Relay := Dialing],
              relay := Some(RelayStart(r.now, r.pending)), turns := r.turns + 1)
    case Receive(d) =>
      if r.phase != Racing || !Offers(r, d) then r
      else if r.place[d].ok then
        r.(pending := r.pending - 1, place := r.place[d := Piped], phase := Won(d), left := r.pending - 1,
           turns := r.turns + 1)
      else TakeError(r, d)
    case Drain(d) =>
      if !r.phase.Won? || r.left <= 0 || !Offers(r, d) then r
      else r.(left := r.left - 1, place := r.place[d := if r.place[d].ok then Closed else Ignored])
  }

  function Steps(r: Race, es: seq<Event>): Race {
    if es == [] then r else Step(Steps(r, es[..|es| - 1]), es[|es| - 1])
  }

  // ---- What every schedule keeps -------------------------------------------

  /** Goroutines whose result nobody took yet. */
  function Waiting(place: map<Dial, Place>): set<Dial> {
    set d | d in place && (place[d] == Dialing || place[d].Offering?)
  }

  function Launched(r: Race): set<Dial> {
    Directs(DialCount(r.target, r.force)).Keys + (if r.relay.Some? then {Relay} else {})
  }

  /** Exactly the recorded errors are reported, each once. */
  ghost predicate ErrorsMatch(r: Race) {
    && (forall i, j :: 0 <= i < j < |r.errs| ==> r.errs[i] != r.errs[j])
    && (forall d :: d in r.errs ==> d in r.place && r.place[d] == Reported)
    && (forall d :: d in r.place && r.place[d] == Reported ==> d in r.errs)
  }

  /** A connection that was opened is still offered, piped, or closed. */
  ghost predicate ConnectionsKept(r: Race) {
    forall d :: d in r.conns <==>
      d in r.place && (r.place[d] == Offering(true) || r.place[d] == Piped || r.place[d] == Closed)
  }

  /** What is waited for is what is missing, and only the winner is piped. */
  ghost predicate Counted(r: Race) {
    && (if r.phase.Won? then r.left else r.pending) == |Waiting(r.place)|
    && (r.phase == Failed ==> r.pending == 0)
    && (forall d :: d in r.place ==> (r.place[d] == Piped <==> r.phase == Won(d)))
    && (!r.phase.Won? ==> forall d :: d in r.place ==> r.place[d] != Closed && r.place[d] != Ignored)
    && (r.phase.Won? ==> r.phase.conn in r.place)
  }

  /** The relay never starts for a manual target, nor early while a direct dial
      is outstanding, and a daemon target always gets its attempt. */
  ghost predicate RelayHeld(r: Race) {
    && r.start <= r.now && r.pending >= 0
    && (r.target.manual ==> r.relay.None? && r.timer == Off && !r.force)
    && (r.relay.Some? ==> r.timer == Off)
    && (r.relay.Some? ==> r.relay.value.at >= r.start + RELAY_HEAD_START || r.relay.value.outstanding == 0)
    && (r.timer.Due? && r.phase == Racing ==> r.timer.at >= r.start + RELAY_HEAD_START || r.pending == 0)
    && (r.timer.Due? && r.phase == Racing && r.pending == 0 ==> r.timer.at <= r.now)
    && (!r.target.manual && r.relay.None? && !r.phase.Won? ==> r.timer.Due? && r.phase == Racing)
    && (r.phase == Racing ==> r.pending > 0 || r.timer.Due?)
  }

  function Budget(t: Target, force: bool): nat {
    DialCount(t, force) + (if t.manual then 0 else 2)
  }

  /** Each pass of the loop uses up a result or the one relay start. */
  ghost predicate Bounded(r: Race) {
    r.turns + (if r.phase == Racing then r.pending + (if r.timer.Due? then 2 else 0) else 0)
      <= Budget(r.target, r.force)
  }

  ghost predicate Inv(r: Race) {
    && r.place.Keys == Launched(r)
    && ErrorsMatch(r) && ConnectionsKept(r) && Counted(r) && RelayHeld(r) && Bounded(r)
  }

  function DirectSet(n: nat): set<Dial> {
    set i | 0 <= i < n :: Direct(i)
  }

  lemma {:induction false} DirectSetCount(n: nat)
    ensures |DirectSet(n)| == n
  {
    if n == 0 {
      assert DirectSet(0) == {};
    } else {
      DirectSetCount(n - 1);
      assert DirectSet(n) == DirectSet(n - 1) + {Direct(n - 1)};
    }
  }

  lemma {:induction false} DirectsCount(n: nat)
    ensures |Directs(n).Keys| == n && Relay !in Directs(n)
    ensures forall d :: d in Directs(n) <==> d.Direct? && d.endpoint < n
  {
    assert Directs(n).Keys == DirectSet(n);
    DirectSetCount(n);
  }

  lemma {:induction false} LaunchInv(t: Target, force: bool, now: int)
    requires !Refused(t, force)
    ensures Inv(Launch(t, force, now))
  {
    var n := DialCount(t, force);
    DirectsCount(n);
    assert Waiting(Directs(n)) == Directs(n).Keys;
  }

  /** How one event moves one dial, and so the number of missing results. */
  lemma {:induction false} WaitingStep(place: map<Dial, Place>, d: Dial, p: Place)
    ensures Waiting(place[d := p]) ==
            if p == Dialing || p.Offering? then Waiting(place) + {d} else Waiting(place) - {d}
  {
  }

  lemma {:induction false} RelayFresh(r: Race)
    requires r.place.Keys == Launched(r) && RelayHeld(r) && r.timer.Due?
    ensures Relay !in r.place
  {
    DirectsCount(DialCount(r.target, r.force));
  }

  lemma {:induction false} ReturnCounted(r: Race, d: Dial, ok: bool)
    requires Counted(r) && d in r.place && r.place[d] == Dialing
    ensures Counted(Step(r, Return(d, ok)))
  {
    WaitingStep(r.place, d, Offering(ok));
    assert d in Waiting(r.place);
    assert Waiting(r.place) + {d} == Waiting(r.place);
  }

  lemma {:induction false} FireCounted(r: Race)
    requires Counted(r) && CanFire(r) && Relay !in r.place
    ensures Counted(Step(r, Fire))
  {
    WaitingStep(r.place, Relay, Dialing);
    assert |Waiting(r.place) + {Relay}| == |Waiting(r.place)| + 1;
  }

  lemma {:induction false} ReceiveCounted(r: Race, d: Dial)
    requires Counted(r) && r.phase == Racing && Offers(r, d)
    ensures Counted(Step(r, Receive(d))) && r.pending > 0
  {
    WaitingStep(r.place, d, Piped);
    WaitingStep(r.place, d, Reported);
    assert d in Waiting(r.place);
    assert |Waiting(r.place) - {d}| == |Waiting(r.place)| - 1;
  }

  lemma {:induction false} DrainCounted(r: Race, d: Dial)
    requires Counted(r) && r.phase.Won? && Offers(r, d)
    ensures Counted(Step(r, Drain(d))) && r.left > 0
  {
    WaitingStep(r.place, d, Closed);
    WaitingStep(r.place, d, Ignored);
    assert d in Waiting(r.place);
    assert |Waiting(r.place) - {d}| == |Waiting(r.place)| - 1;
  }

  lemma {:induction false} StepCounted(r: Race, e: Event)
    requires Counted(r) && (CanFire(r) ==> Relay !in r.place)
    ensures Counted(Step(r, e))
    ensures e.Receive? && r.phase == Racing && Offers(r, e.dial) ==> r.pending > 0
  {
    if Step(r, e) != r {
      match e
      case Tick(_) =>
      case Return(d, ok) => ReturnCounted(r, d, ok);
      case Fire => FireCounted(r);
      case Receive(d) => ReceiveCounted(r, d);
      case Drain(d) => DrainCounted(r, d);
    }
    if e.Receive? && r.phase == Racing && Offers(r, e.dial) {
      ReceiveCounted(r, e.dial);
    }
  }

  lemma {:induction false} StepRelayHeld(r: Race, e: Event)
    requires RelayHeld(r) && Bounded(r)
    requires e.Receive? && r.phase == Racing && Offers(r, e.dial) ==> r.pending > 0
    ensures RelayHeld(Step(r, e)) && Bounded(Step(r, e))
  {
  }

  predicate IsReported(r: Race, d: Dial) {
    d in r.place && r.place[d] == Reported
  }

  lemma {:induction false} StepReported(r: Race, e: Event, d: Dial)
    requires CanFire(r) ==> Relay !in r.place
    ensures IsReported(Step(r, e), d) <==> IsReported(r, d) || Step(r, e).errs == r.errs + [d]
    ensures Step(r, e).errs == r.errs
            || (e.Receive? && Offers(r, e.dial) && Step(r, e).errs == r.errs + [e.dial])
  {
    if e.Receive? && Offers(r, e.dial) {
      assert (r.errs + [e.dial])[|r.errs|] == e.dial && (r.errs + [d])[|r.errs|] == d;
    }
  }

  lemma {:induction false} StepErrors(r: Race, e: Event)
    requires ErrorsMatch(r) && (CanFire(r) ==> Relay !in r.place)
    ensures ErrorsMatch(Step(r, e))
  {
    var s := Step(r, e);
    forall d
      ensures d in s.errs ==> IsReported(s, d)
      ensures IsReported(s, d) ==> d in s.errs
    {
      StepReported(r, e, d);
    }
    if s.errs != r.errs {
      StepReported(r, e, e.dial);
    }
  }

  predicate ConnectionKept(r: Race, d: Dial) {
    d in r.conns <==> d in r.place && (r.place[d] == Offering(true) || r.place[d] == Piped || r.place[d] == Closed)
  }

  lemma {:induction false} StepConnection(r: Race, e: Event, d: Dial)
    requires ConnectionKept(r, d) && (CanFire(r) ==> Relay !in r.place)
    ensures ConnectionKept(Step(r, e), d)
  {
  }

  lemma {:induction false} StepConnections(r: Race, e: Event)
    requires ConnectionsKept(r) && (CanFire(r) ==> Relay !in r.place)
    ensures ConnectionsKept(Step(r, e))
  {
    var s := Step(r, e);
    forall d
      ensures d in s.conns <==>
                d in s.place && (s.place[d] == Offering(true) || s.place[d] == Piped || s.place[d] == Closed)
    {
      StepConnection(r, e, d);
      assert ConnectionKept(s, d);
    }
  }

  lemma {:induction false} StepInv(r: Race, e: Event)
    requires Inv(r)
    ensures Inv(Step(r, e))
  {
    if r.timer.Due? {
      RelayFresh(r);
    }
    StepCounted(r, e);
    StepRelayHeld(r, e);
    StepErrors(r, e);
    StepConnections(r, e);
    StepLaunched(r, e);
  }

  lemma {:induction false} FireLaunched(r: Race)
    requires r.place.Keys == Launched(r)
    ensures Step(r, Fire).place.Keys == Launched(Step(r, Fire))
  {
    if CanFire(r) {
      assert r.place[Relay := Dialing].Keys == r.place.Keys + {Relay};
    }
  }

  /** Only the timer adds a dial. */
  lemma {:induction false} StepKeys(r: Race, e: Event)
    requires !e.Fire?
    ensures Step(r, e).place.Keys == r.place.Keys && Step(r, e).relay == r.relay
  {
    match e
    case Tick(_) =>
    case Return(d, ok) =>
      assert d in r.place ==> r.place[d := Offering(ok)].Keys == r.place.Keys;
    case Receive(d) =>
      assert d in r.place ==> r.place[d := Piped].Keys == r.place.Keys == r.place[d := Reported].Keys;
    case Drain(d) =>
      assert d in r.place ==> r.place[d := Closed].Keys == r.place.Keys == r.place[d := Ignored].Keys;
    case _ =>
  }

  lemma {:induction false} StepLaunched(r: Race, e: Event)
    requires r.place.Keys == Launched(r)
    ensures Step(r, e).place.Keys == Launched(Step(r, e))
  {
    if e.Fire? {
      FireLaunched(r);
    } else {
      StepKeys(r, e);
      StepFixed(r, e);
    }
  }

  lemma {:induction false} StepFixed(r: Race, e: Event)
    ensures Step(r, e).target == r.target && Step(r, e).force == r.force && Step(r, e).start == r.start
  {
  }

  lemma {:induction false} StepsInv(t: Target, force: bool, now: int, es: seq<Event>)
    requires !Refused(t, force)
    ensures var r := Steps(Launch(t, force, now), es);
            Inv(r) && r.target == t && r.force == force && r.start == now
  {
    if es == [] {
      LaunchInv(t, force, now);
    } else {
      var r := Steps(Launch(t, force, now), es[..|es| - 1]);
      StepsInv(t, force, now, es[..|es| - 1]);
      StepInv(r, es[|es| - 1]);
      StepFixed(r, es[|es| - 1]);
    }
  }

  // ---- Main results, for every schedule ------------------------------------

  ghost predicate Reached(r: Race, t: Target, force: bool, now: int, es: seq<Event>) {
    !Refused(t, force) && r == Steps(Launch(t, force, now), es)
  }

  function ErrorSet(r: Race): set<Dial> {
    set d | d in r.errs
  }

  lemma {:induction false} DistinctCount(ds: seq<Dial>)
    requires forall i, j :: 0 <= i < j < |ds| ==> ds[i] != ds[j]
    ensures |set d | d in ds| == |ds|
  {
    if ds == [] {
    } else {
      var n := |ds| - 1;
      DistinctCount(ds[..n]);
      assert (set d | d in ds) == (set d | d in ds[..n]) + {ds[n]};
    }
  }

  /** What is dialed: every endpoint unless the relay is forced, and the relay once
      it started. */
  lemma {:induction false} LaunchedAre(r: Race)
    ensures forall d :: d in Launched(r) <==>
              if d.Direct? then !r.force && d.endpoint < r.target.endpoints else r.relay.Some?
  {
    DirectsCount(DialCount(r.target, r.force));
  }

  /** Every endpoint is dialed at once and stays in the race, unless the relay is
      forced, and nothing else is dialed but the relay. */
  lemma {:induction false} EveryEndpointIsDialed(r: Race, t: Target, force: bool, now: int, es: seq<Event>)
    requires Reached(r, t, force, now, es)
    ensures forall i: nat :: Direct(i) in r.place <==> !force && i < t.endpoints
    ensures Relay in r.place <==> r.relay.Some?
    ensures es == [] ==> forall d :: d in r.place ==> r.place[d] == Dialing
  {
    assert r.place.Keys == Launched(r) && r.target == t && r.force == force by {
      StepsInv(t, force, now, es);
    }
    LaunchedAre(r);
  }

  lemma {:induction false} LaunchedCount(r: Race)
    ensures |Launched(r)| == DialCount(r.target, r.force) + (if r.relay.Some? then 1 else 0)
  {
    DirectsCount(DialCount(r.target, r.force));
  }

  lemma {:induction false} MissingCount(r: Race)
    requires r.place.Keys == Launched(r) && ErrorsMatch(r) && Counted(r) && !r.phase.Won?
    ensures |Launched(r)| == r.pending + |r.errs|
    ensures r.pending == 0 ==> ErrorSet(r) == Launched(r)
  {
    DistinctCount(r.errs);
    MissingOrReported(r);
    assert |Waiting(r.place) + ErrorSet(r)| == |Waiting(r.place)| + |ErrorSet(r)|;
    assert r.pending == 0 ==> Waiting(r.place) == {};
  }

  lemma {:induction false} MissingOrReported(r: Race)
    requires ErrorsMatch(r)
    requires forall d :: d in r.place ==> r.place[d] != Piped && r.place[d] != Closed && r.place[d] != Ignored
    ensures Waiting(r.place) !! ErrorSet(r)
    ensures Waiting(r.place) + ErrorSet(r) == r.place.Keys
  {
  }

  /** While the race is open, pending is the dials launched minus the results
      taken, so some goroutine or the timer can always make progress. */
  lemma {:induction false} PendingIsMissing(r: Race, t: Target, force: bool, now: int, es: seq<Event>)
    requires Reached(r, t, force, now, es) && r.phase == Racing
    ensures r.pending == |Launched(r)| - |r.errs|
    ensures r.timer.Due? || exists d :: d in r.place && (r.place[d] == Dialing || Offers(r, d))
  {
    assert r.place.Keys == Launched(r) && ErrorsMatch(r) && Counted(r) by {
      StepsInv(t, force, now, es);
    }
    MissingCount(r);
    assert r.pending > 0 || r.timer.Due? by {
      StepsInv(t, force, now, es);
    }
    if !r.timer.Due? {
      assert |Waiting(r.place)| > 0;
      var d :| d in Waiting(r.place);
      assert d in r.place && (r.place[d] == Dialing || Offers(r, d));
    }
  }

  lemma {:induction false} RelayAttempted(r: Race)
    requires r.place.Keys == Launched(r) && RelayHeld(r) && r.phase == Failed
    ensures Relay in Launched(r) <==> !r.target.manual
    ensures |Launched(r)| == DialCount(r.target, r.force) + (if r.target.manual then 0 else 1)
  {
    LaunchedCount(r);
    DirectsCount(DialCount(r.target, r.force));
  }

  /** A failed race reports one error for every dial it made, in which a daemon
      target's relay appears exactly once and a manual target's never. */
  lemma {:induction false} FailureReportsEveryDial(r: Race, t: Target, force: bool, now: int, es: seq<Event>)
    requires Reached(r, t, force, now, es) && r.phase == Failed
    ensures forall d :: d in r.errs <==> if d.Direct? then !force && d.endpoint < t.endpoints else !t.manual
    ensures |r.errs| == (if force then 0 else t.endpoints) + (if t.manual then 0 else 1)
    ensures r.conns == {}
  {
    assert r.place.Keys == Launched(r) && ErrorsMatch(r) && Counted(r) by {
      StepsInv(t, force, now, es);
    }
    MissingCount(r);
    assert RelayHeld(r) && r.target == t && r.force == force by {
      StepsInv(t, force, now, es);
    }
    RelayAttempted(r);
    LaunchedAre(r);
    assert forall d :: d in ErrorSet(r) <==> d in r.errs;
    assert ConnectionsKept(r) by {
      StepsInv(t, force, now, es);
    }
    NothingOpen(r);
  }

  lemma {:induction false} NothingOpen(r: Race)
    requires ConnectionsKept(r) && Counted(r) && r.phase == Failed
    ensures r.conns == {}
  {
    assert Waiting(r.place) == {};
    forall d | d in r.place ensures !r.place[d].Offering? && r.place[d] != Piped && r.place[d] != Closed {
      assert d !in Waiting(r.place);
    }
  }

  /** No goroutine stays blocked on its send: whoever offers a result is still
      awaited, by the loop or by the drain, and a failed race left nobody behind. */
  lemma {:induction false} NoSenderLeftBehind(r: Race, t: Target, force: bool, now: int, es: seq<Event>, d: Dial)
    requires Reached(r, t, force, now, es) && Offers(r, d)
    ensures r.phase != Failed
    ensures if r.phase == Racing then Step(r, Receive(d)).place[d] != r.place[d]
            else r.left > 0 && Step(r, Drain(d)).place[d] != r.place[d]
  {
    StepsInv(t, force, now, es);
    assert d in Waiting(r.place);
  }

  /** Every connection that was ever opened is the one piped, is closed, or is
      about to be closed, and once the drain is done only the first two remain. */
  lemma {:induction false} EveryConnectionEnds(r: Race, t: Target, force: bool, now: int, es: seq<Event>)
    requires Reached(r, t, force, now, es) && r.phase.Won?
    ensures r.phase.conn in r.conns
    ensures forall d :: d in r.conns && d != r.phase.conn ==>
              Lookup(r.place, d) == Some(Closed) || Lookup(r.place, d) == Some(Offering(true))
    ensures (forall d :: d in r.place ==> r.place[d] != Dialing) && r.left == 0 ==>
              forall d :: d in r.conns && d != r.phase.conn ==> Lookup(r.place, d) == Some(Closed)
    ensures r.left == 0 <==> forall d :: d in r.place ==> r.place[d] != Dialing && !r.place[d].Offering?
  {
    StepsInv(t, force, now, es);
    assert r.left == 0 <==> Waiting(r.place) == {};
    assert forall d :: d in Waiting(r.place) <==> d in r.place && (r.place[d] == Dialing || r.place[d].Offering?);
    forall d | d in r.conns && d != r.phase.conn
      ensures r.place[d] == Closed || r.place[d] == Offering(true)
    {
      assert r.place[d] != Piped;
    }
  }

  /** Relay discipline: only a daemon target's race starts it, not before the
      head start unless no direct dial is outstanding, then at once, and a forced
      relay dials nothing else. */
  lemma {:induction false} RelayDiscipline(r: Race, t: Target, force: bool, now: int, es: seq<Event>)
    requires Reached(r, t, force, now, es)
    ensures Relay in r.place <==> r.relay.Some?
    ensures r.relay.Some? ==> !t.manual
    ensures r.relay.Some? ==> r.relay.value.at >= now + 300 || r.relay.value.outstanding == 0
    ensures force ==> forall d :: d in r.place ==> d == Relay
    ensures r.phase == Racing && r.pending == 0 ==> CanFire(r)
  {
    StepsInv(t, force, now, es);
    DirectsCount(DialCount(t, force));
  }

  /** The relay starts in an open race only, and never a second time. */
  lemma {:induction false} RelayStartsOnce(r: Race, t: Target, force: bool, now: int, es: seq<Event>, e: Event)
    requires Reached(r, t, force, now, es)
    ensures var s := Step(r, e);
            && (r.relay.Some? ==> s.relay == r.relay)
            && (s.relay != r.relay ==> r.phase == Racing && r.pending == s.relay.value.outstanding)
            && (r.phase != Racing ==> s.place.Keys == r.place.Keys)
  {
    assert r.relay.Some? ==> r.timer == Off by {
      StepsInv(t, force, now, es);
    }
  }

  /** The loop takes at most one pass per dialed endpoint and two for the relay. */
  lemma {:induction false} LoopIsBounded(r: Race, t: Target, force: bool, now: int, es: seq<Event>)
    requires Reached(r, t, force, now, es)
    ensures r.turns <= (if force then 0 else t.endpoints) + (if t.manual then 0 else 2)
  {
    StepsInv(t, force, now, es);
  }

  /** The timer never lies further ahead than the head start. */
  predicate Prompt(r: Race) {
    r.timer.Due? ==> r.timer.at <= r.start + 300 || r.timer.at <= r.now
  }

  lemma {:induction false} StepsPrompt(t: Target, force: bool, now: int, es: seq<Event>)
    ensures Prompt(Steps(Launch(t, force, now), es))
  {
    if es == [] {
    } else {
      StepsPrompt(t, force, now, es[..|es| - 1]);
    }
  }

  /** The relay is not late either: 300 ms after the start of an open race of a
      daemon target it has started or can start, whatever the direct dials do. */
  lemma {:induction false} RelayIsInTime(r: Race, t: Target, force: bool, now: int, es: seq<Event>)
    requires Reached(r, t, force, now, es) && r.phase == Racing && !t.manual && r.now >= now + 300
    ensures r.relay.Some? || CanFire(r)
  {
    assert RelayHeld(r) && r.target == t && r.start == now by {
      StepsInv(t, force, now, es);
    }
    StepsPrompt(t, force, now, es);
  }

  /** The first connection wins: a dial that is still out, connects and is received
      while the race is open, is piped, and everyone else is left to the drain. */
  lemma {:induction false} ConnectionWins(r: Race, t: Target, force: bool, now: int, es: seq<Event>, d: Dial)
    requires Reached(r, t, force, now, es) && r.phase == Racing && Lookup(r.place, d) == Some(Dialing)
    ensures var s := Steps(Launch(t, force, now), es + [Return(d, true)] + [Receive(d)]);
            s.phase == Won(d) && Lookup(s.place, d) == Some(Piped) && s.left == |Launched(r)| - |r.errs| - 1
  {
    StepsSnoc(Launch(t, force, now), es, Return(d, true));
    StepsSnoc(Launch(t, force, now), es + [Return(d, true)], Receive(d));
    PendingIsMissing(r, t, force, now, es);
  }

  /** A dial that fails is reported, and ends the race when it was the last one and
      no relay is to come. */
  lemma {:induction false} FailureIsRecorded(r: Race, t: Target, force: bool, now: int, es: seq<Event>, d: Dial)
    requires Reached(r, t, force, now, es) && r.phase == Racing && Lookup(r.place, d) == Some(Dialing)
    ensures var s := Steps(Launch(t, force, now), es + [Return(d, false)] + [Receive(d)]);
            && s.errs == r.errs + [d]
            && (s.phase == Failed <==> |r.errs| + 1 == |Launched(r)| && (t.manual || r.relay.Some?))
            && (s.phase != Failed ==> s.phase == Racing)
  {
    StepsSnoc(Launch(t, force, now), es, Return(d, false));
    StepsSnoc(Launch(t, force, now), es + [Return(d, false)], Receive(d));
    PendingIsMissing(r, t, force, now, es);
    assert r.pending >= 1 && (r.timer == Off <==> t.manual || r.relay.Some?) by {
      StepsInv(t, force, now, es);
      assert d in Waiting(r.place);
    }
    FailureStep(r, d);
  }

  lemma {:induction false} FailureStep(r: Race, d: Dial)
    requires r.phase == Racing && r.pending >= 1 && Lookup(r.place, d) == Some(Dialing)
    ensures var s := Step(Step(r, Return(d, false)), Receive(d));
            s.errs == r.errs + [d] && s.phase == if r.pending == 1 && r.timer == Off then Failed else Racing
  {
  }

  /** A relay that can start does, and is then in the race like any dial. */
  lemma {:induction false} RelayJoins(r: Race, t: Target, force: bool, now: int, es: seq<Event>)
    requires Reached(r, t, force, now, es) && CanFire(r)
    ensures var s := Steps(Launch(t, force, now), es + [Fire]);
            Lookup(s.place, Relay) == Some(Dialing) && s.relay.Some? && s.relay.value.at == r.now && s.phase == Racing
  {
    StepsSnoc(Launch(t, force, now), es, Fire);
  }

  lemma {:induction false} StepsSnoc(r: Race, es: seq<Event>, e: Event)
    ensures Steps(r, es + [e]) == Step(Steps(r, es), e)
  {
    assert (es + [e])[..|es|] == es;
  }

  /** The drain closes a loser's connection. */
  lemma {:induction false} LoserIsClosed(r: Race, t: Target, force: bool, now: int, es: seq<Event>, d: Dial)
    requires Reached(r, t, force, now, es) && r.phase.Won? && Lookup(r.place, d) == Some(Dialing)
    ensures var s := Steps(Launch(t, force, now), es + [Return(d, true)] + [Drain(d)]);
            Lookup(s.place, d) == Some(Closed) && s.left == r.left - 1
  {
    StepsSnoc(Launch(t, force, now), es, Return(d, true));
    StepsSnoc(Launch(t, force, now), es + [Return(d, true)], Drain(d));
    assert r.left > 0 by {
      StepsInv(t, force, now, es);
      assert d in Waiting(r.place);
    }
  }

  // ---- The code ------------------------------------------------------------

  /** Proxy's start: every endpoint is dialed at once, the relay waits. */
  method StartDials(t: Target, force: bool, now: int)
    returns (pending: int, place: map<Dial, Place>, relayStart: Timer)
    ensures var r := Launch(t, force, now);
            pending == r.pending && place == r.place && relayStart == r.timer
  {
    pending := 0;
    place := map[];
    if !force {
      for i := 0 to t.endpoints
        invariant pending == i && place == Directs(i)
      {
        pending := pending + 1;
        place := place[Direct(i) := Dialing];
      }
    }
    relayStart := Off;
    if !t.manual {
      relayStart := Due(now + RELAY_HEAD_START);
      if pending == 0 {
        relayStart := Due(now);
      }
    }
  }

  lemma {:induction false} StepsNext(init: Race, es: seq<Event>, k: nat)
    requires k < |es|
    ensures Steps(init, es[..k + 1]) == Step(Steps(init, es[..k]), es[k])
  {
    assert es[..k + 1][..k] == es[..k];
  }

  /** A dial returns and its goroutine offers the result. */
  method Offer(ghost r: Race, d: Dial, ok: bool, place0: map<Dial, Place>, conns0: set<Dial>)
    returns (place: map<Dial, Place>, conns: set<Dial>)
    requires r.place == place0 && r.conns == conns0
    ensures Step(r, Return(d, ok)) == r.(place := place, conns := conns)
  {
    place, conns := place0, conns0;
    if d in place && place[d] == Dialing {
      place := place[d := Offering(ok)];
      if ok {
        conns := conns + {d};
      }
    }
  }

  /** The loop takes a result: a connection wins, an error is recorded, and the
      relay joins at once when nothing else is pending. */
  method TakeResult(ghost r: Race, d: Dial, clock: int, pending0: int, errs0: seq<Dial>, place0: map<Dial, Place>,
                    timer0: Timer)
    returns (pending: int, errs: seq<Dial>, place: map<Dial, Place>, timer: Timer, won: bool)
    requires d in place0 && place0[d].Offering?
    requires r.phase == Racing && r.now == clock && r.pending == pending0 && r.errs == errs0
    requires r.place == place0 && r.timer == timer0
    ensures won == place0[d].ok
    ensures Step(r, Receive(d)) ==
            r.(pending := pending, errs := errs, place := place, timer := timer, turns := r.turns + 1,
               phase := if won then Won(d) else if pending > 0 || timer != Off then Racing else Failed,
               left := if won then pending else r.left)
  {
    pending, errs, place, timer := pending0 - 1, errs0, place0, timer0;
    won := place[d].ok;
    if won {
      place := place[d := Piped];
      return;
    }
    errs := errs + [d];
    place := place[d := Reported];
    if pending == 0 && timer != Off {
      timer := Due(clock);
    }
  }

  lemma {:induction false} PendingIsNatural(t: Target, force: bool, now: int, es: seq<Event>)
    requires !Refused(t, force)
    ensures Steps(Launch(t, force, now), es).pending >= 0
  {
    StepsInv(t, force, now, es);
  }

  /** The race up to its outcome, for the events seen so far. It stops looking at
      events once the race is decided, `used` says how many it took. */
  method RunRace(t: Target, force: bool, now: int, es: seq<Event>) returns (r: Race, used: nat)
    requires !Refused(t, force)
    ensures used <= |es| && r == Steps(Launch(t, force, now), es[..used])
    ensures used == |es| || r.phase != Racing
  {
    var clock := now;
    var pending, place, relayStart := StartDials(t, force, now);
    var errs: seq<Dial> := [];
    var conns: set<Dial> := {};
    var relay: Option<RelayStart> := None;
    var turns := 0;
    var k := 0;
    ghost var init := Launch(t, force, now);
    ghost var race := init;
    assert es[..0] == [];
    while (pending > 0 || relayStart != Off) && k < |es|
      invariant k <= |es|
      invariant Race(t, force, now, clock, relayStart, pending, errs, place, conns,
                     if pending > 0 || relayStart != Off then Racing else Failed, 0, relay, turns)
             == race == Steps(init, es[..k])
    {
      StepsNext(init, es, k);
      match es[k] {
        case Tick(ms) => clock := clock + ms;
        case Return(d, ok) => place, conns := Offer(race, d, ok, place, conns);
        case Fire =>
          if relayStart.Due? && relayStart.at <= clock {
            PendingIsNatural(t, force, now, es[..k]);
            relay := Some(RelayStart(clock, pending));
            relayStart := Off;
            pending := pending + 1;
            place := place[Relay := Dialing];
            turns := turns + 1;
          }
        case Receive(d) =>
          if d in place && place[d].Offering? {
            var won: bool;
            pending, errs, place, relayStart, won := TakeResult(race, d, clock, pending, errs, place, relayStart);
            turns := turns + 1;
            if won {
              r := Race(t, force, now, clock, relayStart, pending, errs, place, conns, Won(d), pending, relay, turns);
              return r, k + 1;
            }
          }
        case Drain(_) =>
      }
      race := Step(race, es[k]);
      k := k + 1;
    }
    var phase := if pending > 0 || relayStart != Off then Racing else Failed;
    r := Race(t, force, now, clock, relayStart, pending, errs, place, conns, phase, 0, relay, turns);
    used := k;
  }

  /** Proxy: a manual target without an address is refused, as is a forced relay to
      one, and everything else is raced. */
  method Proxy(t: Target, force: bool, now: int, es: seq<Event>) returns (r: Option<Race>, used: nat)
    ensures r.None? <==> t.manual && (force || t.endpoints == 0)
    ensures r.Some? ==> used <= |es| && r.value == Steps(Launch(t, force, now), es[..used])
    ensures r.Some? ==> used == |es| || r.value.phase != Racing
  {
    if force && t.manual {
      return None, 0;
    }
    if t.manual && t.endpoints == 0 {
      return None, 0;
    }
    var race, n := RunRace(t, force, now, es);
    r, used := Some(race), n;
  }

  /** closeLosers: takes the n results that are missing when a winner is picked. */
  method CloseLosers(won: Race, es: seq<Event>) returns (r: Race, used: nat)
    requires won.phase.Won?
    ensures used <= |es| && r == Steps(won, es[..used])
    ensures used == |es| || r.left <= 0
  {
    r := won;
    used := 0;
    assert es[..0] == [];
    while r.left > 0 && used < |es|
      invariant used <= |es| && r == Steps(won, es[..used])
      invariant r.phase == won.phase
    {
      StepsNext(won, es, used);
      match es[used] {
        case Tick(ms) => r := r.(now := r.now + ms);
        case Return(d, ok) =>
          if d in r.place && r.place[d] == Dialing {
            r := r.(place := r.place[d := Offering(ok)], conns := if ok then r.conns + {d} else r.conns);
          }
        case Drain(d) =>
          if d in r.place && r.place[d].Offering? {
            if r.place[d].ok {
              r := r.(place := r.place[d := Closed]);
            } else {
              r := r.(place := r.place[d := Ignored]);
            }
            r := r.(left := r.left - 1);
          }
        case _ =>
      }
      used := used + 1;
    }
  }
}
