/** The poll loop of the device sign-in: section 3.5 of RFC 8628 with the nonce
    retry of section 8 of RFC 9449. The backend's answers and what each wait ends
    with are an arbitrary sequence of events. */
module DeviceLogin {
  import opened GoTime
  import opened Text

  /** The error field of an answer, section 3.5 of RFC 8628 and the DPoP codes. */
  datatype Code =
    | NoCode | AuthorizationPending | SlowDown | AccessDenied | ExpiredToken
    | UseDpopNonce | InvalidDpopProof | OtherCode(text: string)

  /** One answer to a token request. `failed` is a transport or HTTP error,
      `decoded` is whether the body was JSON. */
  datatype Reply = Reply(failed: bool, decoded: bool, token: string, expiresIn: int, error: Code)

  datatype Verdict =
    | Granted(token: string, expiresIn: int)
    | Broken              // transport error or unexpected response
    | NonceRefused        // the retry with a fresh nonce was rejected too
    | ProofRefused
    | NoNonce             // fetching a nonce failed
    | Denied | Expired | OtherError
    | Cancelled | TimedOut

  datatype Event =
    | Answer(reply: Reply, nonceFetched: bool)
    | Tick
    | Cancel
    | Timeout

  datatype Poll = Poll(
    dpop: bool,
    wait: int,                    // the current interval, in nanoseconds
    bootstrapped: bool, nonceRetried: bool,
    asking: bool,                 // about to send a request, otherwise waiting for the ticker
    requests: nat, ticks: nat,
    slowDowns: nat, proofRetries: nat,
    verdict: Option<Verdict>)

  function InitialWait(interval: int): int {
    var wait := Wrap64(interval * SECOND);
    if wait <= 0 then 5 * SECOND else wait
  }

  function Begin(interval: int, dpop: bool): Poll {
    Poll(dpop, InitialWait(interval), false, false, true, 0, 0, 0, 0, None)
  }

  function Answered(p: Poll, r: Reply, nonceFetched: bool): Poll {
    var q := p.(requests := p.requests + 1);
    if !r.failed && r.decoded && r.token != "" then q.(verdict := Some(Granted(r.token, r.expiresIn)))
    else if !r.decoded || r.error == NoCode then q.(verdict := Some(Broken))
    else if r.error == AuthorizationPending then q.(asking := false)
    else if r.error == UseDpopNonce then
      if p.nonceRetried then q.(verdict := Some(NonceRefused)) else q.(nonceRetried := true)
    else if r.error == InvalidDpopProof then
      if p.bootstrapped || !p.dpop then q.(verdict := Some(ProofRefused))
      else if !nonceFetched then q.(bootstrapped := true, verdict := Some(NoNonce))
      else q.(bootstrapped := true, proofRetries := p.proofRetries + 1)
    else if r.error == SlowDown then
      q.(wait := Wrap64(p.wait + 5 * SECOND), slowDowns := p.slowDowns + 1, asking := false)
    else if r.error == AccessDenied then q.(verdict := Some(Denied))
    else if r.error == ExpiredToken then q.(verdict := Some(Expired))
    else q.(verdict := Some(OtherError))
  }

  function Step(p: Poll, e: Event): Poll {
    if p.verdict.Some? then p
    else if p.asking then (if e.Answer? then Answered(p, e.reply, e.nonceFetched) else p)
    else
      match e
      case Tick => p.(asking := true, ticks := p.ticks + 1, nonceRetried := false)
      case Cancel => p.(verdict := Some(Cancelled))
      case Timeout => p.(verdict := Some(TimedOut))
      case Answer(_, _) => p
  }

  function Run(p: Poll, es: seq<Event>): Poll {
    if es == [] then p else Step(Run(p, es[..|es| - 1]), es[|es| - 1])
  }

  /** What the loop does with one answer. */
  method TakeAnswer(p0: Poll, out: Reply, nonceFetched: bool) returns (p: Poll)
    ensures p == Answered(p0, out, nonceFetched)
  {
    p := p0.(requests := p0.requests + 1);
    if !out.failed && out.decoded && out.token != "" {
      return p.(verdict := Some(Granted(out.token, out.expiresIn)));
    }
    if !out.decoded || out.error == NoCode {
      return p.(verdict := Some(Broken));
    }
    match out.error {
      case AuthorizationPending =>
        p := p.(asking := false);
      case UseDpopNonce =>
        if p.nonceRetried {
          return p.(verdict := Some(NonceRefused));
        }
        p := p.(nonceRetried := true);
      case InvalidDpopProof =>
        if p.bootstrapped || !p.dpop {
          return p.(verdict := Some(ProofRefused));
        }
        p := p.(bootstrapped := true);
        if !nonceFetched {
          return p.(verdict := Some(NoNonce));
        }
        p := p.(proofRetries := p.proofRetries + 1);
      case SlowDown =>
        p := p.(wait := Wrap64(p.wait + 5 * SECOND), slowDowns := p.slowDowns + 1, asking := false);
      case AccessDenied =>
        return p.(verdict := Some(Denied));
      case ExpiredToken =>
        return p.(verdict := Some(Expired));
      case _ =>
        return p.(verdict := Some(OtherError));
    }
  }

  /** pollDeviceToken, for the events seen so far. */
  method PollDeviceToken(interval: int, dpop: bool, es: seq<Event>) returns (p: Poll, used: nat)
    ensures used <= |es| && p == Run(Begin(interval, dpop), es[..used])
    ensures used == |es| || p.verdict.Some?
  {
    var wait := Wrap64(interval * SECOND);
    if wait <= 0 {
      wait := 5 * SECOND;
    }
    p := Poll(dpop, wait, false, false, true, 0, 0, 0, 0, None);
    used := 0;
    assert es[..0] == [];
    while used < |es| && p.verdict.None?
      invariant used <= |es|
      invariant p == Run(Begin(interval, dpop), es[..used])
    {
      var e := es[used];
      assert es[..used + 1][..used] == es[..used];
      if p.asking {
        if e.Answer? {
          p := TakeAnswer(p, e.reply, e.nonceFetched);
        }
      } else {
        match e {
          case Tick => p := p.(asking := true, ticks := p.ticks + 1, nonceRetried := false);
          case Cancel => p := p.(verdict := Some(Cancelled));
          case Timeout => p := p.(verdict := Some(TimedOut));
          case Answer(_, _) =>
        }
      }
      used := used + 1;
    }
  }

  // ---- Main results, for every sequence of answers -------------------------

  ghost predicate Inv(p: Poll, interval: int) {
    && p.requests <= 2 * p.ticks + (if p.bootstrapped then 1 else 0) + (if p.nonceRetried then 1 else 0)
                     + (if p.asking && p.verdict.None? then 0 else 1)
    && p.proofRetries <= (if p.bootstrapped then 1 else 0)
    && (p.bootstrapped ==> p.dpop)
    && (InitialWait(interval) + 5 * SECOND * p.slowDowns <= MAX_INT64 ==>
          p.wait == InitialWait(interval) + 5 * SECOND * p.slowDowns)
    && p.slowDowns <= p.ticks + (if p.asking then 0 else 1)
  }

  lemma {:induction false} InitialWaitPositive(interval: int)
    ensures 0 < InitialWait(interval) <= MAX_INT64
  {
  }

  lemma {:induction false} AnsweredInv(p: Poll, r: Reply, nonceFetched: bool, interval: int)
    requires Inv(p, interval) && p.asking && p.verdict.None?
    ensures Inv(Answered(p, r, nonceFetched), interval)
  {
    InitialWaitPositive(interval);
    if r.error == SlowDown && InitialWait(interval) + 5 * SECOND * (p.slowDowns + 1) <= MAX_INT64 {
      WrapIsIdentity(p.wait + 5 * SECOND);
    }
  }

  lemma {:induction false} StepInv(p: Poll, e: Event, interval: int)
    requires Inv(p, interval)
    ensures Inv(Step(p, e), interval) && Step(p, e).dpop == p.dpop
  {
    if p.asking && p.verdict.None? && e.Answer? {
      AnsweredInv(p, e.reply, e.nonceFetched, interval);
    }
  }

  lemma {:induction false} RunInv(interval: int, dpop: bool, es: seq<Event>)
    ensures Inv(Run(Begin(interval, dpop), es), interval)
    ensures Run(Begin(interval, dpop), es).dpop == dpop
  {
    if es == [] {
    } else {
      var p := Run(Begin(interval, dpop), es[..|es| - 1]);
      RunInv(interval, dpop, es[..|es| - 1]);
      StepInv(p, es[|es| - 1], interval);
    }
  }

  /** After k ticks at most 2(k+1)+1 token requests were sent, the proof was
      retried at most once in the whole sign-in, and never without a proofer. */
  lemma {:induction false} RequestsAreBounded(interval: int, dpop: bool, es: seq<Event>)
    ensures var p := Run(Begin(interval, dpop), es);
            && p.requests <= 2 * (p.ticks + 1) + 1
            && p.proofRetries <= (if dpop then 1 else 0)
            && (!dpop ==> p.requests <= 2 * (p.ticks + 1))
  {
    RunInv(interval, dpop, es);
  }

  /** The interval is the one the server gave, or 5 seconds when it gave none,
      plus 5 seconds for every slow_down, as long as that fits a Duration. */
  lemma {:induction false} IntervalGrows(interval: int, dpop: bool, es: seq<Event>)
    requires interval * SECOND <= MAX_INT64
    ensures var p := Run(Begin(interval, dpop), es);
            var first := if 0 < interval then interval * SECOND else 5 * SECOND;
            interval * SECOND >= MIN_INT64 && first + 5 * SECOND * p.slowDowns <= MAX_INT64 ==>
              p.wait == first + 5 * SECOND * p.slowDowns
  {
    RunInv(interval, dpop, es);
    if interval * SECOND >= MIN_INT64 {
      WrapIsIdentity(interval * SECOND);
    }
  }

  /** A positive interval is honoured exactly when it fits a Duration. */
  lemma {:induction false} IntervalFits(interval: int)
    requires 0 < interval <= MAX_INT64
    ensures InitialWait(interval) == interval * SECOND <==> interval * SECOND <= MAX_INT64
  {
    if interval * SECOND <= MAX_INT64 {
      WrapIsIdentity(interval * SECOND);
    }
    InitialWaitPositive(interval);
  }

  lemma {:induction false} RunSnoc(p: Poll, es: seq<Event>, e: Event)
    ensures Run(p, es + [e]) == Step(Run(p, es), e)
  {
    assert (es + [e])[..|es|] == es;
  }

  lemma {:induction false} RunAppend(p: Poll, a: seq<Event>, b: seq<Event>)
    ensures Run(p, a + b) == Run(Run(p, a), b)
  {
    if b == [] {
      assert a + b == a;
    } else {
      var n := |b| - 1;
      RunAppend(p, a, b[..n]);
      assert (a + b)[..|a + b| - 1] == a + b[..n];
    }
  }

  // ---- The sign-in as a conversation ---------------------------------------

  /** One exchange after which the sign-in goes on: the answer was "not yet" and
      the next request waits for the ticker, or it asked for a retry at once. */
  datatype Turn = Waited(reply: Reply, fetched: bool) | Retried(reply: Reply, fetched: bool)

  function EventsOf(turns: seq<Turn>): seq<Event> {
    if turns == [] then []
    else
      var last := turns[|turns| - 1];
      EventsOf(turns[..|turns| - 1])
      + [Answer(last.reply, last.fetched)] + (if last.Waited? then [Tick] else [])
  }

  predicate HasToken(r: Reply) {
    !r.failed && r.decoded && r.token != ""
  }

  /** An answer without a token that names this error. */
  predicate Says(r: Reply, code: Code) {
    r.decoded && r.error == code && !HasToken(r)
  }

  /** The answers that leave the sign-in open. */
  predicate NotYet(r: Reply) {
    Says(r, AuthorizationPending) || Says(r, SlowDown)
  }

  /** A nonce retry since the last wait. */
  predicate NonceBefore(turns: seq<Turn>) {
    turns != [] && turns[|turns| - 1].Retried?
    && (turns[|turns| - 1].reply.error == UseDpopNonce || NonceBefore(turns[..|turns| - 1]))
  }

  /** A proof retry anywhere before. */
  predicate ProofBefore(turns: seq<Turn>) {
    exists k :: 0 <= k < |turns| && turns[k].Retried? && turns[k].reply.error == InvalidDpopProof
  }

  /** What keeps a sign-in going: authorization_pending and slow_down, one nonce
      retry between two waits, one proof retry in all. */
  predicate KeepsGoing(dpop: bool, before: seq<Turn>, turn: Turn) {
    match turn
    case Waited(r, _) => NotYet(r)
    case Retried(r, fetched) =>
      || (Says(r, UseDpopNonce) && !NonceBefore(before))
      || (Says(r, InvalidDpopProof) && dpop && fetched && !ProofBefore(before))
  }

  predicate GoesOn(dpop: bool, turns: seq<Turn>) {
    forall k :: 0 <= k < |turns| ==> KeepsGoing(dpop, turns[..k], turns[k])
  }

  function SlowCount(turns: seq<Turn>): nat {
    if turns == [] then 0
    else
      var last := turns[|turns| - 1];
      SlowCount(turns[..|turns| - 1]) + (if last.Waited? && last.reply.error == SlowDown then 1 else 0)
  }

  lemma {:induction false} GoesOnPrefix(dpop: bool, turns: seq<Turn>)
    requires turns != [] && GoesOn(dpop, turns)
    ensures GoesOn(dpop, turns[..|turns| - 1])
    ensures KeepsGoing(dpop, turns[..|turns| - 1], turns[|turns| - 1])
    ensures ProofBefore(turns) <==>
              ProofBefore(turns[..|turns| - 1])
              || (turns[|turns| - 1].Retried? && turns[|turns| - 1].reply.error == InvalidDpopProof)
  {
    var init := turns[..|turns| - 1];
    assert forall k :: 0 <= k < |init| ==> init[..k] == turns[..k];
    if ProofBefore(init) {
      var k :| 0 <= k < |init| && init[k].Retried? && init[k].reply.error == InvalidDpopProof;
      assert turns[k] == init[k];
    }
    if ProofBefore(turns) {
      var k :| 0 <= k < |turns| && turns[k].Retried? && turns[k].reply.error == InvalidDpopProof;
      assert k < |init| ==> init[k] == turns[k];
    }
  }

  lemma {:induction false} EventsSnoc(p: Poll, turns: seq<Turn>)
    requires turns != []
    ensures var last := turns[|turns| - 1];
            var q := Step(Run(p, EventsOf(turns[..|turns| - 1])), Answer(last.reply, last.fetched));
            Run(p, EventsOf(turns)) == if last.Waited? then Step(q, Tick) else q
  {
    var last := turns[|turns| - 1];
    var before := EventsOf(turns[..|turns| - 1]);
    var answer := Answer(last.reply, last.fetched);
    RunSnoc(p, before, answer);
    RunSnoc(p, before + [answer], Tick);
    assert before + [answer] + [] == before + [answer];
  }

  /** The loop is about to send a request and knows of the retries so far. */
  ghost predicate Asking(p: Poll, dpop: bool, turns: seq<Turn>) {
    && p.verdict == None && p.asking && p.dpop == dpop && p.requests == |turns|
    && p.nonceRetried == NonceBefore(turns) && p.bootstrapped == ProofBefore(turns)
    && p.slowDowns == SlowCount(turns)
  }

  lemma {:induction false} TurnAsksAgain(p: Poll, dpop: bool, turns: seq<Turn>)
    requires turns != [] && Asking(p, dpop, turns[..|turns| - 1])
    requires KeepsGoing(dpop, turns[..|turns| - 1], turns[|turns| - 1])
    requires ProofBefore(turns) <==>
               ProofBefore(turns[..|turns| - 1])
               || (turns[|turns| - 1].Retried? && turns[|turns| - 1].reply.error == InvalidDpopProof)
    ensures var last := turns[|turns| - 1];
            var q := Step(p, Answer(last.reply, last.fetched));
            Asking(if last.Waited? then Step(q, Tick) else q, dpop, turns)
  {
  }

  /** While the exchanges keep it going, the loop has asked once for each of them
      and is about to ask again. */
  lemma {:induction false} KeepsAsking(interval: int, dpop: bool, turns: seq<Turn>)
    requires GoesOn(dpop, turns)
    ensures Asking(Run(Begin(interval, dpop), EventsOf(turns)), dpop, turns)
  {
    if turns == [] {
      assert EventsOf(turns) == [];
    } else {
      var n := |turns| - 1;
      GoesOnPrefix(dpop, turns);
      KeepsAsking(interval, dpop, turns[..n]);
      TurnAsksAgain(Run(Begin(interval, dpop), EventsOf(turns[..n])), dpop, turns);
      EventsSnoc(Begin(interval, dpop), turns);
    }
  }

  lemma {:induction false} AnswerCounts(p: Poll, r: Reply, fetched: bool)
    requires p.verdict == None && p.asking
    ensures Step(p, Answer(r, fetched)).requests == p.requests + 1
    ensures NotYet(r) ==> !Step(p, Answer(r, fetched)).asking && Step(p, Answer(r, fetched)).verdict == None
  {
  }

  lemma {:induction false} AnswerEnds(p: Poll, r: Reply, fetched: bool)
    requires p.verdict == None && p.asking
    ensures var v := Step(p, Answer(r, fetched)).verdict;
            && (HasToken(r) ==> v == Some(Granted(r.token, r.expiresIn)))
            && (!r.decoded || Says(r, NoCode) ==> v == Some(Broken))
            && (Says(r, AccessDenied) ==> v == Some(Denied))
            && (Says(r, ExpiredToken) ==> v == Some(Expired))
            && (r.error.OtherCode? && Says(r, r.error) ==> v == Some(OtherError))
            && (NotYet(r) ==> v == None)
  {
  }

  lemma {:induction false} RetryEnds(p: Poll, r: Reply, fetched: bool)
    requires p.verdict == None && p.asking
    ensures var v := Step(p, Answer(r, fetched)).verdict;
            && (Says(r, UseDpopNonce) ==> v == if p.nonceRetried then Some(NonceRefused) else None)
            && (Says(r, InvalidDpopProof) ==>
                  v == if !p.dpop || p.bootstrapped then Some(ProofRefused)
                       else if fetched then None else Some(NoNonce))
  {
  }

  lemma {:induction false} WaitIsCounted(p: Poll, interval: int)
    requires Inv(p, interval) && 0 < interval && interval * SECOND + 5 * SECOND * p.slowDowns <= MAX_INT64
    ensures p.wait == (interval + 5 * p.slowDowns) * SECOND
  {
    IntervalFits(interval);
  }

  /** What the next answer does to a sign-in that its answers kept going so far: it
      asked once per answer, and ends with what this one says. Only "not yet", the
      first nonce refusal since the last wait and the first proof refusal whose
      nonce could be fetched leave it open. */
  lemma {:induction false} SignInEnds(interval: int, dpop: bool, turns: seq<Turn>, r: Reply, fetched: bool)
    requires GoesOn(dpop, turns)
    ensures var p := Run(Begin(interval, dpop), EventsOf(turns) + [Answer(r, fetched)]);
            && p.requests == |turns| + 1
            && (HasToken(r) ==> p.verdict == Some(Granted(r.token, r.expiresIn)))
            && (!r.decoded || Says(r, NoCode) ==> p.verdict == Some(Broken))
            && (Says(r, AccessDenied) ==> p.verdict == Some(Denied))
            && (Says(r, ExpiredToken) ==> p.verdict == Some(Expired))
            && (r.error.OtherCode? && Says(r, r.error) ==> p.verdict == Some(OtherError))
            && (NotYet(r) ==> p.verdict == None)
            && (Says(r, UseDpopNonce) ==> p.verdict == if NonceBefore(turns) then Some(NonceRefused) else None)
            && (Says(r, InvalidDpopProof) ==>
                  p.verdict == if !dpop || ProofBefore(turns) then Some(ProofRefused)
                               else if fetched then None else Some(NoNonce))
  {
    var p := Run(Begin(interval, dpop), EventsOf(turns));
    KeepsAsking(interval, dpop, turns);
    RunSnoc(Begin(interval, dpop), EventsOf(turns), Answer(r, fetched));
    AnswerCounts(p, r, fetched);
    AnswerEnds(p, r, fetched);
    RetryEnds(p, r, fetched);
  }

  /** Each wait is the first one plus 5 seconds for every slow_down answer before it,
      as long as that fits a Duration. */
  lemma {:induction false} WaitsGrow(interval: int, dpop: bool, turns: seq<Turn>)
    requires GoesOn(dpop, turns) && 0 < interval && interval * SECOND + 5 * SECOND * SlowCount(turns) <= MAX_INT64
    ensures Run(Begin(interval, dpop), EventsOf(turns)).wait == (interval + 5 * SlowCount(turns)) * SECOND
  {
    var p := Run(Begin(interval, dpop), EventsOf(turns));
    assert p.slowDowns == SlowCount(turns) by {
      KeepsAsking(interval, dpop, turns);
    }
    assert Inv(p, interval) by {
      RunInv(interval, dpop, EventsOf(turns));
    }
    WaitIsCounted(p, interval);
  }

  /** A wait ends with the ticker, or the sign-in ends with the context or after 15
      minutes. The answer before said "not yet". */
  lemma {:induction false} WaitEnds(interval: int, dpop: bool, turns: seq<Turn>, r: Reply, fetched: bool)
    requires GoesOn(dpop, turns) && NotYet(r)
    ensures var es := EventsOf(turns) + [Answer(r, fetched)];
            && Run(Begin(interval, dpop), es + [Cancel]).verdict == Some(Cancelled)
            && Run(Begin(interval, dpop), es + [Timeout]).verdict == Some(TimedOut)
            && Run(Begin(interval, dpop), es + [Tick]).verdict == None
  {
    var es := EventsOf(turns) + [Answer(r, fetched)];
    KeepsAsking(interval, dpop, turns);
    RunSnoc(Begin(interval, dpop), EventsOf(turns), Answer(r, fetched));
    AnswerCounts(Run(Begin(interval, dpop), EventsOf(turns)), r, fetched);
    RunSnoc(Begin(interval, dpop), es, Cancel);
    RunSnoc(Begin(interval, dpop), es, Timeout);
    RunSnoc(Begin(interval, dpop), es, Tick);
  }

  /** The usual sign-in: after any number of "not yet" answers, each followed by a
      wait, an answer with a token signs in with it, with one request per answer. */
  lemma {:induction false} ApprovalSignsIn(interval: int, dpop: bool, turns: seq<Turn>, r: Reply)
    requires forall k :: 0 <= k < |turns| ==> turns[k].Waited? && NotYet(turns[k].reply)
    requires HasToken(r)
    ensures var p := Run(Begin(interval, dpop), EventsOf(turns) + [Answer(r, false)]);
            p.verdict == Some(Granted(r.token, r.expiresIn)) && p.requests == |turns| + 1
  {
    SignInEnds(interval, dpop, turns, r, false);
  }

  // ---- Where the token comes from ------------------------------------------

  /** The answer at k is awaited and brings a token. Its error field is free. */
  ghost predicate TokenAt(p: Poll, es: seq<Event>, k: nat) {
    && k < |es| && es[k].Answer? && Run(p, es[..k]).asking && Run(p, es[..k]).verdict.None?
    && !es[k].reply.failed && es[k].reply.decoded && es[k].reply.token != ""
  }

  predicate IsGranted(p: Poll) {
    p.verdict.Some? && p.verdict.value.Granted?
  }

  lemma {:induction false} GrantingStep(p: Poll, e: Event)
    ensures p.verdict.Some? ==> Step(p, e) == p
    ensures p.verdict.None? ==>
              (IsGranted(Step(p, e)) <==>
               e.Answer? && p.asking && !e.reply.failed && e.reply.decoded && e.reply.token != "")
    ensures p.verdict.None? && IsGranted(Step(p, e)) ==>
              Step(p, e).verdict == Some(Granted(e.reply.token, e.reply.expiresIn))
  {
  }

  lemma {:induction false} TokenAtPrefix(p: Poll, es: seq<Event>, n: nat, k: nat)
    requires k < n <= |es|
    ensures es[..n][k] == es[k] && (TokenAt(p, es, k) <==> TokenAt(p, es[..n], k))
  {
    assert es[..n][..k] == es[..k];
  }

  /** A token is granted exactly when an awaited answer, sent without a transport
      error and read as JSON, has one, whatever its error field says. */
  lemma {:induction false} TokenIsTaken(p: Poll, es: seq<Event>)
    requires p.verdict.None?
    ensures IsGranted(Run(p, es)) <==> exists k: nat :: TokenAt(p, es, k)
    ensures forall k: nat :: TokenAt(p, es, k) ==>
              Run(p, es).verdict == Some(Granted(es[k].reply.token, es[k].reply.expiresIn))
  {
    if es == [] {
    } else {
      var n := |es| - 1;
      TokenIsTaken(p, es[..n]);
      GrantingStep(Run(p, es[..n]), es[n]);
      forall k: nat | TokenAt(p, es, k)
        ensures Run(p, es).verdict == Some(Granted(es[k].reply.token, es[k].reply.expiresIn))
      {
        if k < n {
          TokenAtPrefix(p, es, n, k);
        }
      }
      if IsGranted(Run(p, es)) {
        if Run(p, es[..n]).verdict.None? {
          assert TokenAt(p, es, n);
        } else {
          var k: nat :| TokenAt(p, es[..n], k);
          TokenAtPrefix(p, es, n, k);
        }
      }
    }
  }

  /** Even an answer that says the sign-in was denied. */
  lemma {:induction false} TokenDespiteError(interval: int, dpop: bool, code: Code)
    ensures var e := Answer(Reply(false, true, "t", 0, code), false);
            Run(Begin(interval, dpop), [e]).verdict == Some(Granted("t", 0))
  {
    var e := Answer(Reply(false, true, "t", 0, code), false);
    RunSnoc(Begin(interval, dpop), [], e);
    assert [] + [e] == [e];
  }

  /** Nothing more is sent before a tick. */
  predicate Waits(p: Poll) {
    !p.asking || p.verdict.Some?
  }

  lemma {:induction false} WaitingStep(p: Poll, e: Event)
    requires Waits(p)
    ensures Step(p, e).requests == p.requests && Step(p, e).ticks >= p.ticks
    ensures Step(p, e).ticks == p.ticks ==> Waits(Step(p, e))
  {
  }

  lemma {:induction false} TicksGrow(p: Poll, e: Event)
    ensures Step(p, e).ticks >= p.ticks
  {
  }

  /** Without a tick a poll that waits sends nothing. */
  lemma {:induction false} NothingWithoutTick(p: Poll, es: seq<Event>)
    requires Waits(p)
    ensures Run(p, es).ticks > p.ticks
            || (Run(p, es).ticks == p.ticks && Run(p, es).requests == p.requests && Waits(Run(p, es)))
  {
    if es == [] {
    } else {
      var q := Run(p, es[..|es| - 1]);
      NothingWithoutTick(p, es[..|es| - 1]);
      TicksGrow(q, es[|es| - 1]);
      if Waits(q) {
        WaitingStep(q, es[|es| - 1]);
      }
    }
  }

  /** What a request that is followed by another one without a wait was. */
  lemma {:induction false} RequestStep(p: Poll, e: Event)
    requires Step(p, e).requests == p.requests + 1
    ensures e.Answer? && !Waits(p)
    ensures || Waits(Step(p, e))
            || (e.reply.error == UseDpopNonce && !p.nonceRetried && Step(p, e).nonceRetried)
            || (e.reply.error == InvalidDpopProof && !p.bootstrapped && Step(p, e).bootstrapped)
  {
  }

  lemma {:induction false} AskedAfterTick(p: Poll, between: seq<Event>, e: Event)
    requires Waits(p) && Run(p, between).requests == p.requests
    requires Step(Run(p, between), e).requests == Run(p, between).requests + 1
    ensures Run(p, between).ticks > p.ticks
  {
    NothingWithoutTick(p, between);
    RequestStep(Run(p, between), e);
  }

  /** The loop waits between two requests. Where it does not, the request before
      was the one nonce retry since the last tick or the one proof retry of the
      sign-in, and its answer asked for that. Requests are sent at i and j, and
      none between them. */
  lemma {:induction false} RetriesAreNamed(p: Poll, es: seq<Event>, i: nat, j: nat)
    requires i < j < |es|
    requires Run(p, es[..i + 1]).requests == Run(p, es[..i]).requests + 1
    requires Run(p, es[..j]).requests == Run(p, es[..i + 1]).requests
    requires Run(p, es[..j + 1]).requests == Run(p, es[..j]).requests + 1
    ensures es[i].Answer?
    ensures var before, after := Run(p, es[..i]), Run(p, es[..i + 1]);
            || Run(p, es[..j]).ticks > after.ticks
            || (es[i].reply.error == UseDpopNonce && !before.nonceRetried && after.nonceRetried)
            || (es[i].reply.error == InvalidDpopProof && !before.bootstrapped && after.bootstrapped)
  {
    assert es[..i + 1] == es[..i] + [es[i]] && es[..j + 1] == es[..j] + [es[j]];
    RunSnoc(p, es[..i], es[i]);
    RunSnoc(p, es[..j], es[j]);
    RequestStep(Run(p, es[..i]), es[i]);
    if Waits(Run(p, es[..i + 1])) {
      assert es[..j] == es[..i + 1] + es[i + 1..j];
      RunAppend(p, es[..i + 1], es[i + 1..j]);
      AskedAfterTick(Run(p, es[..i + 1]), es[i + 1..j], es[j]);
    }
  }
}
