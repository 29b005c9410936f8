/** How often nk under ssh asks the backend: `nk prepare`, then `nk proxy`, for
    every connection, with stamps that outlive both processes. */
module Backoff {
  import opened GoTime

  const PROXY_FRESH_FOR := 60 * SECOND
  const SYNC_RETRY_AFTER := 30 * SECOND

  /** The zero time.Time, which no failure ever has. */
  const NEVER: int := -UNIX_TO_INTERNAL * SECOND

  datatype Kind = Sync | Renewal

  /** One use of the backend, from its start to its result. */
  datatype Attempt = Attempt(kind: Kind, start: Instant, end: Instant, ok: bool)

  /** What the snapshot on disk says, and what happened so far. */
  datatype Stamps = Stamps(syncedAt: Instant, failedAt: Instant, log: seq<Attempt>)

  /** One ssh connection: how its target and certificate are found, when its two
      commands look, and how their attempts end, if they make any. */
  datatype Connection = Connection(
    known: bool,                                              // the snapshot has the target
    cached: bool,                                             // and it has data to fall back on
    prepareAt: Instant, certFresh: bool, certValid: bool, renewal: Attempt,
    proxyAt: Instant, sync: Attempt,
    found: bool,                                              // the target and its CA, after any sync
    stillValid: bool, covers: bool, late: Attempt)

  predicate SyncFailedWithin(s: Stamps, d: int, now: Instant) {
    Sub(now, s.failedAt) < d
  }

  /** renewCert: a certificate that still works is not worth a timeout. */
  predicate Renews(s: Stamps, c: Connection) {
    c.known && !c.certFresh && !(c.certValid && SyncFailedWithin(s, SYNC_RETRY_AFTER, c.prepareAt))
  }

  function Prepared(s: Stamps, c: Connection): Stamps {
    if !Renews(s, c) then s
    else
      var a := Attempt(Renewal, c.prepareAt, c.renewal.end, c.renewal.ok);
      Stamps(s.syncedAt, if a.ok then s.failedAt else a.end, s.log + [a])
  }

  predicate Stale(s: Stamps, now: Instant) {
    Sub(now, s.syncedAt) > PROXY_FRESH_FOR && !SyncFailedWithin(s, SYNC_RETRY_AFTER, now)
  }

  predicate Syncs(s: Stamps, c: Connection) {
    Stale(s, c.proxyAt) || !c.known
  }

  /** A failed sync is stamped when there is a snapshot to fall back on. */
  function Synced(s: Stamps, c: Connection): Stamps {
    if !Syncs(s, c) then s
    else
      var a := Attempt(Sync, c.proxyAt, c.sync.end, c.sync.ok);
      if a.ok then Stamps(a.end, NEVER, s.log + [a])
      else Stamps(s.syncedAt, if c.cached then a.end else s.failedAt, s.log + [a])
  }

  /** nk proxy gives up without a snapshot or without the target in it. */
  predicate GoesOn(s: Stamps, c: Connection) {
    c.found && (Syncs(s, c) && !c.sync.ok ==> c.cached)
  }

  /** nk proxy: a renewal here leaves no stamp. */
  function Proxied(s: Stamps, c: Connection): Stamps {
    var t := Synced(s, c);
    if !GoesOn(s, c) || (c.stillValid && c.covers) then t
    else t.(log := t.log + [Attempt(Renewal, c.late.start, c.late.end, c.late.ok)])
  }

  function Connected(s: Stamps, c: Connection): Stamps {
    Proxied(Prepared(s, c), c)
  }

  function Connections(s: Stamps, cs: seq<Connection>): Stamps {
    if cs == [] then s else Connected(Connections(s, cs[..|cs| - 1]), cs[|cs| - 1])
  }

  /** What one more connection asks of the backend: a renewal before ssh reads the
      certificate, a sync, and a renewal after it, each exactly where it is due. */
  lemma {:induction false} ConnectionAsks(s: Stamps, cs: seq<Connection>, c: Connection)
    ensures var before, after := Connections(s, cs), Connections(s, cs + [c]);
            var renews := c.known && !c.certFresh
                          && (c.certValid ==> c.prepareAt - before.failedAt >= 30_000_000_000);
            var failedAt := if renews && !c.renewal.ok then c.renewal.end else before.failedAt;
            var syncs := c.known ==> c.proxyAt - before.syncedAt > 60_000_000_000
                                     && c.proxyAt - failedAt >= 30_000_000_000;
            var signs := c.found && (syncs ==> c.sync.ok || c.cached) && (!c.stillValid || !c.covers);
            after.log == before.log
                         + (if renews then [Attempt(Renewal, c.prepareAt, c.renewal.end, c.renewal.ok)] else [])
                         + (if syncs then [Attempt(Sync, c.proxyAt, c.sync.end, c.sync.ok)] else [])
                         + (if signs then [Attempt(Renewal, c.late.start, c.late.end, c.late.ok)] else [])
  {
    assert (cs + [c])[..|cs|] == cs;
  }

  // ---- Main results --------------------------------------------------------

  /** A user whose access and certificate are in order. */
  predicate InOrder(c: Connection) {
    c.known && c.cached && (c.certFresh || c.certValid) && (!c.found || (c.stillValid && c.covers))
  }

  /** The end of the last failure that no successful sync followed. */
  function LastFailure(log: seq<Attempt>, before: Instant): Instant {
    if log == [] then before
    else
      var a := log[|log| - 1];
      if !a.ok then a.end
      else if a.kind == Sync then NEVER
      else LastFailure(log[..|log| - 1], before)
  }

  /** Every attempt keeps its distance from the last failure before it. */
  predicate Spaced(log: seq<Attempt>, before: Instant) {
    forall k :: 0 <= k < |log| ==> log[k].start - LastFailure(log[..k], before) >= SYNC_RETRY_AFTER
  }

  lemma {:induction false} LogStep(s: Stamps, a: Attempt, before: Instant)
    requires Spaced(s.log, before) && s.failedAt == LastFailure(s.log, before)
    requires a.start - s.failedAt >= SYNC_RETRY_AFTER
    ensures Spaced(s.log + [a], before)
    ensures LastFailure(s.log + [a], before)
         == if !a.ok then a.end else if a.kind == Sync then NEVER else s.failedAt
  {
    var log := s.log + [a];
    assert log[..|log| - 1] == s.log;
    forall k | 0 <= k < |log| ensures log[k].start - LastFailure(log[..k], before) >= SYNC_RETRY_AFTER {
      if k < |s.log| {
        assert log[..k] == s.log[..k];
      }
    }
  }

  /** The log keeps its distances and failedAt is the last failure in it. */
  predicate Tracked(s: Stamps, before: Instant) {
    Spaced(s.log, before) && s.failedAt == LastFailure(s.log, before)
  }

  lemma {:induction false} PreparedTracked(s: Stamps, c: Connection, before: Instant)
    requires Tracked(s, before) && InOrder(c)
    ensures Tracked(Prepared(s, c), before)
  {
    if Renews(s, c) {
      LogStep(s, Attempt(Renewal, c.prepareAt, c.renewal.end, c.renewal.ok), before);
    }
  }

  lemma {:induction false} SyncedTracked(s: Stamps, c: Connection, before: Instant)
    requires Tracked(s, before) && InOrder(c)
    ensures Tracked(Synced(s, c), before)
  {
    if Stale(s, c.proxyAt) {
      LogStep(s, Attempt(Sync, c.proxyAt, c.sync.end, c.sync.ok), before);
    }
  }

  /** Back-off: over any connections, whatever the clock does between them, no
      sync and no renewal starts within 30 seconds of the last recorded failure,
      and a successful sync wipes that failure. */
  lemma {:induction false} AttemptsAreSpaced(s: Stamps, cs: seq<Connection>)
    requires s.log == [] && forall k :: 0 <= k < |cs| ==> InOrder(cs[k])
    ensures Tracked(Connections(s, cs), s.failedAt)
  {
    if cs == [] {
    } else {
      var n := |cs| - 1;
      AttemptsAreSpaced(s, cs[..n]);
      var e := Connections(s, cs[..n]);
      PreparedTracked(e, cs[n], s.failedAt);
      SyncedTracked(Prepared(e, cs[n]), cs[n], s.failedAt);
    }
  }

  /** During an outage, so when every attempt fails, each attempt starts at least
      30 seconds after the one before it ended. */
  lemma {:induction false} OutageCostsOneAttempt(s: Stamps, cs: seq<Connection>, k: nat)
    requires s.log == [] && forall i :: 0 <= i < |cs| ==> InOrder(cs[i])
    requires k + 1 < |Connections(s, cs).log| && !Connections(s, cs).log[k].ok
    ensures Connections(s, cs).log[k + 1].start - Connections(s, cs).log[k].end >= SYNC_RETRY_AFTER
  {
    AttemptsAreSpaced(s, cs);
    var log := Connections(s, cs).log;
    assert log[..k + 1][|log[..k + 1]| - 1] == log[k];
    assert LastFailure(log[..k + 1], s.failedAt) == log[k].end;
  }

  // ---- Exactly which connections keep the spacing --------------------------

  /** nk prepare keeps the spacing from every recorded failure if and only if it
      has nothing to renew or its certificate still works. One that does not work
      is worth the timeout. */
  lemma {:induction false} PrepareSpacing(c: Connection)
    ensures (forall s: Stamps :: s.log == [] ==> Spaced(Prepared(s, c).log, s.failedAt))
       <==> !c.known || c.certFresh || c.certValid
  {
    if !c.known || c.certFresh || c.certValid {
      forall s: Stamps | s.log == [] ensures Spaced(Prepared(s, c).log, s.failedAt) {
        if Renews(s, c) {
          LogStep(s, Attempt(Renewal, c.prepareAt, c.renewal.end, c.renewal.ok), s.failedAt);
        }
      }
    } else {
      var s := Stamps(c.prepareAt, c.prepareAt, []);
      var log := Prepared(s, c).log;
      assert log == [Attempt(Renewal, c.prepareAt, c.renewal.end, c.renewal.ok)] && log[..0] == [];
      assert !Spaced(log, s.failedAt);
    }
  }

  /** nk proxy keeps it if and only if the snapshot has the target and, where it
      goes on to the certificate, that one still works and covers every account. A
      renewal for an account granted later neither looks at the last failure nor
      records its own. */
  lemma {:induction false} ProxySpacing(c: Connection)
    ensures (forall s: Stamps :: s.log == [] ==> Spaced(Proxied(s, c).log, s.failedAt))
       <==> c.known && (!c.found || (c.stillValid && c.covers))
  {
    if c.known && (!c.found || (c.stillValid && c.covers)) {
      forall s: Stamps | s.log == [] ensures Spaced(Proxied(s, c).log, s.failedAt) {
        if Syncs(s, c) {
          LogStep(s, Attempt(Sync, c.proxyAt, c.sync.end, c.sync.ok), s.failedAt);
        }
      }
    } else {
      var s := Stamps(c.proxyAt, if c.known then c.late.start else c.proxyAt, []);
      var log := Proxied(s, c).log;
      assert log[0] == (if c.known then Attempt(Renewal, c.late.start, c.late.end, c.late.ok)
                        else Attempt(Sync, c.proxyAt, c.sync.end, c.sync.ok));
      assert log[..0] == [];
      assert !Spaced(log, s.failedAt);
    }
  }

  /** A failed sync is remembered if and only if there is a snapshot to fall back
      on. Without one the next connection asks again at once. */
  lemma {:induction false} FailureIsRemembered(c: Connection)
    ensures (forall s: Stamps :: s.log == [] ==>
               Synced(s, c).failedAt == LastFailure(Synced(s, c).log, s.failedAt))
       <==> c.cached || c.sync.ok
  {
    var a := Attempt(Sync, c.proxyAt, c.sync.end, c.sync.ok);
    forall s: Stamps | s.log == []
      ensures Synced(s, c).log == if Syncs(s, c) then [a] else []
      ensures LastFailure([a], s.failedAt) == if a.ok then NEVER else a.end
    {
      assert [] + [a] == [a];
    }
    if !c.cached && !c.sync.ok {
      var s := Stamps(c.proxyAt - 61 * SECOND, c.proxyAt - 31 * SECOND, []);
      var t := Stamps(c.proxyAt - 61 * SECOND, c.proxyAt - 32 * SECOND, []);
      assert Syncs(s, c) && Syncs(t, c);
      assert s.failedAt != c.sync.end || t.failedAt != c.sync.end;
    }
  }

  /** The commands, with the stamps where they are kept. */
  class Snapshot {
    var syncedAt: Instant
    var failedAt: Instant
    ghost var log: seq<Attempt>

    ghost function Value(): Stamps
      reads this
    {
      Stamps(syncedAt, failedAt, log)
    }

    constructor (syncedAt: Instant, failedAt: Instant)
      ensures Value() == Stamps(syncedAt, failedAt, [])
    {
      this.syncedAt, this.failedAt := syncedAt, failedAt;
      log := [];
    }

    /** nk prepare */
    method Prepare(c: Connection)
      modifies this
      ensures Value() == Prepared(old(Value()), c)
      ensures var renews := c.known && !c.certFresh
                            && (c.certValid ==> c.prepareAt - old(failedAt) >= 30_000_000_000);
              && log == old(log) + (if renews then [Attempt(Renewal, c.prepareAt, c.renewal.end, c.renewal.ok)] else [])
              && failedAt == (if renews && !c.renewal.ok then c.renewal.end else old(failedAt))
              && syncedAt == old(syncedAt)
    {
      if !c.known || c.certFresh {
        return;
      }
      if c.certValid && Sub(c.prepareAt, failedAt) < SYNC_RETRY_AFTER {
        return;
      }
      log := log + [Attempt(Renewal, c.prepareAt, c.renewal.end, c.renewal.ok)];
      if !c.renewal.ok {
        failedAt := c.renewal.end;
      }
    }

    /** nk proxy, up to the dial */
    method Proxy(c: Connection)
      modifies this
      ensures Value() == Proxied(old(Value()), c)
      ensures var syncs := c.known ==> c.proxyAt - old(syncedAt) > 60_000_000_000
                                       && c.proxyAt - old(failedAt) >= 30_000_000_000;
              var signs := c.found && (syncs ==> c.sync.ok || c.cached) && (!c.stillValid || !c.covers);
              && log == old(log) + (if syncs then [Attempt(Sync, c.proxyAt, c.sync.end, c.sync.ok)] else [])
                                 + (if signs then [Attempt(Renewal, c.late.start, c.late.end, c.late.ok)] else [])
              && syncedAt == (if syncs && c.sync.ok then c.sync.end else old(syncedAt))
              && failedAt == (if syncs && c.sync.ok then NEVER
                              else if syncs && c.cached then c.sync.end else old(failedAt))
    {
      var stale := Sub(c.proxyAt, syncedAt) > PROXY_FRESH_FOR && !(Sub(c.proxyAt, failedAt) < SYNC_RETRY_AFTER);
      if stale || !c.known {
        log := log + [Attempt(Sync, c.proxyAt, c.sync.end, c.sync.ok)];
        if c.sync.ok {
          syncedAt := c.sync.end;
          failedAt := NEVER;
        } else if !c.cached {
          return;
        } else {
          failedAt := c.sync.end;
        }
      }
      if !c.found {
        return;
      }
      if !c.stillValid || !c.covers {
        log := log + [Attempt(Renewal, c.late.start, c.late.end, c.late.ok)];
      }
    }

    /** Both commands, for one connection after the other. */
    method Connect(cs: seq<Connection>)
      modifies this
      ensures Value() == Connections(old(Value()), cs)
      ensures old(log) == [] && (forall k :: 0 <= k < |cs| ==> InOrder(cs[k])) ==> Spaced(log, old(failedAt))
    {
      for k := 0 to |cs|
        invariant Value() == Connections(old(Value()), cs[..k])
      {
        assert cs[..k + 1][..k] == cs[..k];
        Prepare(cs[k]);
        Proxy(cs[k]);
      }
      assert cs[..|cs|] == cs;
      if old(log) == [] && forall k :: 0 <= k < |cs| ==> InOrder(cs[k]) {
        AttemptsAreSpaced(old(Value()), cs);
      }
    }
  }
}
