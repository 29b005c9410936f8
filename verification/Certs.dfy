/** Certificate windows with Go's time arithmetic, and keeping a certificate on disk. */
module Certs {
  import opened GoTime
  import opened Text

  datatype Cert = Cert(signer: string, validAfter: nat, validBefore: nat, principals: seq<string>)

  /** What ParseCert makes of a file. */
  type Data = Option<Cert>

  function CheckCert(data: Data, caKey: string, margin: int, now: Instant): bool {
    && data.Some?
    && data.value.signer == caKey
    && !(now < UnixTime(data.value.validAfter))
    && Sub(UnixTime(data.value.validBefore), now) > margin
  }

  /** Each principal the backend signs ends with a colon and its account. */
  predicate CoversOne(cert: Cert, account: string) {
    exists j :: 0 <= j < |cert.principals| && HasSuffix(cert.principals[j], ":" + account)
  }

  predicate Covers(cert: Cert, accounts: seq<string>) {
    forall i :: 0 <= i < |accounts| ==> CoversOne(cert, accounts[i])
  }

  /** The files CertValid, CertFresh and CertCovers read: None when unreadable. */
  type File = Option<Data>

  predicate CertValid(file: File, caKey: string, margin: int, now: Instant) {
    file.Some? && CheckCert(file.value, caKey, margin, now)
  }

  predicate CertCovers(file: File, accounts: seq<string>) {
    file.Some? && file.value.Some? && Covers(file.value.value, accounts)
  }

  function Lifetime(cert: Cert): int {
    Sub(UnixTime(cert.validBefore), UnixTime(cert.validAfter))
  }

  predicate CertFresh(file: File, caKey: string, accounts: seq<string>, now: Instant) {
    CertCovers(file, accounts) && CheckCert(file.value, caKey, Half(Lifetime(file.value.value)), now)
  }

  /** covers, as the loop over accounts it is. */
  method CoversAll(cert: Cert, accounts: seq<string>) returns (r: bool)
    ensures r <==> Covers(cert, accounts)
  {
    for i := 0 to |accounts|
      invariant forall k :: 0 <= k < i ==> CoversOne(cert, accounts[k])
    {
      var found := false;
      for j := 0 to |cert.principals|
        invariant found <==> exists m :: 0 <= m < j && HasSuffix(cert.principals[m], ":" + accounts[i])
      {
        found := found || HasSuffix(cert.principals[j], ":" + accounts[i]);
      }
      assert found <==> CoversOne(cert, accounts[i]);
      if !found {
        return false;
      }
    }
    r := true;
  }

  // ---- What the arithmetic means -------------------------------------------

  /** What a certificate means to sshd at an instant. */
  predicate InWindow(cert: Cert, now: Instant) {
    cert.validAfter * SECOND <= now < cert.validBefore * SECOND
  }

  /** A certificate passes with no margin exactly when the right CA signed it and
      now is inside its window, for every certificate whose times Go can hold. */
  lemma {:induction false} ValidMeansInWindow(cert: Cert, caKey: string, now: Instant)
    requires cert.validAfter <= LAST_SECOND && cert.validBefore <= LAST_SECOND
    ensures CheckCert(Some(cert), caKey, 0, now) <==> cert.signer == caKey && InWindow(cert, now)
  {
    TimestampsExact(cert.validAfter);
    TimestampsExact(cert.validBefore);
  }

  /** Beyond LAST_SECOND an end is never accepted, not even "forever", and a
      start counts as long past. */
  lemma {:induction false} BeyondLastSecond(cert: Cert, caKey: string, margin: int, now: Instant)
    requires now >= 0 && margin >= 0
    ensures cert.validBefore > LAST_SECOND ==> !CheckCert(Some(cert), caKey, margin, now)
    ensures cert.validAfter > LAST_SECOND && cert.validBefore <= LAST_SECOND ==>
              (CheckCert(Some(cert), caKey, 0, now) <==> cert.signer == caKey && now < cert.validBefore * SECOND)
  {
    TimestampsExact(cert.validAfter);
    TimestampsExact(cert.validBefore);
  }

  /** A fresh certificate is valid and covers every account. */
  lemma {:induction false} FreshIsValid(file: File, caKey: string, accounts: seq<string>, now: Instant)
    requires CertFresh(file, caKey, accounts, now)
    ensures CertValid(file, caKey, 0, now) && CertCovers(file, accounts)
  {
  }

  lemma {:induction false} CoversMeans(cert: Cert, accounts: seq<string>)
    ensures Covers(cert, accounts) <==>
            forall a :: a in accounts ==> exists p :: p in cert.principals && HasSuffix(p, ":" + a)
  {
    forall a ensures CoversOne(cert, a) <==> exists p :: p in cert.principals && HasSuffix(p, ":" + a) {
      if p :| p in cert.principals && HasSuffix(p, ":" + a) {
        var j :| 0 <= j < |cert.principals| && cert.principals[j] == p;
        assert CoversOne(cert, a);
      }
    }
    if forall a :: a in accounts ==> exists p :: p in cert.principals && HasSuffix(p, ":" + a) {
      forall i | 0 <= i < |accounts| ensures CoversOne(cert, accounts[i]) {
        assert accounts[i] in accounts;
      }
    }
  }

  lemma {:induction false} HalfLifetime(after: Instant, before: Instant, now: Instant)
    requires before - after <= MAX_INT64
    ensures after <= now ==> (Sub(before, now) > Half(Sub(before, after)) <==> 2 * (before - now) > before - after)
  {
    if after <= now && before < after {
      assert before - now <= before - after < 0;
      assert 2 * (before - now) <= before - after;
    }
  }

  /** Fresh, for times that Go can hold and a lifetime that fits a Duration: every
      account is covered, the right CA signed it, it has started, and more than
      half of its lifetime is left. */
  lemma {:induction false} FreshMeans(cert: Cert, caKey: string, accounts: seq<string>, now: Instant)
    requires cert.validAfter <= LAST_SECOND && cert.validBefore <= LAST_SECOND
    requires (cert.validBefore - cert.validAfter) * SECOND <= MAX_INT64
    ensures CertFresh(Some(Some(cert)), caKey, accounts, now) <==>
            && (forall a :: a in accounts ==> exists p :: p in cert.principals && HasSuffix(p, ":" + a))
            && cert.signer == caKey && cert.validAfter * SECOND <= now
            && 2 * (cert.validBefore * SECOND - now) > (cert.validBefore - cert.validAfter) * SECOND
  {
    TimestampsExact(cert.validAfter);
    TimestampsExact(cert.validBefore);
    HalfLifetime(cert.validAfter * SECOND, cert.validBefore * SECOND, now);
    CoversMeans(cert, accounts);
  }

  predicate HalfLeft(cert: Cert, now: Instant) {
    2 * (UnixTime(cert.validBefore) - now) > UnixTime(cert.validBefore) - UnixTime(cert.validAfter)
  }

  /** Fresh means more than half of the lifetime is left, exactly as long as the
      lifetime fits a Duration. For a longer one there is an instant at which the
      certificate counts as fresh with half of its lifetime gone. */
  lemma {:induction false} FreshHasHalfLeft(cert: Cert)
    requires cert.validAfter <= LAST_SECOND && cert.validBefore <= LAST_SECOND
    ensures (forall now: Instant ::
               CertFresh(Some(Some(cert)), cert.signer, [], now) ==> HalfLeft(cert, now))
       <==> (cert.validBefore - cert.validAfter) * SECOND <= MAX_INT64
  {
    TimestampsExact(cert.validAfter);
    TimestampsExact(cert.validBefore);
    var a, b := UnixTime(cert.validAfter), UnixTime(cert.validBefore);
    if b - a > MAX_INT64 {
      var now := b - 0x4000_0000_0000_0000;
      assert CertFresh(Some(Some(cert)), cert.signer, [], now) && !HalfLeft(cert, now);
    } else {
      forall now: Instant | CertFresh(Some(Some(cert)), cert.signer, [], now) ensures HalfLeft(cert, now) {
      }
    }
  }

  // ---- Keeping a certificate on disk ---------------------------------------

  datatype Call = Call(
    caKey: string, accounts: seq<string>,
    now: Instant,                        // when the certificate on disk is judged
    ready: bool,                         // a session and a public key are there
    answer: Option<Data>,                // the backend's answer, None for an error
    checkedAt: Instant,                  // when the answer is judged
    writable: bool)

  /** The answer that a call of EnsureCert puts on disk, if any. */
  function Replacement(file: File, c: Call): Option<Data> {
    if CertFresh(file, c.caKey, c.accounts, c.now) || !c.ready || c.answer.None?
       || !CheckCert(c.answer.value, c.caKey, 0, c.checkedAt) || !c.writable
    then None else c.answer
  }

  function AfterCall(file: File, c: Call): File {
    var r := Replacement(file, c);
    if r.Some? then Some(r.value) else file
  }

  function AfterCalls(file: File, cs: seq<Call>): File {
    if cs == [] then file else AfterCall(AfterCalls(file, cs[..|cs| - 1]), cs[|cs| - 1])
  }

  /** Over any calls with any answers, the certificate on disk is the one from
      the start or one that was valid, and signed by the CA asked for, when it
      was checked. A certificate that stays fresh throughout is never replaced. */
  lemma {:induction false} OnlyCheckedCertificates(file: File, cs: seq<Call>)
    ensures var end := AfterCalls(file, cs);
            end == file ||
            exists k :: 0 <= k < |cs| && cs[k].answer.Some? && end == Some(cs[k].answer.value)
                        && CheckCert(cs[k].answer.value, cs[k].caKey, 0, cs[k].checkedAt)
    ensures (forall k :: 0 <= k < |cs| ==> CertFresh(file, cs[k].caKey, cs[k].accounts, cs[k].now)) ==>
              AfterCalls(file, cs) == file
  {
    if cs == [] {
    } else {
      var n := |cs| - 1;
      OnlyCheckedCertificates(file, cs[..n]);
      var before := AfterCalls(file, cs[..n]);
      if before != file && AfterCall(before, cs[n]) == before {
        var k :| 0 <= k < n && cs[..n][k].answer.Some? && before == Some(cs[..n][k].answer.value)
                 && CheckCert(cs[..n][k].answer.value, cs[..n][k].caKey, 0, cs[..n][k].checkedAt);
        assert cs[k] == cs[..n][k];
      }
    }
  }

  /** A renewal that can succeed does, whatever calls came before: an answer by the
      right CA, inside its window when it is checked, replaces a certificate that is
      missing, signed by another CA, or has half of its lifetime gone. */
  lemma {:induction false} GoodAnswerIsKept(file: File, cs: seq<Call>, c: Call, cert: Cert)
    requires c.ready && c.writable && c.answer == Some(Some(cert)) && cert.signer == c.caKey
    requires cert.validAfter <= LAST_SECOND && cert.validBefore <= LAST_SECOND && InWindow(cert, c.checkedAt)
    requires var before := AfterCalls(file, cs);
             before.Some? && before.value.Some? ==>
               var was := before.value.value;
               && was.validAfter <= LAST_SECOND && was.validBefore <= LAST_SECOND
               && (was.validBefore - was.validAfter) * SECOND <= MAX_INT64
               && (was.signer != c.caKey
                   || 2 * (was.validBefore * SECOND - c.now) <= (was.validBefore - was.validAfter) * SECOND)
    ensures AfterCalls(file, cs + [c]) == Some(Some(cert))
  {
    var before := AfterCalls(file, cs);
    assert (cs + [c])[..|cs|] == cs;
    ValidMeansInWindow(cert, c.caKey, c.checkedAt);
    if before.Some? && before.value.Some? {
      FreshMeans(before.value.value, c.caKey, c.accounts, c.now);
    }
  }

  class CertStore {
    var file: File

    constructor (file: File)
      ensures this.file == file
    {
      this.file := file;
    }

    /** EnsureCert for one target. */
    method EnsureCert(c: Call) returns (ok: bool)
      modifies this
      ensures file == AfterCall(old(file), c)
      ensures var kept := CertFresh(old(file), c.caKey, c.accounts, c.now);
              var taken := c.ready && c.answer.Some? && CheckCert(c.answer.value, c.caKey, 0, c.checkedAt)
                           && c.writable;
              && (ok <==> kept || taken)
              && file == (if !kept && taken then Some(c.answer.value) else old(file))
              && (ok ==> CertValid(file, c.caKey, 0, if kept then c.now else c.checkedAt))
    {
      if file.Some? && file.value.Some? {
        var covered := CoversAll(file.value.value, c.accounts);
        if covered && CheckCert(file.value, c.caKey, Half(Lifetime(file.value.value)), c.now) {
          FreshIsValid(file, c.caKey, c.accounts, c.now);
          return true;
        }
      }
      if !c.ready || c.answer.None? {
        return false;
      }
      if !CheckCert(c.answer.value, c.caKey, 0, c.checkedAt) {
        return false;
      }
      if !c.writable {
        return false;
      }
      file := Some(c.answer.value);
      ok := true;
    }

    /** Any number of calls, with any answers: nothing but checked certificates. */
    method EnsureCerts(cs: seq<Call>)
      modifies this
      ensures file == AfterCalls(old(file), cs)
      ensures file == old(file) ||
              exists k :: 0 <= k < |cs| && cs[k].answer.Some? && file == Some(cs[k].answer.value)
                          && CheckCert(cs[k].answer.value, cs[k].caKey, 0, cs[k].checkedAt)
    {
      for k := 0 to |cs|
        invariant file == AfterCalls(old(file), cs[..k])
      {
        assert cs[..k + 1][..k] == cs[..k];
        var _ := EnsureCert(cs[k]);
      }
      assert cs[..|cs|] == cs;
      OnlyCheckedCertificates(old(file), cs);
    }
  }
}
