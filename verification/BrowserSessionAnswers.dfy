/** What the browser session store answers and writes, said by times, digests and versions. */
module BrowserSessionAnswers {
  import opened Basics
  import opened BrowserSessions
  import opened BrowserSessionLife

  const SECOND := 1_000_000

  /** A session that may be used now: not revoked, begun at most a minute ahead, seen before, and not expired. */
  predicate Usable(row: Row, now: int) {
    && row.revokedAt.None? && now + 60 * SECOND <= 253_402_300_800 * SECOND - 1
    && row.times.issuedAt <= now + 60 * SECOND && row.times.authenticatedAt <= now && row.times.lastSeenAt <= now
    && now < row.times.idleExpiresAt && now < row.times.absoluteExpiresAt
  }

  /** At most eight hours from authentication, at most thirty minutes idle. */
  predicate AllowedTimes(t: Times) {
    && t.issuedAt <= t.authenticatedAt <= t.lastSeenAt < t.idleExpiresAt <= t.absoluteExpiresAt
    && t.absoluteExpiresAt <= t.authenticatedAt + 8 * 3600 * SECOND
    && t.idleExpiresAt <= t.lastSeenAt + 30 * 60 * SECOND
  }

  predicate NeverIssued(s: State, digest: string) {
    forall a | a in s.allocations :: a.digest != digest
  }

  lemma CurrentMeans(row: Row, now: Instant)
    ensures CurrentError(row, now).None? <==> Usable(row, now)
    ensures row.revokedAt.Some? ==> CurrentError(row, now) == Some(Rejected)
    ensures WithinPolicy(row.times) <==> AllowedTimes(row.times)
  {
  }

  lemma ClaimMeans(s: State, digest: string, csrf: string, now: Instant)
    ensures Claim(s.allocations, digest, csrf, now)
         == if NeverIssued(s, digest) && NeverIssued(s, csrf) && digest != csrf
            then Some(s.allocations + [Allocation(digest, SessionIdentifier, now), Allocation(csrf, Csrf, now)]) else None
  {
    forall d ensures IsAllocated(s.allocations, d) <==> !NeverIssued(s, d) {
      if !NeverIssued(s, d) {
        var a :| a in s.allocations && a.digest == d;
        var i :| 0 <= i < |s.allocations| && s.allocations[i] == a;
      }
    }
  }

  /** A session resolves exactly while it is there and may be used. */
  lemma ResolutionAnswers(s: State, digest: string, now: Instant)
    requires Sound(s)
    ensures Resolve(s, digest, now).Ok? <==> digest in s.sessions && Usable(s.sessions[digest], now)
    ensures Resolve(s, digest, now).Ok? ==> Resolve(s, digest, now).value == s.sessions[digest]
  {
    if digest in s.sessions {
      CurrentMeans(s.sessions[digest], now);
      OldRowSound(s, digest);
    }
    hide CurrentError, WithinPolicy, IsSha256, Usable, AllowedTimes, Distinct, IssuedAs, Sound;
  }

  /** Whatever the table holds, a row is handed out exactly if all of it is admissible and it may be used now. */
  lemma ResolvesExactly(s: State, digest: string, now: Instant)
    ensures Resolve(s, digest, now).Ok?
       <==> && digest in s.sessions && IsSha256(digest)
            && var row := s.sessions[digest];
               && Usable(row, now) && AllowedTimes(row.times) && row.holder.admitted && row.holder.hasRoles && IsSha256(row.csrf)
               && 1 <= row.generation <= 0x7FFF_FFFF && row.generation <= row.version < 0x7FFF_FFFF_FFFF_FFFF
    ensures Resolve(s, digest, now).Ok? ==> Resolve(s, digest, now).value == s.sessions[digest]
  {
    if digest in s.sessions {
      CurrentMeans(s.sessions[digest], now);
    }
    hide CurrentError, WithinPolicy, IsSha256, AllowedTimes;
  }

  /** What a registration needs, and the row it keeps. */
  lemma RegistrationAnswers(s: State, digest: string, csrf: string, holder: Holder, times: Times, now: Instant)
    requires Sound(s)
    ensures var row, (s', r) := Row(csrf, holder, 1, times, None, 1), Register(s, digest, csrf, holder, times, now);
      if && holder.admitted && holder.hasRoles && IsSha256(digest) && IsSha256(csrf) && AllowedTimes(times) && Usable(row, now)
         && NeverIssued(s, digest) && NeverIssued(s, csrf) && digest != csrf
      then r == Ok(row) && s'.sessions == s.sessions[digest := row]
           && s'.allocations == s.allocations + [Allocation(digest, SessionIdentifier, now), Allocation(csrf, Csrf, now)]
      else r.Err? && s' == s
  {
    var row := Row(csrf, holder, 1, times, None, 1);
    CurrentMeans(row, now);
    ClaimMeans(s, digest, csrf, now);
    if Claim(s.allocations, digest, csrf, now).Some? {
      TableNeverCollides(s, {}, digest, csrf, now);
      assert s.sessions - {} == s.sessions;
    }
    hide CurrentError, WithinPolicy, IsSha256, Usable, AllowedTimes, Claim, NeverIssued, CollidesInTable, Sound;
  }

  /** The row of a live session at the version that the caller expects. */
  predicate Expected(s: State, digest: string, version: int) {
    digest in s.sessions && s.sessions[digest].version == version && version + 1 < MAX_SIGNED_64
  }

  /** A touch moves the last use to now and the idle expiry to thirty minutes later, but not past the absolute one. */
  lemma TouchAnswers(s: State, digest: string, version: int, now: Instant)
    requires Sound(s)
    ensures var (s', r) := Touch(s, digest, version, now);
      if Expected(s, digest, version) && Usable(s.sessions[digest], now) && now + 30 * 60 * SECOND <= 253_402_300_800 * SECOND - 1 then
        var row := s.sessions[digest];
        var idle := if now + 30 * 60 * SECOND <= row.times.absoluteExpiresAt then now + 30 * 60 * SECOND else row.times.absoluteExpiresAt;
        var next := row.(version := version + 1, times := row.times.(lastSeenAt := now, idleExpiresAt := idle));
        r == Ok(next) && s' == State(s.sessions[digest := next], s.allocations)
      else r.Err? && s' == s
  {
    CanTouch(s, digest, version, now);
    UpdateAnswers(s, TouchOp(digest, version, now));
    hide Expected, Usable, Sound, Touch, CanUpdate;
  }

  lemma CanTouch(s: State, digest: string, version: int, now: Instant)
    ensures CanUpdate(s, TouchOp(digest, version, now))
       <==> && Expected(s, digest, version) && Usable(s.sessions[digest], now) && now + 30 * 60 * SECOND <= 253_402_300_800 * SECOND - 1
  {
    if digest in s.sessions { CurrentMeans(s.sessions[digest], now); }
    hide CurrentError, Usable;
  }

  /** A rotation gives the session new digests, one generation and one version more, and changes nothing else. */
  lemma RotationAnswers(s: State, digest: string, newDigest: string, newCsrf: string, version: int, now: Instant)
    requires Sound(s)
    ensures var (s', r) := Rotate(s, digest, newDigest, newCsrf, version, now);
      if && Expected(s, digest, version) && Usable(s.sessions[digest], now) && s.sessions[digest].generation < 0x7FFF_FFFF
         && IsSha256(newDigest) && IsSha256(newCsrf) && NeverIssued(s, newDigest) && NeverIssued(s, newCsrf) && newDigest != newCsrf
      then
        var row := s.sessions[digest];
        var next := row.(csrf := newCsrf, generation := row.generation + 1, version := version + 1);
        && r == Ok(next) && digest !in s'.sessions && s'.sessions == (s.sessions - {digest})[newDigest := next]
        && s'.allocations == s.allocations + [Allocation(newDigest, SessionIdentifier, now), Allocation(newCsrf, Csrf, now)]
      else r.Err? && s' == s
  {
    CanRotate(s, digest, newDigest, newCsrf, version, now);
    UpdateAnswers(s, RotateOp(digest, newDigest, newCsrf, version, now));
    ClaimMeans(s, newDigest, newCsrf, now);
    if digest in s.sessions { OldDigestIssued(s, digest); }
    hide Expected, Usable, Sound, Rotate, Claim, IsSha256, NeverIssued, CanUpdate;
  }

  lemma CanRotate(s: State, digest: string, newDigest: string, newCsrf: string, version: int, now: Instant)
    ensures CanUpdate(s, RotateOp(digest, newDigest, newCsrf, version, now))
       <==> && Expected(s, digest, version) && Usable(s.sessions[digest], now) && s.sessions[digest].generation < 0x7FFF_FFFF
            && IsSha256(newDigest) && IsSha256(newCsrf) && NeverIssued(s, newDigest) && NeverIssued(s, newCsrf) && newDigest != newCsrf
  {
    ClaimMeans(s, newDigest, newCsrf, now);
    if digest in s.sessions { CurrentMeans(s.sessions[digest], now); }
    hide CurrentError, Usable, Claim, IsSha256, NeverIssued;
  }

  lemma OldDigestIssued(s: State, digest: string)
    requires Sound(s) && digest in s.sessions
    ensures !NeverIssued(s, digest)
  {
    OldRowSound(s, digest);
    IssuedForGood(s.allocations, s.allocations, digest, SessionIdentifier);
    var i :| 0 <= i < |s.allocations| && s.allocations[i].digest == digest;
    assert s.allocations[i] in s.allocations;
    hide Sound, Readable;
  }

  /** A revocation keeps the row and dates it; it needs neither an unexpired nor an idle session. */
  lemma RevocationAnswers(s: State, digest: string, version: int, now: Instant)
    requires Sound(s)
    ensures var (s', r) := Revoke(s, digest, version, now);
      if Expected(s, digest, version) && s.sessions[digest].revokedAt.None? && s.sessions[digest].times.lastSeenAt <= now then
        var next := s.sessions[digest].(revokedAt := Some(now), version := version + 1);
        r == Ok(next) && s' == State(s.sessions[digest := next], s.allocations)
      else r.Err? && s' == s
  {
    UpdateAnswers(s, RevokeOp(digest, version, now));
    hide CurrentError, Usable, Sound, Revoke, Readable, AllowedTimes, WithinPolicy;
  }

  lemma UpdateAnswers(s: State, op: Op)
    requires Sound(s) && !op.RegisterOp?
    ensures Apply(s, op).1.Ok? <==> CanUpdate(s, op)
    ensures Apply(s, op).1.Err? ==> Apply(s, op).0 == s
    ensures CanUpdate(s, op) ==>
      && Apply(s, op).1.value == Updated(s.sessions[op.digest], op)
      && Apply(s, op).0.sessions == (s.sessions - {op.digest})[NewDigest(op) := Updated(s.sessions[op.digest], op)]
      && (op.RotateOp? ==> Claim(s.allocations, op.newDigest, op.newCsrf, op.now) == Some(Apply(s, op).0.allocations))
      && (!op.RotateOp? ==> Apply(s, op).0.allocations == s.allocations)
  {
    UpdatesExactly(s, op);
    StepCases(s, op);
    hide Apply, CanUpdate, Sound, Updated, Readable, CurrentError, Claim;
  }
}
