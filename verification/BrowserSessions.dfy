/**
 Durable browser sessions: digest-only rows with optimistic versions, bounded
 idle and absolute lifetimes, and digests that are never issued twice.
 */
module BrowserSessions {
  import opened Basics

  const MICROS := 1_000_000
  const MAX_ABSOLUTE_LIFETIME := 8 * 3600 * MICROS
  const MAX_IDLE_LIFETIME := 30 * 60 * MICROS
  const MAX_CLOCK_SKEW := 60 * MICROS
  const MAX_GENERATION := 0x7FFF_FFFF

  /** The times Python's `datetime` can hold, in microseconds from 1970: years 1 to 9999. */
  const MIN_INSTANT := -62_135_596_800 * MICROS
  const MAX_INSTANT := 253_402_300_800 * MICROS - 1

  type Instant = t: int | MIN_INSTANT <= t <= MAX_INSTANT witness 0

  /** Subject, scope and origin as text; whether they are admitted, and whether any role is held. */
  datatype Holder = Holder(text: string, admitted: bool, hasRoles: bool)

  datatype Times = Times(
    issuedAt: Instant, authenticatedAt: Instant, lastSeenAt: Instant, idleExpiresAt: Instant, absoluteExpiresAt: Instant)

  /** One session row; its identifier digest is its key. */
  datatype Row = Row(
    csrf: string, holder: Holder, generation: int, times: Times, revokedAt: Option<Instant>, version: int)

  datatype Kind = SessionIdentifier | Csrf

  datatype Allocation = Allocation(digest: string, kind: Kind, allocatedAt: Instant)

  datatype State = State(sessions: map<string, Row>, allocations: seq<Allocation>)

  const EMPTY := State(map[], [])

  datatype Error = Rejected | Unavailable

  // ---- The policy ----

  /** The bounds that the security context enforces on every state, stored or proposed. */
  predicate WithinPolicy(t: Times) {
    && t.issuedAt <= t.authenticatedAt <= t.lastSeenAt < t.idleExpiresAt <= t.absoluteExpiresAt
    && t.absoluteExpiresAt - t.authenticatedAt <= MAX_ABSOLUTE_LIFETIME
    && t.idleExpiresAt - t.lastSeenAt <= MAX_IDLE_LIFETIME
  }

  predicate IsVersion(v: int) {
    1 <= v < MAX_SIGNED_64
  }

  /** A stored row that reads back as a session state. */
  predicate Readable(digest: string, row: Row) {
    && row.holder.admitted && row.holder.hasRoles
    && IsSha256(digest) && IsSha256(row.csrf)
    && 1 <= row.generation <= MAX_GENERATION
    && IsVersion(row.version)
    && row.generation <= row.version
    && (row.revokedAt.Some? ==> row.times.issuedAt <= row.revokedAt.value)
    && WithinPolicy(row.times)
  }

  /** `value + delta`; `None` stands for the overflow that becomes an unavailable store. */
  function CheckedAdd(value: Instant, delta: int): Option<Instant> {
    if MIN_INSTANT <= value + delta <= MAX_INSTANT then Some(value + delta) else None
  }

  function CurrentError(row: Row, now: Instant): Option<Error> {
    if row.revokedAt.Some? then Some(Rejected)
    else
      match CheckedAdd(now, MAX_CLOCK_SKEW)
      case None => Some(Unavailable)
      case Some(latest) =>
        if row.times.issuedAt > latest then Some(Rejected)
        else if row.times.authenticatedAt > now || row.times.lastSeenAt > now then Some(Rejected)
        else if now >= row.times.idleExpiresAt || now >= row.times.absoluteExpiresAt then Some(Rejected)
        else None
  }

  predicate IsAllocated(allocations: seq<Allocation>, digest: string) {
    exists i | 0 <= i < |allocations| :: allocations[i].digest == digest
  }

  /** Both digests enter the allocation table, or its primary key refuses one of them. */
  function Claim(allocations: seq<Allocation>, digest: string, csrf: string, now: Instant): Option<seq<Allocation>> {
    if IsAllocated(allocations, digest) || IsAllocated(allocations, csrf) || digest == csrf then None
    else Some(allocations + [Allocation(digest, SessionIdentifier, now), Allocation(csrf, Csrf, now)])
  }

  /** The session table's own primary key and unique constraint. */
  predicate CollidesInTable(sessions: map<string, Row>, digest: string, csrf: string) {
    digest in sessions || exists other | other in sessions :: sessions[other].csrf == csrf
  }

  // ---- The operations as functions on states ----

  function Register(s: State, digest: string, csrf: string, holder: Holder, times: Times, now: Instant)
    : (State, Result<Row, Error>)
  {
    var row := Row(csrf, holder, 1, times, None, 1);
    if !holder.admitted || !IsSha256(digest) || !IsSha256(csrf) || !WithinPolicy(times) then (s, Err(Rejected))
    else if CurrentError(row, now).Some? then (s, Err(CurrentError(row, now).value))
    else if !holder.hasRoles then (s, Err(Rejected))
    else
      match Claim(s.allocations, digest, csrf, now)
      case None => (s, Err(Rejected))
      case Some(allocations) =>
        if CollidesInTable(s.sessions, digest, csrf) then (s, Err(Rejected))
        else (State(s.sessions[digest := row], allocations), Ok(row))
  }

  function Resolve(s: State, digest: string, now: Instant): Result<Row, Error> {
    if !IsSha256(digest) || digest !in s.sessions then Err(Rejected)
    else if !Readable(digest, s.sessions[digest]) then Err(Unavailable)
    else
      match CurrentError(s.sessions[digest], now)
      case Some(error) => Err(error)
      case None => Ok(s.sessions[digest])
  }

  /** The row that a touch or a rotation may change. */
  function Active(sessions: map<string, Row>, digest: string, version: int, now: Instant): Result<Row, Error> {
    if digest !in sessions then Err(Rejected)
    else if !Readable(digest, sessions[digest]) then Err(Unavailable)
    else if sessions[digest].version != version then Err(Rejected)
    else if CurrentError(sessions[digest], now).Some? then Err(CurrentError(sessions[digest], now).value)
    else Ok(sessions[digest])
  }

  /** An updated row is read back before the transaction commits. */
  function Stored(s: State, sessions: map<string, Row>, allocations: seq<Allocation>, digest: string): (State, Result<Row, Error>)
    requires digest in sessions
  {
    if Readable(digest, sessions[digest]) then (State(sessions, allocations), Ok(sessions[digest])) else (s, Err(Unavailable))
  }

  function Min(a: Instant, b: Instant): Instant {
    if a <= b then a else b
  }

  function Touch(s: State, digest: string, version: int, now: Instant): (State, Result<Row, Error>) {
    if !IsSha256(digest) || !IsVersion(version) then (s, Err(Rejected))
    else
      match Active(s.sessions, digest, version, now)
      case Err(error) => (s, Err(error))
      case Ok(row) =>
        if now < row.times.lastSeenAt then (s, Err(Rejected))
        else if CheckedAdd(now, MAX_IDLE_LIFETIME).None? then (s, Err(Unavailable))
        else
          var idle := Min(CheckedAdd(now, MAX_IDLE_LIFETIME).value, row.times.absoluteExpiresAt);
          if idle <= now then (s, Err(Rejected))
          else
            var next := row.(times := row.times.(lastSeenAt := now, idleExpiresAt := idle), version := version + 1);
            Stored(s, s.sessions[digest := next], s.allocations, digest)
  }

  function Rotate(s: State, digest: string, newDigest: string, newCsrf: string, version: int, now: Instant)
    : (State, Result<Row, Error>)
  {
    if !IsSha256(digest) || !IsSha256(newDigest) || !IsSha256(newCsrf) || !IsVersion(version) || digest == newDigest
    then (s, Err(Rejected))
    else
      match Active(s.sessions, digest, version, now)
      case Err(error) => (s, Err(error))
      case Ok(row) =>
        if newCsrf == row.csrf || row.generation >= MAX_GENERATION then (s, Err(Rejected))
        else
          match Claim(s.allocations, newDigest, newCsrf, now)
          case None => (s, Err(Rejected))
          case Some(allocations) =>
            var others := s.sessions - {digest};
            if CollidesInTable(others, newDigest, newCsrf) then (s, Err(Rejected))
            else
              var next := row.(csrf := newCsrf, generation := row.generation + 1, version := version + 1);
              Stored(s, others[newDigest := next], allocations, newDigest)
  }

  function Revoke(s: State, digest: string, version: int, now: Instant): (State, Result<Row, Error>) {
    if !IsSha256(digest) || !IsVersion(version) || digest !in s.sessions then (s, Err(Rejected))
    else
      var row := s.sessions[digest];
      if !Readable(digest, row) then (s, Err(Unavailable))
      else if row.version != version || row.revokedAt.Some? || now < row.times.lastSeenAt then (s, Err(Rejected))
      else
        Stored(s, s.sessions[digest := row.(revokedAt := Some(now), version := version + 1)], s.allocations, digest)
  }

  // ---- The store ----

  class BrowserSessionStore {
    var sessions: map<string, Row>
    var allocations: seq<Allocation>

    ghost function Contents(): State
      reads this
    {
      State(sessions, allocations)
    }

    constructor ()
      ensures Contents() == EMPTY
    {
      sessions, allocations := map[], [];
    }

    /** Refuses the pair, leaving the table as it was, when either digest was ever issued. */
    method ClaimDigestPair(digest: string, csrf: string, now: Instant) returns (ok: bool)
      modifies this`allocations
      ensures ok == Claim(old(allocations), digest, csrf, now).Some?
      ensures allocations == Claim(old(allocations), digest, csrf, now).GetOr(old(allocations))
    {
      if IsAllocated(allocations, digest) { return false; }
      if digest == csrf || IsAllocated(allocations, csrf) { return false; }
      allocations := allocations + [Allocation(digest, SessionIdentifier, now)] + [Allocation(csrf, Csrf, now)];
      assert allocations == old(allocations) + [Allocation(digest, SessionIdentifier, now), Allocation(csrf, Csrf, now)];
      return true;
    }

    method RegisterSession(digest: string, csrf: string, holder: Holder, times: Times, now: Instant)
      returns (r: Result<Row, Error>)
      modifies this
      ensures (Contents(), r) == Register(old(Contents()), digest, csrf, holder, times, now)
    {
      if !holder.admitted || !IsSha256(digest) || !IsSha256(csrf) || !WithinPolicy(times) { return Err(Rejected); }
      var candidate := Row(csrf, holder, 1, times, None, 1);
      var error := CurrentError(candidate, now);
      if error.Some? { return Err(error.value); }
      if !holder.hasRoles { return Err(Rejected); }
      var savedAllocations := allocations;
      var claimed := ClaimDigestPair(digest, csrf, now);
      if !claimed { return Err(Rejected); }
      if CollidesInTable(sessions, digest, csrf) {
        allocations := savedAllocations;
        return Err(Rejected);
      }
      sessions := sessions[digest := candidate];
      return Ok(candidate);
    }

    method ResolveSession(digest: string, now: Instant) returns (r: Result<Row, Error>)
      ensures r == Resolve(Contents(), digest, now)
    {
      if !IsSha256(digest) || digest !in sessions { return Err(Rejected); }
      var row := sessions[digest];
      if !Readable(digest, row) { return Err(Unavailable); }
      var error := CurrentError(row, now);
      if error.Some? { return Err(error.value); }
      return Ok(row);
    }

    method TouchSession(digest: string, version: int, now: Instant) returns (r: Result<Row, Error>)
      modifies this
      ensures (Contents(), r) == Touch(old(Contents()), digest, version, now)
    {
      if !IsSha256(digest) || !IsVersion(version) { return Err(Rejected); }
      var active := Active(sessions, digest, version, now);
      if active.Err? { return Err(active.error); }
      var row := active.value;
      if now < row.times.lastSeenAt { return Err(Rejected); }
      var renewed := CheckedAdd(now, MAX_IDLE_LIFETIME);
      if renewed.None? { return Err(Unavailable); }
      var idle := Min(renewed.value, row.times.absoluteExpiresAt);
      if idle <= now { return Err(Rejected); }
      var saved := sessions;
      sessions := sessions[digest := row.(times := row.times.(lastSeenAt := now, idleExpiresAt := idle),
                                          version := version + 1)];
      if !Readable(digest, sessions[digest]) {
        sessions := saved;
        return Err(Unavailable);
      }
      return Ok(sessions[digest]);
    }

    method RotateSession(digest: string, newDigest: string, newCsrf: string, version: int, now: Instant)
      returns (r: Result<Row, Error>)
      modifies this
      ensures (Contents(), r) == Rotate(old(Contents()), digest, newDigest, newCsrf, version, now)
    {
      if !IsSha256(digest) || !IsSha256(newDigest) || !IsSha256(newCsrf) || !IsVersion(version) { return Err(Rejected); }
      if digest == newDigest { return Err(Rejected); }
      var active := Active(sessions, digest, version, now);
      if active.Err? { return Err(active.error); }
      var row := active.value;
      if newCsrf == row.csrf || row.generation >= MAX_GENERATION { return Err(Rejected); }
      var savedSessions, savedAllocations := sessions, allocations;
      var claimed := ClaimDigestPair(newDigest, newCsrf, now);
      if !claimed { return Err(Rejected); }
      if CollidesInTable(sessions - {digest}, newDigest, newCsrf) {
        allocations := savedAllocations;
        return Err(Rejected);
      }
      sessions := (sessions - {digest})[newDigest := row.(csrf := newCsrf, generation := row.generation + 1,
                                                          version := version + 1)];
      if !Readable(newDigest, sessions[newDigest]) {
        sessions, allocations := savedSessions, savedAllocations;
        return Err(Unavailable);
      }
      return Ok(sessions[newDigest]);
    }

    method RevokeSession(digest: string, version: int, now: Instant) returns (r: Result<Row, Error>)
      modifies this
      ensures (Contents(), r) == Revoke(old(Contents()), digest, version, now)
    {
      if !IsSha256(digest) || !IsVersion(version) { return Err(Rejected); }
      if digest !in sessions { return Err(Rejected); }
      var row := sessions[digest];
      if !Readable(digest, row) { return Err(Unavailable); }
      if row.version != version || row.revokedAt.Some? || now < row.times.lastSeenAt { return Err(Rejected); }
      var saved := sessions;
      sessions := sessions[digest := row.(revokedAt := Some(now), version := version + 1)];
      if !Readable(digest, sessions[digest]) {
        sessions := saved;
        return Err(Unavailable);
      }
      return Ok(sessions[digest]);
    }
  }

  // ---- Runs ----

  datatype Op =
    | RegisterOp(digest: string, csrf: string, holder: Holder, times: Times, now: Instant)
    | TouchOp(digest: string, version: int, now: Instant)
    | RotateOp(digest: string, newDigest: string, newCsrf: string, version: int, now: Instant)
    | RevokeOp(digest: string, version: int, now: Instant)

  function Apply(s: State, op: Op): (State, Result<Row, Error>) {
    match op
    case RegisterOp(digest, csrf, holder, times, now) => Register(s, digest, csrf, holder, times, now)
    case TouchOp(digest, version, now) => Touch(s, digest, version, now)
    case RotateOp(digest, newDigest, newCsrf, version, now) => Rotate(s, digest, newDigest, newCsrf, version, now)
    case RevokeOp(digest, version, now) => Revoke(s, digest, version, now)
  }

  function Step(s: State, op: Op): State {
    Apply(s, op).0
  }

  function Run(s: State, ops: seq<Op>): State {
    if ops == [] then s else Step(Run(s, ops[..|ops| - 1]), ops[|ops| - 1])
  }
}
