/**
 Fenced publication of immutable candidate bytes: one row per scoped key, first
 reserved under an owner, an epoch and a lease, then finalized once with the
 bytes that its stored evidence reconstructs.
 */
module Publication {
  import opened Basics
  import opened ScopedKeys
  import Review = CandidateReview

  const MAX_CANONICAL_BYTES := 256 * 1024
  const MAX_LEASE_SECONDS := 30 * 60
  const MAX_EPOCH := MAX_SIGNED_64
  const MICROS_PER_SECOND := 1_000_000

  type Bytes = seq<nat>

  // ---- Derivation ----

  /** Derivation evidence: its optional run length, and the text of its other members. */
  datatype Envelope = Envelope(core: string, runLength: Option<int>)

  /** What admission derives from the members other than the run length. */
  datatype Derived = Derived(
    jobId: string, sessionId: string, source: string, runLength: int, candidate: Bytes, content: Bytes)

  /** The parts that are not modelled: admission and construction, JSON printing and parsing, and SHA-256. */
  datatype Codec = Codec(
    derive: string -> Option<Derived>, dumps: Envelope -> Bytes, load: Bytes -> Option<Envelope>,
    sha256: Bytes -> string)

  /** The columns that never change after insertion. */
  datatype Identity = Identity(
    jobId: string, sessionId: string, source: string, evidence: Bytes, evidenceSha256: string,
    reviewTarget: string, contentSha256: string, fullSha256: string, byteLength: int)

  datatype Prepared = Prepared(publicationKey: string, identity: Identity, candidate: Bytes)

  predicate WithinByteCap(b: Bytes) {
    1 <= |b| <= MAX_CANONICAL_BYTES
  }

  /** Admits an envelope and makes it complete; `None` stands for the raised validation error. */
  function Prepare(c: Codec, e: Envelope): Option<Prepared> {
    match c.derive(e.core)
    case None => None
    case Some(d) =>
      if e.runLength.Some? && e.runLength.value != d.runLength then None
      else
        var complete := e.(runLength := Some(d.runLength));
        var evidence := c.dumps(complete);
        if c.load(evidence) != Some(complete) || !WithinByteCap(evidence) || !WithinByteCap(d.candidate)
           || !IsUuid(d.jobId)
        then None
        else
          var contentSha256 := c.sha256(d.content);
          Some(Prepared(
                 Review.PUBLICATION_HEAD + d.jobId,
                 Identity(d.jobId, d.sessionId, d.source, evidence, c.sha256(evidence),
                          Review.TARGET_HEAD + d.jobId + Review.TARGET_MIDDLE + contentSha256,
                          contentSha256, c.sha256(d.candidate), |d.candidate|),
                 d.candidate))
  }

  // ---- The table ----

  datatype State = Reserved | Finalized

  datatype Row = Row(
    identity: Identity, state: State, owner: string, epoch: int, expiresAt: Option<int>,
    bytes: Option<Bytes>, reservedAt: int, updatedAt: int, finalizedAt: Option<int>)

  datatype RowKey = RowKey(scope: ScopeFields, publicationKey: string)

  type Table = map<RowKey, Row>

  datatype Record = Record(key: RowKey, row: Row)

  datatype Error = Invalid | Conflict | Unavailable | NotFound | Corrupt | Stale

  /** `^[a-z0-9][a-z0-9._:-]{2,127}$` */
  predicate IsOwner(s: string) {
    && 3 <= |s| <= 128
    && IsScopeIdHead(s[0])
    && forall i | 0 < i < |s| :: IsScopeIdChar(s[i]) || s[i] == ':'
  }

  function LeaseExpiry(now: int, lease: int): Option<int> {
    var expiry := now + lease * MICROS_PER_SECOND;
    if expiry > MAX_SIGNED_64 then None else Some(expiry)
  }

  /** The stored evidence re-admitted, when every identity column agrees with it. */
  function VerifiedEvidence(c: Codec, key: RowKey, row: Row): Option<Prepared> {
    match c.load(row.identity.evidence)
    case None => None
    case Some(e) =>
      var p := Prepare(c, e);
      if p.Some? && p.value.publicationKey == key.publicationKey && p.value.identity == row.identity then p else None
  }

  /** Full independent readback of a finalized row. */
  predicate Verified(c: Codec, key: RowKey, row: Row) {
    && row.state == Finalized
    && row.bytes.Some?
    && |row.bytes.value| == row.identity.byteLength
    && c.sha256(row.bytes.value) == row.identity.fullSha256
    && VerifiedEvidence(c, key, row).Some?
    && VerifiedEvidence(c, key, row).value.candidate == row.bytes.value
  }

  /** The table's timestamp, state, epoch and length constraint. */
  predicate Check(row: Row) {
    && 1 <= row.identity.byteLength <= MAX_CANONICAL_BYTES
    && 1 <= row.epoch <= MAX_EPOCH
    && FitsSigned64(row.reservedAt) && FitsSigned64(row.updatedAt)
    && (row.finalizedAt.Some? ==> FitsSigned64(row.finalizedAt.value))
    && match row.state
       case Reserved =>
         && row.bytes.None? && row.finalizedAt.None? && row.expiresAt.Some? && FitsSigned64(row.expiresAt.value)
         && row.reservedAt <= row.updatedAt < row.expiresAt.value
       case Finalized =>
         && row.bytes.Some? && |row.bytes.value| == row.identity.byteLength && row.finalizedAt.Some?
         && row.expiresAt.None? && row.reservedAt <= row.updatedAt <= row.finalizedAt.value
  }

  // ---- The operations as functions on tables ----

  datatype Reservation = Reservation(scope: Scope, envelope: Envelope, owner: string, lease: int, now: int)

  /** One finalization attempt; its time is read once, before its first check. */
  datatype Attempt = Attempt(scope: Scope, publicationKey: string, owner: string, epoch: int, bytes: Bytes, now: int) {
    function Key(): RowKey {
      RowKey(scope, publicationKey)
    }
  }

  predicate ExpiredBy(row: Row, now: int) {
    row.expiresAt.None? || now >= row.expiresAt.value
  }

  function NewRow(identity: Identity, r: Reservation, expiry: int): Row {
    Row(identity, Reserved, r.owner, 1, Some(expiry), None, r.now, r.now, None)
  }

  function TakenOver(row: Row, r: Reservation, expiry: int): Row {
    row.(owner := r.owner, epoch := row.epoch + 1, expiresAt := Some(expiry), updatedAt := r.now)
  }

  function Published(row: Row, a: Attempt): Row {
    row.(state := Finalized, bytes := Some(a.bytes), expiresAt := None, finalizedAt := Some(a.now), updatedAt := a.now)
  }

  predicate JobTaken(t: Table, scope: ScopeFields, jobId: string) {
    exists key | key in t :: key.scope == scope && t[key].identity.jobId == jobId
  }

  function ReserveExisting(t: Table, c: Codec, r: Reservation, p: Prepared, key: RowKey): (Table, Result<Record, Error>)
    requires key in t
  {
    var row := t[key];
    if (row.state == Finalized && !Verified(c, key, row)) || (row.state == Reserved && VerifiedEvidence(c, key, row).None?)
    then (t, Err(Corrupt))
    else if row.identity != p.identity then (t, Err(Conflict))
    else if row.state == Finalized then (t, Ok(Record(key, row)))
    else if !ExpiredBy(row, r.now) then (t, if row.owner != r.owner then Err(Unavailable) else Ok(Record(key, row)))
    else if row.epoch >= MAX_EPOCH || LeaseExpiry(r.now, r.lease).None? then (t, Err(Unavailable))
    else
      var next := TakenOver(row, r, LeaseExpiry(r.now, r.lease).value);
      (t[key := next], Ok(Record(key, next)))
  }

  predicate Reservable(r: Reservation) {
    IsOwner(r.owner) && 1 <= r.lease <= MAX_LEASE_SECONDS && FitsSigned64(r.now)
  }

  function Reserve(t: Table, c: Codec, r: Reservation): (Table, Result<Record, Error>) {
    var p := Prepare(c, r.envelope);
    if !Reservable(r) || p.None? then (t, Err(Invalid))
    else
      var key := RowKey(r.scope, p.value.publicationKey);
      if key in t then ReserveExisting(t, c, r, p.value, key)
      else if JobTaken(t, r.scope, p.value.identity.jobId) then (t, Err(Conflict))
      else if LeaseExpiry(r.now, r.lease).None? then (t, Err(Unavailable))
      else
        var row := NewRow(p.value.identity, r, LeaseExpiry(r.now, r.lease).value);
        (t[key := row], Ok(Record(key, row)))
  }

  predicate ValidAttempt(a: Attempt) {
    && Review.IsPublicationKey(a.publicationKey) && IsOwner(a.owner) && 1 <= a.epoch <= MAX_EPOCH
    && WithinByteCap(a.bytes) && FitsSigned64(a.now)
  }

  /** The bytes an attempt supplies against a reserved row's digest, length and reconstruction. */
  function BytesError(c: Codec, key: RowKey, row: Row, bytes: Bytes): Option<Error> {
    var p := VerifiedEvidence(c, key, row);
    if p.None? then Some(Corrupt)
    else if c.sha256(bytes) != row.identity.fullSha256 || |bytes| != row.identity.byteLength || p.value.candidate != bytes
    then Some(Conflict)
    else None
  }

  /** The check that finalization makes twice; `None` lets the attempt go on. */
  function Examined(t: Table, c: Codec, a: Attempt): Option<Result<Record, Error>> {
    if !ValidAttempt(a) then Some(Err(Invalid))
    else if a.Key() !in t then Some(Err(NotFound))
    else
      var row := t[a.Key()];
      if row.state == Finalized then
        if !Verified(c, a.Key(), row) then Some(Err(Corrupt))
        else if row.bytes != Some(a.bytes) then Some(Err(Conflict))
        else Some(Ok(Record(a.Key(), row)))
      else if row.owner != a.owner || row.epoch != a.epoch || ExpiredBy(row, a.now) then Some(Err(Stale))
      else if BytesError(c, a.Key(), row, a.bytes).Some? then Some(Err(BytesError(c, a.Key(), row, a.bytes).value))
      else None
  }

  /** The second, transactional part of finalization. */
  function Commit(t: Table, c: Codec, a: Attempt): (Table, Result<Record, Error>) {
    if Examined(t, c, a).Some? then (t, Examined(t, c, a).value)
    else
      var row := t[a.Key()];
      if a.now < row.updatedAt then (t, Err(Unavailable))
      else
        var next := Published(row, a);
        if Verified(c, a.Key(), next) then (t[a.Key() := next], Ok(Record(a.Key(), next))) else (t, Err(Corrupt))
  }

  function ReadFinalized(t: Table, c: Codec, key: RowKey): Result<Record, Error> {
    if !Review.IsPublicationKey(key.publicationKey) then Err(Invalid)
    else if key !in t || t[key].state != Finalized then Err(NotFound)
    else if Verified(c, key, t[key]) then Ok(Record(key, t[key])) else Err(Corrupt)
  }

  // ---- The store ----

  class PublicationStore {
    const codec: Codec
    var rows: Table

    constructor (codec: Codec)
      ensures this.codec == codec && rows == map[]
    {
      this.codec := codec;
      rows := map[];
    }

    method ReserveRow(r: Reservation) returns (result: Result<Record, Error>)
      modifies this
      ensures (rows, result) == Reserve(old(rows), codec, r)
    {
      if !IsOwner(r.owner) || !(1 <= r.lease <= MAX_LEASE_SECONDS) || !FitsSigned64(r.now) { return Err(Invalid); }
      var prepared := Prepare(codec, r.envelope);
      if prepared.None? { return Err(Invalid); }
      var p := prepared.value;
      var key := RowKey(r.scope, p.publicationKey);
      if key in rows {
        var row := rows[key];
        if row.state == Finalized {
          if !Verified(codec, key, row) { return Err(Corrupt); }
        } else if VerifiedEvidence(codec, key, row).None? {
          return Err(Corrupt);
        }
        if row.identity != p.identity { return Err(Conflict); }
        if row.state == Finalized { return Ok(Record(key, row)); }
        if row.expiresAt.Some? && r.now < row.expiresAt.value {
          if row.owner != r.owner { return Err(Unavailable); }
          return Ok(Record(key, row));
        }
        if row.epoch >= MAX_EPOCH { return Err(Unavailable); }
        var expiry := LeaseExpiry(r.now, r.lease);
        if expiry.None? { return Err(Unavailable); }
        rows := rows[key := row.(owner := r.owner, epoch := row.epoch + 1, expiresAt := expiry, updatedAt := r.now)];
        return Ok(Record(key, rows[key]));
      }
      if JobTaken(rows, r.scope, p.identity.jobId) { return Err(Conflict); }
      var expiry := LeaseExpiry(r.now, r.lease);
      if expiry.None? { return Err(Unavailable); }
      rows := rows[key := Row(p.identity, Reserved, r.owner, 1, expiry, None, r.now, r.now, None)];
      return Ok(Record(key, rows[key]));
    }

    /** The check before the write transaction; other publishers may act after it. */
    method CheckAttempt(a: Attempt) returns (done: Option<Result<Record, Error>>)
      ensures done == Examined(rows, codec, a)
    {
      if !ValidAttempt(a) { return Some(Err(Invalid)); }
      var key := a.Key();
      if key !in rows { return Some(Err(NotFound)); }
      var row := rows[key];
      if row.state == Finalized {
        if !Verified(codec, key, row) { return Some(Err(Corrupt)); }
        if row.bytes != Some(a.bytes) { return Some(Err(Conflict)); }
        return Some(Ok(Record(key, row)));
      }
      if row.owner != a.owner || row.epoch != a.epoch { return Some(Err(Stale)); }
      if ExpiredBy(row, a.now) { return Some(Err(Stale)); }
      var wrong := BytesError(codec, key, row, a.bytes);
      if wrong.Some? { return Some(Err(wrong.value)); }
      return None;
    }

    method CommitAttempt(a: Attempt) returns (result: Result<Record, Error>)
      modifies this
      ensures (rows, result) == Commit(old(rows), codec, a)
    {
      var done := CheckAttempt(a);
      if done.Some? { return done.value; }
      var key := a.Key();
      var row := rows[key];
      if a.now < row.updatedAt { return Err(Unavailable); }
      var saved := rows;
      rows := rows[key := row.(state := Finalized, bytes := Some(a.bytes), expiresAt := None,
                               finalizedAt := Some(a.now), updatedAt := a.now)];
      if !Verified(codec, key, rows[key]) {
        rows := saved;
        return Err(Corrupt);
      }
      return Ok(Record(key, rows[key]));
    }

    method GetFinalized(key: RowKey) returns (result: Result<Record, Error>)
      ensures result == ReadFinalized(rows, codec, key)
    {
      if !Review.IsPublicationKey(key.publicationKey) { return Err(Invalid); }
      if key !in rows || rows[key].state != Finalized { return Err(NotFound); }
      if !Verified(codec, key, rows[key]) { return Err(Corrupt); }
      return Ok(Record(key, rows[key]));
    }
  }

  // ---- Runs of any number of interleaved publishers ----

  /** A commit is its own step, so anything may happen between an attempt's first check and its commit. */
  datatype Op = ReserveOp(reservation: Reservation) | CommitOp(attempt: Attempt)

  function Step(t: Table, c: Codec, op: Op): Table {
    match op
    case ReserveOp(r) => Reserve(t, c, r).0
    case CommitOp(a) => Commit(t, c, a).0
  }

  function Run(t: Table, c: Codec, ops: seq<Op>): Table {
    if ops == [] then t else Step(Run(t, c, ops[..|ops| - 1]), c, ops[|ops| - 1])
  }
}
