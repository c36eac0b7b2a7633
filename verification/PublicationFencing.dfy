/**
 What every run of interleaved publishers keeps: rows that reconstruct from
 their stored evidence, epochs that fence, and bytes that are written once.
 */
module PublicationFencing {
  import opened Basics
  import opened ScopedKeys
  import opened Publication
  import Review = CandidateReview

  // ---- Evidence is stable ----

  /** Stored evidence re-admits to exactly the publication it was stored for. */
  lemma PrepareStable(c: Codec, e: Envelope)
    requires Prepare(c, e).Some?
    ensures var p := Prepare(c, e).value;
      && c.load(p.identity.evidence).Some?
      && Prepare(c, c.load(p.identity.evidence).value) == Some(p)
      && Review.IsPublicationKey(p.publicationKey)
      && p.identity.fullSha256 == c.sha256(p.candidate) && p.identity.byteLength == |p.candidate|
      && WithinByteCap(p.candidate)
  {
    var jobId := c.derive(e.core).value.jobId;
    assert (Review.PUBLICATION_HEAD + jobId)[|Review.PUBLICATION_HEAD|..] == jobId;
  }

  // ---- Sound rows ----

  /** The candidate bytes that a row's stored evidence reconstructs. */
  function Reconstructed(c: Codec, key: RowKey, row: Row): Option<Bytes> {
    var p := VerifiedEvidence(c, key, row);
    if p.None? then None else Some(p.value.candidate)
  }

  predicate SoundRow(c: Codec, key: RowKey, row: Row) {
    && Check(row)
    && Review.IsPublicationKey(key.publicationKey)
    && Reconstructed(c, key, row).Some?
    && row.identity.fullSha256 == c.sha256(Reconstructed(c, key, row).value)
    && row.identity.byteLength == |Reconstructed(c, key, row).value|
    && (row.state == Finalized ==> row.bytes == Reconstructed(c, key, row))
  }

  predicate Sound(t: Table, c: Codec) {
    forall key | key in t :: SoundRow(c, key, t[key])
  }

  lemma EvidenceOfIdentity(c: Codec, key: RowKey, row: Row, next: Row)
    requires row.identity == next.identity
    ensures VerifiedEvidence(c, key, row) == VerifiedEvidence(c, key, next)
  {
  }

  lemma FreshRowSound(c: Codec, r: Reservation)
    requires Reservable(r) && Prepare(c, r.envelope).Some? && LeaseExpiry(r.now, r.lease).Some?
    ensures var p := Prepare(c, r.envelope).value;
      SoundRow(c, RowKey(r.scope, p.publicationKey), NewRow(p.identity, r, LeaseExpiry(r.now, r.lease).value))
  {
    PrepareStable(c, r.envelope);
    hide Prepare;
  }

  /** What one step does to one row, when it does anything. */
  predicate TakesOver(row: Row, next: Row, op: Op) {
    && op.ReserveOp? && row.state == Reserved && Reservable(op.reservation) && ExpiredBy(row, op.reservation.now)
    && row.epoch < MAX_EPOCH && LeaseExpiry(op.reservation.now, op.reservation.lease).Some?
    && next == TakenOver(row, op.reservation, LeaseExpiry(op.reservation.now, op.reservation.lease).value)
  }

  /** The row is published by its current owner at its current epoch, within its lease, with the right bytes. */
  predicate Publishes(c: Codec, key: RowKey, row: Row, next: Row, op: Op) {
    && op.CommitOp? && row.state == Reserved && ValidAttempt(op.attempt)
    && op.attempt.Key() == key && op.attempt.owner == row.owner && op.attempt.epoch == row.epoch
    && !ExpiredBy(row, op.attempt.now) && row.updatedAt <= op.attempt.now
    && Some(op.attempt.bytes) == Reconstructed(c, key, row)
    && |op.attempt.bytes| == row.identity.byteLength
    && next == Published(row, op.attempt)
  }

  /**
   Only two things ever happen to a stored row: an expired reservation is taken
   over, or the current reservation is published. No row disappears.
   */
  lemma RowSteps(t: Table, c: Codec, op: Op, key: RowKey)
    requires key in t
    ensures key in Step(t, c, op)
    ensures var row, next := t[key], Step(t, c, op)[key];
      next == row || TakesOver(row, next, op) || Publishes(c, key, row, next, op)
  {
    hide Prepare, VerifiedEvidence, JobTaken, IsOwner, Review.IsPublicationKey;
    assert Some(Reconstructed(c, key, t[key]).GetOr([])) == Reconstructed(c, key, t[key])
           || VerifiedEvidence(c, key, t[key]).None?;
  }

  /** A new row is the first reservation of its key, at epoch 1. */
  lemma NewRowSteps(t: Table, c: Codec, op: Op, key: RowKey)
    requires key !in t && key in Step(t, c, op)
    ensures op.ReserveOp? && Reservable(op.reservation)
    ensures var r := op.reservation;
      && Prepare(c, r.envelope).Some? && LeaseExpiry(r.now, r.lease).Some?
      && (var p := Prepare(c, r.envelope).value;
          && key == RowKey(r.scope, p.publicationKey)
          && Step(t, c, op)[key] == NewRow(p.identity, r, LeaseExpiry(r.now, r.lease).value))
  {
    hide Prepare, VerifiedEvidence, JobTaken, IsOwner, Review.IsPublicationKey;
  }

  lemma SoundRowStep(c: Codec, key: RowKey, row: Row, next: Row, op: Op)
    requires SoundRow(c, key, row)
    requires next == row || TakesOver(row, next, op) || Publishes(c, key, row, next, op)
    ensures SoundRow(c, key, next)
  {
    if next != row {
      EvidenceOfIdentity(c, key, row, next);
    }
    hide Prepare, VerifiedEvidence;
  }

  lemma StepKeepsSound(t: Table, c: Codec, op: Op)
    requires Sound(t, c)
    ensures Sound(Step(t, c, op), c)
  {
    hide SoundRow, Step, TakesOver, Publishes;
    forall key | key in Step(t, c, op) ensures SoundRow(c, key, Step(t, c, op)[key]) {
      if key in t {
        RowSteps(t, c, op, key);
        SoundRowStep(c, key, t[key], Step(t, c, op)[key], op);
      } else {
        NewRowSteps(t, c, op, key);
        FreshRowSound(c, op.reservation);
      }
    }
  }

  /**
   After any run, whatever the clocks read: every row satisfies the table's
   constraint, its evidence re-admits to its own identity, and the bytes of a
   finalized row are the ones its evidence reconstructs.
   */
  lemma {:induction false} RunKeepsSound(c: Codec, ops: seq<Op>)
    ensures Sound(Run(map[], c, ops), c)
  {
    if ops != [] {
      RunKeepsSound(c, ops[..|ops| - 1]);
      StepKeepsSound(Run(map[], c, ops[..|ops| - 1]), c, ops[|ops| - 1]);
    }
  }

  lemma SoundRowVerified(c: Codec, key: RowKey, row: Row)
    requires SoundRow(c, key, row) && row.state == Finalized
    ensures Verified(c, key, row)
  {
    hide Prepare, VerifiedEvidence;
    assert VerifiedEvidence(c, key, row).Some?;
  }

  /** In a sound table no call reports corruption, and every finalized row reads back as stored. */
  lemma NothingReadsCorrupt(t: Table, c: Codec, op: Op, key: RowKey)
    requires Sound(t, c)
    ensures op.ReserveOp? ==> Reserve(t, c, op.reservation).1 != Err(Corrupt)
    ensures op.CommitOp? ==> Commit(t, c, op.attempt).1 != Err(Corrupt)
    ensures key in t && t[key].state == Finalized ==> ReadFinalized(t, c, key) == Ok(Record(key, t[key]))
  {
    if key in t && t[key].state == Finalized {
      SoundRowVerified(c, key, t[key]);
    }
    if op.CommitOp? && op.attempt.Key() in t {
      CommitReadsBack(t, c, op.attempt);
    }
    if op.ReserveOp? && Prepare(c, op.reservation.envelope).Some? {
      var k := RowKey(op.reservation.scope, Prepare(c, op.reservation.envelope).value.publicationKey);
      if k in t && t[k].state == Finalized {
        SoundRowVerified(c, k, t[k]);
      }
      assert k in t ==> SoundRow(c, k, t[k]);
    }
    hide Prepare, Check, Verified, VerifiedEvidence, JobTaken;
  }

  lemma CommitReadsBack(t: Table, c: Codec, a: Attempt)
    requires Sound(t, c) && a.Key() in t
    ensures Examined(t, c, a) != Some(Err(Corrupt))
    ensures Examined(t, c, a).None? ==> Verified(c, a.Key(), Published(t[a.Key()], a))
    ensures Commit(t, c, a).1 != Err(Corrupt)
  {
    var key := a.Key();
    var row := t[key];
    assert SoundRow(c, key, row);
    EvidenceOfIdentity(c, key, row, Published(row, a));
    hide Prepare, Check, VerifiedEvidence, IsOwner, Review.IsPublicationKey;
  }

  // ---- Fencing ----

  /**
   How a row may differ from an earlier one: its identity never changes, a
   finalized row is final, epochs never fall, and within one epoch the only
   change is publication by that epoch's owner.
   */
  predicate Evolves(row: Row, later: Row) {
    && later.identity == row.identity && later.reservedAt == row.reservedAt
    && row.epoch <= later.epoch
    && (row.state == Finalized ==> later == row)
    && (later.epoch == row.epoch ==> later.owner == row.owner && (later.state == Reserved ==> later == row))
  }

  lemma RowEvolvesOneStep(t: Table, c: Codec, op: Op, key: RowKey)
    requires key in t
    ensures key in Step(t, c, op) && Evolves(t[key], Step(t, c, op)[key])
  {
    RowSteps(t, c, op, key);
    hide Step, Reconstructed, IsOwner, Review.IsPublicationKey;
  }

  /** The same over whole runs, for every starting table and all clock readings. */
  lemma {:induction false} RowEvolves(t: Table, c: Codec, ops: seq<Op>, key: RowKey)
    requires key in t
    ensures key in Run(t, c, ops) && Evolves(t[key], Run(t, c, ops)[key])
  {
    if ops != [] {
      hide Step;
      RowEvolves(t, c, ops[..|ops| - 1], key);
      RowEvolvesOneStep(Run(t, c, ops[..|ops| - 1]), c, ops[|ops| - 1], key);
    }
  }

  /** A finalized row never changes again, in any run and under any clocks. */
  lemma {:induction false} FinalizedIsForever(t: Table, c: Codec, ops: seq<Op>, key: RowKey)
    requires key in t && t[key].state == Finalized
    ensures key in Run(t, c, ops) && Run(t, c, ops)[key] == t[key]
  {
    RowEvolves(t, c, ops, key);
  }

  /**
   A row becomes finalized exactly when a commit names its current owner and
   epoch before expiry, no earlier than its last update, with the bytes that its
   evidence reconstructs.
   */
  lemma FinalizedExactlyWhen(t: Table, c: Codec, op: Op, key: RowKey)
    requires Sound(t, c) && key in t && t[key].state == Reserved
    ensures Step(t, c, op)[key].state == Finalized
       <==> op.CommitOp? && ValidAttempt(op.attempt) && op.attempt.Key() == key
            && op.attempt.owner == t[key].owner && op.attempt.epoch == t[key].epoch
            && t[key].updatedAt <= op.attempt.now < t[key].expiresAt.GetOr(0)
            && Some(op.attempt.bytes) == Reconstructed(c, key, t[key])
  {
    RowSteps(t, c, op, key);
    assert SoundRow(c, key, t[key]);
    if op.CommitOp? && op.attempt.Key() == key {
      CommitReadsBack(t, c, op.attempt);
    }
    hide Prepare, VerifiedEvidence, IsOwner, Review.IsPublicationKey, Verified;
  }

  /** Each takeover raises the epoch by exactly one and happens only after expiry; nothing else moves the epoch. */
  lemma EpochMovesByOne(t: Table, c: Codec, op: Op, key: RowKey)
    requires Sound(t, c) && key in t
    ensures key in Step(t, c, op)
    ensures Step(t, c, op)[key].epoch == t[key].epoch
         || (&& Step(t, c, op)[key].epoch == t[key].epoch + 1 && op.ReserveOp?
             && t[key].state == Reserved && t[key].expiresAt.GetOr(0) <= op.reservation.now
             && Step(t, c, op)[key].owner == op.reservation.owner)
  {
    RowSteps(t, c, op, key);
    assert SoundRow(c, key, t[key]);
    hide Step, Reconstructed, IsOwner, Review.IsPublicationKey;
  }

  /** A publisher that has been overtaken can never publish, however long it waits and whatever its clock says. */
  lemma OvertakenNeverPublishes(t: Table, c: Codec, ops: seq<Op>, a: Attempt)
    requires a.Key() in t && a.epoch < t[a.Key()].epoch
    ensures var later := Run(t, c, ops);
      && Commit(later, c, a).0 == later
      && (Commit(later, c, a).1.Ok? ==> later[a.Key()].state == Finalized && later[a.Key()].epoch > a.epoch)
  {
    RowEvolves(t, c, ops, a.Key());
    hide Run, VerifiedEvidence, Verified, IsOwner, Review.IsPublicationKey;
  }

  // ---- The check outside the transaction ----

  /** With nothing in between, the first check decides nothing that the commit would not. */
  lemma FirstCheckIsRedundant(t: Table, c: Codec, a: Attempt)
    requires Examined(t, c, a).Some?
    ensures Commit(t, c, a) == (t, Examined(t, c, a).value)
  {
  }

  lemma ExaminedMeans(t: Table, c: Codec, a: Attempt)
    requires Examined(t, c, a).None?
    ensures a.Key() in t && t[a.Key()].state == Reserved
    ensures t[a.Key()].owner == a.owner && t[a.Key()].epoch == a.epoch && ValidAttempt(a)
    ensures Reconstructed(c, a.Key(), t[a.Key()]) == Some(a.bytes)
  {
    hide IsOwner, Review.IsPublicationKey, VerifiedEvidence;
  }

  /**
   After the first check has passed, whatever other publishers do before the
   commit, the commit returns the finalized row with the attempt's bytes unless
   the reservation was taken over or the clock had read before its last update.
   */
  lemma CheckedAttemptOutcome(t: Table, c: Codec, ops: seq<Op>, a: Attempt)
    requires Sound(t, c) && Examined(t, c, a).None?
    ensures var later := Run(t, c, ops);
      && a.Key() in t && a.Key() in later
      && (var row, outcome := later[a.Key()], Commit(later, c, a).1;
          if row.state == Finalized then outcome == Ok(Record(a.Key(), row)) && row.bytes == Some(a.bytes)
          else if row.epoch > a.epoch then outcome == Err(Stale)
          else if a.now < t[a.Key()].updatedAt then outcome == Err(Unavailable)
          else outcome == Ok(Record(a.Key(), Published(t[a.Key()], a))))
  {
    var key := a.Key();
    ExaminedMeans(t, c, a);
    RowEvolves(t, c, ops, key);
    RunKeepsSoundFrom(t, c, ops);
    var later := Run(t, c, ops);
    assert SoundRow(c, key, later[key]);
    EvidenceOfIdentity(c, key, t[key], later[key]);
    if later[key].state == Finalized {
      FinalizedOutcome(later, c, a);
    } else if later[key].epoch == a.epoch {
      SameRowSameCheck(t, later, c, a);
      CommitReadsBack(later, c, a);
      hide Run, Examined, Verified, VerifiedEvidence, Sound, SoundRow;
    } else {
      hide Run, Verified, VerifiedEvidence, Sound, SoundRow, BytesError;
    }
  }

  lemma FinalizedOutcome(t: Table, c: Codec, a: Attempt)
    requires Sound(t, c) && a.Key() in t && t[a.Key()].state == Finalized && ValidAttempt(a)
    requires Reconstructed(c, a.Key(), t[a.Key()]) == Some(a.bytes)
    ensures Commit(t, c, a).1 == Ok(Record(a.Key(), t[a.Key()])) && t[a.Key()].bytes == Some(a.bytes)
  {
    assert SoundRow(c, a.Key(), t[a.Key()]);
    SoundRowVerified(c, a.Key(), t[a.Key()]);
    hide Prepare, VerifiedEvidence, Verified, ValidAttempt;
  }

  lemma SameRowSameCheck(t: Table, later: Table, c: Codec, a: Attempt)
    requires a.Key() in t && a.Key() in later && t[a.Key()] == later[a.Key()]
    ensures Examined(t, c, a) == Examined(later, c, a)
  {
  }

  lemma {:induction false} RunKeepsSoundFrom(t: Table, c: Codec, ops: seq<Op>)
    requires Sound(t, c)
    ensures Sound(Run(t, c, ops), c)
  {
    if ops != [] {
      RunKeepsSoundFrom(t, c, ops[..|ops| - 1]);
      StepKeepsSound(Run(t, c, ops[..|ops| - 1]), c, ops[|ops| - 1]);
    }
  }

  // ---- One publication per job ----

  /**
   In a sound table a publication key determines its job and back, so the
   uniqueness test on jobs never decides anything: a job that is taken has its
   row under the very key that the same call has already looked up.
   */
  lemma JobHasOneRow(t: Table, c: Codec, e: Envelope, scope: ScopeFields)
    requires Sound(t, c) && Prepare(c, e).Some?
    ensures JobTaken(t, scope, Prepare(c, e).value.identity.jobId)
       <==> RowKey(scope, Prepare(c, e).value.publicationKey) in t
  {
    var p := Prepare(c, e).value;
    var key := RowKey(scope, p.publicationKey);
    if key in t {
      assert SoundRow(c, key, t[key]);
      KeyNamesJob(c, e, c.load(t[key].identity.evidence).value);
      assert t[key].identity.jobId == p.identity.jobId;
    }
    if JobTaken(t, scope, p.identity.jobId) {
      var other :| other in t && other.scope == scope && t[other].identity.jobId == p.identity.jobId;
      assert SoundRow(c, other, t[other]);
      KeyNamesJob(c, e, c.load(t[other].identity.evidence).value);
      assert other == key;
    }
  }

  lemma KeyNamesJob(c: Codec, e: Envelope, f: Envelope)
    requires Prepare(c, e).Some? && Prepare(c, f).Some?
    ensures Prepare(c, e).value.publicationKey == Prepare(c, f).value.publicationKey
       <==> Prepare(c, e).value.identity.jobId == Prepare(c, f).value.identity.jobId
  {
    var head, j, k := Review.PUBLICATION_HEAD, c.derive(e.core).value.jobId, c.derive(f.core).value.jobId;
    assert (head + j)[|head|..] == j && (head + k)[|head|..] == k;
  }
}
