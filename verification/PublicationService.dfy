/** The client of the publication protocol: prepare once, reserve, then finalize under the epoch it was given. */
module PublicationService {
  import opened Basics
  import opened Publication
  import opened PublicationFencing
  import Review = CandidateReview

  function AttemptFor(r: Reservation, later: int, record: Record, bytes: Bytes): Attempt {
    Attempt(r.scope, record.key.publicationKey, r.owner, record.row.epoch, bytes, later)
  }

  /**
   One request when no other publisher acts in between. Reserving reads the
   clock as `r.now`, finalizing as `later`; a caller that fixes the time makes
   them equal.
   */
  function Publish(t: Table, c: Codec, r: Reservation, later: int): (Table, Result<Record, Error>) {
    var p := Prepare(c, r.envelope);
    if p.None? then (t, Err(Invalid))
    else
      var (t', reserved) := Reserve(t, c, r);
      if reserved.Err? || reserved.value.row.state == Finalized then (t', reserved)
      else Commit(t', c, AttemptFor(r, later, reserved.value, p.value.candidate))
  }

  class CandidatePublicationService {
    const store: PublicationStore

    constructor (store: PublicationStore)
      ensures this.store == store
    {
      this.store := store;
    }

    method PublishRequest(r: Reservation, later: int) returns (result: Result<Record, Error>)
      modifies store
      ensures (store.rows, result) == Publish(old(store.rows), store.codec, r, later)
    {
      var prepared := Prepare(store.codec, r.envelope);
      if prepared.None? { return Err(Invalid); }
      var reserved := store.ReserveRow(r);
      if reserved.Err? || reserved.value.row.state == Finalized { return reserved; }
      var attempt := AttemptFor(r, later, reserved.value, prepared.value.candidate);
      var done := store.CheckAttempt(attempt);
      if done.Some? {
        FirstCheckIsRedundant(store.rows, store.codec, attempt);
        return done.value;
      }
      result := store.CommitAttempt(attempt);
    }
  }

  /** The outcome of reserving in a sound table, by the row that is already there. */
  lemma ReserveOutcome(t: Table, c: Codec, r: Reservation)
    requires Sound(t, c) && Reservable(r) && Prepare(c, r.envelope).Some?
    ensures var p := Prepare(c, r.envelope).value;
      var key := RowKey(r.scope, p.publicationKey);
      var (t', result) := Reserve(t, c, r);
      if key !in t then
        if LeaseExpiry(r.now, r.lease).None? then result == Err(Unavailable)
        else result == Ok(Record(key, NewRow(p.identity, r, LeaseExpiry(r.now, r.lease).value)))
      else if t[key].identity != p.identity then result == Err(Conflict)
      else if t[key].state == Finalized then result == Ok(Record(key, t[key]))
      else if !ExpiredBy(t[key], r.now) then
        result == if t[key].owner == r.owner then Ok(Record(key, t[key])) else Err(Unavailable)
      else if t[key].epoch == MAX_EPOCH || LeaseExpiry(r.now, r.lease).None? then result == Err(Unavailable)
      else result == Ok(Record(key, TakenOver(t[key], r, LeaseExpiry(r.now, r.lease).value)))
  {
    JobHasOneRow(t, c, r.envelope, r.scope);
    var key := RowKey(r.scope, Prepare(c, r.envelope).value.publicationKey);
    if key in t {
      assert SoundRow(c, key, t[key]);
      if t[key].state == Finalized {
        SoundRowVerified(c, key, t[key]);
      }
    }
    hide Prepare, VerifiedEvidence, Verified, JobTaken, IsOwner;
  }

  /** Whoever obtains a reservation passes the first check of its finalization exactly before the lease expires. */
  lemma ReservedAttemptPasses(t: Table, c: Codec, r: Reservation, later: int)
    requires Sound(t, c) && Prepare(c, r.envelope).Some?
    requires Reserve(t, c, r).1.Ok? && Reserve(t, c, r).1.value.row.state == Reserved
    ensures var (t', reserved) := Reserve(t, c, r);
      var a := AttemptFor(r, later, reserved.value, Prepare(c, r.envelope).value.candidate);
      && Sound(t', c) && a.Key() in t' && reserved.value == Record(a.Key(), t'[a.Key()])
      && Examined(t', c, a)
         == if !FitsSigned64(later) then Some(Err(Invalid))
            else if ExpiredBy(reserved.value.row, later) then Some(Err(Stale))
            else None
  {
    var t' := Reserve(t, c, r).0;
    var p := Prepare(c, r.envelope).value;
    var key := RowKey(r.scope, p.publicationKey);
    ReserveOutcome(t, c, r);
    StepKeepsSound(t, c, ReserveOp(r));
    PrepareStable(c, r.envelope);
    assert t' == Step(t, c, ReserveOp(r));
    assert SoundRow(c, key, t'[key]);
    assert t'[key].identity == p.identity;
    assert VerifiedEvidence(c, key, t'[key]) == Some(p);
    hide Prepare, VerifiedEvidence, Verified, JobTaken, IsOwner, Review.IsPublicationKey;
  }

  /** When one uninterrupted request publishes, given what its key holds beforehand and both readings of the clock. */
  predicate CanPublish(t: Table, r: Reservation, later: int, p: Prepared, key: RowKey) {
    var expiry := LeaseExpiry(r.now, r.lease);
    var granted := expiry.Some? && r.now <= later < expiry.value;
    if key !in t then granted
    else
      && t[key].identity == p.identity
      && (|| t[key].state == Finalized
          || (!ExpiredBy(t[key], r.now) && t[key].owner == r.owner && t[key].updatedAt <= later && !ExpiredBy(t[key], later))
          || (ExpiredBy(t[key], r.now) && t[key].epoch < MAX_EPOCH && granted))
  }

  /** The second half of a request, once it holds a reservation. */
  lemma ReservedPublishes(t: Table, c: Codec, r: Reservation, later: int)
    requires Sound(t, c) && Prepare(c, r.envelope).Some?
    requires Reserve(t, c, r).1.Ok? && Reserve(t, c, r).1.value.row.state == Reserved
    ensures var record := Reserve(t, c, r).1.value;
      var p, row, (t', done) := Prepare(c, r.envelope).value, record.row, Publish(t, c, r, later);
      && (done.Ok? <==> row.updatedAt <= later && !ExpiredBy(row, later))
      && (done.Ok? ==> done.value.key == record.key && done.value.row.state == Finalized
                       && done.value.row.bytes == Some(p.candidate)
                       && record.key in t' && t'[record.key] == done.value.row)
  {
    var (t', reserved) := Reserve(t, c, r);
    var a := AttemptFor(r, later, reserved.value, Prepare(c, r.envelope).value.candidate);
    ReservedAttemptPasses(t, c, r, later);
    assert SoundRow(c, a.Key(), t'[a.Key()]);
    if Examined(t', c, a).None? {
      CheckedAttemptOutcome(t', c, [], a);
    }
    hide Prepare, Reserve, Examined, Verified, VerifiedEvidence, JobTaken, IsOwner, Sound;
  }

  /**
   An uninterrupted request succeeds exactly when its arguments are admitted and
   its key is free, already published for the same evidence, held by the same
   owner, or expired, and the second reading of the clock is not before the
   reservation and not at or past its expiry; the result is then the finalized
   row with the prepared bytes.
   */
  lemma PublishExactly(t: Table, c: Codec, r: Reservation, later: int)
    requires Sound(t, c)
    ensures var p := Prepare(c, r.envelope);
      && (Publish(t, c, r, later).1.Ok?
          <==> Reservable(r) && p.Some? && CanPublish(t, r, later, p.value, RowKey(r.scope, p.value.publicationKey)))
      && (Publish(t, c, r, later).1.Ok? ==>
            var record := Publish(t, c, r, later).1.value;
            && p.Some? && record.key == RowKey(r.scope, p.value.publicationKey)
            && record.row.state == Finalized && record.row.bytes == Some(p.value.candidate)
            && record.key in Publish(t, c, r, later).0 && Publish(t, c, r, later).0[record.key] == record.row)
  {
    if Reservable(r) && Prepare(c, r.envelope).Some? {
      var reserved := Reserve(t, c, r).1;
      ReserveOutcome(t, c, r);
      if reserved.Ok? && reserved.value.row.state == Reserved {
        ReservedPublishes(t, c, r, later);
        hide Publish, Prepare, Reserve, Sound, IsOwner;
      } else if reserved.Ok? {
        ReplayBytes(t, c, r);
        hide Prepare, VerifiedEvidence, Verified, JobTaken, IsOwner;
      }
    }
  }

  lemma ReplayBytes(t: Table, c: Codec, r: Reservation)
    requires Sound(t, c) && Reservable(r) && Prepare(c, r.envelope).Some?
    requires Reserve(t, c, r).1.Ok? && Reserve(t, c, r).1.value.row.state == Finalized
    ensures Reserve(t, c, r).0 == t
    ensures Reserve(t, c, r).1.value.row.bytes == Some(Prepare(c, r.envelope).value.candidate)
  {
    ReserveOutcome(t, c, r);
    PrepareStable(c, r.envelope);
    var p := Prepare(c, r.envelope).value;
    var key := RowKey(r.scope, p.publicationKey);
    assert SoundRow(c, key, t[key]);
    assert VerifiedEvidence(c, key, t[key]) == Some(p);
    hide Prepare, VerifiedEvidence, Verified, JobTaken, IsOwner;
  }
}
