/**
 What a publication is stored under, said by the derivation its evidence loads
 to and by the names that the review side uses, and what each step writes.
 */
module PublicationIdentity {
  import opened Basics
  import opened ScopedKeys
  import opened Publication
  import opened PublicationFencing
  import Review = CandidateReview
  import Answers = CandidateReviewAnswers

  /** Every digest is a lower-case SHA-256 text. */
  ghost predicate PrintsDigests(c: Codec) {
    forall bytes :: IsSha256(c.sha256(bytes))
  }

  /** A row's columns are those of one derivation. */
  predicate DerivedRow(c: Codec, key: RowKey, row: Row, d: Derived) {
    var id := row.identity;
    && IsUuid(d.jobId) && id.jobId == d.jobId && id.sessionId == d.sessionId && id.source == d.source
    && id.contentSha256 == c.sha256(d.content) && id.fullSha256 == c.sha256(d.candidate)
    && id.byteLength == |d.candidate| && 1 <= |d.candidate| <= 262_144
    && id.evidenceSha256 == c.sha256(id.evidence) && 1 <= |id.evidence| <= 262_144
    && id.reviewTarget == "candidate-skill:1.0:" + d.jobId + ":sha256:" + c.sha256(d.content)
    && key.publicationKey == "candidate-publication:1.0:" + d.jobId
    && (row.state == Finalized ==> row.bytes == Some(d.candidate))
  }

  lemma EvidenceDerives(c: Codec, e: Envelope, key: RowKey, row: Row)
    requires Prepare(c, e).Some? && key.publicationKey == Prepare(c, e).value.publicationKey
    requires row.identity == Prepare(c, e).value.identity
    requires row.state == Finalized ==> row.bytes == Some(Prepare(c, e).value.candidate)
    ensures c.derive(e.core).Some?
    ensures var p, d := Prepare(c, e).value, c.derive(e.core).value;
      && (e.runLength.None? || e.runLength == Some(d.runLength))
      && c.load(p.identity.evidence) == Some(Envelope(e.core, Some(d.runLength)))
      && DerivedRow(c, key, row, d)
  {
  }

  /**
   In every run each row is stored under the names and digests of the
   derivation that its own evidence loads to.
   */
  lemma RowIsDerived(c: Codec, ops: seq<Op>, key: RowKey)
    requires key in Run(map[], c, ops)
    ensures var row := Run(map[], c, ops)[key];
      && c.load(row.identity.evidence).Some?
      && (var e := c.load(row.identity.evidence).value;
          && c.derive(e.core).Some? && e.runLength == Some(c.derive(e.core).value.runLength)
          && DerivedRow(c, key, row, c.derive(e.core).value))
  {
    RunKeepsSound(c, ops);
    var row := Run(map[], c, ops)[key];
    assert SoundRow(c, key, row);
    var e := c.load(row.identity.evidence).value;
    EvidenceDerives(c, e, key, row);
    hide Run, Prepare, DerivedRow, Check;
  }

  /** The target of every row is one that the review side can name, for that very job and content. */
  lemma TargetIsReviewable(c: Codec, ops: seq<Op>, key: RowKey)
    requires PrintsDigests(c) && key in Run(map[], c, ops)
    ensures var id := Run(map[], c, ops)[key].identity;
      && Review.IsCandidateTarget(id.reviewTarget) && Review.TargetSkill(id.reviewTarget) == id.jobId
      && Review.TargetContent(id.reviewTarget) == id.contentSha256
  {
    RowIsDerived(c, ops, key);
    var id := Run(map[], c, ops)[key].identity;
    assert IsUuid(id.jobId) && IsSha256(id.contentSha256);
    assert id.reviewTarget == "candidate-skill:1.0:" + id.jobId + ":sha256:" + id.contentSha256;
    hide Run, DerivedRow, PrintsDigests;
    Answers.TargetNames(id.reviewTarget, id.contentSha256);
  }

  /** A review that takes its names from a row is about that row. */
  predicate Reviews(r: Review.Request, key: RowKey, id: Identity) {
    && r.target == id.reviewTarget && r.publicationKey == key.publicationKey
    && r.content == id.contentSha256 && r.full == id.fullSha256
    && (r.skillId.Some? ==> r.skillId.value == id.jobId)
  }

  /** Such a review is admitted whenever the rest of it is well-formed. */
  lemma RowIsReviewed(c: Codec, ops: seq<Op>, key: RowKey, r: Review.Request)
    requires PrintsDigests(c) && key in Run(map[], c, ops) && Reviews(r, key, Run(map[], c, ops)[key].identity)
    requires ValidScopeKey(r.scopeKey) && Review.CandidateKey(r.scopeKey, r.plainKey, r.qualifiedKey).Ok?
    requires IsSha256(r.source) && Answers.WellFormedRest(r)
    ensures Review.Admit(r).Ok?
    ensures Review.Admit(r).value.skill == Run(map[], c, ops)[key].identity.jobId
  {
    var id := Run(map[], c, ops)[key].identity;
    RowIsDerived(c, ops, key);
    TargetIsReviewable(c, ops, key);
    assert IsSha256(id.contentSha256) && IsSha256(id.fullSha256);
    assert Answers.NamesCandidate(r, id.jobId);
    hide Run, DerivedRow, PrintsDigests, ValidScopeKey, Review.CandidateKey, Answers.WellFormedRest, Answers.NamesCandidate;
    Answers.AdmittedExactly(r);
    AdmittedSkill(r);
  }

  lemma AdmittedSkill(r: Review.Request)
    requires Review.Admit(r).Ok?
    ensures |r.target| == 128 && Review.Admit(r).value.skill == Review.TargetSkill(r.target)
  {
    hide ValidScopeKey, Review.CandidateKey, Review.ProvenanceComplete, Review.TargetSkill, Review.TargetContent, HasText;
  }

  // ---- What is written ----

  /** A reservation that is obtained, column by column: its lease ends that many seconds of a million microseconds later. */
  lemma ReservedColumns(t: Table, c: Codec, r: Reservation, key: RowKey)
    requires Sound(t, c) && Step(t, c, ReserveOp(r)) != t && key in Step(t, c, ReserveOp(r))
    requires key !in t || Step(t, c, ReserveOp(r))[key] != t[key]
    ensures c.derive(r.envelope.core).Some? && key.scope == r.scope
    ensures var row := Step(t, c, ReserveOp(r))[key];
      && DerivedRow(c, key, row, c.derive(r.envelope.core).value) && Reserve(t, c, r).1 == Ok(Record(key, row))
      && row.state == Reserved && row.owner == r.owner && row.bytes.None? && row.finalizedAt.None?
      && row.expiresAt == Some(r.now + r.lease * 1_000_000) && row.updatedAt == r.now
      && (if key in t then row.epoch == t[key].epoch + 1 && row.reservedAt == t[key].reservedAt
          else row.epoch == 1 && row.reservedAt == r.now)
  {
    hide Prepare, VerifiedEvidence, Verified, JobTaken, IsOwner, SoundRow;
    if key in t {
      assert SoundRow(c, key, t[key]);
      ReservedHasNoBytes(c, key, t[key]);
    }
    EvidenceDerives(c, r.envelope, key, Step(t, c, ReserveOp(r))[key]);
    hide DerivedRow;
  }

  lemma ReservedHasNoBytes(c: Codec, key: RowKey, row: Row)
    requires SoundRow(c, key, row)
    ensures row.state == Reserved ==> row.bytes.None? && row.finalizedAt.None?
  {
    hide Reconstructed, Review.IsPublicationKey;
  }

  /** A publication, column by column. */
  lemma PublishedColumns(t: Table, c: Codec, a: Attempt, key: RowKey)
    requires Sound(t, c) && key in t && Step(t, c, CommitOp(a))[key] != t[key]
    ensures key == a.Key()
    ensures var row, next := t[key], Step(t, c, CommitOp(a))[key];
      && next.identity == row.identity && next.owner == row.owner && next.epoch == row.epoch == a.epoch
      && next.reservedAt == row.reservedAt && next.state == Finalized && next.bytes == Some(a.bytes)
      && next.expiresAt.None? && next.updatedAt == a.now && next.finalizedAt == Some(a.now)
      && Commit(t, c, a).1 == Ok(Record(key, next))
  {
    hide Prepare, VerifiedEvidence, Verified, IsOwner, SoundRow;
  }

  // ---- What is admitted ----

  /** An envelope that can be published: it derives a candidate, and prints to evidence that reads back as itself. */
  predicate Publishable(c: Codec, e: Envelope) {
    c.derive(e.core).Some?
    && var d := c.derive(e.core).value;
    var complete := Envelope(e.core, Some(d.runLength));
    && (e.runLength.None? || e.runLength == Some(d.runLength)) && IsUuid(d.jobId)
    && c.load(c.dumps(complete)) == Some(complete) && 1 <= |c.dumps(complete)| <= 262_144 && 1 <= |d.candidate| <= 262_144
  }

  /** The identity of what a derivation publishes on this evidence, column by column. */
  function IdentityOf(c: Codec, d: Derived, evidence: Bytes): Identity {
    Identity(d.jobId, d.sessionId, d.source, evidence, c.sha256(evidence),
             "candidate-skill:1.0:" + d.jobId + ":sha256:" + c.sha256(d.content),
             c.sha256(d.content), c.sha256(d.candidate), |d.candidate|)
  }

  lemma PreparedIs(c: Codec, e: Envelope)
    ensures Prepare(c, e).Some? <==> Publishable(c, e)
    ensures Prepare(c, e).Some? ==>
      var d := c.derive(e.core).value;
      Prepare(c, e).value == Prepared("candidate-publication:1.0:" + d.jobId,
                                      IdentityOf(c, d, c.dumps(Envelope(e.core, Some(d.runLength)))), d.candidate)
  {
    hide IsUuid;
    if c.derive(e.core).Some? {
      var d := c.derive(e.core).value;
      assert e.(runLength := Some(d.runLength)) == Envelope(e.core, Some(d.runLength));
    }
  }

  /** What a reservation answers, by its arguments and what its key holds. */
  lemma ReservationAnswers(t: Table, c: Codec, r: Reservation)
    requires Sound(t, c)
    ensures var (t', result) := Reserve(t, c, r);
      if !IsOwner(r.owner) || !(1 <= r.lease <= 1800) || !FitsSigned64(r.now) || !Publishable(c, r.envelope) then
        t' == t && result == Err(Invalid)
      else
        var d := c.derive(r.envelope.core).value;
        var key := RowKey(r.scope, "candidate-publication:1.0:" + d.jobId);
        var id := IdentityOf(c, d, c.dumps(Envelope(r.envelope.core, Some(d.runLength))));
        var late := r.now + r.lease * 1_000_000 > 0x7FFF_FFFF_FFFF_FFFF;
        if key in t && t[key].identity != id then t' == t && result == Err(Conflict)
        else if key in t && t[key].state == Finalized then t' == t && result == Ok(Record(key, t[key]))
        else if key in t && r.now < t[key].expiresAt.GetOr(r.now) then
          t' == t && result == if t[key].owner == r.owner then Ok(Record(key, t[key])) else Err(Unavailable)
        else if late || (key in t && t[key].epoch == 0x7FFF_FFFF_FFFF_FFFF) then t' == t && result == Err(Unavailable)
        else result.Ok? && result.value.key == key && t' == t[key := result.value.row] && (key in t ==> t' != t)
  {
    PreparedIs(c, r.envelope);
    hide Publishable, IdentityOf;
    if Prepare(c, r.envelope).Some? {
      JobHasOneRow(t, c, r.envelope, r.scope);
      var key := RowKey(r.scope, Prepare(c, r.envelope).value.publicationKey);
      if key in t {
        assert SoundRow(c, key, t[key]);
        if t[key].state == Finalized { SoundRowVerified(c, key, t[key]); }
      }
    }
    hide Prepare, VerifiedEvidence, Verified, JobTaken, IsOwner;
  }

  /** Whatever a table holds, a candidate is read from it exactly if all of it follows from its own evidence. */
  lemma ReadExactly(t: Table, c: Codec, key: RowKey)
    ensures ReadFinalized(t, c, key).Ok?
       <==> && key in t && t[key].state == Finalized && Review.IsPublicationKey(key.publicationKey)
            && c.load(t[key].identity.evidence).Some?
            && var e := c.load(t[key].identity.evidence).value;
               Publishable(c, e)
               && var d := c.derive(e.core).value;
                  && t[key].identity == IdentityOf(c, d, c.dumps(Envelope(e.core, Some(d.runLength))))
                  && key.publicationKey == "candidate-publication:1.0:" + d.jobId && t[key].bytes == Some(d.candidate)
    ensures ReadFinalized(t, c, key).Ok? ==> ReadFinalized(t, c, key).value == Record(key, t[key])
  {
    if key in t && c.load(t[key].identity.evidence).Some? {
      var e := c.load(t[key].identity.evidence).value;
      PreparedIs(c, e);
    }
    hide Prepare, Publishable, Review.IsPublicationKey;
  }

  // ---- What is refused ----

  /** What a read of a finalized candidate answers. */
  lemma ReadAnswers(t: Table, c: Codec, key: RowKey)
    requires Sound(t, c)
    ensures ReadFinalized(t, c, key)
         == if key !in t || t[key].state != Finalized
            then Err(if Review.IsPublicationKey(key.publicationKey) then NotFound else Invalid)
            else Ok(Record(key, t[key]))
  {
    if key in t {
      assert SoundRow(c, key, t[key]);
      if t[key].state == Finalized { SoundRowVerified(c, key, t[key]); }
    }
    hide Verified, Reconstructed, Check, Review.IsPublicationKey;
  }

  /** What a commit answers, by what its key holds: the reasons in the order in which they are looked at. */
  lemma CommitAnswers(t: Table, c: Codec, a: Attempt)
    requires Sound(t, c)
    ensures var (t', result) := Commit(t, c, a);
      if !Review.IsPublicationKey(a.publicationKey) || !IsOwner(a.owner) || !(1 <= a.epoch <= MAX_SIGNED_64)
         || !(1 <= |a.bytes| <= 262_144) || !FitsSigned64(a.now) then t' == t && result == Err(Invalid)
      else if a.Key() !in t then t' == t && result == Err(NotFound)
      else
        var row := t[a.Key()];
        if row.state == Finalized then t' == t && result == if row.bytes == Some(a.bytes) then Ok(Record(a.Key(), row)) else Err(Conflict)
        else if row.owner != a.owner || row.epoch != a.epoch || a.now >= row.expiresAt.GetOr(a.now) then t' == t && result == Err(Stale)
        else if Reconstructed(c, a.Key(), row) != Some(a.bytes) then t' == t && result == Err(Conflict)
        else if a.now < row.updatedAt then t' == t && result == Err(Unavailable)
        else result.Ok? && t' == t[a.Key() := result.value.row] && result.value.row.state == Finalized
  {
    if a.Key() in t {
      var key, row := a.Key(), t[a.Key()];
      assert SoundRow(c, key, row);
      if row.state == Finalized { SoundRowVerified(c, key, row); }
      CommitReadsBack(t, c, a);
    }
    hide Prepare, Verified, VerifiedEvidence, IsOwner, Review.IsPublicationKey;
  }
}
