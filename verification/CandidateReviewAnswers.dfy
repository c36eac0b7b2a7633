/**
 What the guarded review append answers and records, and what an accepted
 history looks like, said over the request and the stored events alone.
 */
module CandidateReviewAnswers {
  import opened Basics
  import opened Decimals
  import opened ScopedKeys
  import opened AuditLog
  import opened CandidateReview
  import opened CandidateReviewStore

  /** Where a target stands, by its last event. */
  function LastStatus(history: seq<EventRow>): Status {
    if history == [] then Unreviewed else history[|history| - 1].status
  }

  function LastId(history: seq<EventRow>): Json {
    if history == [] then Null else Text(history[|history| - 1].eventId)
  }

  function PriorOf(history: seq<EventRow>): Prior {
    Prior(LastStatus(history), |history|, if history == [] then None else Some(history[|history| - 1].eventId))
  }

  /** Whatever the request says of the prior is true of the last event. */
  predicate PriorIsTrue(r: Request, history: seq<EventRow>) {
    && (r.priorState.Given? ==> r.priorState.value == StateName(LastStatus(history)))
    && (r.priorVersion.Given? ==> r.priorVersion.value == Int(|history|))
    && (r.priorEventId.Given? ==> r.priorEventId.value == LastId(history))
  }

  predicate IsTransition(from: Status, to: Status) {
    (from, to) in {(Unreviewed, Pending), (Unreviewed, Approved),
                   (Pending, Approved), (Pending, Rejected), (Pending, NeedsChanges)}
  }

  lemma TransitionsAreFive(from: Status, to: Status)
    ensures LegalTransition(from, to) <==> IsTransition(from, to)
  {
  }

  lemma PriorIsLast(s: ReviewState, target: string)
    requires Sound(s) && IsCandidateReviewTarget(target)
    ensures var history := History(s.events, target);
      CurrentPrior(s, target) == Ok(PriorOf(history))
  {
    var history := History(s.events, target);
    assert Intact(s, target);
    if target in s.projections {
      IntactProjection(s, target);
    }
    hide FirstError, IsCandidateReviewTarget, LegalPath, DigestOf;
  }

  lemma ExpectedIsTrue(r: Request, history: seq<EventRow>, prior: Prior)
    requires prior == PriorOf(history)
    ensures PriorExpected(r, prior) <==> PriorIsTrue(r, history)
  {
  }

  /** What the new event records of a request made at this point of a history. */
  predicate Records(e: EventRow, r: Request, history: seq<EventRow>, newId: string, clock: int) {
    && e.eventId == newId && e.actor == r.actor && e.status == r.status && e.occurredAt == r.time.GetOr(clock)
    && e.target == r.scopeKey + "13:review_target128:" + r.target
    && e.detail.status == e.detail.destinationStatus == Some(StateName(r.status))
    && e.detail.priorState == Some(StateName(LastStatus(history))) && e.detail.priorVersion == Some(Int(|history|))
    && e.detail.priorEventId == Some(LastId(history))
    && e.detail.reason == Some(if r.reason.Given? then r.reason.value else Null)
    && e.detail.evidence == Some(if r.evidence.Given? then r.evidence.value else Null)
    && e.detail.serverTime == Some(Instant(r.time.GetOr(clock)))
    && e.detail.contentSha256 == Some(Text(r.content)) && e.detail.fullSha256 == Some(Text(r.full))
    && e.detail.sourceResultSha256 == Some(Text(r.source))
    && e.detail.publicationKey == Some(Text(r.publicationKey)) && e.detail.reviewTargetId == Some(Text(r.target))
    && e.detail.scope == Some(Text(r.scopeKey)) && e.detail.schemaVersion == Some(Text(r.schemaVersion))
    && e.detail.reviewerId == e.detail.serverReviewerId == Some(Text(r.actor)) && e.detail.qualifiedKey == Some(Text(e.key))
    && e.detail.lifecycleVersion == Some(Text("138.1"))
    && e.provenance.source == Some(Text("candidate_publication_review")) && e.provenance.artifactId == Some(Text(r.publicationKey))
    && e.provenance.revision == Some(Text(r.schemaVersion)) && e.provenance.sha256 == Some(Text(r.content))
  }

  lemma TargetText(scopeKey: string, target: string)
    requires |target| == 128
    ensures QualifyTarget(scopeKey, target) == scopeKey + "13:review_target128:" + target
  {
    assert Decimal(13) == Decimal(1) + [DigitChar(3)] == "13";
    assert Decimal(128) == Decimal(12) + [DigitChar(8)] && Decimal(12) == Decimal(1) + [DigitChar(2)];
    assert Decimal(128) == "128";
    hide Decimal, DigitChar;
    var front := scopeKey + Segment("review_target");
    assert Segment("review_target") == "13:review_target" && Segment(target) == "128:" + target;
    assert front + Segment(target) == scopeKey + "13:review_target128:" + target;
  }

  lemma DetailRecords(r: Request, a: Admitted, history: seq<EventRow>, prior: Prior, newId: string, clock: int)
    requires prior == PriorOf(history) && a.target == r.scopeKey + "13:review_target128:" + r.target
    ensures var b := FreshBinding(r, prior, clock);
      Records(NewEvent(r, a, LegacyPayload(LifecycleProvenance(r, a, b), LifecycleDetail(r, a, b)), newId, b.time), r, history, newId, clock)
  {
  }

  lemma NewEventRecords(r: Request, a: Admitted, history: seq<EventRow>, newId: string, clock: int)
    requires Admit(r) == Ok(a) && r.legacy.None? && |history| <= 2
    requires history != [] ==> IsUuid(history[|history| - 1].eventId)
    ensures var b := FreshBinding(r, PriorOf(history), clock);
      && Payload(r, a, b).Some?
      && Records(NewEvent(r, a, Payload(r, a, b).value, newId, b.time), r, history, newId, clock)
  {
    AdmittedFacts(r, a);
    TargetText(r.scopeKey, r.target);
    LifecycleEventBound(r, a, PriorOf(history), newId, clock);
    hide *;
    DetailRecords(r, a, history, PriorOf(history), newId, clock);
  }

  /** The appended event, and the tables with it. */
  predicate Appended(s: ReviewState, s': ReviewState, e: EventRow, version: int, audit: Option<AuditContext>) {
    && s'.events == s.events + [e] && e.target in s'.projections
    && s'.projections == s.projections[e.target := s'.projections[e.target]]
    && s'.projections[e.target].status == e.status && s'.projections[e.target].version == version
    && s'.projections[e.target].lastEventId == e.eventId && s'.projections[e.target].occurredAt == e.occurredAt
    && s'.projections[e.target].actor == e.actor && s'.projections[e.target].detail == e.detail
    && s'.audit == s.audit + if audit.Some? then [audit.value] else []
  }

  lemma AppendIsFresh(s: ReviewState, r: Request, a: Admitted, newId: string, clock: int)
    requires Admit(r) == Ok(a) && forall e | e in s.events :: e.key != a.key
    ensures Append(s, r, newId, clock) == Fresh(s, r, a, newId, clock)
  {
    hide Admit, Fresh, Retry;
  }

  lemma FreshUnfolds(s: ReviewState, r: Request, a: Admitted, newId: string, clock: int, prior: Prior)
    requires CurrentPrior(s, a.target) == Ok(prior) && Payload(r, a, FreshBinding(r, prior, clock)).Some?
    ensures var b := FreshBinding(r, prior, clock);
      Fresh(s, r, a, newId, clock)
      == if PriorExpected(r, prior) && LegalTransition(prior.state, r.status)
         then Inserted(s, NewEvent(r, a, Payload(r, a, b).value, newId, b.time), prior.version + 1, r.audit)
         else (s, Err(Conflict))
  {
    hide CurrentPrior, PriorExpected, LegalTransition, Inserted, Payload, NewEvent;
  }

  lemma FreshAnswer(s: ReviewState, r: Request, a: Admitted, newId: string, clock: int)
    requires Sound(s) && Admit(r) == Ok(a) && r.legacy.None?
    requires forall e | e in s.events :: e.key != a.key
    ensures var history := History(s.events, a.target);
      var b := FreshBinding(r, PriorOf(history), clock);
      && Payload(r, a, b).Some?
      && (Append(s, r, newId, clock)
          == if PriorIsTrue(r, history) && IsTransition(LastStatus(history), r.status)
             then Inserted(s, NewEvent(r, a, Payload(r, a, b).value, newId, b.time), |history| + 1, r.audit)
             else (s, Err(Conflict)))
      && Records(NewEvent(r, a, Payload(r, a, b).value, newId, b.time), r, history, newId, clock)
  {
    var history := History(s.events, a.target);
    var prior := PriorOf(history);
    hide *;
    FreshPrior(s, r, a);
    NewEventRecords(r, a, history, newId, clock);
    AppendIsFresh(s, r, a, newId, clock);
    FreshUnfolds(s, r, a, newId, clock, prior);
  }

  lemma FreshPrior(s: ReviewState, r: Request, a: Admitted)
    requires Sound(s) && Admit(r) == Ok(a)
    ensures var history := History(s.events, a.target);
      var prior := PriorOf(history);
      && prior.version == |history| <= 2 && (history != [] ==> IsUuid(history[|history| - 1].eventId))
      && CurrentPrior(s, a.target) == Ok(prior)
      && (PriorExpected(r, prior) <==> PriorIsTrue(r, history))
      && (LegalTransition(prior.state, r.status) <==> IsTransition(LastStatus(history), r.status))
  {
    var history := History(s.events, a.target);
    TransitionsAreFive(PriorOf(history).state, r.status);
    assert PriorOf(history).version == |history| && PriorOf(history).state == LastStatus(history);
    ExpectedIsTrue(r, history, PriorOf(history));
    hide *;
    AdmittedFacts(r, a);
    QualifiedTargetIsCandidate(r.scopeKey, r.target);
    PriorIsLast(s, a.target);
    LastIsUuid(s, a.target);
  }

  lemma LastIsUuid(s: ReviewState, target: string)
    requires Sound(s) && IsCandidateReviewTarget(target)
    ensures var history := History(s.events, target);
      |history| <= 2 && (history != [] ==> IsUuid(history[|history| - 1].eventId))
  {
    var history := History(s.events, target);
    assert Intact(s, target);
    if target in s.projections {
      AcceptedHistoryIsLegal(target, history);
    }
    hide FirstError, IsCandidateReviewTarget, LegalPath, DigestOf;
  }

  /**
   What a first-time request gets, in any state whose candidate histories are
   intact: it is stored exactly when what it says of the prior is true and its
   step is one of the five; anything else is a conflict that changes nothing.
   */
  lemma AppendAnswers(s: ReviewState, r: Request, newId: string, clock: int)
    requires Sound(s) && Admit(r).Ok? && r.legacy.None? && AuditAdmitted(r.audit)
    requires forall e | e in s.events :: e.key != Admit(r).value.key && e.eventId != newId
    ensures var a, (s', result) := Admit(r).value, Append(s, r, newId, clock);
      var history := History(s.events, a.target);
      && (result.Ok? <==> PriorIsTrue(r, history) && IsTransition(LastStatus(history), r.status))
      && (result.Err? ==> s' == s && result == Err(Conflict))
      && (result.Ok? ==> Records(result.value, r, history, newId, clock) && result.value.key == a.key
                         && Appended(s, s', result.value, |history| + 1, r.audit))
  {
    var a := Admit(r).value;
    var history := History(s.events, a.target);
    hide *;
    FreshAnswer(s, r, a, newId, clock);
    var b := FreshBinding(r, PriorOf(history), clock);
    InsertedMeans(s, NewEvent(r, a, Payload(r, a, b).value, newId, b.time), |history| + 1, r.audit);
    NewEventNamed(r, a, Payload(r, a, b).value, newId, b.time);
  }

  lemma NewEventNamed(r: Request, a: Admitted, payload: LegacyPayload, newId: string, time: int)
    ensures NewEvent(r, a, payload, newId, time).key == a.key && NewEvent(r, a, payload, newId, time).eventId == newId
  {
  }

  lemma InsertedMeans(s: ReviewState, e: EventRow, version: int, audit: Option<AuditContext>)
    requires AuditAdmitted(audit) && forall x | x in s.events :: x.eventId != e.eventId
    ensures Inserted(s, e, version, audit).1 == Ok(e) && Appended(s, Inserted(s, e, version, audit).0, e, version, audit)
  {
  }

  // ---- Retries ----

  /** A given member repeats what the event recorded; an open one takes it over. */
  predicate Agrees(arg: Arg, stored: Member) {
    arg.Given? ==> stored == Some(arg.value)
  }

  /** The second request asks for the same review as the first, which this event records. */
  predicate SameReview(first: Request, second: Request, e: EventRow) {
    && second.scopeKey == first.scopeKey && second.target == first.target && second.actor == first.actor && second.status == first.status
    && second.full == first.full && second.source == first.source && (second.time.Some? ==> second.time.value == e.occurredAt)
    && Agrees(second.priorState, e.detail.priorState) && Agrees(second.priorVersion, e.detail.priorVersion)
    && Agrees(second.priorEventId, e.detail.priorEventId) && Agrees(second.reason, e.detail.reason)
    && Agrees(second.evidence, e.detail.evidence)
  }

  /** In any later state a stored key returns its event exactly for the same review; every other request is refused, and nothing changes. */
  lemma RetryAnswers(s: ReviewState, first: Request, newId: string, clock: int, e: EventRow,
                     later: ReviewState, second: Request, newId': string, clock': int)
    requires first.legacy.None? && Append(s, first, newId, clock).0.events != s.events && Append(s, first, newId, clock).1 == Ok(e)
    requires Sound(later) && e in later.events
    requires Admit(second).Ok? && second.legacy.None? && Admit(second).value.key == e.key
    ensures Append(later, second, newId', clock').0 == later
    ensures if SameReview(first, second, e) then Append(later, second, newId', clock').1 == Ok(e)
            else Append(later, second, newId', clock').1.Err?
  {
    var a2 := Admit(second).value;
    hide *;
    var a, prior, e' := FreshAppendFacts(s, first, newId, clock);
    var b := FreshBinding(first, prior, clock);
    StoredEvent(first, a, b, newId, e);
    RetryContent(first, a, b, second, a2, e);
    SoundIsUnique(later);
    AppendIsRetry(later, second, a2, e, newId', clock');
    AdmittedFacts(first, a);
    QualifiedTargetIsCandidate(first.scopeKey, first.target);
    if SameReview(first, second, e) {
      RetryReturnsStored(later, second, a2, e);
    } else {
      RetryRefuses(later, second, a2, e);
    }
  }

  lemma SoundIsUnique(s: ReviewState)
    requires Sound(s)
    ensures UniqueColumns(s.events)
  {
    hide Intact, UniqueColumns, IsCandidateReviewTarget;
  }

  lemma StoredEvent(r: Request, a: Admitted, b: Binding, newId: string, e: EventRow)
    requires r.legacy.None? && Payload(r, a, b).Some? && e == NewEvent(r, a, Payload(r, a, b).value, newId, b.time)
    ensures PriorsWellFormed(b) && e.key == a.key && e.target == a.target && e.occurredAt == b.time
    ensures e.detail == LifecycleDetail(r, a, b) && e.provenance == LifecycleProvenance(r, a, b)
    ensures e.digest == Digest(a.target, r.actor, r.status, LifecycleProvenance(r, a, b), LifecycleDetail(r, a, b))
  {
    hide PriorsWellFormed, ProvenanceComplete, LifecycleDetail, LifecycleProvenance;
  }

  lemma RetryRefuses(s: ReviewState, r: Request, a: Admitted, e: EventRow)
    requires var payload := Payload(r, a, RetryBinding(r, e));
      payload.None? || e.digest != Digest(a.target, r.actor, r.status, payload.value.provenance, payload.value.detail)
    ensures Retry(s, r, a, e).Err?
  {
    hide Payload, RetryBinding, Verdict;
  }

  lemma RetryContent(first: Request, a: Admitted, b: Binding, second: Request, a2: Admitted, e: EventRow)
    requires Admit(first) == Ok(a) && Admit(second) == Ok(a2) && second.legacy.None? && a2.key == a.key
    requires PriorsWellFormed(b) && e.key == a.key && e.target == a.target && e.occurredAt == b.time
    requires e.detail == LifecycleDetail(first, a, b) && e.provenance == LifecycleProvenance(first, a, b)
    requires e.digest == Digest(a.target, first.actor, first.status, LifecycleProvenance(first, a, b), LifecycleDetail(first, a, b))
    ensures var payload := Payload(second, a2, RetryBinding(second, e));
      (payload.Some? && e.digest == Digest(a2.target, second.actor, second.status, payload.value.provenance, payload.value.detail))
      <==> SameReview(first, second, e)
  {
    var b2 := RetryBinding(second, e);
    SameBinding(first, a, b, second, e);
    SameObjects(first, a, b, second, a2, b2);
    SameNames(first, a, second, a2);
    CompleteProvenance(second, a2, b2);
    hide *;
    PayloadIs(second, a2, b2);
  }

  lemma SameBinding(first: Request, a: Admitted, b: Binding, second: Request, e: EventRow)
    requires e.detail == LifecycleDetail(first, a, b) && e.occurredAt == b.time && second.legacy.None?
    ensures RetryBinding(second, e) == b
       <==> && (second.time.Some? ==> second.time.value == e.occurredAt)
            && Agrees(second.priorState, e.detail.priorState) && Agrees(second.priorVersion, e.detail.priorVersion)
            && Agrees(second.priorEventId, e.detail.priorEventId) && Agrees(second.reason, e.detail.reason)
            && Agrees(second.evidence, e.detail.evidence)
  {
  }

  lemma SameObjects(first: Request, a: Admitted, b: Binding, second: Request, a2: Admitted, b2: Binding)
    requires a2.key == a.key
    ensures LifecycleProvenance(first, a, b) == LifecycleProvenance(second, a2, b2) && LifecycleDetail(first, a, b) == LifecycleDetail(second, a2, b2)
       <==> && b2 == b && second.scopeKey == first.scopeKey && second.target == first.target && second.publicationKey == first.publicationKey
            && second.schemaVersion == first.schemaVersion && a2.skill == a.skill && second.content == first.content
            && second.full == first.full && second.source == first.source && second.status == first.status && second.actor == first.actor
  {
  }

  /** Target and scope determine the other names of an admitted request. */
  lemma SameNames(first: Request, a: Admitted, second: Request, a2: Admitted)
    requires Admit(first) == Ok(a) && Admit(second) == Ok(a2)
    ensures second.scopeKey == first.scopeKey && second.target == first.target ==>
              && a2.target == a.target && a2.skill == a.skill && second.publicationKey == first.publicationKey
              && second.schemaVersion == first.schemaVersion && second.content == first.content
  {
    AdmittedFacts(first, a);
    AdmittedFacts(second, a2);
    hide Admit, QualifyTarget, IsCandidateTarget, ValidScopeKey, CandidateKey;
  }

  lemma CompleteProvenance(r: Request, a: Admitted, b: Binding)
    requires Admit(r) == Ok(a)
    ensures ProvenanceComplete(LifecycleProvenance(r, a, b))
  {
    LifecycleBindingsAgree(r, a, b);
    hide Admit, ProvenanceComplete, LifecycleProvenance, LifecycleDetail;
  }

  lemma PayloadIs(r: Request, a: Admitted, b: Binding)
    requires r.legacy.None? && ProvenanceComplete(LifecycleProvenance(r, a, b))
    ensures Payload(r, a, b) == if PriorsWellFormed(b) then Some(LegacyPayload(LifecycleProvenance(r, a, b), LifecycleDetail(r, a, b))) else None
  {
    hide PriorsWellFormed, ProvenanceComplete, LifecycleDetail, LifecycleProvenance;
  }

  // ---- Admission ----

  /** The one identity that a request's target, publication key and digests may name. */
  predicate NamesCandidate(r: Request, skill: string) {
    && IsUuid(skill) && IsSha256(r.content) && IsSha256(r.full) && IsSha256(r.source)
    && r.target == "candidate-skill:1.0:" + skill + ":sha256:" + r.content
    && r.publicationKey == "candidate-publication:1.0:" + skill
    && (r.skillId.Some? ==> r.skillId.value == skill)
  }

  /** What the rest of a request must satisfy. */
  predicate WellFormedRest(r: Request) {
    && r.schemaVersion == "1.0" && r.status != Unreviewed && IsReviewerId(r.actor)
    && (r.legacy.Some? ==> r.legacyBytes <= 16_384 && ProvenanceComplete(r.legacy.value.provenance))
    && (r.reason.Given? && !r.reason.value.Null? ==>
          r.reason.value.Text? && HasText(r.reason.value.text) && |r.reason.value.text| <= 512)
    && (r.evidence.Given? && !r.evidence.value.Null? ==> EncodedBytes(r.evidence.value) <= 16_384)
  }

  lemma TargetNames(target: string, content: string)
    ensures (IsCandidateTarget(target) && TargetContent(target) == content)
       <==> exists skill :: IsUuid(skill) && IsSha256(content) && target == "candidate-skill:1.0:" + skill + ":sha256:" + content
    ensures forall skill | IsUuid(skill) && IsSha256(content) && target == "candidate-skill:1.0:" + skill + ":sha256:" + content ::
              |target| == 128 && TargetSkill(target) == skill
  {
    forall skill | IsUuid(skill) && IsSha256(content) && target == "candidate-skill:1.0:" + skill + ":sha256:" + content
      ensures IsCandidateTarget(target) && TargetContent(target) == content && TargetSkill(target) == skill {
      TargetParts(skill, content);
    }
    if IsCandidateTarget(target) && TargetContent(target) == content {
      assert target == target[..20] + target[20..56] + target[56..64] + target[64..];
      assert IsUuid(target[20..56]);
    }
    hide IsUuid, IsSha256;
  }

  lemma TargetParts(skill: string, content: string)
    requires |skill| == 36 && |content| == 64
    ensures var t := "candidate-skill:1.0:" + skill + ":sha256:" + content;
      |t| == 128 && t[..20] == TARGET_HEAD && t[20..56] == skill && t[56..64] == TARGET_MIDDLE && t[64..] == content
  {
  }

  lemma KeyNames(key: string, skill: string)
    ensures key == "candidate-publication:1.0:" + skill && IsUuid(skill)
       <==> IsPublicationKey(key) && key[|PUBLICATION_HEAD|..] == skill
  {
    hide IsUuid;
    if IsPublicationKey(key) && key[|PUBLICATION_HEAD|..] == skill {
      assert key == key[..|PUBLICATION_HEAD|] + key[|PUBLICATION_HEAD|..];
    }
  }

  lemma TextsVisible(r: Request)
    ensures IsCandidateTarget(r.target) ==> HasText(r.target)
    ensures IsReviewerId(r.actor) ==> HasText(r.actor)
  {
    if IsCandidateTarget(r.target) {
      assert r.target[0] == r.target[..20][0] == 'c';
      StartsVisible(r.target);
    }
    if IsReviewerId(r.actor) {
      assert r.actor[0] == 'r';
      StartsVisible(r.actor);
    }
    hide IsUuid, IsSha256;
  }

  /**
   Exactly the requests that are admitted: a valid scope, one candidate named
   throughout, an admissible key, and a well-formed rest.
   */
  lemma AdmittedExactly(r: Request)
    ensures Admit(r).Ok?
       <==> && ValidScopeKey(r.scopeKey) && CandidateKey(r.scopeKey, r.plainKey, r.qualifiedKey).Ok? && WellFormedRest(r)
            && exists skill :: NamesCandidate(r, skill)
  {
    TargetNames(r.target, r.content);
    KeyNames(r.publicationKey, if |r.target| == 128 then TargetSkill(r.target) else "");
    TextsVisible(r);
    AdmitMeans(r);
    hide Admit, CandidateKey, ValidScopeKey, IsUuid, IsSha256, IsReviewerId, HasText, IsCandidateTarget, IsPublicationKey, WellFormedRest,
      TargetSkill, TargetContent;
    if Admit(r).Ok? { assert NamesCandidate(r, TargetSkill(r.target)); }
  }

  lemma AdmitMeans(r: Request)
    requires IsCandidateTarget(r.target) ==> HasText(r.target)
    requires IsReviewerId(r.actor) ==> HasText(r.actor)
    ensures Admit(r).Ok?
       <==> && ValidScopeKey(r.scopeKey) && CandidateKey(r.scopeKey, r.plainKey, r.qualifiedKey).Ok? && WellFormedRest(r)
            && IsPublicationKey(r.publicationKey) && IsCandidateTarget(r.target)
            && r.publicationKey[|PUBLICATION_HEAD|..] == TargetSkill(r.target)
            && (r.skillId.Some? ==> r.skillId.value == TargetSkill(r.target))
            && IsSha256(r.content) && IsSha256(r.full) && IsSha256(r.source) && TargetContent(r.target) == r.content
    ensures Admit(r).Ok? ==>
              |r.target| == 128
              && Admit(r).value == Admitted(QualifyTarget(r.scopeKey, r.target), CandidateKey(r.scopeKey, r.plainKey, r.qualifiedKey).value,
                                            TargetSkill(r.target))
  {
    hide CandidateKey, ValidScopeKey, IsUuid, IsSha256, IsReviewerId, HasText, TargetSkill, TargetContent, ProvenanceComplete,
      EncodedBytes, QualifyTarget;
  }

  /** Whether given once or twice, the request names this one key. */
  predicate GivesKey(plain: Option<string>, qualified: Option<string>, key: string) {
    (plain == Some(key) && qualified == None) || (plain == None && qualified == Some(key)) || (plain == qualified == Some(key))
  }

  /** The key of an event: a complete key of the scope's own namespace as it is, and a plain one behind that namespace and its length. */
  lemma KeyAnswers(scopeKey: string, plain: Option<string>, qualified: Option<string>, given: string)
    ensures plain.Some? && qualified.Some? && plain != qualified ==> CandidateKey(scopeKey, plain, qualified) == Err(Conflict)
    ensures plain.None? && qualified.None? ==> CandidateKey(scopeKey, plain, qualified) == Err(InvalidArgument)
    ensures GivesKey(plain, qualified, given) ==>
      var space := scopeKey + "18:review_idempotency";
      CandidateKey(scopeKey, plain, qualified)
      == if !HasText(given) || |given| > 512 || (space <= given && !IsCompleteSegment(given[|space|..])) then Err(InvalidArgument)
         else if space <= given then Ok(given)
         else if qualified.Some? then Err(Conflict)
         else Ok(space + Decimal(|given|) + ":" + given)
  {
    KeySpace(scopeKey);
    assert !HasText("");
    assert Segment(given) == Decimal(|given|) + ":" + given;
    var space := scopeKey + "18:review_idempotency";
    assert space + Decimal(|given|) + ":" + given == space + (Decimal(|given|) + ":" + given);
    hide HasText, Segment, IsCompleteSegment, Decimal;
  }

  lemma KeySpace(scopeKey: string)
    ensures scopeKey + Segment("review_idempotency") == scopeKey + "18:review_idempotency"
  {
    assert Decimal(18) == Decimal(1) + [DigitChar(8)] == "18";
    assert Segment("review_idempotency") == "18:review_idempotency";
  }

  // ---- Accepted histories ----

  function Statuses(history: seq<EventRow>): seq<Status> {
    seq(|history|, i requires 0 <= i < |history| => history[i].status)
  }

  /** Whatever is stored, the statuses of an accepted history are one of five short lists. */
  lemma AcceptedStatuses(target: string, history: seq<EventRow>)
    requires history != [] && FirstError(target, history, 0).None?
    ensures Statuses(history) in {[Pending], [Approved], [Pending, Approved], [Pending, Rejected], [Pending, NeedsChanges]}
  {
    AcceptedHistoryIsLegal(target, history);
    hide FirstError, EventError, DigestOf;
    LegalStatuses(history);
  }

  lemma LegalStatuses(history: seq<EventRow>)
    requires LegalPath(history) && 1 <= |history| <= 2
    ensures Statuses(history) in {[Pending], [Approved], [Pending, Approved], [Pending, Rejected], [Pending, NeedsChanges]}
  {
    assert LegalTransition(PriorAt(history, 0).state, history[0].status);
    if |history| == 2 {
      assert LegalTransition(PriorAt(history, 1).state, history[1].status);
      assert Statuses(history) == [history[0].status, history[1].status];
    } else {
      assert Statuses(history) == [history[0].status];
    }
  }

  /** What the bound on evidence counts for one more character: an escape, or its UTF-8 bytes. */
  lemma TextLength(text: string, c: char)
    ensures EncodedBytes(Text("")) == 2
    ensures EncodedBytes(Text(text + [c])) == EncodedBytes(Text(text))
              + if c in "\"\\\n\r\t\U{8}\U{C}" then 2 else if c as int < 32 then 6
                else if c as int < 0x80 then 1 else if c as int < 0x800 then 2 else if c as int < 0x1_0000 then 3 else 4
  {
    TextBytesSnoc(text, c);
    var short := "\"\\\n\r\t\U{8}\U{C}";
    assert short == ['"', '\\', '\n', '\r', '\t', '\U{8}', '\U{C}'];
    hide TextBytes;
  }

  /** What it counts for other values. */
  lemma ValueLengths()
    ensures EncodedBytes(Int(-12)) == |"-12"| && EncodedBytes(StateName(NeedsChanges)) == |"\"needs_changes\""|
    ensures forall t: int :: EncodedBytes(Instant(t)) == |"\"2026-01-01T00:00:00.000000Z\""|
  {
    assert |Decimal(12)| == |Decimal(1)| + 1;
    PlainLength("needs_changes");
    hide TextBytes;
  }

  lemma TextBytesSnoc(text: string, c: char)
    ensures TextBytes(text + [c]) == TextBytes(text) + CharBytes(c)
  {
    assert (text + [c])[..|text|] == text;
  }

  lemma {:induction false} PlainLength(text: string)
    requires forall i | 0 <= i < |text| :: ' ' <= text[i] <= '~' && text[i] != '"' && text[i] != '\\'
    ensures TextBytes(text) == |text|
  {
    if text != "" {
      PlainLength(text[..|text| - 1]);
    }
  }

  // ---- Ordinary reviews ----

  /** The first ordinary review under a key is stored as it was given, and the target's projection counts it. */
  lemma OrdinaryAnswers(s: ReviewState, r: OrdinaryRequest, newId: string)
    requires HasText(r.target) && HasText(r.key) && HasText(r.actor) && !IsCandidateReviewTarget(r.target)
    requires r.status != Unreviewed && ProvenanceComplete(r.provenance) && AuditAdmitted(r.audit)
    requires forall e | e in s.events :: e.key != r.key && e.eventId != newId
    ensures var (s', result) := AppendOrdinary(s, r, newId);
      var digest := Digest(r.target, r.actor, r.status, r.provenance, r.detail);
      && result == Ok(EventRow(newId, r.target, r.key, digest, r.actor, r.status, r.provenance, r.detail, r.time))
      && Appended(s, s', result.value, if r.target in s.projections then s.projections[r.target].version + 1 else 1, r.audit)
  {
    hide IsCandidateReviewTarget, ProvenanceComplete, HasText;
  }

  /** A key that is stored returns its event exactly for the same content, and never stores another. */
  lemma OrdinaryReplays(s: ReviewState, r: OrdinaryRequest, newId: string, e: EventRow)
    requires HasText(r.target) && HasText(r.key) && HasText(r.actor) && !IsCandidateReviewTarget(r.target)
    requires r.status != Unreviewed && ProvenanceComplete(r.provenance) && AuditAdmitted(r.audit)
    requires UniqueColumns(s.events) && e in s.events && e.key == r.key && e.digest == DigestOf(e)
    ensures var (s', result) := AppendOrdinary(s, r, newId);
      && s'.events == s.events && s'.projections == s.projections
      && result == if e.target == r.target && e.actor == r.actor && e.status == r.status
                      && e.provenance == r.provenance && e.detail == r.detail
                   then Ok(e) else Err(Conflict)
  {
    hide IsCandidateReviewTarget, ProvenanceComplete, HasText;
    assert FindByKey(s.events, r.key) == Some(e);
  }
}
