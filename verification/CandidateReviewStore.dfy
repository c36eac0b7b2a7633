/**
 The one writer of candidate review events, the ordinary review writer that
 shares its tables, and the agreement of the writer with the validator.
 */
module CandidateReviewStore {
  import opened Basics
  import opened Decimals
  import opened ScopedKeys
  import opened AuditLog
  import opened CandidateReview

  // ---- The candidate writer as functions on states ----

  /** On a retry, a member the caller left open is taken from the stored event. */
  function FromStored(r: Request, arg: Arg, stored: Member): Arg {
    if arg.Unset? && r.legacy.None? && stored.Some? then Given(stored.value) else arg
  }

  function RetryBinding(r: Request, existing: EventRow): Binding {
    var d := existing.detail;
    Binding(
      Resolve(FromStored(r, r.priorState, d.priorState), StateName(Unreviewed)),
      Resolve(FromStored(r, r.priorVersion, d.priorVersion), Int(0)),
      Resolve(FromStored(r, r.priorEventId, d.priorEventId), Null),
      Resolve(FromStored(r, r.reason, d.reason), Null),
      Resolve(FromStored(r, r.evidence, d.evidence), Null),
      r.time.GetOr(existing.occurredAt))
  }

  /** A request whose key is already stored: an exact retry returns the stored event, anything else conflicts. */
  function Retry(s: ReviewState, r: Request, a: Admitted, existing: EventRow): Result<EventRow, Error> {
    match Payload(r, a, RetryBinding(r, existing))
    case None => Err(InvalidArgument)
    case Some(payload) =>
      if existing.digest != Digest(a.target, r.actor, r.status, payload.provenance, payload.detail) then Err(Conflict)
      else
        var history := History(s.events, existing.target);
        if existing.target !in s.projections || (forall e | e in history :: e.eventId != existing.eventId)
        then Err(Conflict)
        else
          match Verdict(s.events, existing.target, s.projections[existing.target], history)
          case Some(error) => Err(error)
          case None => Ok(existing)
  }

  /** Where a target stands now, if its stored history is intact. */
  function CurrentPrior(s: ReviewState, target: string): Result<Prior, Error> {
    var history := History(s.events, target);
    if target !in s.projections then
      if history != [] then Err(Conflict) else Ok(Prior(Unreviewed, 0, None))
    else
      var p := s.projections[target];
      if history == [] || (|history| != 1 && p.status == Unreviewed) then Err(Conflict)
      else
        match Verdict(s.events, target, p, history)
        case Some(error) => Err(error)
        case None => Ok(Prior(p.status, p.version, Some(p.lastEventId)))
  }

  predicate PriorExpected(r: Request, prior: Prior) {
    && Resolve(r.priorState, StateName(prior.state)) == StateName(prior.state)
    && Resolve(r.priorVersion, Int(prior.version)) == Int(prior.version)
    && Resolve(r.priorEventId, OptionalText(prior.eventId)) == OptionalText(prior.eventId)
  }

  function FreshBinding(r: Request, prior: Prior, clock: int): Binding {
    Binding(StateName(prior.state), Int(prior.version), OptionalText(prior.eventId),
            Resolve(r.reason, Null), Resolve(r.evidence, Null), r.time.GetOr(clock))
  }

  function NewEvent(r: Request, a: Admitted, payload: LegacyPayload, newId: string, time: int): EventRow {
    EventRow(newId, a.target, a.key,
             Digest(a.target, r.actor, r.status, payload.provenance, payload.detail),
             r.actor, r.status, payload.provenance, payload.detail, time)
  }

  function ProjectionOf(e: EventRow, version: int): Projection {
    Projection(e.status, version, e.eventId, e.actor, e.provenance, e.detail, e.occurredAt)
  }

  function Inserted(s: ReviewState, e: EventRow, version: int, audit: Option<AuditContext>): (ReviewState, Result<EventRow, Error>) {
    if FindById(s.events, e.eventId).Some? then (s, Err(IntegrityFailure))
    else if !AuditAdmitted(audit) then (s, Err(InvalidArgument))
    else
      (ReviewState(s.events + [e], s.projections[e.target := ProjectionOf(e, version)], AppendAudit(s.audit, audit)), Ok(e))
  }

  function Fresh(s: ReviewState, r: Request, a: Admitted, newId: string, clock: int): (ReviewState, Result<EventRow, Error>) {
    match CurrentPrior(s, a.target)
    case Err(error) => (s, Err(error))
    case Ok(prior) =>
      if !PriorExpected(r, prior) || !LegalTransition(prior.state, r.status) then (s, Err(Conflict))
      else
        match Payload(r, a, FreshBinding(r, prior, clock))
        case None => (s, Err(InvalidArgument))
        case Some(payload) =>
          Inserted(s, NewEvent(r, a, payload, newId, r.time.GetOr(clock)), prior.version + 1, r.audit)
  }

  /** One guarded candidate append: `newId` is the generated event identifier, `clock` the server time. */
  function Append(s: ReviewState, r: Request, newId: string, clock: int): (ReviewState, Result<EventRow, Error>) {
    match Admit(r)
    case Err(error) => (s, Err(error))
    case Ok(a) =>
      match FindByKey(s.events, a.key)
      case Some(existing) => (s, Retry(s, r, a, existing))
      case None => Fresh(s, r, a, newId, clock)
  }

  // ---- The ordinary review writer ----

  datatype OrdinaryRequest = OrdinaryRequest(
    target: string, key: string, actor: string, status: Status, provenance: JsonObject, detail: JsonObject,
    time: int, audit: Option<AuditContext>)

  function AppendOrdinary(s: ReviewState, r: OrdinaryRequest, newId: string): (ReviewState, Result<EventRow, Error>) {
    if !HasText(r.target) || !HasText(r.key) || !HasText(r.actor) then (s, Err(InvalidArgument))
    else if IsCandidateReviewTarget(r.target) then (s, Err(Conflict))
    else if r.status == Unreviewed || !ProvenanceComplete(r.provenance) then (s, Err(InvalidArgument))
    else
      var digest := Digest(r.target, r.actor, r.status, r.provenance, r.detail);
      match FindByKey(s.events, r.key)
      case Some(existing) =>
        if existing.digest != digest then (s, Err(Conflict))
        else if !AuditAdmitted(r.audit) then (s, Err(InvalidArgument))
        else (s.(audit := AppendAudit(s.audit, r.audit)), Ok(existing))
      case None =>
        var e := EventRow(newId, r.target, r.key, digest, r.actor, r.status, r.provenance, r.detail, r.time);
        var version := if r.target in s.projections then s.projections[r.target].version + 1 else 1;
        Inserted(s, e, version, r.audit)
  }

  // ---- The store ----

  class ReviewStore {
    var events: seq<EventRow>
    var projections: map<string, Projection>
    var auditEvents: seq<AuditContext>

    ghost function State(): ReviewState
      reads this
    {
      ReviewState(events, projections, auditEvents)
    }

    constructor ()
      ensures State() == EMPTY
    {
      events, projections, auditEvents := [], map[], [];
    }

    /** Insert, project and record evidence in one transaction, or leave every table as it was. */
    method Insert(e: EventRow, version: int, audit: Option<AuditContext>) returns (r: Result<EventRow, Error>)
      modifies this
      ensures (State(), r) == Inserted(old(State()), e, version, audit)
    {
      if FindById(events, e.eventId).Some? { return Err(IntegrityFailure); }
      var savedEvents, savedProjections := events, projections;
      events := events + [e];
      projections := projections[e.target := Projection(e.status, version, e.eventId, e.actor,
                                                        e.provenance, e.detail, e.occurredAt)];
      if audit.Some? {
        if !audit.value.wellFormed {
          events, projections := savedEvents, savedProjections;
          return Err(InvalidArgument);
        }
        auditEvents := auditEvents + [audit.value];
      }
      return Ok(e);
    }

    method RetryEvent(r: Request, a: Admitted, existing: EventRow) returns (result: Result<EventRow, Error>)
      ensures result == Retry(State(), r, a, existing)
    {
      var expected := Payload(r, a, RetryBinding(r, existing));
      if expected.None? { return Err(InvalidArgument); }
      if existing.digest != Digest(a.target, r.actor, r.status, expected.value.provenance, expected.value.detail) {
        return Err(Conflict);
      }
      var history := History(events, existing.target);
      if existing.target !in projections || (forall e | e in history :: e.eventId != existing.eventId) {
        return Err(Conflict);
      }
      var error := ValidateProjection(events, existing.target, projections[existing.target], history);
      if error.Some? { return Err(error.value); }
      return Ok(existing);
    }

    method ReadPrior(target: string) returns (result: Result<Prior, Error>)
      ensures result == CurrentPrior(State(), target)
    {
      var history := History(events, target);
      if target !in projections {
        if history != [] { return Err(Conflict); }
        return Ok(Prior(Unreviewed, 0, None));
      }
      var p := projections[target];
      if history == [] || (|history| != 1 && p.status == Unreviewed) { return Err(Conflict); }
      var error := ValidateProjection(events, target, p, history);
      if error.Some? { return Err(error.value); }
      return Ok(Prior(p.status, p.version, Some(p.lastEventId)));
    }

    method AppendCandidateReviewEvent(r: Request, newId: string, clock: int) returns (result: Result<EventRow, Error>)
      modifies this
      ensures (State(), result) == Append(old(State()), r, newId, clock)
    {
      hide Admit, Payload, FreshBinding, Verdict, LegalTransition, PriorExpected, CurrentPrior, Retry, Inserted;
      var admission := Admit(r);
      if admission.Err? { return Err(admission.error); }
      var a := admission.value;
      var stored := FindByKey(events, a.key);
      if stored.Some? {
        result := RetryEvent(r, a, stored.value);
        return;
      }
      var current := ReadPrior(a.target);
      if current.Err? { return Err(current.error); }
      var prior := current.value;
      if !PriorExpected(r, prior) { return Err(Conflict); }
      if !LegalTransition(prior.state, r.status) { return Err(Conflict); }
      var payload := Payload(r, a, FreshBinding(r, prior, clock));
      if payload.None? { return Err(InvalidArgument); }
      result := Insert(NewEvent(r, a, payload.value, newId, r.time.GetOr(clock)), prior.version + 1, r.audit);
    }

    /** The ordinary writer, which shares the tables and refuses candidate targets. */
    method AppendReviewEvent(r: OrdinaryRequest, newId: string) returns (result: Result<EventRow, Error>)
      modifies this
      ensures (State(), result) == AppendOrdinary(old(State()), r, newId)
    {
      hide ProvenanceComplete, IsCandidateReviewTarget;
      if !HasText(r.target) || !HasText(r.key) || !HasText(r.actor) { return Err(InvalidArgument); }
      if IsCandidateReviewTarget(r.target) { return Err(Conflict); }
      if r.status == Unreviewed || !ProvenanceComplete(r.provenance) { return Err(InvalidArgument); }
      var digest := Digest(r.target, r.actor, r.status, r.provenance, r.detail);
      var stored := FindByKey(events, r.key);
      if stored.Some? {
        if stored.value.digest != digest { return Err(Conflict); }
        if r.audit.Some? {
          if !r.audit.value.wellFormed { return Err(InvalidArgument); }
          auditEvents := auditEvents + [r.audit.value];
        }
        return Ok(stored.value);
      }
      var version := if r.target in projections then projections[r.target].version + 1 else 1;
      var e := EventRow(newId, r.target, r.key, digest, r.actor, r.status, r.provenance, r.detail, r.time);
      result := Insert(e, version, r.audit);
    }

    /** The projection of a target, once its whole history has been checked. */
    method GetCandidateProjection(target: string) returns (r: Result<Option<Projection>, Error>)
      ensures r.Ok? && r.value.Some?
              <==> IsCandidateReviewTarget(target) && target in projections
                   && Verdict(events, target, projections[target], History(events, target)).None?
      ensures r.Ok? && r.value.Some? ==> r.value.value == projections[target]
      ensures r.Ok? && r.value.None?
              <==> IsCandidateReviewTarget(target) && target !in projections && History(events, target) == []
    {
      if !IsCandidateReviewTarget(target) { return Err(Conflict); }
      var history := History(events, target);
      if target !in projections {
        if history != [] { return Err(Conflict); }
        return Ok(None);
      }
      var error := ValidateProjection(events, target, projections[target], history);
      if error.Some? { return Err(error.value); }
      return Ok(Some(projections[target]));
    }
  }

  // ---- Facts about the tables ----

  lemma HistorySnoc(events: seq<EventRow>, e: EventRow, target: string)
    ensures History(events + [e], target) == History(events, target) + if e.target == target then [e] else []
  {
    assert (events + [e])[..|events|] == events;
  }

  lemma {:induction false} HistoryMembers(events: seq<EventRow>, target: string)
    ensures forall e :: e in History(events, target) <==> e in events && e.target == target
  {
    if events != [] {
      assert events == events[..|events| - 1] + [events[|events| - 1]];
      HistoryMembers(events[..|events| - 1], target);
    }
  }

  lemma {:induction false} FindByIdSnoc(events: seq<EventRow>, e: EventRow, eventId: string)
    ensures FindById(events + [e], eventId)
         == if FindById(events, eventId).Some? then FindById(events, eventId)
            else if e.eventId == eventId then Some(e) else None
  {
    if events == [] {
      assert events + [e] == [e] && [e][1..] == [];
    } else {
      assert (events + [e])[1..] == events[1..] + [e];
      FindByIdSnoc(events[1..], e, eventId);
    }
  }

  lemma {:induction false} FindByKeySnoc(events: seq<EventRow>, e: EventRow, key: string)
    ensures FindByKey(events + [e], key)
         == if FindByKey(events, key).Some? then FindByKey(events, key)
            else if e.key == key then Some(e) else None
  {
    if events == [] {
      assert events + [e] == [e] && [e][1..] == [];
    } else {
      assert (events + [e])[1..] == events[1..] + [e];
      FindByKeySnoc(events[1..], e, key);
    }
  }

  /** The event table's unique columns. */
  ghost predicate UniqueColumns(events: seq<EventRow>) {
    && (forall e, f | e in events && f in events && e.eventId == f.eventId :: e == f)
    && (forall e, f | e in events && f in events && e.key == f.key :: e == f)
  }

  /** A target's stored history is intact: it is empty, or the validator accepts it. */
  ghost predicate Intact(s: ReviewState, target: string) {
    if target in s.projections
    then Verdict(s.events, target, s.projections[target], History(s.events, target)).None?
    else History(s.events, target) == []
  }

  ghost predicate Sound(s: ReviewState) {
    UniqueColumns(s.events) && forall target | IsCandidateReviewTarget(target) :: Intact(s, target)
  }

  // ---- The validator on one more event ----

  lemma {:induction false} FirstErrorSnoc(target: string, history: seq<EventRow>, e: EventRow, i: nat)
    requires i <= |history|
    ensures FirstError(target, history + [e], i)
         == if FirstError(target, history, i).Some? then FirstError(target, history, i)
            else EventError(target, e, PriorAt(history, |history|))
    decreases |history| - i
  {
    hide EventError;
    var longer := history + [e];
    assert PriorAt(longer, i) == PriorAt(history, i);
    if i < |history| {
      assert longer[i] == history[i];
      FirstErrorSnoc(target, history, e, i + 1);
    } else {
      assert FirstError(target, longer, |history| + 1).None?;
    }
  }

  /** In an accepted history, the projection names the last event and the prior of whatever comes next. */
  lemma PriorOfIntact(s: ReviewState, target: string)
    requires UniqueColumns(s.events) && CurrentPrior(s, target).Ok?
    ensures CurrentPrior(s, target).value == PriorAt(History(s.events, target), |History(s.events, target)|)
  {
    var history := History(s.events, target);
    if target in s.projections {
      HistoryMembers(s.events, target);
      assert history[|history| - 1] in history;
    }
  }

  lemma QualifiedTargetIsCandidate(scopeKey: string, target: string)
    requires IsCandidateTarget(target)
    ensures IsCandidateReviewTarget(QualifyTarget(scopeKey, target))
    ensures EndsInTarget(QualifyTarget(scopeKey, target))
    ensures var q := QualifyTarget(scopeKey, target); q[|q| - 128..] == target
  {
    var q := QualifyTarget(scopeKey, target);
    assert q == (scopeKey + Segment("review_target") + Decimal(|target|) + ":") + target;
    assert q[|q| - 128..] == target;
  }

  lemma PriorIsAccepted(s: ReviewState, target: string)
    requires CurrentPrior(s, target).Ok?
    ensures FirstError(target, History(s.events, target), 0).None?
  {
    hide EventError, IsCandidateReviewTarget;
  }

  /** After a fresh append, the validator's verdict is its verdict on the one new event. */
  lemma VerdictAfterInsert(s: ReviewState, e: EventRow)
    requires UniqueColumns(s.events) && IsCandidateReviewTarget(e.target) && CurrentPrior(s, e.target).Ok?
    requires FindById(s.events, e.eventId).None? && e.digest == DigestOf(e) && e.status != Unreviewed
    ensures Verdict(s.events + [e], e.target, ProjectionOf(e, |History(s.events, e.target)| + 1),
                    History(s.events + [e], e.target))
         == EventError(e.target, e, CurrentPrior(s, e.target).value)
  {
    PriorIsAccepted(s, e.target);
    PriorOfIntact(s, e.target);
    hide FirstError, EventError, LegalTransition, IsCandidateReviewTarget, CurrentPrior;
    var history := History(s.events, e.target);
    HistorySnoc(s.events, e, e.target);
    FindByIdSnoc(s.events, e, e.eventId);
    FirstErrorSnoc(e.target, history, e, 0);
  }

  // ---- The writer's events under the validator ----

  lemma CompleteSegmentBound(value: string)
    requires value != ""
    ensures IsCompleteSegment(Segment(value)) <==> |value| <= MAX_KEY_LENGTH
  {
    var digits := Decimal(|value|);
    SegmentParts(Segment(value), "", digits, value, "");
    FindAfterDigits(Segment(value), 0, |digits|);
    ValueOfDecimal(|value|);
  }

  /** A key that the server qualified carries its prefix and one segment, complete within the bound. */
  lemma QualifiedShape(scopeKey: string, plain: Option<string>, qualified: Option<string>, key: string)
    requires CandidateKey(scopeKey, plain, qualified) == Ok(key)
    ensures var prefix := scopeKey + Segment("review_idempotency");
      && prefix <= key && (|key| <= MAX_KEY_LENGTH ==> IsCompleteSegment(key[|prefix|..]))
  {
    var prefix := scopeKey + Segment("review_idempotency");
    var chosen := if qualified.Some? && qualified.value != "" then qualified.value else plain.value;
    assert chosen != "";
    if !(prefix <= chosen) {
      assert key[|prefix|..] == Segment(chosen);
      CompleteSegmentBound(chosen);
    }
  }

  lemma ScopeKeyVisible(scopeKey: string, key: string)
    requires ValidScopeKey(scopeKey) && scopeKey <= key
    ensures HasText(key)
  {
    assert KEY_VERSION[0] == 'w' && key[0] == 'w';
    StartsVisible(key);
  }

  /**
   Reading back a qualified key, with or without the copy in the objects, gives
   the key again exactly when it fits the validator's length bound.
   */
  lemma CandidateKeyReadsBack(scopeKey: string, plain: Option<string>, qualified: Option<string>, key: string)
    requires ValidScopeKey(scopeKey) && CandidateKey(scopeKey, plain, qualified) == Ok(key)
    ensures CandidateKey(scopeKey, Some(key), Some(key)) == CandidateKey(scopeKey, Some(key), None)
         == if |key| <= MAX_KEY_LENGTH then Ok(key) else Err(InvalidArgument)
  {
    QualifiedShape(scopeKey, plain, qualified, key);
    ScopeKeyVisible(scopeKey, key);
    hide IsCompleteSegment, ValidScopeKey, Segment, HasText;
  }

  lemma ShortDecimal(n: nat)
    requires n < 1000
    ensures |Decimal(n)| <= 3 && (n < 100 ==> |Decimal(n)| <= 2)
  {
    assert n < 100 ==> n / 10 < 10;
    assert n / 10 < 100 && n / 10 / 10 < 10;
  }

  lemma ScopeKeyLength(scopeKey: string)
    requires ValidScopeKey(scopeKey)
    ensures |scopeKey| <= 9 + 67 + 67
  {
    var scope := ScopeKeyFields(scopeKey);
    ShortDecimal(|scope.tenantId|);
    ShortDecimal(|scope.workspaceId|);
    hide ValidScopeKey, Decimal;
  }

  /**
   The bound that the service puts on public identifiers is enough: the key it
   qualifies always fits the validator's bound, so it reads back.
   */
  lemma PublicKeysFit(scopeKey: string, publicKey: string, key: string)
    requires ValidScopeKey(scopeKey) && IsPublicId(publicKey) && CandidateKey(scopeKey, Some(publicKey), None) == Ok(key)
    ensures |key| <= MAX_KEY_LENGTH && CandidateKey(scopeKey, Some(key), Some(key)) == Ok(key)
  {
    ScopeKeyLength(scopeKey);
    ShortDecimal(|publicKey|);
    ShortDecimal(|"review_idempotency"|);
    CandidateKeyReadsBack(scopeKey, Some(publicKey), None, key);
    hide ValidScopeKey, Decimal, IsCompleteSegment, HasText;
  }

  /** What a request has been checked for when its transaction opens. */
  lemma AdmittedFacts(r: Request, a: Admitted)
    requires Admit(r) == Ok(a)
    ensures ValidScopeKey(r.scopeKey) && IsCandidateTarget(r.target) && r.schemaVersion == SCHEMA_VERSION
    ensures a.target == QualifyTarget(r.scopeKey, r.target) && a.skill == TargetSkill(r.target)
    ensures r.publicationKey == PUBLICATION_HEAD + a.skill && r.content == TargetContent(r.target)
    ensures IsSha256(r.content) && IsSha256(r.full) && IsSha256(r.source)
    ensures r.status != Unreviewed && IsReviewerId(r.actor)
    ensures CandidateKey(r.scopeKey, r.plainKey, r.qualifiedKey) == Ok(a.key)
    ensures ReasonAllowed(Resolve(r.reason, Null)) && EvidenceAllowed(Resolve(r.evidence, Null))
    ensures r.legacy.Some? ==> ProvenanceComplete(r.legacy.value.provenance)
  {
    hide CandidateKey, IsCandidateTarget, ValidScopeKey, IsSha256, IsReviewerId, HasText, QualifyTarget;
  }

  lemma StartsVisible(text: string)
    requires text != "" && !IsBlankChar(text[0])
    ensures HasText(text)
  {
  }

  lemma LifecycleProvenanceComplete(r: Request, a: Admitted, b: Binding)
    requires HasText(r.publicationKey) && HasText(r.schemaVersion) && IsSha256(r.content)
    ensures ProvenanceComplete(LifecycleProvenance(r, a, b))
  {
    hide IsSha256;
    StartsVisible("candidate_publication_review");
  }

  lemma LifecycleBindingsAgree(r: Request, a: Admitted, b: Binding)
    requires Admit(r) == Ok(a)
    ensures BindingsAgree(LifecycleProvenance(r, a, b), LifecycleDetail(r, a, b))
  {
    hide ProvenanceComplete, IsSha256, IsCandidateTarget, QualifyTarget, CandidateKey, ValidScopeKey;
    AdmittedFacts(r, a);
    assert r.publicationKey[0] == PUBLICATION_HEAD[0];
    StartsVisible(r.publicationKey);
    StartsVisible(SCHEMA_VERSION);
    hide Admit, HasText;
    LifecycleProvenanceComplete(r, a, b);
  }

  lemma LifecycleIdentityBound(r: Request, a: Admitted, b: Binding)
    requires Admit(r) == Ok(a)
    ensures IdentityBound(LifecycleDetail(r, a, b), a.target)
  {
    AdmittedFacts(r, a);
    hide Admit, IsCandidateTarget, QualifyTarget, CandidateKey, ValidScopeKey, IsSha256;
  }

  lemma LifecycleEventBound(r: Request, a: Admitted, prior: Prior, newId: string, clock: int)
    requires Admit(r) == Ok(a) && r.legacy.None? && prior.version <= MAX_SIGNED_64
    requires prior.eventId.Some? ==> IsUuid(prior.eventId.value)
    ensures var b := FreshBinding(r, prior, clock);
      && Payload(r, a, b) == Some(LegacyPayload(LifecycleProvenance(r, a, b), LifecycleDetail(r, a, b)))
      && LifecycleBound(NewEvent(r, a, Payload(r, a, b).value, newId, b.time), prior)
  {
    var b := FreshBinding(r, prior, clock);
    LifecycleBindingsAgree(r, a, b);
    LifecycleIdentityBound(r, a, b);
    AdmittedFacts(r, a);
    hide Admit, IdentityBound, ProvenanceComplete, ReasonAllowed, EvidenceAllowed, IsReviewerId, LifecycleProvenance;
  }

  // ---- Accepted histories ----

  lemma {:induction false} AcceptedEach(target: string, history: seq<EventRow>, from: nat, i: nat)
    requires from <= i < |history| && FirstError(target, history, from).None?
    ensures EventError(target, history[i], PriorAt(history, i)).None?
    decreases |history| - from
  {
    hide EventError;
    if from < i {
      AcceptedEach(target, history, from + 1, i);
    }
  }

  /** The statuses of a history are a path of legal transitions from `Unreviewed`. */
  ghost predicate LegalPath(history: seq<EventRow>) {
    forall i | 0 <= i < |history| :: LegalTransition(PriorAt(history, i).state, history[i].status)
  }

  lemma ThirdStepIllegal(history: seq<EventRow>)
    requires |history| > 2
    requires forall i | 0 <= i < 2 :: LegalTransition(PriorAt(history, i).state, history[i].status)
    ensures !LegalTransition(PriorAt(history, 2).state, history[2].status)
  {
    assert history[1].status in {Approved, Rejected, NeedsChanges};
  }

  /**
   Whatever is stored, a history the validator accepts is a legal path of one
   or two events with well-formed identifiers and true digests.
   */
  lemma AcceptedHistoryIsLegal(target: string, history: seq<EventRow>)
    requires FirstError(target, history, 0).None?
    ensures LegalPath(history) && |history| <= 2
    ensures forall e | e in history :: e.target == target && IsUuid(e.eventId) && e.digest == DigestOf(e)
  {
    forall i | 0 <= i < |history|
      ensures LegalTransition(PriorAt(history, i).state, history[i].status)
      ensures history[i].target == target && IsUuid(history[i].eventId) && history[i].digest == DigestOf(history[i])
    {
      AcceptedEach(target, history, 0, i);
    }
    if |history| > 2 {
      ThirdStepIllegal(history);
      assert false;
    }
  }

  /** An intact target's projection is its last event, its version is the event count, at most two. */
  lemma IntactProjection(s: ReviewState, target: string)
    requires UniqueColumns(s.events) && Intact(s, target) && target in s.projections
    ensures var history := History(s.events, target);
      && LegalPath(history) && 1 <= |history| <= 2
      && s.projections[target] == ProjectionOf(history[|history| - 1], |history|)
  {
    hide FirstError, IsCandidateReviewTarget, LegalPath, DigestOf;
    var history := History(s.events, target);
    AcceptedHistoryIsLegal(target, history);
    HistoryMembers(s.events, target);
    assert history[|history| - 1] in history;
  }

  lemma PriorFacts(s: ReviewState, target: string)
    requires UniqueColumns(s.events) && CurrentPrior(s, target).Ok?
    ensures var prior := CurrentPrior(s, target).value;
      && prior == PriorAt(History(s.events, target), |History(s.events, target)|)
      && prior.version <= 2 && (prior.eventId.Some? ==> IsUuid(prior.eventId.value))
  {
    var history := History(s.events, target);
    PriorOfIntact(s, target);
    if target in s.projections {
      AcceptedHistoryIsLegal(target, history);
      assert history[|history| - 1] in history;
    }
  }

  // ---- The writer agrees with the validator ----

  predicate PlainPayload(payload: LegacyPayload) {
    !HasLifecycleMember(payload.provenance) && !HasLifecycleMember(payload.detail)
  }

  /**
   An older payload that carries lifecycle members is the lifecycle payload of
   this very request and prior. It may choose the reason, the evidence and two
   digests, leave the qualified key null, and carry any member that the lifecycle
   objects do not use.
   */
  predicate BoundToRequest(r: Request, a: Admitted, payload: LegacyPayload, prior: Prior, time: int) {
    var p, d := payload.provenance, payload.detail;
    && d.reason.Some? && ReasonAllowed(d.reason.value) && d.evidence.Some? && EvidenceAllowed(d.evidence.value)
    && MemberIsSha256(d.fullSha256) && MemberIsSha256(d.sourceResultSha256)
    && (d.qualifiedKey == Some(Text(a.key)) || d.qualifiedKey == Some(Null)) && |a.key| <= MAX_KEY_LENGTH
    && var b := Binding(StateName(prior.state), Int(prior.version), OptionalText(prior.eventId),
                        d.reason.value, d.evidence.value, time);
    && d == LifecycleDetail(r, a, b).(
              fullSha256 := d.fullSha256, sourceResultSha256 := d.sourceResultSha256, qualifiedKey := d.qualifiedKey,
              source := d.source, artifactId := d.artifactId, revision := d.revision, sha256 := d.sha256,
              kind := d.kind, decision := d.decision, approvalBasis := d.approvalBasis, others := d.others)
    && p == LifecycleProvenance(r, a, b).(
              fullSha256 := d.fullSha256, sourceResultSha256 := d.sourceResultSha256, qualifiedKey := d.qualifiedKey,
              lifecycleVersion := p.lifecycleVersion, status := p.status, reason := p.reason, evidence := p.evidence,
              kind := p.kind, decision := p.decision, approvalBasis := p.approvalBasis, others := p.others)
  }

  /**
   What a caller can see before an append: a lifecycle event's qualified key
   fits 512 characters; an older approval payload is the first event of its
   target and has exactly the approval shape, or, if it carries lifecycle
   members, it binds the request as completely as a lifecycle event.
   */
  ghost predicate StaysReadable(s: ReviewState, r: Request, a: Admitted, clock: int)
    requires Admit(r) == Ok(a)
  {
    if r.legacy.None? then |a.key| <= MAX_KEY_LENGTH
    else if PlainPayload(r.legacy.value) then
      && History(s.events, a.target) == [] && r.status == Approved
      && IsLegacyApproval(r.legacy.value.provenance, r.legacy.value.detail, a.skill, TargetContent(r.target))
    else
      && CurrentPrior(s, a.target).Ok?
      && BoundToRequest(r, a, r.legacy.value, CurrentPrior(s, a.target).value, r.time.GetOr(clock))
  }

  lemma FreshAppendFacts(s: ReviewState, r: Request, newId: string, clock: int) returns (a: Admitted, prior: Prior, e: EventRow)
    requires Append(s, r, newId, clock).0.events != s.events
    ensures Admit(r) == Ok(a) && FindByKey(s.events, a.key).None? && CurrentPrior(s, a.target) == Ok(prior)
    ensures PriorExpected(r, prior) && FindById(s.events, newId).None? && LegalTransition(prior.state, r.status)
    ensures var b := FreshBinding(r, prior, clock);
      && Payload(r, a, b).Some? && e == NewEvent(r, a, Payload(r, a, b).value, newId, b.time)
      && Append(s, r, newId, clock) == Inserted(s, e, prior.version + 1, r.audit)
      && Append(s, r, newId, clock).1 == Ok(e)
  {
    hide Admit, CurrentPrior, Payload, LegalTransition, PriorExpected, Retry;
    a := Admit(r).value;
    prior := CurrentPrior(s, a.target).value;
    e := NewEvent(r, a, Payload(r, a, FreshBinding(r, prior, clock)).value, newId, r.time.GetOr(clock));
  }

  lemma LifecycleVerdict(r: Request, a: Admitted, prior: Prior, newId: string, clock: int)
    requires Admit(r) == Ok(a) && r.legacy.None? && IsUuid(newId) && LegalTransition(prior.state, r.status)
    requires prior.version <= MAX_SIGNED_64 && (prior.eventId.Some? ==> IsUuid(prior.eventId.value))
    ensures var b := FreshBinding(r, prior, clock);
      && Payload(r, a, b).Some?
      && EventError(a.target, NewEvent(r, a, Payload(r, a, b).value, newId, b.time), prior)
         == if |a.key| <= MAX_KEY_LENGTH then None else Some(InvalidArgument)
  {
    LifecycleEventBound(r, a, prior, newId, clock);
    AdmittedFacts(r, a);
    CandidateKeyReadsBack(r.scopeKey, r.plainKey, r.qualifiedKey, a.key);
    hide Admit, LifecycleBound, CandidateKey, IsUuid, ValidScopeKey, IsReviewerId, IsSha256, IsCandidateTarget;
  }

  lemma LegacyVerdict(r: Request, a: Admitted, prior: Prior, newId: string, clock: int)
    requires Admit(r) == Ok(a) && r.legacy.Some? && PlainPayload(r.legacy.value) && IsUuid(newId)
    requires LegalTransition(prior.state, r.status)
    ensures var b := FreshBinding(r, prior, clock);
      && Payload(r, a, b) == r.legacy
      && EventError(a.target, NewEvent(r, a, r.legacy.value, newId, b.time), prior)
         == if prior.version == 0 && r.status == Approved
               && IsLegacyApproval(r.legacy.value.provenance, r.legacy.value.detail, a.skill, TargetContent(r.target))
            then None else Some(Conflict)
  {
    hide Admit, IsLegacyApproval, CandidateKey, QualifyTarget, IsUuid, ProvenanceComplete, IsSha256, EndsInTarget,
      LifecycleBound, BindingError, IsReviewerId, LegalTransition, TargetSkill, TargetContent;
    AdmittedFacts(r, a);
    QualifiedTargetIsCandidate(r.scopeKey, r.target);
  }

  lemma QualifyTargetParts(scope: Scope, target: string)
    ensures QualifyTarget(ScopePrefix(scope), target) == ScopePrefix(scope) + (Segment("review_target") + Segment(target))
    ensures Segment("review_target") + Segment(target) == Segment("review_target") + (Segment(target) + "")
  {
    hide ScopePrefix, Segment;
  }

  /** A qualified target names its scope key and its plain target. */
  lemma TargetNamesScope(scopeKey: string, target: string, scopeKey': string, target': string)
    requires ValidScopeKey(scopeKey) && ValidScopeKey(scopeKey') && target != "" && target' != ""
    requires QualifyTarget(scopeKey, target) == QualifyTarget(scopeKey', target')
    ensures scopeKey == scopeKey' && target == target'
  {
    hide *;
    var scope := ScopeKeyFields(scopeKey);
    var scope' := ScopeKeyFields(scopeKey');
    QualifyTargetParts(scope, target);
    QualifyTargetParts(scope', target');
    ScopePrefixCancels(scope, Segment("review_target") + Segment(target), scope', Segment("review_target") + Segment(target'));
    SegmentsCancel("review_target", Segment(target) + "", "review_target", Segment(target') + "");
    SegmentsCancel(target, "", target', "");
  }

  /** In an event of this request, the identity bindings are those of the request. */
  lemma IdentityMeans(r: Request, a: Admitted, d: JsonObject)
    requires Admit(r) == Ok(a)
    ensures IdentityBound(d, a.target)
       <==> && d.scope == Some(Text(r.scopeKey)) && d.reviewTargetId == Some(Text(r.target))
            && d.publicationKey == Some(Text(r.publicationKey)) && d.schemaVersion == Some(Text(SCHEMA_VERSION))
            && d.candidateId == Some(Text(a.skill)) && d.skillId == Some(Text(a.skill))
            && d.contentSha256 == Some(Text(r.content))
            && MemberIsSha256(d.fullSha256) && MemberIsSha256(d.sourceResultSha256)
  {
    AdmittedFacts(r, a);
    if IdentityBound(d, a.target) {
      TargetNamesScope(d.scope.value.text, d.reviewTargetId.value.text, r.scopeKey, r.target);
    }
    hide Admit, IsCandidateTarget, ValidScopeKey, IsSha256, QualifyTarget, TargetSkill, TargetContent, CandidateKey;
  }

  /** With the identity bindings in place, the row's key reads back exactly when it is within the bound and the objects agree. */
  lemma KeyMeans(r: Request, a: Admitted, e: EventRow, prior: Prior)
    requires Admit(r) == Ok(a) && LifecycleBound(e, prior) && e.key == a.key && e.detail.scope == Some(Text(r.scopeKey))
    ensures BindingError(e, prior).None?
       <==> && (e.detail.qualifiedKey == Some(Text(a.key)) || e.detail.qualifiedKey == Some(Null)) && |a.key| <= MAX_KEY_LENGTH
            && ReasonAllowed(e.detail.reason.value) && EvidenceAllowed(e.detail.evidence.value)
  {
    AdmittedFacts(r, a);
    CandidateKeyReadsBack(r.scopeKey, r.plainKey, r.qualifiedKey, a.key);
    OtherKeyConflicts(r.scopeKey, a.key, e.detail.qualifiedKey.value);
    hide Admit, CandidateKey, BindingsAgree, IdentityBound, ReasonAllowed, EvidenceAllowed, IsReviewerId, ValidScopeKey;
  }

  lemma OtherKeyConflicts(scopeKey: string, key: string, stored: Json)
    ensures stored.Text? && stored.text != key ==> CandidateKey(scopeKey, Some(key), Some(stored.text)) == Err(Conflict)
  {
  }

  lemma BoundForward(r: Request, a: Admitted, payload: LegacyPayload, prior: Prior, newId: string, time: int)
    requires Admit(r) == Ok(a) && LifecycleBound(NewEvent(r, a, payload, newId, time), prior)
    requires BindingError(NewEvent(r, a, payload, newId, time), prior).None?
    ensures BoundToRequest(r, a, payload, prior, time)
  {
    var e := NewEvent(r, a, payload, newId, time);
    AdmittedFacts(r, a);
    IdentityMeans(r, a, e.detail);
    KeyMeans(r, a, e, prior);
    hide Admit, IdentityBound, CandidateKey, ReasonAllowed, EvidenceAllowed, IsReviewerId, ProvenanceComplete, ValidScopeKey,
      IsCandidateTarget, IsSha256, QualifyTarget, TargetSkill, TargetContent, BindingError;
  }

  lemma BoundBackward(r: Request, a: Admitted, payload: LegacyPayload, prior: Prior, newId: string, time: int)
    requires Admit(r) == Ok(a) && BoundToRequest(r, a, payload, prior, time) && ProvenanceComplete(payload.provenance)
    ensures var e := NewEvent(r, a, payload, newId, time);
      && LifecycleBound(e, prior)
      && e.key == a.key && e.detail.scope == Some(Text(r.scopeKey)) && e.detail.qualifiedKey == payload.detail.qualifiedKey
      && ReasonAllowed(e.detail.reason.value) && EvidenceAllowed(e.detail.evidence.value)
  {
    var e := NewEvent(r, a, payload, newId, time);
    AdmittedFacts(r, a);
    IdentityMeans(r, a, e.detail);
    BoundAgrees(r, a, payload, prior, time);
    hide Admit, BindingsAgree, IdentityBound, CandidateKey, ReasonAllowed, EvidenceAllowed, IsReviewerId, ProvenanceComplete,
      ValidScopeKey, IsCandidateTarget, IsSha256, QualifyTarget, TargetSkill, TargetContent, LifecycleProvenance;
  }

  lemma BoundAgrees(r: Request, a: Admitted, payload: LegacyPayload, prior: Prior, time: int)
    requires BoundToRequest(r, a, payload, prior, time) && ProvenanceComplete(payload.provenance)
    ensures BindingsAgree(payload.provenance, payload.detail)
  {
    hide ReasonAllowed, EvidenceAllowed, ProvenanceComplete, IsSha256;
  }

  /** The validator accepts the bindings of an older payload exactly when it binds the request. */
  lemma BoundMeans(r: Request, a: Admitted, payload: LegacyPayload, prior: Prior, newId: string, time: int)
    requires Admit(r) == Ok(a) && ProvenanceComplete(payload.provenance)
    ensures var e := NewEvent(r, a, payload, newId, time);
      BoundToRequest(r, a, payload, prior, time) <==> LifecycleBound(e, prior) && BindingError(e, prior).None?
  {
    var e := NewEvent(r, a, payload, newId, time);
    if BoundToRequest(r, a, payload, prior, time) {
      assert (payload.detail.qualifiedKey == Some(Text(a.key)) || payload.detail.qualifiedKey == Some(Null)) && |a.key| <= MAX_KEY_LENGTH;
      hide *;
      BoundBackward(r, a, payload, prior, newId, time);
      KeyMeans(r, a, e, prior);
    } else {
      hide *;
      if LifecycleBound(e, prior) && BindingError(e, prior).None? {
        BoundForward(r, a, payload, prior, newId, time);
      }
    }
  }

  lemma MarkedVerdict(r: Request, a: Admitted, prior: Prior, newId: string, clock: int)
    requires Admit(r) == Ok(a) && r.legacy.Some? && !PlainPayload(r.legacy.value) && IsUuid(newId)
    requires LegalTransition(prior.state, r.status)
    ensures var b := FreshBinding(r, prior, clock);
      && Payload(r, a, b) == r.legacy
      && (EventError(a.target, NewEvent(r, a, r.legacy.value, newId, b.time), prior).None?
          <==> BoundToRequest(r, a, r.legacy.value, prior, r.time.GetOr(clock)))
  {
    AdmittedFacts(r, a);
    BoundMeans(r, a, r.legacy.value, prior, newId, r.time.GetOr(clock));
    hide Admit, LifecycleBound, BindingError, BoundToRequest, IsUuid, ProvenanceComplete, LegalTransition,
      IsSha256, IsCandidateTarget, CandidateKey, QualifyTarget, IsReviewerId, HasLifecycleMember;
    var e := NewEvent(r, a, r.legacy.value, newId, r.time.GetOr(clock));
    assert HasMarkers(e);
  }

  lemma NewEventVerdict(s: ReviewState, r: Request, a: Admitted, prior: Prior, newId: string, clock: int)
    requires Admit(r) == Ok(a) && IsUuid(newId) && LegalTransition(prior.state, r.status)
    requires UniqueColumns(s.events) && CurrentPrior(s, a.target) == Ok(prior)
    ensures var b := FreshBinding(r, prior, clock);
      && Payload(r, a, b).Some?
      && (EventError(a.target, NewEvent(r, a, Payload(r, a, b).value, newId, b.time), prior).None?
          <==> StaysReadable(s, r, a, clock))
  {
    hide EventError, Admit, IsLegacyApproval, LegalTransition, Payload, NewEvent, FreshBinding, CandidateKey, PlainPayload,
      BoundToRequest;
    PriorFacts(s, a.target);
    hide CurrentPrior;
    AdmittedFacts(r, a);
    if r.legacy.None? {
      LifecycleVerdict(r, a, prior, newId, clock);
    } else if PlainPayload(r.legacy.value) {
      LegacyVerdict(r, a, prior, newId, clock);
    } else {
      MarkedVerdict(r, a, prior, newId, clock);
    }
  }

  /**
   The exact agreement of writer and validator: an appended event leaves its
   history acceptable if and only if the request stays readable.
   */
  lemma WriterMeetsValidator(s: ReviewState, r: Request, newId: string, clock: int)
    requires UniqueColumns(s.events) && IsUuid(newId)
    requires Append(s, r, newId, clock).0.events != s.events
    ensures Admit(r).Ok?
    ensures Intact(Append(s, r, newId, clock).0, Admit(r).value.target) <==> StaysReadable(s, r, Admit(r).value, clock)
  {
    hide EventError, Verdict, StaysReadable, Payload, Admit, Append, PriorExpected, CurrentPrior, LegalTransition;
    var a, prior, e := FreshAppendFacts(s, r, newId, clock);
    NewEventVerdict(s, r, a, prior, newId, clock);
    VerdictOfAppend(s, r, a, prior, e);
  }

  lemma VerdictOfAppend(s: ReviewState, r: Request, a: Admitted, prior: Prior, e: EventRow)
    requires UniqueColumns(s.events) && Admit(r) == Ok(a) && CurrentPrior(s, a.target) == Ok(prior)
    requires FindById(s.events, e.eventId).None? && e.target == a.target && e.digest == DigestOf(e) && e.status == r.status
    requires Inserted(s, e, prior.version + 1, r.audit).1.Ok?
    ensures Intact(Inserted(s, e, prior.version + 1, r.audit).0, a.target) <==> EventError(a.target, e, prior).None?
  {
    hide EventError, Verdict, CurrentPrior, IsCandidateReviewTarget, EndsInTarget, CandidateKey, QualifyTarget, Admit,
      IsCandidateTarget, ValidScopeKey, IsSha256, IsReviewerId, ReasonAllowed, EvidenceAllowed, LegalTransition, FindById;
    AdmittedFacts(r, a);
    QualifiedTargetIsCandidate(r.scopeKey, r.target);
    PriorFacts(s, a.target);
    VerdictAfterInsert(s, e);
  }

  // ---- Runs ----

  datatype Op =
    | CandidateOp(request: Request, newId: string, clock: int)
    | OrdinaryOp(ordinary: OrdinaryRequest, newId: string)

  function Step(s: ReviewState, op: Op): ReviewState {
    match op
    case CandidateOp(r, newId, clock) => Append(s, r, newId, clock).0
    case OrdinaryOp(r, newId) => AppendOrdinary(s, r, newId).0
  }

  function Run(s: ReviewState, ops: seq<Op>): ReviewState {
    if ops == [] then s else Step(Run(s, ops[..|ops| - 1]), ops[|ops| - 1])
  }

  /** A step the service layer makes: generated identifiers are UUIDs and candidate events stay readable. */
  ghost predicate Disciplined(s: ReviewState, op: Op) {
    op.CandidateOp? ==>
      && IsUuid(op.newId)
      && (Step(s, op).events != s.events && Admit(op.request).Ok?
          ==> StaysReadable(s, op.request, Admit(op.request).value, op.clock))
  }

  ghost predicate DisciplinedRun(s: ReviewState, ops: seq<Op>) {
    forall i | 0 <= i < |ops| :: Disciplined(Run(s, ops[..i]), ops[i])
  }

  /** One event entered the tables, under a new identifier and a new key, and was projected. */
  ghost predicate AddsEvent(s: ReviewState, s': ReviewState, e: EventRow) {
    && FindById(s.events, e.eventId).None? && FindByKey(s.events, e.key).None?
    && s'.events == s.events + [e] && e.target in s'.projections
    && s'.projections == s.projections[e.target := ProjectionOf(e, s'.projections[e.target].version)]
  }

  lemma IntactElsewhere(s: ReviewState, s': ReviewState, e: EventRow, target: string)
    requires Intact(s, target) && target != e.target && AddsEvent(s, s', e)
    ensures Intact(s', target)
  {
    hide FirstError, IsCandidateReviewTarget;
    HistorySnoc(s.events, e, target);
    assert History(s'.events, target) == History(s.events, target);
    if target in s.projections {
      FindByIdSnoc(s.events, e, s.projections[target].lastEventId);
    }
  }

  lemma UniqueColumnsSnoc(events: seq<EventRow>, e: EventRow)
    requires UniqueColumns(events) && FindById(events, e.eventId).None? && FindByKey(events, e.key).None?
    ensures UniqueColumns(events + [e])
  {
  }

  lemma StepShape(s: ReviewState, op: Op) returns (e: EventRow)
    requires Step(s, op).events != s.events
    ensures AddsEvent(s, Step(s, op), e)
    ensures if op.OrdinaryOp? then !IsCandidateReviewTarget(e.target)
            else Admit(op.request).Ok? && e.target == Admit(op.request).value.target
  {
    hide LegalTransition, IsCandidateReviewTarget, ProvenanceComplete, HasText;
    match op
    case CandidateOp(r, newId, clock) =>
      var a, prior, event := FreshAppendFacts(s, r, newId, clock);
      hide Admit, Append, CurrentPrior, Payload, PriorExpected;
      e := event;
    case OrdinaryOp(r, newId) =>
      e := AppendOrdinary(s, r, newId).1.value;
  }

  lemma StepQuiet(s: ReviewState, op: Op)
    requires Step(s, op).events == s.events
    ensures Step(s, op).projections == s.projections
  {
    hide Admit, CurrentPrior, Payload, LegalTransition, PriorExpected, Retry, IsCandidateReviewTarget, ProvenanceComplete, HasText;
  }

  lemma StepKeepsSound(s: ReviewState, op: Op)
    requires Sound(s) && Disciplined(s, op)
    ensures Sound(Step(s, op))
  {
    hide IsCandidateReviewTarget, Verdict, StaysReadable, Append, AppendOrdinary, Admit;
    var s' := Step(s, op);
    if s'.events == s.events {
      StepQuiet(s, op);
    } else {
      var e := StepShape(s, op);
      UniqueColumnsSnoc(s.events, e);
      forall target | IsCandidateReviewTarget(target) ensures Intact(s', target) {
        if target != e.target {
          IntactElsewhere(s, s', e, target);
        } else {
          WriterMeetsValidator(s, op.request, op.newId, op.clock);
        }
      }
    }
  }

  /** Every disciplined run keeps every candidate history acceptable to the validator. */
  lemma {:induction false} RunKeepsSound(ops: seq<Op>)
    requires DisciplinedRun(EMPTY, ops)
    ensures Sound(Run(EMPTY, ops))
  {
    if ops != [] {
      var front := ops[..|ops| - 1];
      forall i | 0 <= i < |front| ensures Disciplined(Run(EMPTY, front[..i]), front[i]) {
        assert front[..i] == ops[..i];
      }
      RunKeepsSound(front);
      StepKeepsSound(Run(EMPTY, front), ops[|ops| - 1]);
    }
  }

  /**
   In every disciplined run, each reviewed candidate target has a history of one
   or two legal transitions that the validator accepts, and its projection is
   the last event with the event count as version.
   */
  lemma ReviewedTargets(ops: seq<Op>, target: string)
    requires DisciplinedRun(EMPTY, ops) && IsCandidateReviewTarget(target)
    ensures var s := Run(EMPTY, ops);
      var history := History(s.events, target);
      && (target in s.projections <==> history != [])
      && (target in s.projections ==>
            && Verdict(s.events, target, s.projections[target], history).None?
            && LegalPath(history) && |history| <= 2
            && s.projections[target] == ProjectionOf(history[|history| - 1], |history|))
  {
    RunKeepsSound(ops);
    var s := Run(EMPTY, ops);
    if target in s.projections {
      IntactProjection(s, target);
    }
  }

  // ---- Retries, and the two ways out of the discipline ----

  lemma RetryRecoversBinding(r: Request, a: Admitted, prior: Prior, newId: string, clock: int)
    requires Admit(r) == Ok(a) && PriorExpected(r, prior)
    requires Payload(r, a, FreshBinding(r, prior, clock)).Some?
    ensures var b := FreshBinding(r, prior, clock);
      Payload(r, a, RetryBinding(r, NewEvent(r, a, Payload(r, a, b).value, newId, b.time))) == Payload(r, a, b)
  {
    hide Admit, ProvenanceComplete, PriorsWellFormed;
    var b := FreshBinding(r, prior, clock);
    if r.legacy.None? {
      assert RetryBinding(r, NewEvent(r, a, Payload(r, a, b).value, newId, b.time)) == b;
    }
  }

  lemma RetryReturnsStored(s: ReviewState, r: Request, a: Admitted, e: EventRow)
    requires Sound(s) && e in s.events && IsCandidateReviewTarget(e.target)
    requires var payload := Payload(r, a, RetryBinding(r, e));
      payload.Some? && e.digest == Digest(a.target, r.actor, r.status, payload.value.provenance, payload.value.detail)
    ensures Retry(s, r, a, e) == Ok(e)
  {
    hide Verdict, IsCandidateReviewTarget, Payload, RetryBinding;
    HistoryMembers(s.events, e.target);
    assert Intact(s, e.target);
    assert e in History(s.events, e.target);
  }

  /** A repeated request finds its own event and would write the same content again. */
  lemma StoredByAppend(s: ReviewState, r: Request, newId: string, clock: int) returns (a: Admitted, e: EventRow)
    requires Append(s, r, newId, clock).0.events != s.events
    ensures Admit(r) == Ok(a) && Append(s, r, newId, clock).1 == Ok(e)
    ensures e.key == a.key && e.target == a.target && IsCandidateReviewTarget(e.target)
    ensures var payload := Payload(r, a, RetryBinding(r, e));
      payload.Some? && e.digest == Digest(a.target, r.actor, r.status, payload.value.provenance, payload.value.detail)
  {
    hide Append, LegalTransition, IsCandidateReviewTarget, CurrentPrior, Payload, PriorExpected, Inserted, RetryBinding,
      FreshBinding;
    var prior;
    a, prior, e := FreshAppendFacts(s, r, newId, clock);
    RetryRecoversBinding(r, a, prior, newId, clock);
    AdmittedFacts(r, a);
    QualifiedTargetIsCandidate(r.scopeKey, r.target);
  }

  lemma AppendIsRetry(s: ReviewState, r: Request, a: Admitted, e: EventRow, newId: string, clock: int)
    requires Admit(r) == Ok(a) && UniqueColumns(s.events) && e in s.events && e.key == a.key
    ensures Append(s, r, newId, clock) == (s, Retry(s, r, a, e))
  {
    hide Admit, Retry, Fresh;
    assert FindByKey(s.events, a.key).value == e;
  }

  /**
   An exact retry at any later time returns the stored event and changes
   nothing, even when the caller left the prior, the evidence or the time open.
   */
  lemma ExactRetry(s: ReviewState, r: Request, newId: string, clock: int, e: EventRow,
                   later: ReviewState, newId': string, clock': int)
    requires Append(s, r, newId, clock).0.events != s.events && Append(s, r, newId, clock).1 == Ok(e)
    requires Sound(later) && e in later.events
    ensures Append(later, r, newId', clock') == (later, Ok(e))
  {
    hide Append, Retry, Payload, RetryBinding, Verdict, IsCandidateReviewTarget, Admit;
    var a, e' := StoredByAppend(s, r, newId, clock);
    RetryReturnsStored(later, r, a, e);
    AppendIsRetry(later, r, a, e, newId', clock');
  }

  /** An unreviewed target and a fresh key: the writer takes a lifecycle event of any key length. */
  lemma LongKeyIsWrittenButUnreadable(s: ReviewState, r: Request, newId: string, clock: int)
    requires Sound(s) && IsUuid(newId) && FindById(s.events, newId).None? && AuditAdmitted(r.audit)
    requires Admit(r).Ok? && r.legacy.None? && |Admit(r).value.key| > MAX_KEY_LENGTH
    requires FindByKey(s.events, Admit(r).value.key).None? && Admit(r).value.target !in s.projections
    requires PriorExpected(r, Prior(Unreviewed, 0, None)) && (r.status == Pending || r.status == Approved)
    ensures Append(s, r, newId, clock).1.Ok?
    ensures !Intact(Append(s, r, newId, clock).0, Admit(r).value.target)
  {
    var a := Admit(r).value;
    AdmittedFacts(r, a);
    QualifiedTargetIsCandidate(r.scopeKey, r.target);
    assert Intact(s, a.target);
    LifecycleVerdict(r, a, Prior(Unreviewed, 0, None), newId, clock);
    hide Admit, EventError, Payload, NewEvent, Verdict;
    assert Append(s, r, newId, clock).0.events != s.events;
    WriterMeetsValidator(s, r, newId, clock);
  }

  /** A pending target: the writer takes the older approval payload, and the history is no longer acceptable. */
  lemma LegacyAfterPendingIsUnreadable(s: ReviewState, r: Request, newId: string, clock: int)
    requires Sound(s) && IsUuid(newId) && FindById(s.events, newId).None? && AuditAdmitted(r.audit)
    requires Admit(r).Ok? && r.legacy.Some? && PlainPayload(r.legacy.value) && r.status == Approved
    requires FindByKey(s.events, Admit(r).value.key).None?
    requires CurrentPrior(s, Admit(r).value.target).Ok?
    requires CurrentPrior(s, Admit(r).value.target).value.state == Pending
    requires PriorExpected(r, CurrentPrior(s, Admit(r).value.target).value)
    ensures Append(s, r, newId, clock).1.Ok?
    ensures !Intact(Append(s, r, newId, clock).0, Admit(r).value.target)
  {
    var a := Admit(r).value;
    AdmittedFacts(r, a);
    hide Admit, CurrentPrior, NewEvent, Verdict, ProvenanceComplete;
    assert Append(s, r, newId, clock).0.events != s.events;
    WriterMeetsValidator(s, r, newId, clock);
    PriorFacts(s, a.target);
  }
}
