/**
 Requests that the candidate writer takes and that make their target
 unreadable, for any candidate and reviewer, from an empty store.
 */
module CandidateReviewWitness {
  import opened Basics
  import opened Decimals
  import opened ScopedKeys
  import opened CandidateReview
  import opened CandidateReviewStore
  import Answers = CandidateReviewAnswers

  datatype Candidate = Candidate(scope: Scope, skill: string, content: string, reviewer: string)

  predicate WellFormed(c: Candidate) {
    IsUuid(c.skill) && IsSha256(c.content) && IsReviewerId(c.reviewer)
  }

  function PlainTarget(c: Candidate): string {
    TARGET_HEAD + c.skill + TARGET_MIDDLE + c.content
  }

  function FullTarget(c: Candidate): string {
    QualifyTarget(ScopePrefix(c.scope), PlainTarget(c))
  }

  function FullKey(c: Candidate, key: string): string {
    ScopePrefix(c.scope) + Segment("review_idempotency") + Segment(key)
  }

  /** A review of one candidate under a plain key, with everything optional left open. */
  function PlainRequest(c: Candidate, key: string, status: Status, legacy: Option<LegacyPayload>): Request {
    Request(ScopePrefix(c.scope), PUBLICATION_HEAD + c.skill, PlainTarget(c), Some(key), None, c.reviewer, status,
            SCHEMA_VERSION, None, c.content, c.content, c.content, Unset, Unset, Unset, Unset, Unset, None, legacy, 0, None)
  }

  lemma PlainTargetParts(c: Candidate)
    requires WellFormed(c)
    ensures IsCandidateTarget(PlainTarget(c)) && HasText(PlainTarget(c))
    ensures TargetSkill(PlainTarget(c)) == c.skill && TargetContent(PlainTarget(c)) == c.content
  {
    hide IsUuid, IsSha256, IsReviewerId, HasText;
    Lengths(c);
    var t := PlainTarget(c);
    assert t[..20] == TARGET_HEAD && t[20..56] == c.skill && t[56..64] == TARGET_MIDDLE && t[64..] == c.content;
    assert t[0] == 'c';
    StartsVisible(t);
  }

  lemma Lengths(c: Candidate)
    requires WellFormed(c)
    ensures |c.skill| == 36 && |c.content| == 64
  {
  }

  lemma PlainKeyQualifies(c: Candidate, key: string)
    requires key != "" && key[0] == 'k' && |key| <= MAX_KEY_LENGTH
    ensures CandidateKey(ScopePrefix(c.scope), Some(key), None) == Ok(FullKey(c, key))
  {
    StartsVisible(key);
    assert ScopePrefix(c.scope)[0] == 'w';
    assert (ScopePrefix(c.scope) + Segment("review_idempotency"))[0] == 'w';
    hide ScopePrefix, Segment, HasText, IsCompleteSegment;
  }

  lemma ReviewerVisible(reviewer: string)
    requires IsReviewerId(reviewer)
    ensures HasText(reviewer)
  {
    assert reviewer[0] == 'r';
    StartsVisible(reviewer);
  }

  lemma PlainRequestAdmitted(c: Candidate, key: string, status: Status, legacy: Option<LegacyPayload>)
    requires WellFormed(c) && status != Unreviewed && key != "" && key[0] == 'k' && |key| <= MAX_KEY_LENGTH
    requires legacy.Some? ==> ProvenanceComplete(legacy.value.provenance)
    ensures Admit(PlainRequest(c, key, status, legacy)) == Ok(Admitted(FullTarget(c), FullKey(c, key), c.skill))
  {
    var r := PlainRequest(c, key, status, legacy);
    PlainTargetParts(c);
    PlainKeyQualifies(c, key);
    ReviewerVisible(c.reviewer);
    ScopePrefixIsValid(c.scope);
    assert r.publicationKey[|PUBLICATION_HEAD|..] == c.skill;
    hide PlainTarget, FullKey, ScopePrefix, QualifyTarget, TargetSkill, TargetContent, ValidScopeKey, HasText, CandidateKey, IsCandidateTarget,
      IsUuid, IsSha256, IsReviewerId, ProvenanceComplete;
    Answers.AdmitMeans(r);
    hide Admit;
  }

  lemma EmptyIsSound()
    ensures Sound(EMPTY)
  {
  }

  // ---- A key the validator cannot read back ----

  const LONG_KEY: string := seq(500, _ => 'k')

  /** For every candidate, a first review under a key of 500 characters is stored, and the target cannot be read again. */
  lemma LongKeyMakesUnreadable(c: Candidate, newId: string, clock: int)
    requires WellFormed(c) && IsUuid(newId)
    ensures var (s, r) := Append(EMPTY, PlainRequest(c, LONG_KEY, Pending, None), newId, clock); r.Ok? && !Intact(s, FullTarget(c))
  {
    var request := PlainRequest(c, LONG_KEY, Pending, None);
    PlainRequestAdmitted(c, LONG_KEY, Pending, None);
    EmptyIsSound();
    LongKeyLength(c);
    hide Admit, IsUuid, WellFormed, Intact, Sound, Append;
    LongKeyIsWrittenButUnreadable(EMPTY, request, newId, clock);
  }

  lemma LongKeyLength(c: Candidate)
    ensures |FullKey(c, LONG_KEY)| > MAX_KEY_LENGTH
  {
    assert |Segment(LONG_KEY)| > 500;
    assert |Segment("review_idempotency")| > 18;
    hide Decimal;
  }

  // ---- An older payload after a pending event ----

  function LegacyApproval(c: Candidate): LegacyPayload {
    LegacyPayload(
      JsonObject(source := Some(Text("candidate_skill_canonical_sha256")), artifactId := Some(Text(c.skill)),
                 revision := Some(Text(SCHEMA_VERSION)), sha256 := Some(Text(c.content))),
      JsonObject(kind := Some(Text("candidate_skill_approval")), decision := Some(Text("approve")),
                 schemaVersion := Some(Text(SCHEMA_VERSION)), skillId := Some(Text(c.skill)),
                 contentSha256 := Some(Text(c.content)), approvalBasis := Some(Text("dual"))))
  }

  lemma LegacyApprovalIsExact(c: Candidate)
    requires WellFormed(c)
    ensures var p := LegacyApproval(c);
      IsLegacyApproval(p.provenance, p.detail, c.skill, c.content) && ProvenanceComplete(p.provenance) && PlainPayload(p)
  {
    StartsVisible("dual");
    StartsVisible("candidate_skill_canonical_sha256");
    StartsVisible(SCHEMA_VERSION);
    assert c.skill[0] != ' ' && IsLowerHex(c.skill[0]);
    StartsVisible(c.skill);
    hide HasText;
  }

  /** As the first event of its target the older approval payload is stored, and the target can be read. */
  lemma FirstLegacyIsReadable(c: Candidate, newId: string, clock: int)
    requires WellFormed(c) && IsUuid(newId)
    ensures var (s, r) := Append(EMPTY, PlainRequest(c, "k1", Approved, Some(LegacyApproval(c))), newId, clock);
      && Intact(s, FullTarget(c)) && r.Ok? && s.events == [r.value]
      && r.value.provenance == LegacyApproval(c).provenance && r.value.detail == LegacyApproval(c).detail
  {
    var r := PlainRequest(c, "k1", Approved, Some(LegacyApproval(c)));
    LegacyApprovalIsExact(c);
    PlainRequestAdmitted(c, "k1", Approved, Some(LegacyApproval(c)));
    PlainTargetParts(c);
    EmptyPrior(FullTarget(c));
    hide Admit, WellFormed, IsUuid, CurrentPrior, LegacyApproval, FullTarget, FullKey, Verdict, IsCandidateTarget, HasText,
      Intact, IsLegacyApproval, ProvenanceComplete;
    LegacyAppends(r, Admit(r).value, newId, clock);
    assert StaysReadable(EMPTY, r, Admit(r).value, clock);
    hide StaysReadable, Append;
    WriterMeetsValidator(EMPTY, r, newId, clock);
  }

  lemma EmptyPrior(target: string)
    ensures CurrentPrior(EMPTY, target) == Ok(Prior(Unreviewed, 0, None)) && UniqueColumns(EMPTY.events)
  {
  }

  lemma LegacyAppends(r: Request, a: Admitted, newId: string, clock: int)
    requires Admit(r) == Ok(a) && r.audit.None? && r.status == Approved && PriorExpected(r, Prior(Unreviewed, 0, None))
    requires r.legacy.Some? && ProvenanceComplete(r.legacy.value.provenance)
    requires CurrentPrior(EMPTY, a.target) == Ok(Prior(Unreviewed, 0, None))
    ensures var (s, result) := Append(EMPTY, r, newId, clock);
      && result.Ok? && s.events == [result.value]
      && result.value.provenance == r.legacy.value.provenance && result.value.detail == r.legacy.value.detail
  {
    hide Admit, CurrentPrior, ProvenanceComplete;
  }

  function AfterPending(c: Candidate, newId: string, clock: int): ReviewState {
    Append(EMPTY, PlainRequest(c, "k1", Pending, None), newId, clock).0
  }

  lemma PendingStaysReadable(c: Candidate, newId: string, clock: int)
    requires WellFormed(c) && IsUuid(newId)
    ensures var r := PlainRequest(c, "k1", Pending, None);
      && Admit(r) == Ok(Admitted(FullTarget(c), FullKey(c, "k1"), c.skill))
      && |FullKey(c, "k1")| <= MAX_KEY_LENGTH && IsCandidateReviewTarget(FullTarget(c))
      && Payload(r, Admit(r).value, FreshBinding(r, Prior(Unreviewed, 0, None), clock)).Some?
  {
    var r := PlainRequest(c, "k1", Pending, None);
    PlainRequestAdmitted(c, "k1", Pending, None);
    ScopePrefixIsValid(c.scope);
    PlainKeyQualifies(c, "k1");
    StartsVisible("k1");
    PublicKeysFit(r.scopeKey, "k1", FullKey(c, "k1"));
    hide Admit, EventError, IsUuid, WellFormed, Payload, FullKey, ValidScopeKey, FreshBinding, NewEvent, CandidateKey;
    LifecycleVerdict(r, Admit(r).value, Prior(Unreviewed, 0, None), newId, clock);
    PlainTargetParts(c);
    QualifiedTargetIsCandidate(r.scopeKey, r.target);
  }

  /** The first review of a candidate is stored, readable, and leaves it pending. */
  lemma PendingIsStored(c: Candidate, newId: string, clock: int)
    requires WellFormed(c) && IsUuid(newId)
    ensures var s := AfterPending(c, newId, clock);
      && Sound(s) && |s.events| == 1 && s.events[0].eventId == newId && s.events[0].key == FullKey(c, "k1")
      && CurrentPrior(s, FullTarget(c)) == Ok(Prior(Pending, 1, Some(newId)))
  {
    var r := PlainRequest(c, "k1", Pending, None);
    EmptyIsSound();
    PendingStaysReadable(c, newId, clock);
    hide Admit, Payload, FullTarget, FullKey, Append, Sound, IsCandidateReviewTarget, IsUuid, WellFormed, FreshBinding;
    PendingAppends(r, Admit(r).value, newId, clock);
    StepKeepsSound(EMPTY, CandidateOp(r, newId, clock));
    OneEventPrior(AfterPending(c, newId, clock), FullTarget(c));
  }

  lemma OneEventPrior(s: ReviewState, target: string)
    requires Sound(s) && IsCandidateReviewTarget(target) && |s.events| == 1 && s.events[0].target == target
    requires target in s.projections && s.projections[target] == ProjectionOf(s.events[0], 1)
    ensures CurrentPrior(s, target) == Ok(Prior(s.events[0].status, 1, Some(s.events[0].eventId)))
  {
    hide Verdict, IsCandidateReviewTarget;
    assert History(s.events[..0], target) == [];
    assert History(s.events, target) == s.events;
    assert Intact(s, target);
  }

  lemma PendingAppends(r: Request, a: Admitted, newId: string, clock: int)
    requires Admit(r) == Ok(a) && r.audit.None? && r.status == Pending && PriorExpected(r, Prior(Unreviewed, 0, None))
    requires Payload(r, a, FreshBinding(r, Prior(Unreviewed, 0, None), clock)).Some?
    ensures var s := Append(EMPTY, r, newId, clock).0;
      && |s.events| == 1 && s.events[0].eventId == newId && s.events[0].key == a.key && s.events[0].target == a.target
      && s.events[0].status == Pending && a.target in s.projections
      && s.projections[a.target] == ProjectionOf(s.events[0], 1)
  {
    hide Admit, Payload, FreshBinding;
  }

  /** For every candidate, the older approval payload after a pending review is stored, and the target cannot be read again. */
  lemma LegacyMakesUnreadable(c: Candidate, firstId: string, newId: string, clock: int)
    requires WellFormed(c) && IsUuid(firstId) && IsUuid(newId) && firstId != newId
    ensures var s := AfterPending(c, firstId, clock);
      && Intact(s, FullTarget(c))
      && var (s', r) := Append(s, PlainRequest(c, "k2", Approved, Some(LegacyApproval(c))), newId, clock);
         r.Ok? && !Intact(s', FullTarget(c))
  {
    var s := AfterPending(c, firstId, clock);
    var request := PlainRequest(c, "k2", Approved, Some(LegacyApproval(c)));
    LegacyApprovalIsExact(c);
    PlainRequestAdmitted(c, "k2", Approved, Some(LegacyApproval(c)));
    PlainRequestAdmitted(c, "k1", Pending, None);
    PendingIsStored(c, firstId, clock);
    KeysDiffer(c);
    hide Admit, WellFormed, IsUuid, CurrentPrior, PlainPayload, LegacyApproval, FullTarget, FullKey, AfterPending, Sound;
    OtherKeyAndId(s, FullKey(c, "k2"), newId);
    hide Append, FindById, FindByKey, Verdict, IsCandidateReviewTarget, Intact;
    LegacyAfterPendingIsUnreadable(s, request, newId, clock);
  }

  lemma OtherKeyAndId(s: ReviewState, key: string, newId: string)
    requires |s.events| == 1 && s.events[0].key != key && s.events[0].eventId != newId
    ensures FindByKey(s.events, key).None? && FindById(s.events, newId).None?
  {
  }

  lemma KeysDiffer(c: Candidate)
    ensures FullKey(c, "k1") != FullKey(c, "k2")
  {
    var prefix := ScopePrefix(c.scope) + Segment("review_idempotency");
    assert "k1"[1] != "k2"[1];
    if FullKey(c, "k1") == FullKey(c, "k2") {
      assert prefix + Segment("k1") + "" == prefix + Segment("k2") + "";
      SegmentCancels(prefix, "k1", "", "k2", "");
    }
  }

  // ---- One candidate ----

  function UuidOf(c: char): string {
    seq(36, k => if k in {8, 13, 18, 23} then '-' else c)
  }

  const SOME_CANDIDATE := Candidate(ScopeFields("aaa", "aaa"), UuidOf('a'), seq(64, _ => 'a'), "reviewer_aaa")

  /** The identifiers that both results range over exist. */
  lemma SomeCandidateExists()
    ensures WellFormed(SOME_CANDIDATE) && IsUuid(UuidOf('a')) && IsUuid(UuidOf('b')) && UuidOf('a') != UuidOf('b')
  {
    assert UuidOf('a')[0] != UuidOf('b')[0];
    assert "reviewer_" <= "reviewer_aaa";
  }

  /** Both failures, on one candidate of one workspace. */
  lemma UnreadableExamples()
    ensures var c := SOME_CANDIDATE;
      var (s, r) := Append(EMPTY, PlainRequest(c, LONG_KEY, Pending, None), UuidOf('a'), 0);
      r.Ok? && !Intact(s, FullTarget(c))
    ensures var c := SOME_CANDIDATE;
      var (s, r) := Append(AfterPending(c, UuidOf('a'), 0), PlainRequest(c, "k2", Approved, Some(LegacyApproval(c))), UuidOf('b'), 0);
      r.Ok? && !Intact(s, FullTarget(c))
  {
    SomeCandidateExists();
    hide Append, Intact, WellFormed, IsUuid;
    LongKeyMakesUnreadable(SOME_CANDIDATE, UuidOf('a'), 0);
    LegacyMakesUnreadable(SOME_CANDIDATE, UuidOf('a'), UuidOf('b'), 0);
  }
}
