/**
 The candidate review lifecycle: an append-only event history per target with
 a projection of its last event, one guarded writer, and an independent
 validator that re-checks every stored binding on each read.
 */
module CandidateReview {
  import opened Basics
  import opened Decimals
  import opened ScopedKeys
  import opened AuditLog

  const LIFECYCLE_VERSION := "138.1"
  const SCHEMA_VERSION := "1.0"
  const MAX_KEY_LENGTH := 512
  const MAX_REASON := 512
  const MAX_EVIDENCE_BYTES := 16 * 1024

  // ---- Stored JSON ----

  datatype Status = Unreviewed | Pending | Approved | Rejected | NeedsChanges

  /**
   A JSON member value. `StateName` is the text of a review state, `Instant` the
   canonical UTC text of a time in microseconds, and `Document` any other value
   with the length of its canonical encoding.
   */
  datatype Json =
    | Null
    | Int(n: int)
    | Text(text: string)
    | StateName(state: Status)
    | Instant(micros: int)
    | Document(content: string, bytes: nat)

  type Member = Option<Json>

  /**
   A stored JSON object: the members that the lifecycle and the older approval
   payloads use, each absent or present, and any others by name.
   */
  datatype JsonObject = JsonObject(
    source: Member := None, artifactId: Member := None, revision: Member := None, sha256: Member := None,
    scope: Member := None, publicationKey: Member := None, reviewTargetId: Member := None,
    schemaVersion: Member := None, candidateId: Member := None, skillId: Member := None,
    contentSha256: Member := None, fullSha256: Member := None, sourceResultSha256: Member := None,
    destinationStatus: Member := None, priorState: Member := None, priorVersion: Member := None,
    priorEventId: Member := None, reviewerId: Member := None, serverReviewerId: Member := None,
    serverTime: Member := None, qualifiedKey: Member := None, lifecycleVersion: Member := None,
    status: Member := None, reason: Member := None, evidence: Member := None,
    kind: Member := None, decision: Member := None, approvalBasis: Member := None,
    others: map<string, Json> := map[])

  /** The content digest is kept as its preimage. */
  datatype Digest = Digest(target: string, actor: string, status: Status, provenance: JsonObject, detail: JsonObject)

  datatype EventRow = EventRow(
    eventId: string, target: string, key: string, digest: Digest, actor: string, status: Status,
    provenance: JsonObject, detail: JsonObject, occurredAt: int)

  datatype Projection = Projection(
    status: Status, version: int, lastEventId: string, actor: string,
    provenance: JsonObject, detail: JsonObject, occurredAt: int)

  datatype ReviewState = ReviewState(
    events: seq<EventRow>, projections: map<string, Projection>, audit: seq<AuditContext>)

  const EMPTY := ReviewState([], map[], [])

  datatype Error = InvalidArgument | Conflict | IntegrityFailure

  function DigestOf(e: EventRow): Digest {
    Digest(e.target, e.actor, e.status, e.provenance, e.detail)
  }

  function History(events: seq<EventRow>, target: string): seq<EventRow> {
    if events == [] then []
    else
      var last := events[|events| - 1];
      History(events[..|events| - 1], target) + if last.target == target then [last] else []
  }

  function FindByKey(events: seq<EventRow>, key: string): (r: Option<EventRow>)
    ensures r.Some? ==> r.value in events && r.value.key == key
    ensures r.None? ==> forall e | e in events :: e.key != key
  {
    if events == [] then None else if events[0].key == key then Some(events[0]) else FindByKey(events[1..], key)
  }

  function FindById(events: seq<EventRow>, eventId: string): (r: Option<EventRow>)
    ensures r.Some? ==> r.value in events && r.value.eventId == eventId
    ensures r.None? ==> forall e | e in events :: e.eventId != eventId
  {
    if events == [] then None else if events[0].eventId == eventId then Some(events[0]) else FindById(events[1..], eventId)
  }

  // ---- Identities ----

  const TARGET_HEAD := "candidate-skill:1.0:"
  const TARGET_MIDDLE := ":sha256:"
  const PUBLICATION_HEAD := "candidate-publication:1.0:"

  /** The full candidate target pattern: a head, a UUID, a middle part and a SHA-256 digest. */
  predicate IsCandidateTarget(s: string) {
    && |s| == 128
    && s[..20] == TARGET_HEAD && IsUuid(s[20..56]) && s[56..64] == TARGET_MIDDLE && IsSha256(s[64..])
  }

  function TargetSkill(s: string): string
    requires |s| == 128
  {
    s[20..56]
  }

  function TargetContent(s: string): string
    requires |s| == 128
  {
    s[64..]
  }

  predicate EndsInTarget(s: string) {
    |s| >= 128 && IsCandidateTarget(s[|s| - 128..])
  }

  /** Plain and qualified candidate targets alike; `$` also matches before one final line feed. */
  predicate IsCandidateReviewTarget(s: string) {
    EndsInTarget(s) || (s != "" && s[|s| - 1] == '\n' && EndsInTarget(s[..|s| - 1]))
  }

  predicate IsPublicationKey(s: string) {
    PUBLICATION_HEAD <= s && IsUuid(s[|PUBLICATION_HEAD|..])
  }

  /** `^reviewer_[a-z0-9][a-z0-9_-]{2,63}$` */
  predicate IsReviewerId(s: string) {
    && "reviewer_" <= s && 12 <= |s| <= 73
    && IsScopeIdHead(s[9])
    && forall i | 10 <= i < |s| :: IsScopeIdHead(s[i]) || s[i] == '_' || s[i] == '-'
  }

  function QualifyTarget(scopeKey: string, target: string): string {
    scopeKey + Segment("review_target") + Segment(target)
  }

  /** The rest of a key after its namespace prefix is exactly one length-prefixed value. */
  predicate IsCompleteSegment(public: string) {
    var separator := Find(public, ':', 0);
    && separator > 0
    && AllDigits(public[..separator])
    && var length := DecimalValue(public[..separator]);
    1 <= length <= MAX_KEY_LENGTH && |public| - (separator + 1) == length
  }

  /** The server-qualified idempotency key, from a plain or an already qualified one. */
  function CandidateKey(scopeKey: string, plain: Option<string>, qualified: Option<string>): Result<string, Error> {
    if plain.Some? && qualified.Some? && plain != qualified then Err(Conflict)
    else
      var chosen := if qualified.Some? && qualified.value != "" then qualified else plain;
      if chosen.None? || !HasText(chosen.value) || |chosen.value| > MAX_KEY_LENGTH then Err(InvalidArgument)
      else
        var prefix := scopeKey + Segment("review_idempotency");
        if prefix <= chosen.value then
          if IsCompleteSegment(chosen.value[|prefix|..]) then Ok(chosen.value) else Err(InvalidArgument)
        else if qualified.Some? then Err(Conflict)
        else Ok(prefix + Segment(chosen.value))
  }

  // ---- Requests ----

  datatype Arg = Unset | Given(value: Json)

  datatype LegacyPayload = LegacyPayload(provenance: JsonObject, detail: JsonObject)

  /** `legacyBytes` is the length of the longer of the two printed objects of an older payload. */
  datatype Request = Request(
    scopeKey: string, publicationKey: string, target: string,
    plainKey: Option<string>, qualifiedKey: Option<string>,
    actor: string, status: Status, schemaVersion: string, skillId: Option<string>,
    content: string, full: string, source: string,
    reason: Arg, evidence: Arg, priorState: Arg, priorVersion: Arg, priorEventId: Arg,
    time: Option<int>, legacy: Option<LegacyPayload>, legacyBytes: nat, audit: Option<AuditContext>)

  datatype Admitted = Admitted(target: string, key: string, skill: string)

  predicate IsText(j: Json) {
    j.Text? && HasText(j.text)
  }

  predicate MemberIsText(m: Member) {
    m.Some? && IsText(m.value)
  }

  predicate MemberIsSha256(m: Member) {
    m.Some? && m.value.Text? && IsSha256(m.value.text)
  }

  predicate ProvenanceComplete(p: JsonObject) {
    MemberIsText(p.source) && MemberIsText(p.artifactId) && MemberIsText(p.revision) && MemberIsSha256(p.sha256)
  }

  predicate ReasonAllowed(j: Json) {
    j.Null? || (IsText(j) && |j.text| <= MAX_REASON)
  }

  /** The canonical encoding of one character of a text: escaped, or in UTF-8. */
  function CharBytes(c: char): nat {
    if c in {'\"', '\\', '\n', '\r', '\t', '\U{8}', '\U{C}'} then 2
    else if c < ' ' then 6
    else if c < '\U{80}' then 1
    else if c < '\U{800}' then 2
    else if c < '\U{10000}' then 3
    else 4
  }

  function TextBytes(text: string): nat {
    if text == [] then 0 else TextBytes(text[..|text| - 1]) + CharBytes(text[|text| - 1])
  }

  function StatusText(status: Status): string {
    match status
    case Unreviewed => "unreviewed"
    case Pending => "pending"
    case Approved => "approved"
    case Rejected => "rejected"
    case NeedsChanges => "needs_changes"
  }

  /** The length of a value's canonical encoding; an instant has the fixed width of its text, in quotes. */
  function EncodedBytes(j: Json): nat {
    match j
    case Null => 4
    case Int(n) => if n < 0 then 1 + |Decimal(-n)| else |Decimal(n)|
    case Text(text) => 2 + TextBytes(text)
    case StateName(state) => 2 + TextBytes(StatusText(state))
    case Instant(_) => 29
    case Document(_, bytes) => bytes
  }

  predicate EvidenceAllowed(j: Json) {
    j.Null? || EncodedBytes(j) <= MAX_EVIDENCE_BYTES
  }

  /** Everything the writer checks before it opens its transaction. */
  function Admit(r: Request): Result<Admitted, Error> {
    if !ValidScopeKey(r.scopeKey) || !IsPublicationKey(r.publicationKey) then Err(InvalidArgument)
    else if !HasText(r.target) then Err(InvalidArgument)
    else if !IsCandidateTarget(r.target) then Err(Conflict)
    else
      var skill := TargetSkill(r.target);
      if r.publicationKey[|PUBLICATION_HEAD|..] != skill || r.skillId.GetOr(skill) != skill then Err(Conflict)
      else if r.schemaVersion != SCHEMA_VERSION then Err(InvalidArgument)
      else if !IsSha256(r.content) || !IsSha256(r.full) || !IsSha256(r.source) then Err(InvalidArgument)
      else if TargetContent(r.target) != r.content then Err(Conflict)
      else if r.status == Unreviewed || !HasText(r.actor) then Err(InvalidArgument)
      else if !IsReviewerId(r.actor) then Err(Conflict)
      else
        var key := CandidateKey(r.scopeKey, r.plainKey, r.qualifiedKey);
        if key.Err? then Err(key.error)
        else if r.legacy.Some? && (r.legacyBytes > MAX_EVIDENCE_BYTES || !ProvenanceComplete(r.legacy.value.provenance))
        then Err(InvalidArgument)
        else if r.reason.Given? && !ReasonAllowed(r.reason.value) then Err(InvalidArgument)
        else if r.evidence.Given? && !EvidenceAllowed(r.evidence.value) then Err(InvalidArgument)
        else Ok(Admitted(QualifyTarget(r.scopeKey, r.target), key.value, skill))
  }

  function Resolve(arg: Arg, fallback: Json): Json {
    if arg.Given? then arg.value else fallback
  }

  /** The prior binding, the reason, the evidence and the time that one event records. */
  datatype Binding = Binding(state: Json, version: Json, eventId: Json, reason: Json, evidence: Json, time: int)

  predicate PriorsWellFormed(b: Binding) {
    && b.state.StateName?
    && b.version.Int? && 0 <= b.version.n <= MAX_SIGNED_64
    && (b.eventId.Null? || (b.eventId.Text? && IsUuid(b.eventId.text)))
  }

  function LifecycleProvenance(r: Request, a: Admitted, b: Binding): JsonObject {
    JsonObject(
      source := Some(Text("candidate_publication_review")), artifactId := Some(Text(r.publicationKey)),
      revision := Some(Text(r.schemaVersion)), sha256 := Some(Text(r.content)), scope := Some(Text(r.scopeKey)),
      publicationKey := Some(Text(r.publicationKey)), reviewTargetId := Some(Text(r.target)),
      schemaVersion := Some(Text(r.schemaVersion)), candidateId := Some(Text(a.skill)), skillId := Some(Text(a.skill)),
      contentSha256 := Some(Text(r.content)), fullSha256 := Some(Text(r.full)),
      sourceResultSha256 := Some(Text(r.source)), destinationStatus := Some(StateName(r.status)),
      priorState := Some(b.state), priorVersion := Some(b.version), priorEventId := Some(b.eventId),
      reviewerId := Some(Text(r.actor)), serverReviewerId := Some(Text(r.actor)),
      serverTime := Some(Instant(b.time)), qualifiedKey := Some(Text(a.key)))
  }

  function LifecycleDetail(r: Request, a: Admitted, b: Binding): JsonObject {
    JsonObject(
      lifecycleVersion := Some(Text(LIFECYCLE_VERSION)), scope := Some(Text(r.scopeKey)),
      publicationKey := Some(Text(r.publicationKey)), reviewTargetId := Some(Text(r.target)),
      schemaVersion := Some(Text(r.schemaVersion)), candidateId := Some(Text(a.skill)), skillId := Some(Text(a.skill)),
      contentSha256 := Some(Text(r.content)), fullSha256 := Some(Text(r.full)),
      sourceResultSha256 := Some(Text(r.source)), destinationStatus := Some(StateName(r.status)),
      status := Some(StateName(r.status)), reason := Some(b.reason), evidence := Some(b.evidence),
      priorState := Some(b.state), priorVersion := Some(b.version), priorEventId := Some(b.eventId),
      reviewerId := Some(Text(r.actor)), serverReviewerId := Some(Text(r.actor)),
      serverTime := Some(Instant(b.time)), qualifiedKey := Some(Text(a.key)))
  }

  /** The two JSON objects of one event; `None` stands for the raised `ValueError`. */
  function Payload(r: Request, a: Admitted, b: Binding): Option<LegacyPayload> {
    if r.legacy.Some? then
      if ProvenanceComplete(r.legacy.value.provenance) then r.legacy else None
    else if !PriorsWellFormed(b) then None
    else
      var provenance := LifecycleProvenance(r, a, b);
      if ProvenanceComplete(provenance) then Some(LegacyPayload(provenance, LifecycleDetail(r, a, b))) else None
  }

  // ---- Transitions and the validator ----

  predicate LegalTransition(from: Status, to: Status) {
    match from
    case Unreviewed => to == Pending || to == Approved
    case Pending => to == Approved || to == Rejected || to == NeedsChanges
    case _ => false
  }

  predicate HasLifecycleMember(o: JsonObject) {
    || o.lifecycleVersion.Some? || o.publicationKey.Some? || o.reviewTargetId.Some? || o.destinationStatus.Some?
    || o.priorState.Some? || o.priorVersion.Some? || o.priorEventId.Some? || o.qualifiedKey.Some?
  }

  predicate HasMarkers(e: EventRow) {
    HasLifecycleMember(e.provenance) || HasLifecycleMember(e.detail)
  }

  /** Where a history stands before one of its events. */
  datatype Prior = Prior(state: Status, version: nat, eventId: Option<string>)

  function PriorAt(history: seq<EventRow>, i: nat): Prior
    requires i <= |history|
  {
    if i == 0 then Prior(Unreviewed, 0, None) else Prior(history[i - 1].status, i, Some(history[i - 1].eventId))
  }

  function OptionalText(value: Option<string>): Json {
    if value.Some? then Text(value.value) else Null
  }

  predicate Shared(p: Member, d: Member) {
    p.Some? && p == d
  }

  /** The two JSON objects are complete and agree on every shared binding. */
  predicate BindingsAgree(p: JsonObject, d: JsonObject) {
    && d.lifecycleVersion == Some(Text(LIFECYCLE_VERSION))
    && Shared(p.scope, d.scope) && Shared(p.publicationKey, d.publicationKey)
    && Shared(p.reviewTargetId, d.reviewTargetId) && Shared(p.schemaVersion, d.schemaVersion)
    && Shared(p.candidateId, d.candidateId) && Shared(p.skillId, d.skillId)
    && Shared(p.contentSha256, d.contentSha256) && Shared(p.fullSha256, d.fullSha256)
    && Shared(p.sourceResultSha256, d.sourceResultSha256) && Shared(p.destinationStatus, d.destinationStatus)
    && Shared(p.priorState, d.priorState) && Shared(p.priorVersion, d.priorVersion)
    && Shared(p.priorEventId, d.priorEventId) && Shared(p.reviewerId, d.reviewerId)
    && Shared(p.serverReviewerId, d.serverReviewerId) && Shared(p.serverTime, d.serverTime)
    && Shared(p.qualifiedKey, d.qualifiedKey)
    && d.reason.Some? && d.evidence.Some?
    && ProvenanceComplete(p)
    && p.source == Some(Text("candidate_publication_review"))
    && p.artifactId == d.publicationKey && p.revision == d.schemaVersion && p.sha256 == d.contentSha256
  }

  /** The detail object names the event's scope, target, publication and digests. */
  predicate IdentityBound(d: JsonObject, target: string) {
    && d.scope.Some? && d.scope.value.Text? && ValidScopeKey(d.scope.value.text)
    && d.reviewTargetId.Some? && d.reviewTargetId.value.Text? && IsCandidateTarget(d.reviewTargetId.value.text)
    && (var plain := d.reviewTargetId.value.text;
        && QualifyTarget(d.scope.value.text, plain) == target
        && d.publicationKey == Some(Text(PUBLICATION_HEAD + TargetSkill(plain)))
        && d.schemaVersion == Some(Text(SCHEMA_VERSION))
        && d.candidateId == Some(Text(TargetSkill(plain))) && d.skillId == Some(Text(TargetSkill(plain)))
        && d.contentSha256 == Some(Text(TargetContent(plain))))
    && MemberIsSha256(d.contentSha256) && MemberIsSha256(d.fullSha256) && MemberIsSha256(d.sourceResultSha256)
  }

  /** The detail object repeats the event's decision, its prior, its reviewer and its time. */
  predicate DecisionBound(e: EventRow, prior: Prior) {
    var d := e.detail;
    && d.status == Some(StateName(e.status)) && d.destinationStatus == Some(StateName(e.status))
    && d.priorState == Some(StateName(prior.state))
    && d.priorVersion == Some(Int(prior.version))
    && d.priorEventId == Some(OptionalText(prior.eventId))
    && d.reviewerId == Some(Text(e.actor)) && d.serverReviewerId == Some(Text(e.actor)) && IsReviewerId(e.actor)
    && d.serverTime == Some(Instant(e.occurredAt))
    && d.qualifiedKey.Some? && (d.qualifiedKey.value.Text? || d.qualifiedKey.value.Null?)
    && d.reason.Some? && d.evidence.Some?
  }

  /** Every binding of one lifecycle event that is checked before its idempotency key. */
  predicate LifecycleBound(e: EventRow, prior: Prior) {
    BindingsAgree(e.provenance, e.detail) && IdentityBound(e.detail, e.target) && DecisionBound(e, prior)
  }

  /**
   The row's key must read back as itself; with a null in the objects it must be
   a qualified key on its own. The reason and the evidence are looked at last.
   */
  function BindingError(e: EventRow, prior: Prior): Option<Error>
    requires LifecycleBound(e, prior)
  {
    var stored := e.detail.qualifiedKey.value;
    match CandidateKey(e.detail.scope.value.text, Some(e.key), if stored.Text? then Some(stored.text) else None)
    case Err(error) => Some(error)
    case Ok(key) =>
      if key == e.key && ReasonAllowed(e.detail.reason.value) && EvidenceAllowed(e.detail.evidence.value)
      then None else Some(Conflict)
  }

  /** The older approval payload for one skill and content digest, with no member more and none less. */
  predicate IsLegacyApproval(p: JsonObject, d: JsonObject, skill: string, content: string) {
    && p == JsonObject(
         source := Some(Text("candidate_skill_canonical_sha256")), artifactId := Some(Text(skill)),
         revision := Some(Text(SCHEMA_VERSION)), sha256 := Some(Text(content)))
    && d == JsonObject(
         kind := Some(Text("candidate_skill_approval")), decision := Some(Text("approve")),
         schemaVersion := Some(Text(SCHEMA_VERSION)), skillId := Some(Text(skill)),
         contentSha256 := Some(Text(content)), approvalBasis := d.approvalBasis)
    && MemberIsText(d.approvalBasis)
  }

  predicate IsLegacyEvent(e: EventRow) {
    var t := if EndsInTarget(e.target) then e.target else if e.target != "" then e.target[..|e.target| - 1] else "";
    && IsCandidateReviewTarget(e.target)
    && EndsInTarget(t)
    && (var plain := t[|t| - 128..]; IsLegacyApproval(e.provenance, e.detail, TargetSkill(plain), TargetContent(plain)))
    && IsReviewerId(e.actor)
  }

  /** What the validator finds wrong with one event in its place, if anything. */
  function EventError(target: string, e: EventRow, prior: Prior): Option<Error> {
    if e.target != target || !IsUuid(e.eventId) || e.digest != DigestOf(e) || !LegalTransition(prior.state, e.status)
    then Some(Conflict)
    else if HasMarkers(e) then
      if LifecycleBound(e, prior) then BindingError(e, prior) else Some(Conflict)
    else if prior.version == 0 && e.status == Approved && IsLegacyEvent(e) then None
    else Some(Conflict)
  }

  function FirstError(target: string, history: seq<EventRow>, i: nat): Option<Error>
    requires i <= |history|
    decreases |history| - i
  {
    if i == |history| then None
    else
      var error := EventError(target, history[i], PriorAt(history, i));
      if error.Some? then error else FirstError(target, history, i + 1)
  }

  /** The projection repeats every column of an event. */
  predicate Mirrors(target: string, p: Projection, e: EventRow) {
    && e.target == target && e.status == p.status && e.actor == p.actor && e.eventId == p.lastEventId
    && e.occurredAt == p.occurredAt && e.provenance == p.provenance && e.detail == p.detail
    && e.digest == DigestOf(e)
  }

  /** The validator's verdict on one stored projection and history; `None` is acceptance. */
  function Verdict(events: seq<EventRow>, target: string, p: Projection, history: seq<EventRow>): Option<Error> {
    if history == [] || !IsCandidateReviewTarget(target) || p.status == Unreviewed || p.version != |history|
    then Some(Conflict)
    else if FirstError(target, history, 0).Some? then FirstError(target, history, 0)
    else
      var last := FindById(events, p.lastEventId);
      if last.None? || last.value.eventId != history[|history| - 1].eventId || !Mirrors(target, p, last.value)
      then Some(Conflict)
      else None
  }

  /** The validator as it runs: one pass over the history, carrying the state reached so far. */
  method ValidateProjection(events: seq<EventRow>, target: string, p: Projection, history: seq<EventRow>)
    returns (error: Option<Error>)
    ensures error == Verdict(events, target, p, history)
  {
    if history == [] || !IsCandidateReviewTarget(target) { return Some(Conflict); }
    if p.status == Unreviewed || p.version != |history| { return Some(Conflict); }
    var state, eventId: Option<string> := Unreviewed, None;
    for i := 0 to |history|
      invariant Prior(state, i, eventId) == PriorAt(history, i)
      invariant FirstError(target, history, 0) == FirstError(target, history, i)
    {
      var e := history[i];
      if e.target != target || !IsUuid(e.eventId) || e.digest != DigestOf(e) { return Some(Conflict); }
      if !LegalTransition(state, e.status) { return Some(Conflict); }
      if HasMarkers(e) {
        if !LifecycleBound(e, Prior(state, i, eventId)) { return Some(Conflict); }
        var bindingError := BindingError(e, Prior(state, i, eventId));
        if bindingError.Some? { return bindingError; }
      } else if i != 0 || e.status != Approved || !IsLegacyEvent(e) {
        return Some(Conflict);
      }
      state, eventId := e.status, Some(e.eventId);
    }
    var last := FindById(events, p.lastEventId);
    if last.None? || last.value.eventId != history[|history| - 1].eventId { return Some(Conflict); }
    if !Mirrors(target, p, last.value) { return Some(Conflict); }
    return None;
  }
}
