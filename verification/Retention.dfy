/**
 The retention ledger: targets with copies that are staged for trash after
 fourteen days and then attested as deleted, legal holds, and an append-only
 log of events with idempotent keys.
 */
module Retention {
  import opened Basics
  import opened AuditLog

  const RETENTION_MICROS := 14 * 24 * 3600 * 1_000_000
  const MAX_TEXT := 512

  // ---- Tables ----

  datatype CopySpec = CopySpec(copyId: string, provider: string, fileId: string, revision: string, sha256: string)

  datatype CopyState = Active | TrashStaged | Deleted

  datatype Copy = Copy(
    identity: CopySpec, state: CopyState, stagedAt: Option<int>, deletedAt: Option<int>, receipt: Option<string>)

  datatype Target = Target(
    createdBy: string, createdAt: int, expiresAt: int, hold: bool, reason: Option<string>,
    completedAt: Option<int>, updatedAt: int, copies: map<string, Copy>)

  /** What an event records; canonical copies, a list sorted by unique identifier, are kept as the map they determine. */
  datatype Detail =
    | Registered(copies: map<string, CopySpec>)
    | Hold(hold: bool, reason: Option<string>)
    | Staged
    | DeletionAttested(receipt: string)

  /** The content digest is kept as its preimage. */
  datatype Content = Content(target: string, copyId: Option<string>, actor: string, detail: Detail)

  datatype Event = Event(key: string, content: Content, occurredAt: int)

  datatype State = State(targets: map<string, Target>, events: seq<Event>, audit: seq<AuditContext>)

  const EMPTY := State(map[], [], [])

  datatype Error = InvalidArgument | Conflict | NotFound

  // ---- Arguments ----

  predicate IsText(s: string) {
    HasText(s) && |s| <= MAX_TEXT
  }

  predicate IsCopySpec(c: CopySpec) {
    && IsText(c.copyId) && IsText(c.provider) && IsText(c.fileId) && IsText(c.revision)
    && (c.provider == "google_drive" || c.provider == "s3")
    && IsSha256(c.sha256)
  }

  /** Copies by identifier, unless one is malformed or an identifier repeats. */
  function Collected(copies: seq<CopySpec>): Option<map<string, CopySpec>> {
    if copies == [] then Some(map[])
    else
      var front, last := Collected(copies[..|copies| - 1]), copies[|copies| - 1];
      if front.None? || !IsCopySpec(last) || last.copyId in front.value then None
      else Some(front.value[last.copyId := last])
  }

  function Canonical(copies: seq<CopySpec>): Option<map<string, CopySpec>> {
    if copies == [] then None else Collected(copies)
  }

  method CanonicalizeCopies(copies: seq<CopySpec>) returns (r: Option<map<string, CopySpec>>)
    ensures r == Canonical(copies)
  {
    if copies == [] { return None; }
    var seen: set<string> := {};
    var normalized: map<string, CopySpec> := map[];
    for i := 0 to |copies|
      invariant Collected(copies[..i]) == Some(normalized) && seen == normalized.Keys
    {
      var c := copies[i];
      assert copies[..i + 1][..i] == copies[..i];
      if !IsCopySpec(c) || c.copyId in seen {
        CollectedNone(copies, i + 1);
        return None;
      }
      seen := seen + {c.copyId};
      normalized := normalized[c.copyId := c];
    }
    assert copies[..|copies|] == copies;
    return Some(normalized);
  }

  lemma {:induction false} CollectedNone(copies: seq<CopySpec>, i: nat)
    requires i <= |copies| && Collected(copies[..i]).None?
    ensures Collected(copies).None?
  {
    if i == |copies| {
      assert copies[..i] == copies;
    } else {
      var front := copies[..|copies| - 1];
      assert front[..i] == copies[..i];
      CollectedNone(front, i);
    }
  }

  function Strip(s: string): string {
    if s != "" && IsBlankChar(s[0]) then Strip(s[1..])
    else if s != "" && IsBlankChar(s[|s| - 1]) then Strip(s[..|s| - 1])
    else s
  }

  // ---- Operations as functions on states ----

  function FindByKey(events: seq<Event>, key: string): (r: Option<Event>)
    ensures r.Some? ==> r.value in events && r.value.key == key
    ensures r.None? ==> forall e | e in events :: e.key != key
  {
    if events == [] then None else if events[0].key == key then Some(events[0]) else FindByKey(events[1..], key)
  }

  function Current(s: State, target: string): Result<Target, Error> {
    if target in s.targets then Ok(s.targets[target]) else Err(NotFound)
  }

  /** What a request asks for, once its arguments are admitted. */
  datatype Request =
    | RegisterTarget(target: string, copies: seq<CopySpec>, key: string, actor: string, now: int)
    | SetLegalHold(target: string, hold: bool, reason: Option<string>, key: string, actor: string, now: int)
    | StageTrash(target: string, copyId: string, key: string, actor: string, now: int)
    | AttestDeleted(target: string, copyId: string, receipt: string, key: string, actor: string, now: int)

  /** The content a request would record; `None` stands for a raised argument error. */
  function ContentOf(r: Request): Option<Content> {
    if !IsText(r.target) || !IsText(r.key) || !IsText(r.actor) then None
    else
      match r
      case RegisterTarget(target, copies, _, actor, _) =>
        if Canonical(copies).None? then None else Some(Content(target, None, actor, Registered(Canonical(copies).value)))
      case SetLegalHold(target, hold, reason, _, actor, _) =>
        if hold && !IsText(reason.GetOr("")) then None
        else if !hold && reason.Some? then None
        else Some(Content(target, None, actor, Hold(hold, if hold then Some(Strip(reason.value)) else None)))
      case StageTrash(target, copyId, _, actor, _) =>
        if !IsText(copyId) then None else Some(Content(target, Some(copyId), actor, Staged))
      case AttestDeleted(target, copyId, receipt, _, actor, _) =>
        if !IsText(copyId) || !IsSha256(receipt) then None
        else Some(Content(target, Some(copyId), actor, DeletionAttested(receipt)))
  }

  function NewTarget(actor: string, copies: map<string, CopySpec>, now: int): Target {
    Target(actor, now, now + RETENTION_MICROS, false, None, None, now,
           map c | c in copies :: Copy(copies[c], Active, None, None, None))
  }

  function StagedTarget(t: Target, copyId: string, now: int): Target
    requires copyId in t.copies
  {
    t.(copies := t.copies[copyId := t.copies[copyId].(state := TrashStaged, stagedAt := Some(now))], updatedAt := now)
  }

  function Remaining(copies: map<string, Copy>): set<string> {
    set c | c in copies && copies[c].state != Deleted
  }

  function AttestedTarget(t: Target, copyId: string, receipt: string, now: int): Target
    requires copyId in t.copies
  {
    var copies := t.copies[copyId := t.copies[copyId].(state := Deleted, deletedAt := Some(now), receipt := Some(receipt))];
    var completed := if |Remaining(copies)| == 0 then Some(now) else None;
    t.(copies := copies, completedAt := if t.completedAt.Some? then t.completedAt else completed, updatedAt := now)
  }

  /** The new target row, or the error that refuses the request. */
  function Change(s: State, r: Request): Result<Target, Error>
    requires ContentOf(r).Some?
  {
    match r
    case RegisterTarget(target, copies, _, actor, now) =>
      if target in s.targets then Err(Conflict) else Ok(NewTarget(actor, Canonical(copies).value, now))
    case SetLegalHold(target, hold, reason, _, _, now) =>
      if target !in s.targets then Err(NotFound)
      else if s.targets[target].completedAt.Some? || s.targets[target].hold == hold then Err(Conflict)
      else Ok(s.targets[target].(hold := hold, reason := if hold then Some(Strip(reason.value)) else None, updatedAt := now))
    case StageTrash(target, copyId, _, _, now) =>
      if target !in s.targets then Err(NotFound)
      else
        var t := s.targets[target];
        if t.hold || t.completedAt.Some? || now < t.expiresAt then Err(Conflict)
        else if copyId !in t.copies then Err(NotFound)
        else if t.copies[copyId].state != Active then Err(Conflict)
        else Ok(StagedTarget(t, copyId, now))
    case AttestDeleted(target, copyId, receipt, _, _, now) =>
      if target !in s.targets then Err(NotFound)
      else
        var t := s.targets[target];
        if t.hold || t.completedAt.Some? then Err(Conflict)
        else if copyId !in t.copies then Err(NotFound)
        else if t.copies[copyId].state != TrashStaged then Err(Conflict)
        else Ok(AttestedTarget(t, copyId, receipt, now))
  }

  /** One transaction: a replay of recorded content, or one change with its event, or nothing at all. */
  function Transact(s: State, r: Request, audit: Option<AuditContext>): (State, Result<Target, Error>) {
    if ContentOf(r).None? then (s, Err(InvalidArgument))
    else
      var content := ContentOf(r).value;
      var recorded := FindByKey(s.events, r.key);
      if recorded.Some? then
        if recorded.value.content != content then (s, Err(Conflict))
        else if !AuditAdmitted(audit) then (s, Err(InvalidArgument))
        else if r.target !in s.targets then (s, Err(NotFound))
        else (s.(audit := AppendAudit(s.audit, audit)), Current(s, r.target))
      else
        match Change(s, r)
        case Err(error) => (s, Err(error))
        case Ok(t) =>
          if !AuditAdmitted(audit) then (s, Err(InvalidArgument))
          else
            (State(s.targets[r.target := t], s.events + [Event(r.key, content, r.now)], AppendAudit(s.audit, audit)), Ok(t))
  }

  /** The targets that are overdue: expired, not held, not complete. */
  function Overdue(s: State, now: int): set<string> {
    set target | target in s.targets && s.targets[target].expiresAt <= now
                 && !s.targets[target].hold && s.targets[target].completedAt.None?
  }

  // ---- The ledger ----

  class RetentionLedger {
    var targets: map<string, Target>
    var events: seq<Event>
    var auditEvents: seq<AuditContext>

    ghost function Contents(): State
      reads this
    {
      State(targets, events, auditEvents)
    }

    constructor ()
      ensures Contents() == EMPTY
    {
      targets, events, auditEvents := map[], [], [];
    }

    method AppendAuditEvent(audit: Option<AuditContext>) returns (ok: bool)
      modifies this`auditEvents
      ensures ok == AuditAdmitted(audit)
      ensures auditEvents == if ok then AppendAudit(old(auditEvents), audit) else old(auditEvents)
    {
      if audit.None? { return true; }
      if !audit.value.wellFormed { return false; }
      auditEvents := auditEvents + [audit.value];
      return true;
    }

    /** `done` when the key was used before: the outcome is then final. */
    method IdempotentReplay(key: string, content: Content, audit: Option<AuditContext>)
      returns (done: bool, r: Result<Target, Error>)
      modifies this`auditEvents
      ensures done == FindByKey(events, key).Some?
      ensures done ==>
                var target := content.target;
                if FindByKey(events, key).value.content != content then r == Err(Conflict) && auditEvents == old(auditEvents)
                else if !AuditAdmitted(audit) then r == Err(InvalidArgument) && auditEvents == old(auditEvents)
                else if target !in targets then r == Err(NotFound) && auditEvents == old(auditEvents)
                else r == Ok(targets[target]) && auditEvents == AppendAudit(old(auditEvents), audit)
      ensures !done ==> auditEvents == old(auditEvents)
    {
      var recorded := FindByKey(events, key);
      if recorded.None? { return false, Err(Conflict); }
      if recorded.value.content != content { return true, Err(Conflict); }
      var saved := auditEvents;
      var ok := AppendAuditEvent(audit);
      if !ok { return true, Err(InvalidArgument); }
      if content.target !in targets {
        auditEvents := saved;
        return true, Err(NotFound);
      }
      return true, Ok(targets[content.target]);
    }

    /** The event and the audit record of one change; on a refused audit record everything is put back. */
    method Record(saved: map<string, Target>, key: string, content: Content, now: int, audit: Option<AuditContext>)
      returns (r: Result<Target, Error>)
      requires content.target in targets
      modifies this
      ensures if AuditAdmitted(audit)
              then r == Ok(old(targets)[content.target])
                   && Contents() == State(old(targets), old(events) + [Event(key, content, now)], AppendAudit(old(auditEvents), audit))
              else r == Err(InvalidArgument) && Contents() == State(saved, old(events), old(auditEvents))
    {
      var savedEvents := events;
      events := events + [Event(key, content, now)];
      var ok := AppendAuditEvent(audit);
      if !ok {
        targets, events := saved, savedEvents;
        return Err(InvalidArgument);
      }
      return Ok(targets[content.target]);
    }

    method Register(target: string, copies: seq<CopySpec>, key: string, actor: string, now: int, audit: Option<AuditContext>)
      returns (r: Result<Target, Error>)
      modifies this
      ensures (Contents(), r) == Transact(old(Contents()), RegisterTarget(target, copies, key, actor, now), audit)
    {
      if !IsText(target) || !IsText(key) || !IsText(actor) { return Err(InvalidArgument); }
      var canonical := CanonicalizeCopies(copies);
      if canonical.None? { return Err(InvalidArgument); }
      var content := Content(target, None, actor, Registered(canonical.value));
      var done, replayed := IdempotentReplay(key, content, audit);
      if done { return replayed; }
      if target in targets { return Err(Conflict); }
      var saved := targets;
      targets := targets[target := Target(actor, now, now + RETENTION_MICROS, false, None, None, now,
                                          map c | c in canonical.value :: Copy(canonical.value[c], Active, None, None, None))];
      r := Record(saved, key, content, now, audit);
    }

    method SetHold(target: string, hold: bool, reason: Option<string>, key: string, actor: string, now: int,
                   audit: Option<AuditContext>) returns (r: Result<Target, Error>)
      modifies this
      ensures (Contents(), r) == Transact(old(Contents()), SetLegalHold(target, hold, reason, key, actor, now), audit)
    {
      if !IsText(target) || !IsText(key) || !IsText(actor) { return Err(InvalidArgument); }
      var normalized: Option<string> := None;
      if hold {
        if !IsText(reason.GetOr("")) { return Err(InvalidArgument); }
        normalized := Some(Strip(reason.value));
      } else if reason.Some? {
        return Err(InvalidArgument);
      }
      var content := Content(target, None, actor, Hold(hold, normalized));
      var done, replayed := IdempotentReplay(key, content, audit);
      if done { return replayed; }
      if target !in targets { return Err(NotFound); }
      var t := targets[target];
      if t.completedAt.Some? { return Err(Conflict); }
      if t.hold == hold { return Err(Conflict); }
      var saved := targets;
      targets := targets[target := t.(hold := hold, reason := normalized, updatedAt := now)];
      r := Record(saved, key, content, now, audit);
    }

    method Stage(target: string, copyId: string, key: string, actor: string, now: int, audit: Option<AuditContext>)
      returns (r: Result<Target, Error>)
      modifies this
      ensures (Contents(), r) == Transact(old(Contents()), StageTrash(target, copyId, key, actor, now), audit)
    {
      if !IsText(target) || !IsText(copyId) || !IsText(key) || !IsText(actor) { return Err(InvalidArgument); }
      var content := Content(target, Some(copyId), actor, Staged);
      var done, replayed := IdempotentReplay(key, content, audit);
      if done { return replayed; }
      if target !in targets { return Err(NotFound); }
      var t := targets[target];
      if t.hold || t.completedAt.Some? { return Err(Conflict); }
      if now < t.expiresAt { return Err(Conflict); }
      if copyId !in t.copies { return Err(NotFound); }
      if t.copies[copyId].state != Active { return Err(Conflict); }
      var saved := targets;
      var copies := t.copies[copyId := t.copies[copyId].(state := TrashStaged, stagedAt := Some(now))];
      targets := targets[target := t.(copies := copies, updatedAt := now)];
      r := Record(saved, key, content, now, audit);
    }

    method Attest(target: string, copyId: string, receipt: string, key: string, actor: string, now: int,
                  audit: Option<AuditContext>) returns (r: Result<Target, Error>)
      modifies this
      ensures (Contents(), r) == Transact(old(Contents()), AttestDeleted(target, copyId, receipt, key, actor, now), audit)
    {
      if !IsText(target) || !IsText(copyId) || !IsText(key) || !IsText(actor) { return Err(InvalidArgument); }
      if !IsSha256(receipt) { return Err(InvalidArgument); }
      var content := Content(target, Some(copyId), actor, DeletionAttested(receipt));
      var done, replayed := IdempotentReplay(key, content, audit);
      if done { return replayed; }
      if target !in targets { return Err(NotFound); }
      var t := targets[target];
      if t.hold || t.completedAt.Some? { return Err(Conflict); }
      if copyId !in t.copies { return Err(NotFound); }
      if t.copies[copyId].state != TrashStaged { return Err(Conflict); }
      var saved := targets;
      var copies := t.copies[copyId := t.copies[copyId].(state := Deleted, deletedAt := Some(now), receipt := Some(receipt))];
      var remaining := |Remaining(copies)|;
      var completed := if remaining == 0 then Some(now) else None;
      targets := targets[target := t.(copies := copies, completedAt := if t.completedAt.Some? then t.completedAt else completed,
                                      updatedAt := now)];
      r := Record(saved, key, content, now, audit);
    }
  }

  // ---- Runs ----

  datatype Op = Op(request: Request, audit: Option<AuditContext>)

  function Step(s: State, op: Op): State {
    Transact(s, op.request, op.audit).0
  }

  function Run(s: State, ops: seq<Op>): State {
    if ops == [] then s else Step(Run(s, ops[..|ops| - 1]), ops[|ops| - 1])
  }
}
