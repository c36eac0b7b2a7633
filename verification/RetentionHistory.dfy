/** What every run of the retention ledger keeps, and how its log counts its copies. */
module RetentionHistory {
  import opened Basics
  import opened AuditLog
  import opened Retention

  // ---- Steps ----

  predicate Quiet(s: State, s': State) {
    s'.targets == s.targets && s'.events == s.events
  }

  /** One row is written and one event logged, under a key that was not used before. */
  predicate Changed(s: State, s': State, r: Request) {
    && ContentOf(r).Some? && Change(s, r).Ok? && FindByKey(s.events, r.key).None?
    && s'.targets == s.targets[r.target := Change(s, r).value]
    && s'.events == s.events + [EventOf(r)]
  }

  function EventOf(r: Request): Event
    requires ContentOf(r).Some?
  {
    Event(r.key, ContentOf(r).value, r.now)
  }

  /** A step leaves the tables as they are or makes one change and logs it. */
  lemma StepCases(s: State, op: Op)
    ensures Quiet(s, Step(s, op)) || Changed(s, Step(s, op), op.request)
  {
    hide ContentOf, Change, FindByKey;
  }

  // ---- Sound targets ----

  predicate SoundCopy(t: Target, c: Copy) {
    && (c.state == Active <==> c.stagedAt.None?)
    && (c.state == Deleted <==> c.deletedAt.Some?) && (c.deletedAt.Some? <==> c.receipt.Some?)
    && (c.stagedAt.Some? ==> c.stagedAt.value >= t.createdAt + RETENTION_MICROS)
  }

  /**
   Fourteen days between creation and expiry; copies staged no earlier than
   that; complete exactly when every copy, of at least one, is deleted.
   */
  predicate SoundTarget(t: Target) {
    && t.expiresAt == t.createdAt + RETENTION_MICROS
    && t.copies != map[]
    && (forall c | c in t.copies :: SoundCopy(t, t.copies[c]))
    && (t.completedAt.Some? <==> forall c | c in t.copies :: t.copies[c].state == Deleted)
    && (t.completedAt.Some? ==> !t.hold)
  }

  datatype Kind = Registration | Staging | Deletion | Placing | Releasing

  function KindOf(d: Detail): Kind {
    match d
    case Registered(_) => Registration
    case Staged => Staging
    case DeletionAttested(_) => Deletion
    case Hold(hold, _) => if hold then Placing else Releasing
  }

  /** How many events of one kind the log holds for a target. */
  function Count(events: seq<Event>, target: string, kind: Kind): nat {
    if events == [] then 0
    else
      var last := events[|events| - 1];
      Count(events[..|events| - 1], target, kind)
      + if last.content.target == target && KindOf(last.content.detail) == kind then 1 else 0
  }

  function RequestKind(r: Request): Kind {
    match r
    case RegisterTarget(_, _, _, _, _) => Registration
    case SetLegalHold(_, hold, _, _, _, _) => if hold then Placing else Releasing
    case StageTrash(_, _, _, _, _) => Staging
    case AttestDeleted(_, _, _, _, _, _) => Deletion
  }

  lemma ContentNames(r: Request)
    requires ContentOf(r).Some?
    ensures var c := ContentOf(r).value;
      && c.target == r.target && KindOf(c.detail) == RequestKind(r)
      && IsText(r.target) && (r.RegisterTarget? ==> Canonical(r.copies).Some?)
  {
    hide IsText, Canonical, Strip;
  }

  function InState(t: Target, state: CopyState): set<string> {
    set c | c in t.copies && t.copies[c].state == state
  }

  /** The log accounts for the table: copies in trash, copies deleted, and the hold. */
  predicate Accounted(events: seq<Event>, target: string, t: Target) {
    && Count(events, target, Staging) == |InState(t, TrashStaged)| + |InState(t, Deleted)|
    && Count(events, target, Deletion) == |InState(t, Deleted)|
    && Count(events, target, Placing) == Count(events, target, Releasing) + if t.hold then 1 else 0
  }

  predicate Named(target: string, t: Target) {
    IsText(target) && forall c | c in t.copies :: IsText(c)
  }

  ghost predicate Sound(s: State) {
    && (forall target | target in s.targets ::
          && SoundTarget(s.targets[target])
          && Accounted(s.events, target, s.targets[target])
          && Named(target, s.targets[target]))
    && (forall e | e in s.events :: e.content.target in s.targets)
  }

  lemma CountSnoc(events: seq<Event>, e: Event, target: string, kind: Kind)
    ensures Count(events + [e], target, kind)
         == Count(events, target, kind) + if e.content.target == target && KindOf(e.content.detail) == kind then 1 else 0
  {
    assert (events + [e])[..|events|] == events;
  }

  lemma {:induction false} CountNone(events: seq<Event>, target: string, kind: Kind)
    requires forall e | e in events :: e.content.target != target
    ensures Count(events, target, kind) == 0
  {
    if events != [] {
      assert events[|events| - 1] in events;
      CountNone(events[..|events| - 1], target, kind);
    }
  }

  // ---- The four changes ----

  lemma {:induction false} CollectedSpecs(copies: seq<CopySpec>)
    requires Collected(copies).Some?
    ensures copies != [] ==> Collected(copies).value != map[]
    ensures forall c | c in Collected(copies).value :: IsText(c)
  {
    hide IsText, IsSha256;
    if copies != [] {
      CollectedSpecs(copies[..|copies| - 1]);
      assert copies[|copies| - 1].copyId in Collected(copies).value;
    }
  }

  lemma NewTargetSound(actor: string, copies: map<string, CopySpec>, now: int)
    requires copies != map[]
    ensures var t := NewTarget(actor, copies, now);
      SoundTarget(t) && InState(t, TrashStaged) == {} && InState(t, Deleted) == {}
  {
    var t := NewTarget(actor, copies, now);
    var c :| c in copies;
    assert c in t.copies && t.copies[c].state == Active;
  }

  lemma StagedSound(t: Target, copyId: string, now: int)
    requires SoundTarget(t) && copyId in t.copies && t.copies[copyId].state == Active && now >= t.expiresAt && !t.hold
    ensures var t' := StagedTarget(t, copyId, now);
      && SoundTarget(t')
      && |InState(t', TrashStaged)| == |InState(t, TrashStaged)| + 1 && InState(t', Deleted) == InState(t, Deleted)
  {
    var t' := StagedTarget(t, copyId, now);
    assert t'.copies[copyId].state == TrashStaged;
    assert InState(t', TrashStaged) == InState(t, TrashStaged) + {copyId};
    assert InState(t', Deleted) == InState(t, Deleted);
    forall c | c in t'.copies ensures SoundCopy(t', t'.copies[c]) {
      assert SoundCopy(t, t.copies[c]);
    }
  }

  lemma RemainingNone(copies: map<string, Copy>)
    ensures |Remaining(copies)| == 0 <==> forall c | c in copies :: copies[c].state == Deleted
  {
    if |Remaining(copies)| == 0 {
      forall c | c in copies ensures copies[c].state == Deleted {
        assert c !in Remaining(copies);
      }
    } else {
      var c :| c in Remaining(copies);
    }
  }

  lemma AttestedSound(t: Target, copyId: string, receipt: string, now: int)
    requires SoundTarget(t) && copyId in t.copies && t.copies[copyId].state == TrashStaged
    requires !t.hold && t.completedAt.None?
    ensures var t' := AttestedTarget(t, copyId, receipt, now);
      && SoundTarget(t')
      && |InState(t', TrashStaged)| == |InState(t, TrashStaged)| - 1 && |InState(t', Deleted)| == |InState(t, Deleted)| + 1
  {
    var t' := AttestedTarget(t, copyId, receipt, now);
    RemainingNone(t'.copies);
    assert InState(t', TrashStaged) == InState(t, TrashStaged) - {copyId};
    assert InState(t', Deleted) == InState(t, Deleted) + {copyId};
    hide Remaining;
    forall c | c in t'.copies ensures SoundCopy(t', t'.copies[c]) {
      assert SoundCopy(t, t.copies[c]);
    }
  }

  lemma AccountedAfter(events: seq<Event>, e: Event, target: string, t: Target)
    requires e.content.target == target
    requires var kind := KindOf(e.content.detail);
      && Count(events, target, Staging) + (if kind == Staging then 1 else 0) == |InState(t, TrashStaged)| + |InState(t, Deleted)|
      && Count(events, target, Deletion) + (if kind == Deletion then 1 else 0) == |InState(t, Deleted)|
      && Count(events, target, Placing) + (if kind == Placing then 1 else 0)
         == Count(events, target, Releasing) + (if kind == Releasing then 1 else 0) + if t.hold then 1 else 0
    ensures Accounted(events + [e], target, t)
  {
    CountSnoc(events, e, target, Staging);
    CountSnoc(events, e, target, Deletion);
    CountSnoc(events, e, target, Placing);
    CountSnoc(events, e, target, Releasing);
    hide Count, InState, KindOf;
  }

  lemma RegisteredSound(s: State, r: Request)
    requires Sound(s) && r.RegisterTarget? && ContentOf(r).Some? && Change(s, r).Ok?
    ensures var t := Change(s, r).value;
      && SoundTarget(t) && Named(r.target, t) && !t.hold
      && |InState(t, TrashStaged)| == |InState(t, Deleted)| == 0
    ensures Count(s.events, r.target, Staging) == 0 && Count(s.events, r.target, Deletion) == 0
    ensures Count(s.events, r.target, Placing) == 0 && Count(s.events, r.target, Releasing) == 0
  {
    ContentNames(r);
    hide IsText, ContentOf;
    CollectedSpecs(r.copies);
    NewTargetSound(r.actor, Canonical(r.copies).value, r.now);
    CountNone(s.events, r.target, Staging);
    CountNone(s.events, r.target, Deletion);
    CountNone(s.events, r.target, Placing);
    CountNone(s.events, r.target, Releasing);
  }

  lemma HoldSound(s: State, r: Request)
    requires Sound(s) && r.SetLegalHold? && ContentOf(r).Some? && Change(s, r).Ok?
    ensures var t, t' := s.targets[r.target], Change(s, r).value;
      && SoundTarget(t') && Named(r.target, t') && t'.hold == r.hold && t.hold == !r.hold
      && |InState(t', TrashStaged)| == |InState(t, TrashStaged)| && |InState(t', Deleted)| == |InState(t, Deleted)|
  {
    hide IsText, Strip;
    var t, t' := s.targets[r.target], Change(s, r).value;
    assert SoundTarget(t) && Named(r.target, t);
    forall c | c in t'.copies ensures SoundCopy(t', t'.copies[c]) {
      assert SoundCopy(t, t.copies[c]);
    }
  }

  lemma CopyChangeSound(s: State, r: Request)
    requires Sound(s) && (r.StageTrash? || r.AttestDeleted?) && ContentOf(r).Some? && Change(s, r).Ok?
    ensures var t, t' := s.targets[r.target], Change(s, r).value;
      && SoundTarget(t') && Named(r.target, t') && t'.hold == t.hold
      && |InState(t', TrashStaged)| == |InState(t, TrashStaged)| + (if r.StageTrash? then 1 else -1)
      && |InState(t', Deleted)| == |InState(t, Deleted)| + (if r.StageTrash? then 0 else 1)
  {
    var t := s.targets[r.target];
    assert SoundTarget(t) && Named(r.target, t);
    hide IsText, IsSha256, InState, Remaining, SoundTarget;
    if r.StageTrash? {
      StagedSound(t, r.copyId, r.now);
    } else {
      AttestedSound(t, r.copyId, r.receipt, r.now);
    }
  }

  /** Each change keeps its target sound and accounted for. */
  lemma ChangeSound(s: State, r: Request)
    requires Sound(s) && ContentOf(r).Some? && Change(s, r).Ok?
    ensures SoundTarget(Change(s, r).value) && Named(r.target, Change(s, r).value)
    ensures Accounted(s.events + [EventOf(r)], r.target, Change(s, r).value)
  {
    ContentNames(r);
    hide Count, InState, SoundTarget, Named, ContentOf, Canonical, IsText, KindOf;
    if r.RegisterTarget? {
      RegisteredSound(s, r);
    } else {
      assert r.target in s.targets && Accounted(s.events, r.target, s.targets[r.target]);
      if r.SetLegalHold? {
        HoldSound(s, r);
      } else {
        CopyChangeSound(s, r);
      }
    }
    hide Sound, Change;
    AccountedAfter(s.events, EventOf(r), r.target, Change(s, r).value);
  }

  lemma SoundWith(s: State, s': State, target: string, t: Target, e: Event)
    requires Sound(s) && SoundTarget(t) && Named(target, t) && e.content.target == target
    requires Accounted(s.events + [e], target, t)
    requires s'.targets == s.targets[target := t] && s'.events == s.events + [e]
    ensures Sound(s')
  {
    hide SoundTarget, Named, Accounted;
    forall other | other in s.targets && other != target ensures Accounted(s'.events, other, s.targets[other]) {
      OthersAccounted(s.events, e, other, s.targets[other]);
    }
  }

  lemma StepKeepsSound(s: State, op: Op)
    requires Sound(s)
    ensures Sound(Step(s, op)) && s.events <= Step(s, op).events
  {
    StepCases(s, op);
    var s', r := Step(s, op), op.request;
    if !Quiet(s, s') {
      ChangeSound(s, r);
      ContentNames(r);
      SoundWith(s, s', r.target, Change(s, r).value, EventOf(r));
    }
    hide Step, Change, SoundTarget, ContentOf, Named, Accounted, Canonical, IsText, RequestKind, KindOf;
  }

  lemma OthersAccounted(events: seq<Event>, e: Event, target: string, t: Target)
    requires Accounted(events, target, t) && e.content.target != target
    ensures Accounted(events + [e], target, t)
  {
    CountSnoc(events, e, target, Staging);
    CountSnoc(events, e, target, Deletion);
    CountSnoc(events, e, target, Placing);
    CountSnoc(events, e, target, Releasing);
    hide Count, InState;
  }

  lemma InTrashByLog(s: State, target: string)
    requires Sound(s) && target in s.targets
    ensures |InState(s.targets[target], TrashStaged)| == Count(s.events, target, Staging) - Count(s.events, target, Deletion)
    ensures s.targets[target].hold <==> Count(s.events, target, Placing) > Count(s.events, target, Releasing)
  {
    assert Accounted(s.events, target, s.targets[target]);
  }

  /**
   In every run and under all clocks: copies were staged no earlier than
   fourteen days after creation, a target is complete exactly when all its
   copies are deleted, and the log counts them: staged minus deleted events is
   the number of copies now in trash, and a hold is on exactly when one more
   was placed than released.
   */
  lemma {:induction false} RunKeepsSound(ops: seq<Op>)
    ensures Sound(Run(EMPTY, ops))
    ensures forall target | target in Run(EMPTY, ops).targets ::
      var s, t := Run(EMPTY, ops), Run(EMPTY, ops).targets[target];
      && (forall c | c in t.copies && t.copies[c].state != Active ::
            t.copies[c].stagedAt.Some? && t.copies[c].stagedAt.value >= t.createdAt + RETENTION_MICROS)
      && (t.completedAt.Some? <==> t.copies != map[] && forall c | c in t.copies :: t.copies[c].state == Deleted)
      && |InState(t, TrashStaged)| == Count(s.events, target, Staging) - Count(s.events, target, Deletion)
      && (t.hold <==> Count(s.events, target, Placing) > Count(s.events, target, Releasing))
  {
    if ops != [] {
      RunKeepsSound(ops[..|ops| - 1]);
      StepKeepsSound(Run(EMPTY, ops[..|ops| - 1]), ops[|ops| - 1]);
    }
    forall target | target in Run(EMPTY, ops).targets
      ensures var s, t := Run(EMPTY, ops), Run(EMPTY, ops).targets[target];
        && |InState(t, TrashStaged)| == Count(s.events, target, Staging) - Count(s.events, target, Deletion)
        && (t.hold <==> Count(s.events, target, Placing) > Count(s.events, target, Releasing))
    {
      InTrashByLog(Run(EMPTY, ops), target);
    }
    hide Count, InState, Accounted, Named;
  }

  // ---- Copies over time ----

  function Rank(state: CopyState): nat {
    match state case Active => 0 case TrashStaged => 1 case Deleted => 2
  }

  /** A copy keeps its identity, and moves only forward: from active to trash, from trash to deleted. */
  predicate CopyMoves(c: Copy, later: Copy) {
    && later.identity == c.identity
    && Rank(c.state) <= Rank(later.state)
    && (later.state == c.state ==> later == c)
    && (c.stagedAt.Some? ==> later.stagedAt == c.stagedAt)
  }

  predicate TargetMoves(t: Target, later: Target) {
    && later.copies.Keys == t.copies.Keys
    && later.createdAt == t.createdAt && later.expiresAt == t.expiresAt && later.createdBy == t.createdBy
    && (t.completedAt.Some? ==> later == t)
    && forall c | c in t.copies :: CopyMoves(t.copies[c], later.copies[c])
  }

  lemma ChangeMoves(s: State, r: Request)
    requires Sound(s) && ContentOf(r).Some? && Change(s, r).Ok? && r.target in s.targets
    ensures TargetMoves(s.targets[r.target], Change(s, r).value)
    ensures s.targets[r.target].hold ==>
              r.SetLegalHold? && !r.hold && Change(s, r).value.copies == s.targets[r.target].copies
  {
    var t, t' := s.targets[r.target], Change(s, r).value;
    assert SoundTarget(t);
    if r.StageTrash? || r.AttestDeleted? {
      assert SoundCopy(t, t.copies[r.copyId]);
      OneCopyMoves(t, t', r.copyId);
    } else {
      AllCopiesStay(t, t');
    }
    hide ContentOf, Strip, Remaining, Canonical, SoundTarget, SoundCopy;
  }

  lemma OneCopyMoves(t: Target, later: Target, copyId: string)
    requires copyId in t.copies && copyId in later.copies && later.copies == t.copies[copyId := later.copies[copyId]]
    requires CopyMoves(t.copies[copyId], later.copies[copyId])
    requires later.createdAt == t.createdAt && later.expiresAt == t.expiresAt && later.createdBy == t.createdBy
    requires t.completedAt.None?
    ensures TargetMoves(t, later)
  {
  }

  lemma AllCopiesStay(t: Target, later: Target)
    requires later.copies == t.copies
    requires later.createdAt == t.createdAt && later.expiresAt == t.expiresAt && later.createdBy == t.createdBy
    requires t.completedAt.None?
    ensures TargetMoves(t, later)
  {
  }

  lemma StepMoves(s: State, op: Op, target: string)
    requires Sound(s) && target in s.targets
    ensures target in Step(s, op).targets && TargetMoves(s.targets[target], Step(s, op).targets[target])
  {
    StepCases(s, op);
    TargetStays(s.targets[target]);
    hide Sound, Step, Change, ContentOf, TargetMoves;
    if Changed(s, Step(s, op), op.request) && op.request.target == target {
      ChangeMoves(s, op.request);
    }
  }

  lemma TargetStays(t: Target)
    ensures TargetMoves(t, t)
  {
  }

  /** Over any run, copies keep their identity and only move forward, and a completed target never changes again. */
  lemma {:induction false} CopiesMoveForward(s: State, ops: seq<Op>, target: string)
    requires Sound(s) && target in s.targets
    ensures target in Run(s, ops).targets && TargetMoves(s.targets[target], Run(s, ops).targets[target])
    ensures Sound(Run(s, ops)) && s.events <= Run(s, ops).events
  {
    if ops == [] {
      TargetStays(s.targets[target]);
    } else {
      var before, op := Run(s, ops[..|ops| - 1]), ops[|ops| - 1];
      CopiesMoveForward(s, ops[..|ops| - 1], target);
      StepKeepsSound(before, op);
      StepMoves(before, op, target);
      MovesCompose(s.targets[target], before.targets[target], Step(before, op).targets[target]);
    }
    hide Step, Sound, TargetMoves;
  }

  lemma MovesCompose(t: Target, u: Target, v: Target)
    requires TargetMoves(t, u) && TargetMoves(u, v)
    ensures TargetMoves(t, v)
  {
    forall c | c in t.copies ensures CopyMoves(t.copies[c], v.copies[c]) {
      assert CopyMoves(t.copies[c], u.copies[c]) && CopyMoves(u.copies[c], v.copies[c]);
    }
  }

  // ---- Legal holds ----

  predicate IsRelease(e: Event, target: string) {
    e.content.target == target && e.content.detail.Hold? && !e.content.detail.hold
  }

  /** What a step on a state with a held target appends, and that only a release may touch the target. */
  lemma HeldStep(s: State, op: Op, target: string) returns (appended: seq<Event>)
    requires Sound(s) && target in s.targets && s.targets[target].hold
    ensures Step(s, op).events == s.events + appended && target in Step(s, op).targets
    ensures (forall e | e in appended :: !IsRelease(e, target)) ==>
      Step(s, op).targets[target].hold && Step(s, op).targets[target].copies == s.targets[target].copies
  {
    StepCases(s, op);
    appended := [];
    assert s.events + [] == s.events;
    hide Sound, Step, Change, ContentOf, EventOf, IsRelease, FindByKey;
    if !Quiet(s, Step(s, op)) {
      appended := [EventOf(op.request)];
      assert appended[0] in appended;
      if op.request.target == target {
        HeldOnlyReleased(s, op.request);
      }
    }
  }

  lemma HeldOnlyReleased(s: State, r: Request)
    requires Sound(s) && ContentOf(r).Some? && Change(s, r).Ok? && r.target in s.targets && s.targets[r.target].hold
    ensures IsRelease(EventOf(r), r.target)
  {
    ChangeMoves(s, r);
    ContentNames(r);
    hide ContentOf, Change, Sound;
  }

  /** While a hold is on, no copy changes: the copies are as they were until an event releases the hold. */
  lemma {:induction false} HeldCopiesStay(s: State, ops: seq<Op>, target: string) returns (appended: seq<Event>)
    requires Sound(s) && target in s.targets && s.targets[target].hold
    ensures Run(s, ops).events == s.events + appended && target in Run(s, ops).targets && Sound(Run(s, ops))
    ensures (forall e | e in appended :: !IsRelease(e, target)) ==>
      Run(s, ops).targets[target].hold && Run(s, ops).targets[target].copies == s.targets[target].copies
  {
    appended := [];
    hide Sound, Step, IsRelease;
    CopiesMoveForward(s, ops, target);
    if ops != [] {
      var before, op := Run(s, ops[..|ops| - 1]), ops[|ops| - 1];
      var earlier := HeldCopiesStay(s, ops[..|ops| - 1], target);
      var one := HeldOrReleased(before, op, target);
      appended := earlier + one;
    }
  }

  lemma HeldOrReleased(s: State, op: Op, target: string) returns (appended: seq<Event>)
    requires Sound(s) && target in s.targets
    ensures Step(s, op).events == s.events + appended && target in Step(s, op).targets
    ensures s.targets[target].hold && (forall e | e in appended :: !IsRelease(e, target)) ==>
      Step(s, op).targets[target].hold && Step(s, op).targets[target].copies == s.targets[target].copies
  {
    hide Step, Sound, IsRelease, TargetMoves;
    StepMoves(s, op, target);
    StepKeepsSound(s, op);
    if s.targets[target].hold {
      appended := HeldStep(s, op, target);
    } else {
      appended := Step(s, op).events[|s.events|..];
    }
  }

  // ---- Replays ----

  /** Once a request is recorded, repeating it in any later state returns the target as it then is and changes nothing but the audit log. */
  lemma RetryChangesNothing(s: State, ops: seq<Op>, op: Op, again: Op)
    requires Sound(s) && Transact(s, op.request, op.audit).1.Ok?
    requires again.request.key == op.request.key && ContentOf(again.request) == ContentOf(op.request)
    requires AuditAdmitted(again.audit)
    ensures var later := Run(Step(s, op), ops);
      && op.request.target in later.targets
      && Transact(later, again.request, again.audit)
         == (later.(audit := AppendAudit(later.audit, again.audit)), Ok(later.targets[op.request.target]))
  {
    var r := op.request;
    ContentNames(r);
    ContentNames(again.request);
    StepKeepsSound(s, op);
    RecordedAfter(s, op);
    LoggedTargetsExist(s, op);
    var first := Step(s, op);
    RunKeepsRecord(first, ops, r.key);
    assert FindByKey(first.events, r.key).value in first.events;
    var later := Run(first, ops);
    assert FindByKey(later.events, r.key).value in later.events;
    hide Run, Step, Change, ContentOf;
  }

  lemma RecordedAfter(s: State, op: Op)
    requires Transact(s, op.request, op.audit).1.Ok?
    ensures ContentOf(op.request).Some?
    ensures FindByKey(Step(s, op).events, op.request.key).Some?
    ensures FindByKey(Step(s, op).events, op.request.key).value.content == ContentOf(op.request).value
  {
    StepCases(s, op);
    if !Quiet(s, Step(s, op)) {
      FindAppended(s.events, EventOf(op.request), op.request.key);
    }
    hide ContentOf, Change;
  }

  lemma LoggedTargetsExist(s: State, op: Op)
    requires Sound(s)
    ensures forall e | e in Step(s, op).events :: e.content.target in Step(s, op).targets
  {
    StepKeepsSound(s, op);
    hide Step, SoundTarget, Accounted;
  }

  /** The first event under a key is found again after any append. */
  lemma {:induction false} FindAppended(events: seq<Event>, e: Event, key: string)
    ensures FindByKey(events + [e], key)
         == if FindByKey(events, key).Some? then FindByKey(events, key) else if e.key == key then Some(e) else None
  {
    if events == [] {
      assert ([] + [e])[1..] == [];
    } else {
      assert (events + [e])[1..] == events[1..] + [e];
      FindAppended(events[1..], e, key);
    }
  }

  lemma {:induction false} RunKeepsRecord(s: State, ops: seq<Op>, key: string)
    requires Sound(s) && FindByKey(s.events, key).Some?
    ensures Sound(Run(s, ops)) && FindByKey(Run(s, ops).events, key) == FindByKey(s.events, key)
  {
    if ops != [] {
      var before, op := Run(s, ops[..|ops| - 1]), ops[|ops| - 1];
      RunKeepsRecord(s, ops[..|ops| - 1], key);
      StepKeepsSound(before, op);
      StepCases(before, op);
      if !Quiet(before, Step(before, op)) {
        FindAppended(before.events, EventOf(op.request), key);
      }
      hide Step, Change, ContentOf, Sound;
    }
  }

  // ---- The overdue list ----

  /** Some copy of the target can be staged or attested now, by a request that is not a replay. */
  ghost predicate Actionable(s: State, target: string, key: string, actor: string, receipt: string, now: int) {
    exists copyId ::
      || Changes(s, StageTrash(target, copyId, key, actor, now))
      || Changes(s, AttestDeleted(target, copyId, receipt, key, actor, now))
  }

  predicate Changes(s: State, r: Request) {
    ContentOf(r).Some? && Change(s, r).Ok?
  }

  /** The overdue list is exactly the expired targets for which something is left to do and nothing forbids it. */
  lemma OverdueIsActionable(s: State, target: string, key: string, actor: string, receipt: string, now: int)
    requires Sound(s) && target in s.targets && IsText(key) && IsText(actor) && IsSha256(receipt)
    ensures target in Overdue(s, now)
       <==> s.targets[target].expiresAt <= now && Actionable(s, target, key, actor, receipt, now)
  {
    assert SoundTarget(s.targets[target]) && Named(target, s.targets[target]);
    hide IsText, IsSha256, Sound, SoundTarget, Named, Changes;
    if target in Overdue(s, now) {
      SomethingLeft(s, target, key, actor, receipt, now);
    }
    forall copyId, r | r in {StageTrash(target, copyId, key, actor, now), AttestDeleted(target, copyId, receipt, key, actor, now)}
      ensures Changes(s, r) ==> !s.targets[target].hold && s.targets[target].completedAt.None? {
      if Changes(s, r) { ChangesOpenTarget(s, r, copyId); }
    }
  }

  lemma ChangesOpenTarget(s: State, r: Request, copyId: string)
    requires r.target in s.targets && SoundTarget(s.targets[r.target]) && Changes(s, r)
    requires r == StageTrash(r.target, copyId, r.key, r.actor, r.now)
          || (r.AttestDeleted? && r == AttestDeleted(r.target, copyId, r.receipt, r.key, r.actor, r.now))
    ensures !s.targets[r.target].hold && s.targets[r.target].completedAt.None?
  {
    hide IsText, IsSha256;
  }

  lemma SomethingLeft(s: State, target: string, key: string, actor: string, receipt: string, now: int)
    requires target in Overdue(s, now) && SoundTarget(s.targets[target]) && Named(target, s.targets[target])
    requires IsText(key) && IsText(actor) && IsSha256(receipt)
    ensures Actionable(s, target, key, actor, receipt, now)
  {
    hide IsText, IsSha256;
    var t := s.targets[target];
    var c :| c in t.copies && t.copies[c].state != Deleted;
    if t.copies[c].state == Active {
      assert Changes(s, StageTrash(target, c, key, actor, now));
    } else {
      assert Changes(s, AttestDeleted(target, c, receipt, key, actor, now));
    }
  }
}
