/** What the retention ledger answers and writes for a request it has not recorded before. */
module RetentionAnswers {
  import opened Basics
  import opened AuditLog
  import opened Retention
  import opened RetentionHistory

  const DAY := 24 * 3600 * 1_000_000

  /** The request succeeded: its target reads thus, and one event with this content was logged under its key. */
  predicate Did(s: State, r: Request, audit: Option<AuditContext>, t: Target, copyId: Option<string>, detail: Detail) {
    var (s', result) := Transact(s, r, audit);
    && result == Ok(t) && s'.targets == s.targets[r.target := t]
    && s'.events == s.events + [Event(r.key, Content(r.target, copyId, r.actor, detail), r.now)]
    && s'.audit == if audit.Some? then s.audit + [audit.value] else s.audit
  }

  predicate Refused(s: State, r: Request, audit: Option<AuditContext>, error: Error) {
    Transact(s, r, audit) == (s, Err(error))
  }

  predicate Fresh(s: State, r: Request, audit: Option<AuditContext>) {
    IsText(r.target) && IsText(r.key) && IsText(r.actor) && AuditAdmitted(audit) && forall e | e in s.events :: e.key != r.key
  }

  lemma FreshTransacts(s: State, r: Request, audit: Option<AuditContext>)
    requires Fresh(s, r, audit)
    ensures ContentOf(r).None? ==> Refused(s, r, audit, InvalidArgument)
    ensures ContentOf(r).Some? && Change(s, r).Err? ==> Refused(s, r, audit, Change(s, r).error)
    ensures ContentOf(r).Some? && Change(s, r).Ok? && ContentOf(r).value.target == r.target && ContentOf(r).value.actor == r.actor ==>
              Did(s, r, audit, Change(s, r).value, ContentOf(r).value.copyId, ContentOf(r).value.detail)
  {
    assert FindByKey(s.events, r.key).None?;
    hide ContentOf, Change, IsText, FindByKey;
  }

  /** What an admitted request records under its key. */
  function Recorded(r: Request): Content
    requires r.RegisterTarget? ==> Canonical(r.copies).Some?
    requires r.SetLegalHold? && r.hold ==> r.reason.Some?
  {
    match r
    case RegisterTarget(target, copies, _, actor, _) => Content(target, None, actor, Registered(Canonical(copies).value))
    case SetLegalHold(target, hold, reason, _, actor, _) =>
      Content(target, None, actor, Hold(hold, if hold then Some(Strip(reason.value)) else None))
    case StageTrash(target, copyId, _, actor, _) => Content(target, Some(copyId), actor, Staged)
    case AttestDeleted(target, copyId, receipt, _, actor, _) => Content(target, Some(copyId), actor, DeletionAttested(receipt))
  }

  lemma ContentIs(r: Request)
    requires ContentOf(r).Some?
    ensures r.RegisterTarget? ==> Canonical(r.copies).Some?
    ensures r.SetLegalHold? && r.hold ==> r.reason.Some?
    ensures ContentOf(r).value == Recorded(r) && ContentOf(r).value.target == r.target
  {
    assert !IsText("");
    hide IsText, Canonical, Strip, IsSha256;
  }

  /** A recorded key gets its target as it stands now, exactly for the request that was recorded; nothing else is done. */
  lemma ReplayAnswers(s: State, r: Request, audit: Option<AuditContext>, e: Event)
    requires Sound(s) && AuditAdmitted(audit) && ContentOf(r).Some?
    requires e in s.events && e.key == r.key && (forall other | other in s.events && other.key == r.key :: other == e)
    ensures r.RegisterTarget? ==> Canonical(r.copies).Some?
    ensures r.SetLegalHold? && r.hold ==> r.reason.Some?
    ensures if e.content == Recorded(r) then
        && r.target in s.targets
        && Transact(s, r, audit) == (if audit.Some? then s.(audit := s.audit + [audit.value]) else s, Ok(s.targets[r.target]))
      else Refused(s, r, audit, Conflict)
  {
    ContentIs(r);
    assert FindByKey(s.events, r.key) == Some(e);
    assert e.content.target in s.targets;
    hide ContentOf, Recorded, FindByKey, Sound, Change;
  }

  // ---- Lists of copies ----

  /** Well-formed copies, no identifier twice. */
  predicate Good(copies: seq<CopySpec>) {
    && (forall i | 0 <= i < |copies| :: IsCopySpec(copies[i]))
    && forall i, j | 0 <= i < j < |copies| :: copies[i].copyId != copies[j].copyId
  }

  /** The copies of a list, by their identifiers. */
  predicate Collects(m: map<string, CopySpec>, copies: seq<CopySpec>) {
    && (forall i | 0 <= i < |copies| :: copies[i].copyId in m && m[copies[i].copyId] == copies[i])
    && forall id | id in m :: exists i :: 0 <= i < |copies| && copies[i].copyId == id
  }

  lemma GoodSnoc(front: seq<CopySpec>, last: CopySpec)
    ensures Good(front + [last])
       <==> Good(front) && IsCopySpec(last) && forall i | 0 <= i < |front| :: front[i].copyId != last.copyId
  {
    hide IsCopySpec;
    var all := front + [last];
    assert all[|front|] == last && forall i | 0 <= i < |front| :: all[i] == front[i];
    if Good(all) {
      forall i, j | 0 <= i < j < |front| ensures front[i].copyId != front[j].copyId {
        assert all[i].copyId != all[j].copyId;
      }
      forall i | 0 <= i < |front| ensures front[i].copyId != last.copyId && IsCopySpec(front[i]) {
        assert all[i].copyId != all[|front|].copyId && IsCopySpec(all[i]);
      }
      assert IsCopySpec(all[|front|]);
    }
  }

  lemma CollectsSnoc(m: map<string, CopySpec>, front: seq<CopySpec>, last: CopySpec)
    requires Collects(m, front) && last.copyId !in m
    ensures Collects(m[last.copyId := last], front + [last])
  {
    var all := front + [last];
    assert all[|front|] == last && forall i | 0 <= i < |front| :: all[i] == front[i];
    var m' := m[last.copyId := last];
    forall id | id in m' ensures exists i :: 0 <= i < |all| && all[i].copyId == id {
      if id == last.copyId {
        assert all[|front|].copyId == id;
      } else {
        var i :| 0 <= i < |front| && front[i].copyId == id;
        assert all[i].copyId == id;
      }
    }
  }

  lemma {:induction false} CollectedMeans(copies: seq<CopySpec>)
    ensures Collected(copies).Some? <==> Good(copies)
    ensures Collected(copies).Some? ==> Collects(Collected(copies).value, copies)
  {
    hide IsCopySpec, Collects, Good;
    if copies == [] {
      NoCopies();
    } else {
      var front, last := copies[..|copies| - 1], copies[|copies| - 1];
      assert copies == front + [last];
      CollectedMeans(front);
      GoodSnoc(front, last);
      if Collected(front).Some? {
        CollectsMeans(Collected(front).value, front, last.copyId);
        if last.copyId !in Collected(front).value { CollectsSnoc(Collected(front).value, front, last); }
      }
    }
  }

  lemma NoCopies()
    ensures Good([]) && Collects(map[], [])
  {
  }

  lemma CollectsMeans(m: map<string, CopySpec>, copies: seq<CopySpec>, id: string)
    requires Collects(m, copies)
    ensures id !in m <==> forall i | 0 <= i < |copies| :: copies[i].copyId != id
  {
  }

  /** A first registration succeeds for every good list; its copies are active and it expires after fourteen days. */
  lemma RegistrationAnswers(s: State, target: string, copies: seq<CopySpec>, key: string, actor: string, now: int, audit: Option<AuditContext>)
    requires Fresh(s, RegisterTarget(target, copies, key, actor, now), audit)
    ensures var r := RegisterTarget(target, copies, key, actor, now);
      if copies == [] || !Good(copies) then Refused(s, r, audit, InvalidArgument)
      else if target in s.targets then Refused(s, r, audit, Conflict)
      else
        exists m: map<string, CopySpec> ::
          && Collects(m, copies)
          && Did(s, r, audit,
                 Target(actor, now, now + 14 * DAY, false, None, None, now, map id | id in m :: Copy(m[id], Active, None, None, None)),
                 None, Registered(m))
  {
    FreshTransacts(s, RegisterTarget(target, copies, key, actor, now), audit);
    CollectedMeans(copies);
    hide Transact, Did, Refused, IsText, IsCopySpec, Collected, Collects, Good;
    if copies != [] && Good(copies) && target !in s.targets {
      assert Collects(Canonical(copies).value, copies);
    }
  }

  // ---- Holds ----

  /** What stripping leaves: the text without its blank ends. */
  lemma {:induction false} StripMeans(text: string) returns (before: string, after: string)
    ensures text == before + Strip(text) + after
    ensures (forall i | 0 <= i < |before| :: IsBlankChar(before[i])) && forall i | 0 <= i < |after| :: IsBlankChar(after[i])
    ensures Strip(text) == "" || (!IsBlankChar(Strip(text)[0]) && !IsBlankChar(Strip(text)[|Strip(text)| - 1]))
    decreases |text|
  {
    hide IsBlankChar;
    if text != "" && IsBlankChar(text[0]) {
      before, after := StripMeans(text[1..]);
      assert text == [text[0]] + text[1..];
      before := [text[0]] + before;
    } else if text != "" && IsBlankChar(text[|text| - 1]) {
      before, after := StripMeans(text[..|text| - 1]);
      assert text == text[..|text| - 1] + [text[|text| - 1]];
      after := after + [text[|text| - 1]];
    } else {
      before, after := "", "";
    }
  }

  /** A hold can be placed on every target that is not complete, and released from every held one. */
  lemma HoldAnswers(s: State, target: string, hold: bool, reason: Option<string>, key: string, actor: string, now: int, audit: Option<AuditContext>)
    requires Fresh(s, SetLegalHold(target, hold, reason, key, actor, now), audit)
    ensures var r := SetLegalHold(target, hold, reason, key, actor, now);
      if hold != reason.Some? || (hold && !(HasText(reason.value) && |reason.value| <= 512)) then Refused(s, r, audit, InvalidArgument)
      else if target !in s.targets then Refused(s, r, audit, NotFound)
      else if s.targets[target].completedAt.Some? || s.targets[target].hold == hold then Refused(s, r, audit, Conflict)
      else
        var kept := if hold then Some(Strip(reason.value)) else None;
        Did(s, r, audit, s.targets[target].(hold := hold, reason := kept, updatedAt := now), None, Hold(hold, kept))
  {
    FreshTransacts(s, SetLegalHold(target, hold, reason, key, actor, now), audit);
    hide Transact, Did, Refused, IsText, Strip;
  }

  // ---- Copies ----

  /** An active copy is staged exactly from the fourteenth day on, while nothing holds or completes its target. */
  lemma StagingAnswers(s: State, target: string, copyId: string, key: string, actor: string, now: int, audit: Option<AuditContext>)
    requires Sound(s) && Fresh(s, StageTrash(target, copyId, key, actor, now), audit)
    ensures var r := StageTrash(target, copyId, key, actor, now);
      if !HasText(copyId) || |copyId| > 512 then Refused(s, r, audit, InvalidArgument)
      else if target !in s.targets then Refused(s, r, audit, NotFound)
      else
        var t := s.targets[target];
        if t.hold || t.completedAt.Some? || now < t.createdAt + 14 * DAY then Refused(s, r, audit, Conflict)
        else if copyId !in t.copies then Refused(s, r, audit, NotFound)
        else if t.copies[copyId].state != Active then Refused(s, r, audit, Conflict)
        else
          var copy := Copy(t.copies[copyId].identity, TrashStaged, Some(now), None, None);
          Did(s, r, audit, t.(copies := t.copies[copyId := copy], updatedAt := now), Some(copyId), Staged)
  {
    FreshTransacts(s, StageTrash(target, copyId, key, actor, now), audit);
    if target in s.targets { assert SoundTarget(s.targets[target]); }
    hide Transact, Did, Refused, IsText, Accounted, Named;
  }

  /** A staged copy is attested with the given receipt, and the target is complete when that was the last copy. */
  lemma AttestationAnswers(s: State, target: string, copyId: string, receipt: string, key: string, actor: string, now: int,
                           audit: Option<AuditContext>)
    requires Sound(s) && Fresh(s, AttestDeleted(target, copyId, receipt, key, actor, now), audit)
    ensures var r := AttestDeleted(target, copyId, receipt, key, actor, now);
      if !HasText(copyId) || |copyId| > 512 || !IsSha256(receipt) then Refused(s, r, audit, InvalidArgument)
      else if target !in s.targets then Refused(s, r, audit, NotFound)
      else
        var t := s.targets[target];
        if t.hold || t.completedAt.Some? then Refused(s, r, audit, Conflict)
        else if copyId !in t.copies then Refused(s, r, audit, NotFound)
        else if t.copies[copyId].state != TrashStaged then Refused(s, r, audit, Conflict)
        else
          var copy := Copy(t.copies[copyId].identity, Deleted, t.copies[copyId].stagedAt, Some(now), Some(receipt));
          var last := forall id | id in t.copies && id != copyId :: t.copies[id].state == Deleted;
          Did(s, r, audit,
              t.(copies := t.copies[copyId := copy], completedAt := if last then Some(now) else None, updatedAt := now),
              Some(copyId), DeletionAttested(receipt))
  {
    FreshTransacts(s, AttestDeleted(target, copyId, receipt, key, actor, now), audit);
    if target in s.targets {
      if copyId in s.targets[target].copies {
        StagedCopy(s, target, copyId);
        LastCopy(s.targets[target], copyId, receipt, now);
      }
    }
    hide Transact, Did, Refused, IsText, Sound, IsSha256, Remaining;
  }

  lemma StagedCopy(s: State, target: string, copyId: string)
    requires Sound(s) && target in s.targets && copyId in s.targets[target].copies
    ensures s.targets[target].copies[copyId].state == TrashStaged ==> s.targets[target].copies[copyId].deletedAt.None?
  {
    assert SoundTarget(s.targets[target]);
    hide Accounted, Named;
  }

  lemma LastCopy(t: Target, copyId: string, receipt: string, now: int)
    requires copyId in t.copies
    ensures var copies := t.copies[copyId := t.copies[copyId].(state := Deleted, deletedAt := Some(now), receipt := Some(receipt))];
      |Remaining(copies)| == 0 <==> forall id | id in t.copies && id != copyId :: t.copies[id].state == Deleted
  {
    var copies := t.copies[copyId := t.copies[copyId].(state := Deleted, deletedAt := Some(now), receipt := Some(receipt))];
    assert |Remaining(copies)| == 0 <==> Remaining(copies) == {};
    if Remaining(copies) == {} {
      forall id | id in t.copies && id != copyId ensures t.copies[id].state == Deleted {
        assert id !in Remaining(copies);
      }
    }
  }
}
