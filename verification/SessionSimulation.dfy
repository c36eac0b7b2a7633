/** The durable session store simulates the in-memory reference, and exactly where it does not. */
module SessionSimulation {
  import opened Basics
  import opened ScopedKeys
  import opened SessionStores

  // ---- The relation ----

  predicate SameSession(row: Row, record: Record, a: Authorization) {
    row.record == record && row.scope == a.scope && row.owner == a.owner
  }

  predicate Related(r: Reference, d: Durable) {
    && r.items.Keys == d.rows.Keys && r.authorization.Keys == d.rows.Keys
    && forall id | id in d.rows :: SameSession(d.rows[id], r.items[id], r.authorization[id])
  }

  /** The log holds exactly the versions that each session has gone through. */
  ghost predicate LogComplete(d: Durable) {
    && (forall id | id in d.rows :: d.rows[id].version >= 1)
    && forall id, v :: VersionLogged(d.events, id, v) <==> id in d.rows && 1 <= v <= d.rows[id].version
  }

  lemma LoggedSnoc(events: seq<Event>, e: Event, id: string, v: int)
    ensures VersionLogged(events + [e], id, v) <==> VersionLogged(events, id, v) || (e.sessionId == id && e.version == v)
  {
    if VersionLogged(events, id, v) {
      var i :| 0 <= i < |events| && events[i].sessionId == id && events[i].version == v;
      assert (events + [e])[i] == events[i];
    }
    if e.sessionId == id && e.version == v {
      assert (events + [e])[|events|] == e;
    }
  }

  /** A commit of a session's next version succeeds and keeps the log complete. */
  lemma CommitKeepsLog(d: Durable, id: string, row: Row, kind: EventType, from: Option<ProcessingStatus>, answer: Answer)
    requires LogComplete(d)
    requires row.version == if id in d.rows then d.rows[id].version + 1 else 1
    ensures Commit(d, id, row, kind, from, answer)
         == (Durable(d.rows[id := row], d.events + [Event(id, kind, from, row.record.status, row.version)]), Ok(answer))
    ensures LogComplete(Commit(d, id, row, kind, from, answer).0)
  {
    var e := Event(id, kind, from, row.record.status, row.version);
    var d' := Durable(d.rows[id := row], d.events + [e]);
    forall other, v
      ensures VersionLogged(d'.events, other, v) <==> other in d'.rows && 1 <= v <= d'.rows[other].version {
      LoggedSnoc(d.events, e, other, v);
    }
    hide VersionLogged;
  }

  // ---- One call ----

  /** The texts and the retention period are within the bounds that only the durable store enforces. */
  predicate WellFormed(call: Call) {
    match call
    case Create(_, _, days, _, owner) => days >= 1 && TextWithin(owner, MAX_TEXT)
    case Get(_, _, asOwner) => asOwner.Some? ==> TextWithin(asOwner.value, MAX_TEXT)
    case MarkUploaded(_, key, _, owner) => TextWithin(key, MAX_KEY) && TextWithin(owner, MAX_TEXT)
    case _ => true
  }

  /** The session is there, is the caller's, and is at the point that this call moves on from. */
  predicate Writes(d: Durable, call: Call) {
    match call
    case MarkUploaded(id, key, scope, owner) =>
      && Selected(d.rows, id, scope, Some(owner))
      && d.rows[id].record.status == Registered && d.rows[id].record.objectKey.GetOr(key) == key
    case CompleteProcessing(id, _, scope) =>
      && Selected(d.rows, id, scope, None)
      && d.rows[id].record.completionId.None? && ReadyForResult(d.rows[id].record)
    case _ => false
  }

  /** The call would write an object key or a completion identifier that another session already holds. */
  predicate Clashes(d: Durable, call: Call) {
    match call
    case MarkUploaded(id, key, _, _) => Writes(d, call) && KeyUsedElsewhere(d.rows, id, key)
    case CompleteProcessing(id, c, _) => Writes(d, call) && CompletionUsedElsewhere(d.rows, id, c.id)
    case _ => false
  }

  predicate NamesItsSession(call: Call) {
    call.CompleteProcessing? ==> call.completion.sessionId == call.id
  }

  lemma RelatedAt(r: Reference, d: Durable, id: string)
    requires Related(r, d)
    ensures id in r.items <==> id in d.rows
    ensures id in r.authorization <==> id in d.rows
    ensures id in d.rows ==> SameSession(d.rows[id], r.items[id], r.authorization[id])
  {
    assert id in r.items.Keys <==> id in d.rows.Keys;
    assert id in r.authorization.Keys <==> id in d.rows.Keys;
  }

  lemma UpdateRelated(r: Reference, d: Durable, id: string, row: Row, record: Record)
    requires Related(r, d) && id in d.rows && row.record == record
    requires row.scope == d.rows[id].scope && row.owner == d.rows[id].owner
    ensures Related(r.(items := r.items[id := record]), d.(rows := d.rows[id := row]))
  {
  }

  /**
   From related states the two stores give the same outcome exactly when a
   completion names its own session and no key or identifier is shared with
   another session; they then stay related.
   */
  lemma CallsAgree(r: Reference, d: Durable, call: Call)
    requires Related(r, d) && LogComplete(d) && WellFormed(call)
    ensures CallReference(r, call).1 == CallDurable(d, call).1 <==> NamesItsSession(call) && !Clashes(d, call)
    ensures NamesItsSession(call) && !Clashes(d, call) ==> Related(CallReference(r, call).0, CallDurable(d, call).0)
    ensures LogComplete(CallDurable(d, call).0)
  {
    match call {
      case Create(id, details, days, scope, owner) => CreatesAgree(r, d, call);
      case MarkUploaded(id, key, scope, owner) => UploadsAgree(r, d, call);
      case CompleteProcessing(id, c, scope) => CompletionsAgree(r, d, call);
      case Get(id, scope, asOwner) => ReadsAgree(r, d, id, scope, asOwner);
      case GetTimeline(id, scope) => ReadsAgree(r, d, id, scope, None);
    }
    hide LogComplete, Related, TextWithin, Commit, KeyUsedElsewhere, CompletionUsedElsewhere, ReadReference, ReadDurable;
  }

  lemma ReadsAgree(r: Reference, d: Durable, id: string, scope: Scope, asOwner: Option<string>)
    requires Related(r, d) && (asOwner.Some? ==> TextWithin(asOwner.value, MAX_TEXT))
    ensures ReadReference(r, id, scope, asOwner) == ReadDurable(d, id, scope, asOwner)
  {
    hide TextWithin;
  }

  lemma CreatesAgree(r: Reference, d: Durable, call: Call)
    requires call.Create? && Related(r, d) && LogComplete(d) && WellFormed(call)
    ensures CallReference(r, call).1 == CallDurable(d, call).1
    ensures Related(CallReference(r, call).0, CallDurable(d, call).0) && LogComplete(CallDurable(d, call).0)
  {
    assert call.owner != "";
    RelatedAt(r, d, call.id);
    if call.id !in d.rows {
      var row := Row(call.scope, call.owner, NewRecord(call.details), 1);
      CommitKeepsLog(d, call.id, row, RegisteredEvent, None, Session(row.record));
      assert !VersionLogged(d.events, call.id, 1);
    }
    hide LogComplete, VersionLogged, Commit, TextWithin;
  }

  lemma QuietCallsAgree(r: Reference, d: Durable, call: Call)
    requires Related(r, d) && WellFormed(call) && NamesItsSession(call)
    requires (call.MarkUploaded? || call.CompleteProcessing?) && !Writes(d, call)
    ensures CallReference(r, call) == (r, CallReference(r, call).1)
    ensures CallDurable(d, call) == (d, CallReference(r, call).1)
  {
    RelatedAt(r, d, call.id);
    assert call.MarkUploaded? ==> call.owner != "";
    hide Related, TextWithin, KeyUsedElsewhere, CompletionUsedElsewhere, PrefixOf, Commit, Repeats, WithUpload, WithResult;
  }

  lemma UploadWrites(r: Reference, d: Durable, call: Call)
    requires Related(r, d) && LogComplete(d) && WellFormed(call) && call.MarkUploaded? && Writes(d, call)
    ensures call.id in d.rows && (Clashes(d, call) <==> KeyUsedElsewhere(d.rows, call.id, call.key))
    ensures var row := d.rows[call.id];
      var next := row.(record := WithUpload(row.record, call.key), version := row.version + 1);
      && CallReference(r, call) == (r.(items := r.items[call.id := next.record]), Ok(Upload(next.record, true)))
      && CallDurable(d, call)
         == if KeyUsedElsewhere(d.rows, call.id, call.key) then (d, Err(Conflict))
            else Commit(d, call.id, next, UploadedEvent, Some(Registered), Upload(next.record, true))
  {
    RelatedAt(r, d, call.id);
    assert call.owner != "";
    hide Related, LogComplete, TextWithin, KeyUsedElsewhere, Commit, WithUpload;
  }

  lemma CompletionWrites(r: Reference, d: Durable, call: Call)
    requires Related(r, d) && LogComplete(d) && call.CompleteProcessing? && NamesItsSession(call) && Writes(d, call)
    ensures call.id in d.rows && (Clashes(d, call) <==> CompletionUsedElsewhere(d.rows, call.id, call.completion.id))
    ensures var row := d.rows[call.id];
      var next := row.(record := WithResult(row.record, call.completion), version := row.version + 1);
      && CallReference(r, call) == (r.(items := r.items[call.id := next.record]), Ok(Session(next.record)))
      && CallDurable(d, call)
         == if CompletionUsedElsewhere(d.rows, call.id, call.completion.id) then (d, Err(Conflict))
            else Commit(d, call.id, next, CompletedEvent, Some(row.record.status), Session(next.record))
  {
    RelatedAt(r, d, call.id);
    hide Related, LogComplete, TextWithin, CompletionUsedElsewhere, Commit, WithResult, PrefixOf;
  }

  /** A write of one session that the reference makes, and the durable store makes unless something clashes. */
  lemma WritesAgree(r: Reference, d: Durable, id: string, next: Row, kind: EventType, from: Option<ProcessingStatus>,
                    answer: Answer, clashes: bool, reference: (Reference, Outcome), durable: (Durable, Outcome))
    requires Related(r, d) && LogComplete(d) && id in d.rows && next.version == d.rows[id].version + 1
    requires next.scope == d.rows[id].scope && next.owner == d.rows[id].owner
    requires reference == (r.(items := r.items[id := next.record]), Ok(answer))
    requires durable == if clashes then (d, Err(Conflict)) else Commit(d, id, next, kind, from, answer)
    ensures reference.1 == durable.1 <==> !clashes
    ensures !clashes ==> Related(reference.0, durable.0)
    ensures LogComplete(durable.0)
  {
    hide LogComplete, Commit, SameSession;
    CommitKeepsLog(d, id, next, kind, from, answer);
    UpdateRelated(r, d, id, next, next.record);
  }

  lemma ClashesWrite(d: Durable, call: Call)
    requires !Writes(d, call)
    ensures !Clashes(d, call)
  {
    hide Writes;
  }

  lemma UploadsAgree(r: Reference, d: Durable, call: Call)
    requires call.MarkUploaded? && Related(r, d) && LogComplete(d) && WellFormed(call)
    ensures CallReference(r, call).1 == CallDurable(d, call).1 <==> !Clashes(d, call)
    ensures !Clashes(d, call) ==> Related(CallReference(r, call).0, CallDurable(d, call).0)
    ensures LogComplete(CallDurable(d, call).0)
  {
    assert NamesItsSession(call);
    hide *;
    if Writes(d, call) {
      UploadWrites(r, d, call);
      var row := d.rows[call.id];
      var next := row.(record := WithUpload(row.record, call.key), version := row.version + 1);
      WritesAgree(r, d, call.id, next, UploadedEvent, Some(Registered), Upload(next.record, true), Clashes(d, call),
                  CallReference(r, call), CallDurable(d, call));
    } else {
      ClashesWrite(d, call);
      QuietCallsAgree(r, d, call);
    }
  }

  lemma CompletionsAgree(r: Reference, d: Durable, call: Call)
    requires call.CompleteProcessing? && Related(r, d) && LogComplete(d)
    ensures CallReference(r, call).1 == CallDurable(d, call).1 <==> NamesItsSession(call) && !Clashes(d, call)
    ensures NamesItsSession(call) && !Clashes(d, call) ==> Related(CallReference(r, call).0, CallDurable(d, call).0)
    ensures LogComplete(CallDurable(d, call).0)
  {
    assert WellFormed(call);
    hide *;
    if !NamesItsSession(call) {
      OnlyDurableRefuses(r, d, call);
    } else if Writes(d, call) {
      CompletionWrites(r, d, call);
      var row := d.rows[call.id];
      var next := row.(record := WithResult(row.record, call.completion), version := row.version + 1);
      WritesAgree(r, d, call.id, next, CompletedEvent, Some(row.record.status), Session(next.record), Clashes(d, call),
                  CallReference(r, call), CallDurable(d, call));
    } else {
      ClashesWrite(d, call);
      QuietCallsAgree(r, d, call);
    }
  }

  /** A completion for another session is refused outright by the durable store alone. */
  lemma OnlyDurableRefuses(r: Reference, d: Durable, call: Call)
    requires call.CompleteProcessing? && !NamesItsSession(call)
    ensures CallDurable(d, call) == (d, Err(Invalid)) && CallReference(r, call).1 != Err(Invalid)
  {
  }

  // ---- Runs ----

  function RunReference(s: Reference, calls: seq<Call>): (Reference, seq<Outcome>) {
    if calls == [] then (s, [])
    else
      var (before, outcomes) := RunReference(s, calls[..|calls| - 1]);
      var (after, outcome) := CallReference(before, calls[|calls| - 1]);
      (after, outcomes + [outcome])
  }

  function RunDurable(s: Durable, calls: seq<Call>): (Durable, seq<Outcome>) {
    if calls == [] then (s, [])
    else
      var (before, outcomes) := RunDurable(s, calls[..|calls| - 1]);
      var (after, outcome) := CallDurable(before, calls[|calls| - 1]);
      (after, outcomes + [outcome])
  }

  const NO_SESSIONS := Reference(map[], map[])
  const NO_ROWS := Durable(map[], [])

  predicate SameKey(a: Call, b: Call) {
    a.MarkUploaded? && b.MarkUploaded? && a.key == b.key
  }

  predicate SameCompletion(a: Call, b: Call) {
    a.CompleteProcessing? && b.CompleteProcessing? && a.completion.id == b.completion.id
  }

  /** No object key and no completion identifier is used for two sessions. */
  predicate NothingShared(calls: seq<Call>) {
    forall i, j | 0 <= i < |calls| && 0 <= j < |calls| ::
      SameKey(calls[i], calls[j]) || SameCompletion(calls[i], calls[j]) ==> calls[i].id == calls[j].id
  }

  predicate AllPlain(calls: seq<Call>) {
    forall i | 0 <= i < |calls| :: WellFormed(calls[i]) && NamesItsSession(calls[i])
  }

  predicate KeyFrom(calls: seq<Call>, id: string, key: string) {
    exists i | 0 <= i < |calls| :: calls[i].MarkUploaded? && calls[i].id == id && calls[i].key == key
  }

  predicate CompletionFrom(calls: seq<Call>, id: string, completionId: string) {
    exists i | 0 <= i < |calls| :: calls[i].CompleteProcessing? && calls[i].id == id && calls[i].completion.id == completionId
  }

  /** Every stored key and completion identifier was presented for that session. */
  predicate Presented(rows: map<string, Row>, calls: seq<Call>) {
    forall id | id in rows ::
      && (rows[id].record.objectKey.Some? ==> KeyFrom(calls, id, rows[id].record.objectKey.value))
      && (rows[id].record.completionId.Some? ==> CompletionFrom(calls, id, rows[id].record.completionId.value))
  }

  /** What one durable call can change in the table. */
  lemma RowsAfter(d: Durable, call: Call)
    ensures var rows := CallDurable(d, call).0.rows;
      forall id | id in rows ::
        || (id in d.rows && rows[id].record.objectKey == d.rows[id].record.objectKey
            && rows[id].record.completionId == d.rows[id].record.completionId)
        || (id == call.id && call.Create? && rows[id].record == NewRecord(call.details))
        || (id == call.id && call.MarkUploaded? && rows[id].record.objectKey == Some(call.key)
            && id in d.rows && rows[id].record.completionId == d.rows[id].record.completionId)
        || (id == call.id && call.CompleteProcessing? && rows[id].record.completionId == Some(call.completion.id)
            && id in d.rows && rows[id].record.objectKey == d.rows[id].record.objectKey)
  {
    hide VersionLogged, KeyUsedElsewhere, CompletionUsedElsewhere, TextWithin, PrefixOf, Repeats, ReadyForResult, ReadDurable;
    var rows := CallDurable(d, call).0.rows;
    assert rows == d.rows || (call.id in rows && rows == d.rows[call.id := rows[call.id]]);
  }

  lemma PresentedAfter(d: Durable, calls: seq<Call>, call: Call)
    requires Presented(d.rows, calls)
    ensures Presented(CallDurable(d, call).0.rows, calls + [call])
  {
    RowsAfter(d, call);
    var all := calls + [call];
    assert all[|calls|] == call;
    forall id, key | KeyFrom(calls, id, key) ensures KeyFrom(all, id, key) {
      var i :| 0 <= i < |calls| && calls[i].MarkUploaded? && calls[i].id == id && calls[i].key == key;
      assert all[i] == calls[i];
    }
    forall id, key | CompletionFrom(calls, id, key) ensures CompletionFrom(all, id, key) {
      var i :| 0 <= i < |calls| && calls[i].CompleteProcessing? && calls[i].id == id && calls[i].completion.id == key;
      assert all[i] == calls[i];
    }
    hide CallDurable;
  }

  lemma UnsharedNeverClashes(d: Durable, calls: seq<Call>, call: Call)
    requires Presented(d.rows, calls) && NothingShared(calls + [call])
    ensures !Clashes(d, call)
  {
    var all := calls + [call];
    assert all[|calls|] == call;
    if Clashes(d, call) {
      if call.MarkUploaded? {
        var other :| other in d.rows && other != call.id && d.rows[other].record.objectKey == Some(call.key);
        assert KeyFrom(calls, other, call.key);
        var i :| 0 <= i < |calls| && calls[i].MarkUploaded? && calls[i].id == other && calls[i].key == call.key;
        assert SameKey(all[i], all[|calls|]);
      } else {
        var other :| other in d.rows && other != call.id && d.rows[other].record.completionId == Some(call.completion.id);
        assert CompletionFrom(calls, other, call.completion.id);
        var i :| 0 <= i < |calls| && calls[i].CompleteProcessing? && calls[i].id == other
                 && calls[i].completion.id == call.completion.id;
        assert SameCompletion(all[i], all[|calls|]);
      }
    }
  }

  /**
   On every sequence of well-formed calls in which completions name their own
   session and neither object keys nor completion identifiers are shared between
   sessions, both stores return the same outcome to every call and end with the
   same sessions.
   */
  lemma {:induction false} RunsAgree(calls: seq<Call>)
    requires AllPlain(calls) && NothingShared(calls)
    ensures RunReference(NO_SESSIONS, calls).1 == RunDurable(NO_ROWS, calls).1
    ensures Related(RunReference(NO_SESSIONS, calls).0, RunDurable(NO_ROWS, calls).0)
    ensures LogComplete(RunDurable(NO_ROWS, calls).0) && Presented(RunDurable(NO_ROWS, calls).0.rows, calls)
  {
    if calls != [] {
      var front, last := calls[..|calls| - 1], calls[|calls| - 1];
      assert calls == front + [last];
      RunsAgree(front);
      var r, d := RunReference(NO_SESSIONS, front).0, RunDurable(NO_ROWS, front).0;
      UnsharedNeverClashes(d, front, last);
      CallsAgree(r, d, last);
      PresentedAfter(d, front, last);
      hide CallReference, CallDurable, Clashes, Related, LogComplete, Presented, NothingShared;
    }
  }

  /** The two stores would part at this call: it completes another session, or shares a key or identifier. */
  predicate Parts(d: Durable, call: Call) {
    !NamesItsSession(call) || Clashes(d, call)
  }

  ghost predicate PartsNowhere(calls: seq<Call>) {
    forall k | 0 <= k < |calls| :: !Parts(RunDurable(NO_ROWS, calls[..k]).0, calls[k])
  }

  lemma PartsNowhereSnoc(front: seq<Call>, last: Call)
    ensures PartsNowhere(front + [last]) <==> PartsNowhere(front) && !Parts(RunDurable(NO_ROWS, front).0, last)
  {
    hide RunDurable, Parts;
    var all := front + [last];
    assert all[..|front|] == front && all[|front|] == last;
    forall k | 0 <= k < |front| ensures all[..k] == front[..k] && all[k] == front[k] {
    }
    if PartsNowhere(all) {
      forall k | 0 <= k < |front| ensures !Parts(RunDurable(NO_ROWS, front[..k]).0, front[k]) {
        assert !Parts(RunDurable(NO_ROWS, all[..k]).0, all[k]);
      }
      assert !Parts(RunDurable(NO_ROWS, all[..|front|]).0, all[|front|]);
    }
  }

  lemma RunSnoc(front: seq<Call>, last: Call)
    ensures var (r, d) := (RunReference(NO_SESSIONS, front), RunDurable(NO_ROWS, front));
      && RunReference(NO_SESSIONS, front + [last]) == (CallReference(r.0, last).0, r.1 + [CallReference(r.0, last).1])
      && RunDurable(NO_ROWS, front + [last]) == (CallDurable(d.0, last).0, d.1 + [CallDurable(d.0, last).1])
      && |r.1| == |d.1| == |front|
  {
    hide CallReference, CallDurable;
    var all := front + [last];
    assert all[..|all| - 1] == front && all[|all| - 1] == last;
    OneEach(front);
  }

  lemma {:induction false} OneEach(calls: seq<Call>)
    ensures |RunReference(NO_SESSIONS, calls).1| == |RunDurable(NO_ROWS, calls).1| == |calls|
  {
    if calls != [] {
      OneEach(calls[..|calls| - 1]);
    }
  }

  /**
   On every sequence of well-formed calls the two stores return the same
   outcomes exactly when they part at none of them; they then hold the same
   sessions.
   */
  lemma {:induction false} RunsAgreeExactly(calls: seq<Call>)
    requires forall k | 0 <= k < |calls| :: WellFormed(calls[k])
    ensures RunReference(NO_SESSIONS, calls).1 == RunDurable(NO_ROWS, calls).1 <==> PartsNowhere(calls)
    ensures PartsNowhere(calls) ==> Related(RunReference(NO_SESSIONS, calls).0, RunDurable(NO_ROWS, calls).0)
    ensures PartsNowhere(calls) ==> LogComplete(RunDurable(NO_ROWS, calls).0)
  {
    if calls != [] {
      var front, last := calls[..|calls| - 1], calls[|calls| - 1];
      assert calls == front + [last];
      RunsAgreeExactly(front);
      RunSnoc(front, last);
      PartsNowhereSnoc(front, last);
      hide RunReference, RunDurable, CallReference, CallDurable, Clashes, Related, LogComplete, PartsNowhere, WellFormed;
      if PartsNowhere(front) {
        CallsAgree(RunReference(NO_SESSIONS, front).0, RunDurable(NO_ROWS, front).0, last);
      }
      SameOutcomes(RunReference(NO_SESSIONS, front).1, RunDurable(NO_ROWS, front).1,
                   CallReference(RunReference(NO_SESSIONS, front).0, last).1, CallDurable(RunDurable(NO_ROWS, front).0, last).1);
    }
  }

  lemma SameOutcomes(a: seq<Outcome>, b: seq<Outcome>, x: Outcome, y: Outcome)
    requires |a| == |b|
    ensures a + [x] == b + [y] <==> a == b && x == y
  {
    if a + [x] == b + [y] {
      assert a == (a + [x])[..|a|] && b == (b + [y])[..|b|];
      assert (a + [x])[|a|] == x && (b + [y])[|b|] == y;
    }
  }

  const SOME_SCOPE: Scope := ScopeFields("aaa", "aaa")

  const TWO_SESSIONS := [Create("s", "", 1, SOME_SCOPE, "o"), Create("t", "", 1, SOME_SCOPE, "o"),
                         MarkUploaded("s", "k", SOME_SCOPE, "o")]

  lemma PlainTexts()
    ensures TextWithin("o", MAX_TEXT) && TextWithin("k", MAX_KEY) && "s" != "t"
  {
    assert "s"[0] == 's' && "t"[0] == 't' && "o"[0] == 'o' && "k"[0] == 'k';
  }

  lemma CreateWrites(d: Durable, id: string)
    requires LogComplete(d) && id !in d.rows
    ensures var (d', outcome) := CallDurable(d, Create(id, "", 1, SOME_SCOPE, "o"));
      d'.rows == d.rows[id := Row(SOME_SCOPE, "o", NewRecord(""), 1)] && LogComplete(d')
  {
    PlainTexts();
    CommitKeepsLog(d, id, Row(SOME_SCOPE, "o", NewRecord(""), 1), RegisteredEvent, None, Session(NewRecord("")));
    assert !VersionLogged(d.events, id, 1);
    hide LogComplete, VersionLogged, Commit, TextWithin;
  }

  lemma TwoCreated()
    ensures RunDurable(NO_ROWS, TWO_SESSIONS[..2]).0.rows
         == map["s" := Row(SOME_SCOPE, "o", NewRecord(""), 1), "t" := Row(SOME_SCOPE, "o", NewRecord(""), 1)]
  {
    PlainTexts();
    var one, two := TWO_SESSIONS[..1], TWO_SESSIONS[..2];
    assert [] + [TWO_SESSIONS[0]] == one && one + [TWO_SESSIONS[1]] == two;
    RunSnoc([], TWO_SESSIONS[0]);
    RunSnoc(one, TWO_SESSIONS[1]);
    assert RunDurable(NO_ROWS, []).0 == NO_ROWS;
    assert LogComplete(NO_ROWS) by { RunsAgree([]); }
    hide RunDurable, RunReference, CallReference, CallDurable, LogComplete, TextWithin;
    CreateWrites(NO_ROWS, "s");
    CreateWrites(RunDurable(NO_ROWS, one).0, "t");
  }

  lemma TwoSessions()
    ensures var (r, d) := (RunReference(NO_SESSIONS, TWO_SESSIONS).0, RunDurable(NO_ROWS, TWO_SESSIONS).0);
      && Related(r, d) && LogComplete(d) && "s" in d.rows && d.rows["s"].record.objectKey == Some("k")
      && "t" in d.rows && d.rows["t"] == Row(SOME_SCOPE, "o", NewRecord(""), 1)
  {
    PlainTexts();
    TwoCreated();
    hide TextWithin, RunDurable, RunReference, CallReference, CallDurable, LogComplete, Related, Presented;
    var two := TWO_SESSIONS[..2];
    assert two + [TWO_SESSIONS[2]] == TWO_SESSIONS;
    RunsAgree(TWO_SESSIONS);
    RunsAgree(two);
    RunSnoc(two, TWO_SESSIONS[2]);
    UploadWrites(RunReference(NO_SESSIONS, two).0, RunDurable(NO_ROWS, two).0, TWO_SESSIONS[2]);
    var next := Row(SOME_SCOPE, "o", WithUpload(NewRecord(""), "k"), 2);
    CommitKeepsLog(RunDurable(NO_ROWS, two).0, "s", next, UploadedEvent, Some(Registered), Upload(next.record, true));
  }

  /** A second session marked uploaded under the same key: the reference agrees, the durable store refuses. */
  lemma SharedKeyParts()
    ensures var call := MarkUploaded("t", "k", SOME_SCOPE, "o");
      && CallReference(RunReference(NO_SESSIONS, TWO_SESSIONS).0, call).1.Ok?
      && CallDurable(RunDurable(NO_ROWS, TWO_SESSIONS).0, call).1 == Err(Conflict)
  {
    PlainTexts();
    TwoSessions();
    hide RunReference, RunDurable, CallReference, CallDurable, TextWithin, LogComplete, Related;
    UploadWrites(RunReference(NO_SESSIONS, TWO_SESSIONS).0, RunDurable(NO_ROWS, TWO_SESSIONS).0, MarkUploaded("t", "k", SOME_SCOPE, "o"));
  }
}
