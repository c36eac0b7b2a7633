/**
 Two stores of recorded sessions: the in-memory reference, and the durable
 store with scoped rows, unique object keys and completion identifiers,
 version numbers and an append-only event log.
 */
module SessionStores {
  import opened Basics
  import opened ScopedKeys

  datatype ProcessingStatus = Registered | Uploaded | Processing | Processed | Failed

  datatype ReviewStatus = NotReady | PendingReview

  /** What callers see of a session; `details` stands for the fields fixed at registration. */
  datatype Record = Record(
    details: string, status: ProcessingStatus, review: ReviewStatus, objectKey: Option<string>,
    prefix: Option<string>, output: Option<string>, completionId: Option<string>)

  /** A worker's completion; its result is kept as canonical text. */
  datatype Completion = Completion(sessionId: string, outputKey: string, result: string, id: string)

  datatype Authorization = Authorization(scope: Scope, owner: string)

  datatype Error = Invalid | Conflict | NotFound | Internal

  /** What a call returns: a record, for uploads whether to start processing, or a timeline. */
  datatype Answer = Session(record: Record) | Upload(record: Record, start: bool) | Timeline(output: string)

  type Outcome = Result<Answer, Error>

  function NewRecord(details: string): Record {
    Record(details, Registered, NotReady, None, None, None, None)
  }

  function LastSlash(s: string): (i: int)
    ensures -1 <= i < |s|
  {
    if s == "" then -1 else if s[|s| - 1] == '/' then |s| - 1 else LastSlash(s[..|s| - 1])
  }

  /** `output_object_key.rsplit("/", 1)[0] + "/"` */
  function PrefixOf(outputKey: string): string {
    (if LastSlash(outputKey) == -1 then outputKey else outputKey[..LastSlash(outputKey)]) + "/"
  }

  function WithUpload(record: Record, key: string): Record {
    record.(status := Uploaded, objectKey := Some(key))
  }

  function WithResult(record: Record, c: Completion): Record {
    record.(status := Processed, review := PendingReview, prefix := Some(PrefixOf(c.outputKey)),
            output := Some(c.result), completionId := Some(c.id))
  }

  predicate Repeats(record: Record, c: Completion) {
    record.completionId == Some(c.id) && record.output == Some(c.result) && record.prefix == Some(PrefixOf(c.outputKey))
  }

  predicate ReadyForResult(record: Record) {
    record.status == Uploaded || record.status == Processing
  }

  datatype Call =
    | Create(id: string, details: string, retentionDays: int, scope: Scope, owner: string)
    | Get(id: string, scope: Scope, asOwner: Option<string>)
    | MarkUploaded(id: string, key: string, scope: Scope, owner: string)
    | CompleteProcessing(id: string, completion: Completion, scope: Scope)
    | GetTimeline(id: string, scope: Scope)

  // ---- The in-memory reference ----

  datatype Reference = Reference(items: map<string, Record>, authorization: map<string, Authorization>)

  function ReadReference(s: Reference, id: string, scope: Scope, asOwner: Option<string>): Result<Record, Error> {
    if id !in s.authorization || id !in s.items then Err(NotFound)
    else if s.authorization[id].scope != scope || (asOwner.Some? && s.authorization[id].owner != asOwner.value)
    then Err(NotFound)
    else Ok(s.items[id])
  }

  function CallReference(s: Reference, call: Call): (Reference, Outcome) {
    match call
    case Create(id, details, _, scope, owner) =>
      if owner == "" then (s, Err(Invalid))
      else if id in s.items then
        if id !in s.authorization || s.authorization[id] != Authorization(scope, owner) then (s, Err(NotFound))
        else (s, Err(Conflict))
      else
        (Reference(s.items[id := NewRecord(details)], s.authorization[id := Authorization(scope, owner)]),
         Ok(Session(NewRecord(details))))
    case Get(id, scope, asOwner) =>
      (s, match ReadReference(s, id, scope, asOwner) case Ok(record) => Ok(Session(record)) case Err(e) => Err(e))
    case MarkUploaded(id, key, scope, owner) =>
      if id !in s.items || id !in s.authorization then (s, Err(NotFound))
      else if owner == "" then (s, Err(Invalid))
      else if s.authorization[id] != Authorization(scope, owner) then (s, Err(NotFound))
      else
        var record := s.items[id];
        if record.objectKey.Some? && record.objectKey.value != key then (s, Err(Conflict))
        else if record.status == Uploaded then (s, Ok(Upload(record, true)))
        else if record.status != Registered then (s, Ok(Upload(record, false)))
        else (s.(items := s.items[id := WithUpload(record, key)]), Ok(Upload(WithUpload(record, key), true)))
    case CompleteProcessing(id, c, scope) =>
      if id !in s.items || id !in s.authorization || s.authorization[id].scope != scope then (s, Err(NotFound))
      else
        var record := s.items[id];
        if record.completionId.Some? then (s, if Repeats(record, c) then Ok(Session(record)) else Err(Conflict))
        else if !ReadyForResult(record) then (s, Err(Conflict))
        else (s.(items := s.items[id := WithResult(record, c)]), Ok(Session(WithResult(record, c))))
    case GetTimeline(id, scope) =>
      (s, match ReadReference(s, id, scope, None)
          case Err(e) => Err(e)
          case Ok(record) => if record.output.None? then Err(NotFound) else Ok(Timeline(record.output.value)))
  }

  class InMemorySessionRepository {
    var items: map<string, Record>
    var authorization: map<string, Authorization>

    ghost function State(): Reference
      reads this
    {
      Reference(items, authorization)
    }

    constructor ()
      ensures State() == Reference(map[], map[])
    {
      items, authorization := map[], map[];
    }

    method CreateSession(id: string, details: string, retentionDays: int, scope: Scope, owner: string) returns (r: Outcome)
      modifies this
      ensures (State(), r) == CallReference(old(State()), Create(id, details, retentionDays, scope, owner))
    {
      if owner == "" { return Err(Invalid); }
      var given := Authorization(scope, owner);
      if id in items {
        if id !in authorization || authorization[id] != given { return Err(NotFound); }
        return Err(Conflict);
      }
      var record := NewRecord(details);
      items := items[id := record];
      authorization := authorization[id := given];
      return Ok(Session(record));
    }

    method GetSession(id: string, scope: Scope, asOwner: Option<string>) returns (r: Result<Record, Error>)
      ensures r == ReadReference(State(), id, scope, asOwner)
    {
      if id !in authorization || id !in items { return Err(NotFound); }
      if authorization[id].scope != scope || (asOwner.Some? && authorization[id].owner != asOwner.value) {
        return Err(NotFound);
      }
      return Ok(items[id]);
    }

    method MarkSessionUploaded(id: string, key: string, scope: Scope, owner: string) returns (r: Outcome)
      modifies this
      ensures (State(), r) == CallReference(old(State()), MarkUploaded(id, key, scope, owner))
    {
      if id !in items || id !in authorization { return Err(NotFound); }
      var record := items[id];
      if owner == "" { return Err(Invalid); }
      if authorization[id] != Authorization(scope, owner) { return Err(NotFound); }
      if record.objectKey.Some? && record.objectKey.value != key { return Err(Conflict); }
      if record.status == Uploaded { return Ok(Upload(record, true)); }
      if record.status != Registered { return Ok(Upload(record, false)); }
      items := items[id := record.(status := Uploaded, objectKey := Some(key))];
      return Ok(Upload(items[id], true));
    }

    method CompleteSession(id: string, c: Completion, scope: Scope) returns (r: Outcome)
      modifies this
      ensures (State(), r) == CallReference(old(State()), CompleteProcessing(id, c, scope))
    {
      if id !in items || id !in authorization { return Err(NotFound); }
      var record := items[id];
      if authorization[id].scope != scope { return Err(NotFound); }
      var prefix := PrefixOf(c.outputKey);
      if record.completionId.Some? {
        if record.completionId == Some(c.id) && record.output == Some(c.result) && record.prefix == Some(prefix) {
          return Ok(Session(record));
        }
        return Err(Conflict);
      }
      if record.status != Uploaded && record.status != Processing { return Err(Conflict); }
      items := items[id := record.(status := Processed, review := PendingReview, prefix := Some(prefix),
                                   output := Some(c.result), completionId := Some(c.id))];
      return Ok(Session(items[id]));
    }

    method GetSessionTimeline(id: string, scope: Scope) returns (r: Outcome)
      ensures (State(), r) == CallReference(State(), GetTimeline(id, scope))
    {
      var got := GetSession(id, scope, None);
      if got.Err? { return Err(got.error); }
      if got.value.output.None? { return Err(NotFound); }
      return Ok(Timeline(got.value.output.value));
    }
  }

  // ---- The durable store ----

  datatype Row = Row(scope: Scope, owner: string, record: Record, version: int)

  datatype EventType = RegisteredEvent | UploadedEvent | CompletedEvent

  datatype Event = Event(
    sessionId: string, kind: EventType, fromState: Option<ProcessingStatus>, toState: ProcessingStatus, version: int)

  datatype Durable = Durable(rows: map<string, Row>, events: seq<Event>)

  const MAX_TEXT := 512
  const MAX_KEY := 1024

  predicate TextWithin(s: string, maximum: nat) {
    HasText(s) && |s| <= maximum
  }

  predicate KeyUsedElsewhere(rows: map<string, Row>, id: string, key: string) {
    exists other | other in rows :: other != id && rows[other].record.objectKey == Some(key)
  }

  predicate CompletionUsedElsewhere(rows: map<string, Row>, id: string, completionId: string) {
    exists other | other in rows :: other != id && rows[other].record.completionId == Some(completionId)
  }

  predicate VersionLogged(events: seq<Event>, id: string, version: int) {
    exists i | 0 <= i < |events| :: events[i].sessionId == id && events[i].version == version
  }

  predicate Selected(rows: map<string, Row>, id: string, scope: Scope, asOwner: Option<string>) {
    id in rows && rows[id].scope == scope && (asOwner.Some? ==> rows[id].owner == asOwner.value)
  }

  function ReadDurable(s: Durable, id: string, scope: Scope, asOwner: Option<string>): Result<Record, Error> {
    if asOwner.Some? && !TextWithin(asOwner.value, MAX_TEXT) then Err(Invalid)
    else if !Selected(s.rows, id, scope, asOwner) then Err(NotFound)
    else Ok(s.rows[id].record)
  }

  /** One update and its event, in one transaction; a repeated version in the log rolls both back. */
  function Commit(s: Durable, id: string, row: Row, kind: EventType, from: Option<ProcessingStatus>, answer: Answer)
    : (Durable, Outcome)
  {
    if VersionLogged(s.events, id, row.version) then (s, Err(Internal))
    else (Durable(s.rows[id := row], s.events + [Event(id, kind, from, row.record.status, row.version)]), Ok(answer))
  }

  function CallDurable(s: Durable, call: Call): (Durable, Outcome) {
    match call
    case Create(id, details, days, scope, owner) =>
      if !TextWithin(owner, MAX_TEXT) || days < 1 then (s, Err(Invalid))
      else if id in s.rows || VersionLogged(s.events, id, 1) then
        (s, Err(if Selected(s.rows, id, scope, Some(owner)) then Conflict else NotFound))
      else
        var row := Row(scope, owner, NewRecord(details), 1);
        Commit(s, id, row, RegisteredEvent, None, Session(row.record))
    case Get(id, scope, asOwner) =>
      (s, match ReadDurable(s, id, scope, asOwner) case Ok(record) => Ok(Session(record)) case Err(e) => Err(e))
    case MarkUploaded(id, key, scope, owner) =>
      if !TextWithin(owner, MAX_TEXT) || !TextWithin(key, MAX_KEY) then (s, Err(Invalid))
      else if !Selected(s.rows, id, scope, Some(owner)) then (s, Err(NotFound))
      else
        var row := s.rows[id];
        if row.record.objectKey.Some? && row.record.objectKey.value != key then (s, Err(Conflict))
        else if row.record.status == Uploaded then (s, Ok(Upload(row.record, true)))
        else if row.record.status != Registered then (s, Ok(Upload(row.record, false)))
        else if KeyUsedElsewhere(s.rows, id, key) then (s, Err(Conflict))
        else
          var next := row.(record := WithUpload(row.record, key), version := row.version + 1);
          Commit(s, id, next, UploadedEvent, Some(Registered), Upload(next.record, true))
    case CompleteProcessing(id, c, scope) =>
      if c.sessionId != id then (s, Err(Invalid))
      else if !Selected(s.rows, id, scope, None) then (s, Err(NotFound))
      else
        var row := s.rows[id];
        if row.record.completionId.Some? then (s, if Repeats(row.record, c) then Ok(Session(row.record)) else Err(Conflict))
        else if !ReadyForResult(row.record) then (s, Err(Conflict))
        else if CompletionUsedElsewhere(s.rows, id, c.id) then (s, Err(Conflict))
        else
          var next := row.(record := WithResult(row.record, c), version := row.version + 1);
          Commit(s, id, next, CompletedEvent, Some(row.record.status), Session(next.record))
    case GetTimeline(id, scope) =>
      (s, match ReadDurable(s, id, scope, None)
          case Err(e) => Err(e)
          case Ok(record) => if record.output.None? then Err(NotFound) else Ok(Timeline(record.output.value)))
  }

  class LegacySessionStore {
    var rows: map<string, Row>
    var events: seq<Event>

    ghost function State(): Durable
      reads this
    {
      Durable(rows, events)
    }

    constructor ()
      ensures State() == Durable(map[], [])
    {
      rows, events := map[], [];
    }

    /** The log's unique constraint on session and version. */
    method AppendEvent(event: Event) returns (ok: bool)
      modifies this`events
      ensures ok == !VersionLogged(old(events), event.sessionId, event.version)
      ensures events == if ok then old(events) + [event] else old(events)
    {
      ok := !VersionLogged(events, event.sessionId, event.version);
      if ok { events := events + [event]; }
    }

    method CreateSession(id: string, details: string, retentionDays: int, scope: Scope, owner: string) returns (r: Outcome)
      modifies this
      ensures (State(), r) == CallDurable(old(State()), Create(id, details, retentionDays, scope, owner))
    {
      if !TextWithin(owner, MAX_TEXT) || retentionDays < 1 { return Err(Invalid); }
      var inserted := id !in rows;
      var saved := rows;
      if inserted {
        rows := rows[id := Row(scope, owner, NewRecord(details), 1)];
        inserted := AppendEvent(Event(id, RegisteredEvent, None, Registered, 1));
      }
      if !inserted {
        rows := saved;
        return Err(if Selected(rows, id, scope, Some(owner)) then Conflict else NotFound);
      }
      return Ok(Session(rows[id].record));
    }

    method GetSession(id: string, scope: Scope, asOwner: Option<string>) returns (r: Result<Record, Error>)
      ensures r == ReadDurable(State(), id, scope, asOwner)
    {
      if asOwner.Some? && !TextWithin(asOwner.value, MAX_TEXT) { return Err(Invalid); }
      if !Selected(rows, id, scope, asOwner) { return Err(NotFound); }
      return Ok(rows[id].record);
    }

    method MarkSessionUploaded(id: string, key: string, scope: Scope, owner: string) returns (r: Outcome)
      modifies this
      ensures (State(), r) == CallDurable(old(State()), MarkUploaded(id, key, scope, owner))
    {
      if !TextWithin(owner, MAX_TEXT) || !TextWithin(key, MAX_KEY) { return Err(Invalid); }
      if !Selected(rows, id, scope, Some(owner)) { return Err(NotFound); }
      var row := rows[id];
      if row.record.objectKey.Some? && row.record.objectKey.value != key { return Err(Conflict); }
      if row.record.status == Uploaded { return Ok(Upload(row.record, true)); }
      if row.record.status != Registered { return Ok(Upload(row.record, false)); }
      if KeyUsedElsewhere(rows, id, key) { return Err(Conflict); }
      var saved := rows;
      rows := rows[id := row.(record := row.record.(status := Uploaded, objectKey := Some(key)), version := row.version + 1)];
      var ok := AppendEvent(Event(id, UploadedEvent, Some(Registered), Uploaded, row.version + 1));
      if !ok {
        rows := saved;
        return Err(Internal);
      }
      return Ok(Upload(rows[id].record, true));
    }

    method CompleteSession(id: string, c: Completion, scope: Scope) returns (r: Outcome)
      modifies this
      ensures (State(), r) == CallDurable(old(State()), CompleteProcessing(id, c, scope))
    {
      if c.sessionId != id { return Err(Invalid); }
      var prefix := PrefixOf(c.outputKey);
      if !Selected(rows, id, scope, None) { return Err(NotFound); }
      var row := rows[id];
      var record := row.record;
      if record.completionId.Some? {
        if record.completionId == Some(c.id) && record.output == Some(c.result) && record.prefix == Some(prefix) {
          return Ok(Session(record));
        }
        return Err(Conflict);
      }
      if record.status != Uploaded && record.status != Processing { return Err(Conflict); }
      if CompletionUsedElsewhere(rows, id, c.id) { return Err(Conflict); }
      var saved := rows;
      var next := record.(status := Processed, review := PendingReview, prefix := Some(prefix),
                          output := Some(c.result), completionId := Some(c.id));
      rows := rows[id := row.(record := next, version := row.version + 1)];
      var ok := AppendEvent(Event(id, CompletedEvent, Some(record.status), Processed, row.version + 1));
      if !ok {
        rows := saved;
        return Err(Internal);
      }
      return Ok(Session(rows[id].record));
    }

    method GetSessionTimeline(id: string, scope: Scope) returns (r: Outcome)
      ensures (State(), r) == CallDurable(State(), GetTimeline(id, scope))
    {
      var got := GetSession(id, scope, None);
      if got.Err? { return Err(got.error); }
      if got.value.output.None? { return Err(NotFound); }
      return Ok(Timeline(got.value.output.value));
    }
  }
}
