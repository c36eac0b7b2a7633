/** The life of one recorded session in both stores, said by the records that its calls return. */
module SessionAnswers {
  import opened Basics
  import opened ScopedKeys
  import opened SessionStores
  import opened SessionSimulation

  /** The directory of a path: everything up to its last slash, or the whole text and a slash. */
  lemma {:induction false} PrefixMeans(path: string)
    ensures (forall i | 0 <= i < |path| :: path[i] != '/') ==> PrefixOf(path) == path + "/"
    ensures forall k | 0 <= k < |path| && path[k] == '/' && (forall i | k < i < |path| :: path[i] != '/') ::
              PrefixOf(path) == path[..k] + "/"
  {
    SlashMeans(path);
  }

  lemma {:induction false} SlashMeans(s: string)
    ensures LastSlash(s) != -1 ==> s[LastSlash(s)] == '/'
    ensures forall i | LastSlash(s) < i < |s| :: s[i] != '/'
  {
    if s != "" && s[|s| - 1] != '/' {
      var front := s[..|s| - 1];
      SlashMeans(front);
      assert forall i | 0 <= i < |front| :: front[i] == s[i];
    }
  }

  /** A session that both stores hold alike, as its scope and owner see it. */
  ghost predicate HeldAs(r: Reference, d: Durable, id: string, scope: Scope, owner: string, record: Record) {
    && Related(r, d) && LogComplete(d) && id in d.rows
    && d.rows[id].record == record && d.rows[id].scope == scope && d.rows[id].owner == owner
  }

  /** Both stores give this answer, and hold the session as this record afterwards. */
  ghost predicate BothAnswer(r: Reference, d: Durable, call: Call, outcome: Outcome, id: string, scope: Scope, owner: string, record: Record) {
    && CallReference(r, call).1 == outcome && CallDurable(d, call).1 == outcome
    && HeldAs(CallReference(r, call).0, CallDurable(d, call).0, id, scope, owner, record)
  }

  /** A first registration. */
  lemma CreationAnswers(r: Reference, d: Durable, id: string, details: string, days: int, scope: Scope, owner: string)
    requires Related(r, d) && LogComplete(d) && id !in d.rows && days >= 1 && TextWithin(owner, 512)
    ensures var record := Record(details, Registered, NotReady, None, None, None, None);
      BothAnswer(r, d, Create(id, details, days, scope, owner), Ok(Session(record)), id, scope, owner, record)
  {
    var call := Create(id, details, days, scope, owner);
    CallsAgree(r, d, call);
    CreatedRow(d, call);
    hide LogComplete, TextWithin, Related;
  }

  lemma CreatedRow(d: Durable, call: Call)
    requires call.Create? && LogComplete(d) && call.id !in d.rows && call.retentionDays >= 1 && TextWithin(call.owner, 512)
    ensures var (d', outcome) := CallDurable(d, call);
      && outcome == Ok(Session(Record(call.details, Registered, NotReady, None, None, None, None)))
      && call.id in d'.rows
      && d'.rows[call.id] == Row(call.scope, call.owner, Record(call.details, Registered, NotReady, None, None, None, None), 1)
  {
    assert !VersionLogged(d.events, call.id, 1);
    hide VersionLogged, TextWithin;
  }

  /** The upload of a registered session starts its processing, whatever the key, if nobody else has it; asking again is the same. */
  lemma UploadAnswers(r: Reference, d: Durable, id: string, key: string, scope: Scope, owner: string, record: Record)
    requires HeldAs(r, d, id, scope, owner, record) && TextWithin(key, 1024) && TextWithin(owner, 512)
    requires record.objectKey.None? && record.status == Registered && !KeyUsedElsewhere(d.rows, id, key)
    ensures var uploaded := record.(status := Uploaded, objectKey := Some(key));
      var call := MarkUploaded(id, key, scope, owner);
      && BothAnswer(r, d, call, Ok(Upload(uploaded, true)), id, scope, owner, uploaded)
      && CallReference(CallReference(r, call).0, call).1 == Ok(Upload(uploaded, true))
      && CallDurable(CallDurable(d, call).0, call).1 == Ok(Upload(uploaded, true))
  {
    var call := MarkUploaded(id, key, scope, owner);
    UploadWrites(r, d, call);
    CallsAgree(r, d, call);
    var next := d.rows[id].(record := record.(status := Uploaded, objectKey := Some(key)), version := d.rows[id].version + 1);
    CommitKeepsLog(d, id, next, UploadedEvent, Some(Registered), Upload(next.record, true));
    RelatedAt(CallReference(r, call).0, CallDurable(d, call).0, id);
    hide LogComplete, TextWithin, Related, KeyUsedElsewhere, Commit;
  }

  /** A result of an uploaded session is kept with its directory; the same completion gets it again, any other conflicts. */
  lemma CompletionAnswers(r: Reference, d: Durable, c: Completion, scope: Scope, owner: string, record: Record, other: Completion)
    requires HeldAs(r, d, c.sessionId, scope, owner, record) && record.completionId.None?
    requires (record.status == Uploaded || record.status == Processing) && !CompletionUsedElsewhere(d.rows, c.sessionId, c.id)
    requires other.sessionId == c.sessionId
    ensures var done := record.(status := Processed, review := PendingReview, prefix := Some(PrefixOf(c.outputKey)),
                                output := Some(c.result), completionId := Some(c.id));
      var call, again := CompleteProcessing(c.sessionId, c, scope), CompleteProcessing(c.sessionId, other, scope);
      var same := other.id == c.id && other.result == c.result && PrefixOf(other.outputKey) == PrefixOf(c.outputKey);
      && BothAnswer(r, d, call, Ok(Session(done)), c.sessionId, scope, owner, done)
      && BothAnswer(CallReference(r, call).0, CallDurable(d, call).0, again, if same then Ok(Session(done)) else Err(Conflict),
                    c.sessionId, scope, owner, done)
  {
    var call := CompleteProcessing(c.sessionId, c, scope);
    CompletionWrites(r, d, call);
    CallsAgree(r, d, call);
    var row := d.rows[c.sessionId];
    var next := row.(record := WithResult(row.record, c), version := row.version + 1);
    CommitKeepsLog(d, c.sessionId, next, CompletedEvent, Some(row.record.status), Session(next.record));
    var r', d' := CallReference(r, call).0, CallDurable(d, call).0;
    assert HeldAs(r', d', c.sessionId, scope, owner, next.record);
    hide CallReference, CallDurable, LogComplete, Related, CompletionUsedElsewhere, Commit, PrefixOf;
    CompletedAnswers(r', d', scope, owner, next.record, other);
  }

  lemma CompletedAnswers(r: Reference, d: Durable, scope: Scope, owner: string, record: Record, c: Completion)
    requires HeldAs(r, d, c.sessionId, scope, owner, record) && record.completionId.Some?
    ensures BothAnswer(r, d, CompleteProcessing(c.sessionId, c, scope),
      if record.completionId == Some(c.id) && record.output == Some(c.result) && record.prefix == Some(PrefixOf(c.outputKey))
      then Ok(Session(record)) else Err(Conflict), c.sessionId, scope, owner, record)
  {
    RelatedAt(r, d, c.sessionId);
    hide Related, LogComplete, PrefixOf, CompletionUsedElsewhere, Commit;
  }

  /** An upload of a session that has been uploaded before: another key conflicts, the same one starts nothing new. */
  lemma LaterUpload(r: Reference, d: Durable, id: string, key: string, scope: Scope, owner: string, record: Record)
    requires HeldAs(r, d, id, scope, owner, record) && TextWithin(key, 1024) && TextWithin(owner, 512)
    requires record.status != Registered
    ensures BothAnswer(r, d, MarkUploaded(id, key, scope, owner),
      if record.objectKey.Some? && record.objectKey.value != key then Err(Conflict) else Ok(Upload(record, record.status == Uploaded)),
      id, scope, owner, record)
  {
    RelatedAt(r, d, id);
    assert owner != "";
    hide Related, LogComplete, TextWithin, KeyUsedElsewhere, Commit;
  }

  /** Only a session that was uploaded and has no result yet takes one. */
  lemma EarlyResult(r: Reference, d: Durable, c: Completion, scope: Scope, owner: string, record: Record)
    requires HeldAs(r, d, c.sessionId, scope, owner, record) && record.completionId.None?
    requires record.status != Uploaded && record.status != Processing
    ensures BothAnswer(r, d, CompleteProcessing(c.sessionId, c, scope), Err(Conflict), c.sessionId, scope, owner, record)
  {
    RelatedAt(r, d, c.sessionId);
    hide Related, LogComplete, CompletionUsedElsewhere, Commit, PrefixOf;
  }

  /** To everyone but its scope and owner a held session does not exist, except that its identifier is taken. */
  lemma OthersAnswers(r: Reference, d: Durable, id: string, scope: Scope, owner: string, record: Record,
                      details: string, days: int, key: string, c: Completion, as': Scope, asOwner: string)
    requires HeldAs(r, d, id, scope, owner, record) && days >= 1 && c.sessionId == id
    requires TextWithin(asOwner, 512) && TextWithin(key, 1024)
    ensures BothAnswer(r, d, Create(id, details, days, as', asOwner),
                       Err(if as' == scope && asOwner == owner then Conflict else NotFound), id, scope, owner, record)
    ensures as' != scope || asOwner != owner ==>
              BothAnswer(r, d, MarkUploaded(id, key, as', asOwner), Err(NotFound), id, scope, owner, record)
    ensures as' != scope ==> BothAnswer(r, d, CompleteProcessing(id, c, as'), Err(NotFound), id, scope, owner, record)
  {
    RelatedAt(r, d, id);
    assert asOwner != "";
    hide Related, LogComplete, TextWithin, KeyUsedElsewhere, CompletionUsedElsewhere, Commit, PrefixOf;
  }

  /** A held session is read by its scope and owner as its record, and its timeline is the result that was kept. */
  lemma ReadAnswers(r: Reference, d: Durable, id: string, scope: Scope, owner: string, record: Record, as': Scope, asOwner: string)
    requires HeldAs(r, d, id, scope, owner, record) && TextWithin(asOwner, 512)
    ensures var read := Get(id, as', Some(asOwner));
      CallReference(r, read) == (r, if as' == scope && asOwner == owner then Ok(Session(record)) else Err(NotFound))
    ensures var read := Get(id, as', Some(asOwner));
      CallDurable(d, read) == (d, if as' == scope && asOwner == owner then Ok(Session(record)) else Err(NotFound))
    ensures var timeline := GetTimeline(id, as');
      var expected := if as' == scope && record.output.Some? then Ok(Timeline(record.output.value)) else Err(NotFound);
      CallReference(r, timeline) == (r, expected) && CallDurable(d, timeline) == (d, expected)
  {
    RelatedAt(r, d, id);
    hide Related, LogComplete, TextWithin;
  }
}
