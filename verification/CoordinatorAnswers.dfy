/** What one tick of the coordinator does, said over its fields and what it is told. */
module CoordinatorAnswers {
  import opened Basics
  import opened CaptureSessions
  import opened CaptureCoordinator

  function WithEvent(session: Session, kind: EventKind, at: int): Session {
    session.(events := session.events + [CadEvent(kind, at)])
  }

  /** The session that is over: its last event is its end. */
  predicate Ends(session: Session, finished: Session, at: int) {
    && finished.id == session.id && finished.startedAt == session.startedAt && finished.endedAt == Some(at)
    && finished.events == session.events + [CadEvent(Ended, at)]
    && finished.activeSeconds == WholeSeconds(ActiveTicks(finished.events))
  }

  // ---- With an approved window ----

  /** The first approved tick starts a session and its recorder. */
  lemma StartsSession(s: State, grace: int, input: TickInput)
    requires s.pending.None? && input.approved && s.active.None?
    ensures var started := Session(input.newId, input.now, None, 0, [CadEvent(Started, input.now)]);
      Tick(s, grace, input)
      == (s.(active := Some(started), lastForeground := Some(input.now)),
          if input.start.Ok? then Completed else Failed(input.start.error), [StartCall(input.newId, input.start.Ok?)])
  {
    assert [] + [StartCall(input.newId, input.start.Ok?)] == [StartCall(input.newId, input.start.Ok?)];
  }

  /** Every approved tick notes the time; it resumes a paused session and leaves a running one alone. */
  lemma KeepsSession(s: State, grace: int, input: TickInput)
    requires s.pending.None? && input.approved && s.active.Some?
    ensures var seen, id := s.(lastForeground := Some(input.now)), s.active.value.id;
      Tick(s, grace, input)
      == if !s.paused then (seen, Completed, [])
         else if input.resume.Err? then (seen, Failed(input.resume.error), [ResumeCall(id, false)])
         else (seen.(active := Some(WithEvent(s.active.value, Resumed, input.now)), paused := false), Completed, [ResumeCall(id, true)])
  {
    var none: seq<Call> := [];
    assert none + none == none;
    assert [] + [ResumeCall(s.active.value.id, input.resume.Ok?)] == [ResumeCall(s.active.value.id, input.resume.Ok?)];
  }

  // ---- Without one ----

  /** Nothing happens without a session, or before the first approved window. */
  lemma IdleTick(s: State, grace: int, input: TickInput)
    requires s.pending.None? && !input.approved && (s.active.None? || s.lastForeground.None?)
    ensures Tick(s, grace, input) == (s, Completed, [])
  {
    var none: seq<Call> := [];
    assert none + none == none;
  }

  /** The session as a tick without an approved window leaves it paused. */
  function PausedState(s: State, now: int): State
    requires s.active.Some?
  {
    if s.paused then s else s.(active := Some(WithEvent(s.active.value, Paused, now)), paused := true)
  }

  function PauseCalls(s: State, ok: bool): seq<Call>
    requires s.active.Some?
  {
    if s.paused then [] else [PauseCall(s.active.value.id, ok)]
  }

  /** A recorder that cannot be paused leaves everything as it was. */
  lemma PauseFails(s: State, grace: int, input: TickInput)
    requires s.pending.None? && !input.approved && s.active.Some? && s.lastForeground.Some? && !s.paused && input.pause.Err?
    ensures Tick(s, grace, input) == (s, Failed(input.pause.error), [PauseCall(s.active.value.id, false)])
  {
    assert [] + [PauseCall(s.active.value.id, false)] == [PauseCall(s.active.value.id, false)];
  }

  /** Within the grace period since the last approved window, the session is paused and goes on. */
  lemma WithinGrace(s: State, grace: int, input: TickInput)
    requires s.pending.None? && !input.approved && s.active.Some? && s.lastForeground.Some? && (s.paused || input.pause.Ok?)
    requires input.now < s.lastForeground.value + grace * 10_000_000
    ensures Tick(s, grace, input) == (PausedState(s, input.now), Completed, PauseCalls(s, true))
  {
    assert [] + PauseCalls(s, true) == PauseCalls(s, true);
  }

  /** Once the grace period is over, the recorder is stopped; if that fails, the session stays. */
  lemma StopFails(s: State, grace: int, input: TickInput)
    requires s.pending.None? && !input.approved && s.active.Some? && s.lastForeground.Some? && (s.paused || input.pause.Ok?)
    requires input.now >= s.lastForeground.value + grace * 10_000_000 && input.second.stop.Err?
    ensures Tick(s, grace, input)
         == (PausedState(s, input.now), Failed(input.second.stop.error), PauseCalls(s, true) + [StopCall(s.active.value.id, false)])
  {
    var calls := PauseCalls(s, true) + [StopCall(s.active.value.id, false)];
    assert [] + calls == calls;
  }

  /**
   Past the grace period the session ends: it is packaged and uploaded at once,
   or waits with what has been achieved for the next tick.
   */
  lemma PastGrace(s: State, grace: int, input: TickInput)
    requires s.pending.None? && !input.approved && s.active.Some? && s.lastForeground.Some? && (s.paused || input.pause.Ok?)
    requires input.now >= s.lastForeground.value + grace * 10_000_000 && input.second.stop.Ok?
    ensures var (s', outcome, calls) := Tick(s, grace, input);
      var id, last := s.active.value.id, PausedState(s, input.now).active.value;
      var stopped := PauseCalls(s, true) + [StopCall(id, true)];
      && |calls| > |stopped| && stopped <= calls && calls[|stopped|].WriteCall?
      && Ends(last, calls[|stopped|].session, input.second.endedAt)
      && var over := calls[|stopped|].session;
         if input.second.write.Err? then
           && calls == stopped + [WriteCall(id, over, None)]
           && s' == State(None, None, false, Some(over), input.second.stop.value, None)
           && outcome == if input.second.write.error == Faulted then FinalizationFailed(id) else Failed(Cancelled)
         else
           var package := input.second.write.value;
           && calls == stopped + [WriteCall(id, over, Some(package)), UploadCall(id, package, input.second.upload.Ok?)]
           && if input.second.upload.Err? then
                && s' == State(None, None, false, Some(over), input.second.stop.value, Some(package))
                && outcome == if input.second.upload.error == Faulted then FinalizationFailed(id) else Failed(Cancelled)
              else s' == IDLE && outcome == Completed
  {
    hide WholeSeconds, ActiveTicks;
    var f := input.second;
    var last := PausedState(s, input.now).active.value;
    var over := Finish(last, f.endedAt);
    var stopped := PauseCalls(s, true) + [StopCall(last.id, true)];
    var calls := Tick(s, grace, input).2;
    if f.write.Err? {
      assert calls == stopped + [WriteCall(last.id, over, None)];
    } else {
      assert calls == stopped + [WriteCall(last.id, over, Some(f.write.value)), UploadCall(last.id, f.write.value, f.upload.Ok?)];
    }
  }

  // ---- A session that is still waiting ----

  /** What is pending is delivered before anything else: its package is written once, and then only uploaded. */
  lemma DeliversFirst(s: State, grace: int, input: TickInput)
    requires s.pending.Some?
    ensures var (s', outcome, calls) := Tick(s, grace, input);
      var over, f := s.pending.value, input.first;
      if s.package.None? && f.write.Err? then
        && calls == [WriteCall(over.id, over, None)] && s' == s
        && outcome == if f.write.error == Faulted then FinalizationFailed(over.id) else Failed(Cancelled)
      else
        var package := if s.package.Some? then s.package.value else f.write.value;
        var delivery := (if s.package.Some? then [] else [WriteCall(over.id, over, Some(package))]) + [UploadCall(over.id, package, f.upload.Ok?)];
        if f.upload.Err? then
          && calls == delivery && s' == s.(package := Some(package))
          && outcome == if f.upload.error == Faulted then FinalizationFailed(over.id) else Failed(Cancelled)
        else
          var rest := Tick(s.(pending := None, recording := None, package := None), grace, input);
          calls == delivery + rest.2 && s' == rest.0 && outcome == rest.1
  {
    hide Approved, Unapproved;
    var over, f := s.pending.value, input.first;
    if s.package.Some? || f.write.Ok? {
      var package := if s.package.Some? then s.package.value else f.write.value;
      var delivery := (if s.package.Some? then [] else [WriteCall(over.id, over, Some(package))]) + [UploadCall(over.id, package, f.upload.Ok?)];
      assert Deliver(s, f).2 == delivery;
      var rest := Tick(s.(pending := None, recording := None, package := None), grace, input).2;
      assert [] + rest == rest;
    }
  }
}
