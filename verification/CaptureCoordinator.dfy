/**
 The capture agent's coordinator: one active session, one finished session
 waiting to be packaged and uploaded, and a failure possible at every await.
 */
module CaptureCoordinator {
  import opened Basics
  import opened CaptureSessions

  /** How an awaited call fails: because cancellation was requested, or for any other reason. */
  datatype Failure = Cancelled | Faulted

  type Awaited<T> = Result<T, Failure>

  /** What the collaborators answer, and what the clock reads, if finalization asks them. */
  datatype FinalizeInput = FinalizeInput(
    stop: Awaited<Option<string>>, endedAt: int, write: Awaited<string>, upload: Awaited<()>)

  /** What they answer during one tick. */
  datatype TickInput = TickInput(
    first: FinalizeInput, approved: bool, now: int, newId: string,
    start: Awaited<()>, resume: Awaited<()>, pause: Awaited<()>, second: FinalizeInput)

  datatype Outcome = Completed | Failed(failure: Failure) | FinalizationFailed(sessionId: string)

  /** The awaited calls that were made, each with the session it was made for. */
  datatype Call =
    | StartCall(id: string, ok: bool)
    | PauseCall(id: string, ok: bool)
    | ResumeCall(id: string, ok: bool)
    | StopCall(id: string, ok: bool)
    | WriteCall(id: string, session: Session, written: Option<string>)
    | UploadCall(id: string, package: string, ok: bool)

  datatype State = State(
    active: Option<Session>, lastForeground: Option<int>, paused: bool,
    pending: Option<Session>, recording: Option<string>, package: Option<string>)

  const IDLE := State(None, None, false, None, None, None)

  function PackageOf(write: Awaited<string>): Option<string> {
    if write.Ok? then Some(write.value) else None
  }

  // ---- One call as a function on states ----

  /** Packages and uploads the pending session. */
  function Deliver(s: State, input: FinalizeInput): (State, Outcome, seq<Call>)
    requires s.pending.Some?
  {
    var session := s.pending.value;
    var written := if s.package.Some? then s else s.(package := PackageOf(input.write));
    var calls := if s.package.Some? then [] else [WriteCall(session.id, session, PackageOf(input.write))];
    if written.package.None? then (s, Failed(input.write.error), calls)
    else
      var upload := [UploadCall(session.id, written.package.value, input.upload.Ok?)];
      if input.upload.Err? then (written, Failed(input.upload.error), calls + upload)
      else (written.(pending := None, recording := None, package := None), Completed, calls + upload)
  }

  function FinishActive(s: State, input: FinalizeInput): (State, Outcome, seq<Call>) {
    if s.pending.Some? then Deliver(s, input)
    else if s.active.None? then (s, Completed, [])
    else
      var stop := [StopCall(s.active.value.id, input.stop.Ok?)];
      if input.stop.Err? then (s, Failed(input.stop.error), stop)
      else
        var stopped := State(None, None, false, Some(Finish(s.active.value, input.endedAt)), input.stop.value, None);
        var (s', outcome, calls) := Deliver(stopped, input);
        (s', outcome, stop + calls)
  }

  /** A failure that leaves a session pending is reported with that session, unless it is a cancellation. */
  function FinalizeFromTick(s: State, input: FinalizeInput): (State, Outcome, seq<Call>) {
    var (s', outcome, calls) := FinishActive(s, input);
    (s', if outcome == Failed(Faulted) && s'.pending.Some? then FinalizationFailed(s'.pending.value.id) else outcome, calls)
  }

  function Approved(s: State, input: TickInput): (State, Outcome, seq<Call>) {
    var seen := s.(lastForeground := Some(input.now));
    if s.active.None? then
      (seen.(active := Some(Start(input.newId, input.now))),
       if input.start.Ok? then Completed else Failed(input.start.error), [StartCall(input.newId, input.start.Ok?)])
    else if s.paused then
      var call := [ResumeCall(s.active.value.id, input.resume.Ok?)];
      if input.resume.Err? then (seen, Failed(input.resume.error), call)
      else (seen.(active := Some(Resume(s.active.value, input.now)), paused := false), Completed, call)
    else (seen, Completed, [])
  }

  function Unapproved(s: State, grace: int, input: TickInput): (State, Outcome, seq<Call>) {
    if s.active.None? || s.lastForeground.None? then (s, Completed, [])
    else
      var call := if s.paused then [] else [PauseCall(s.active.value.id, input.pause.Ok?)];
      if !s.paused && input.pause.Err? then (s, Failed(input.pause.error), call)
      else
        var left := if s.paused then s else s.(active := Some(Pause(s.active.value, input.now)), paused := true);
        if input.now - left.lastForeground.value < grace * TICKS_PER_SECOND then (left, Completed, call)
        else
          var (s', outcome, calls) := FinalizeFromTick(left, input.second);
          (s', outcome, call + calls)
  }

  function Tick(s: State, grace: int, input: TickInput): (State, Outcome, seq<Call>) {
    var (delivered, outcome, calls) := if s.pending.Some? then FinalizeFromTick(s, input.first) else (s, Completed, []);
    if outcome != Completed then (delivered, outcome, calls)
    else
      var (s', result, more) := if input.approved then Approved(delivered, input) else Unapproved(delivered, grace, input);
      (s', result, calls + more)
  }

  // ---- The coordinator ----

  class SessionCoordinator {
    const graceSeconds: int
    var activeSession: Option<Session>
    var lastApprovedForegroundAt: Option<int>
    var recorderPaused: bool
    var pendingFinishedSession: Option<Session>
    var pendingRecordingPath: Option<string>
    var pendingPackage: Option<string>

    ghost function Fields(): State
      reads this
    {
      State(activeSession, lastApprovedForegroundAt, recorderPaused, pendingFinishedSession, pendingRecordingPath,
            pendingPackage)
    }

    constructor (graceSeconds: int)
      ensures this.graceSeconds == graceSeconds && Fields() == IDLE
    {
      this.graceSeconds := graceSeconds;
      activeSession, lastApprovedForegroundAt, recorderPaused := None, None, false;
      pendingFinishedSession, pendingRecordingPath, pendingPackage := None, None, None;
    }

    method FinishActiveSession(input: FinalizeInput) returns (outcome: Outcome, calls: seq<Call>)
      modifies this
      ensures (Fields(), outcome, calls) == FinishActive(old(Fields()), input)
    {
      calls := [];
      if pendingFinishedSession.None? {
        if activeSession.None? { return Completed, calls; }
        calls := [StopCall(activeSession.value.id, input.stop.Ok?)];
        if input.stop.Err? { return Failed(input.stop.error), calls; }
        var events := activeSession.value.events + [CadEvent(Ended, input.endedAt)];
        var seconds := CalculateActiveDurationSeconds(events);
        pendingFinishedSession := Some(activeSession.value.(endedAt := Some(input.endedAt), activeSeconds := seconds,
                                                            events := events));
        pendingRecordingPath := input.stop.value;
        pendingPackage := None;
        activeSession := None;
        lastApprovedForegroundAt := None;
        recorderPaused := false;
      }
      var finished := pendingFinishedSession.value;
      ghost var stop, rest := calls, Deliver(Fields(), input);
      assert [] + rest.2 == rest.2;
      if pendingPackage.None? {
        calls := calls + [WriteCall(finished.id, finished, PackageOf(input.write))];
        if input.write.Err? { return Failed(input.write.error), calls; }
        pendingPackage := Some(input.write.value);
      }
      calls := calls + [UploadCall(finished.id, pendingPackage.value, input.upload.Ok?)];
      assert calls == stop + rest.2;
      if input.upload.Err? { return Failed(input.upload.error), calls; }
      pendingFinishedSession := None;
      pendingRecordingPath := None;
      pendingPackage := None;
      return Completed, calls;
    }

    method FinalizePending(input: FinalizeInput) returns (outcome: Outcome, calls: seq<Call>)
      modifies this
      ensures (Fields(), outcome, calls) == FinalizeFromTick(old(Fields()), input)
    {
      outcome, calls := FinishActiveSession(input);
      if outcome == Failed(Faulted) && pendingFinishedSession.Some? {
        outcome := FinalizationFailed(pendingFinishedSession.value.id);
      }
    }

    method TickOnce(input: TickInput) returns (outcome: Outcome, calls: seq<Call>)
      modifies this
      ensures (Fields(), outcome, calls) == Tick(old(Fields()), graceSeconds, input)
    {
      calls := [];
      if pendingFinishedSession.Some? {
        outcome, calls := FinalizePending(input.first);
        if outcome != Completed { return; }
      }
      ghost var before := calls;
      assert before + [] == before;
      if input.approved {
        lastApprovedForegroundAt := Some(input.now);
        if activeSession.None? {
          activeSession := Some(Start(input.newId, input.now));
          calls := calls + [StartCall(input.newId, input.start.Ok?)];
          if input.start.Err? { return Failed(input.start.error), calls; }
        } else if recorderPaused {
          calls := calls + [ResumeCall(activeSession.value.id, input.resume.Ok?)];
          if input.resume.Err? { return Failed(input.resume.error), calls; }
          activeSession := Some(Resume(activeSession.value, input.now));
          recorderPaused := false;
        }
        return Completed, calls;
      }
      if activeSession.None? || lastApprovedForegroundAt.None? { return Completed, calls; }
      if !recorderPaused {
        calls := calls + [PauseCall(activeSession.value.id, input.pause.Ok?)];
        if input.pause.Err? { return Failed(input.pause.error), calls; }
        activeSession := Some(Pause(activeSession.value, input.now));
        recorderPaused := true;
      }
      if input.now - lastApprovedForegroundAt.value < graceSeconds * TICKS_PER_SECOND { return Completed, calls; }
      ghost var pause := calls[|before|..];
      var more;
      outcome, more := FinalizePending(input.second);
      calls := calls + more;
      assert calls == before + (pause + more);
    }
  }
}
