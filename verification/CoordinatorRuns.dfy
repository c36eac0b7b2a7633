/**
 Runs of the coordinator with failures at any await: every trace of awaited
 calls follows one small protocol, and the fields always stand where it says.
 */
module CoordinatorRuns {
  import opened Basics
  import opened CaptureSessions
  import opened CaptureCoordinator

  // ---- The protocol of calls ----

  datatype Phase =
    | Waiting
    | Recording(id: string, paused: bool)
    | Delivering(id: string, attempted: Option<Session>, package: Option<string>)

  /** The call that a phase allows next, and the phase it leads to. */
  function Next(p: Phase, c: Call): Option<Phase> {
    match c
    case StartCall(id, _) => if p.Waiting? then Some(Recording(id, false)) else None
    case PauseCall(id, ok) => if p == Recording(id, false) then Some(Recording(id, ok)) else None
    case ResumeCall(id, ok) => if p == Recording(id, true) then Some(Recording(id, !ok)) else None
    case StopCall(id, ok) =>
      if !p.Recording? || p.id != id then None else Some(if ok then Delivering(id, None, None) else p)
    case WriteCall(id, session, written) =>
      if p.Delivering? && p.id == id == session.id && p.attempted.GetOr(session) == session && p.package.None?
      then Some(Delivering(id, Some(session), written)) else None
    case UploadCall(id, package, ok) =>
      if p.Delivering? && p.id == id && p.package == Some(package) then Some(if ok then Waiting else p) else None
  }

  function Follow(p: Phase, calls: seq<Call>): Option<Phase>
    decreases |calls|
  {
    if calls == [] then Some(p)
    else
      match Next(p, calls[0])
      case None => None
      case Some(q) => Follow(q, calls[1..])
  }

  lemma {:induction false} FollowAppend(p: Phase, a: seq<Call>, b: seq<Call>)
    ensures Follow(p, a + b) == if Follow(p, a).None? then None else Follow(Follow(p, a).value, b)
    decreases |a|
  {
    if a == [] {
      assert a + b == b;
    } else {
      hide Next;
      assert (a + b)[1..] == a[1..] + b;
      if Next(p, a[0]).Some? {
        FollowAppend(Next(p, a[0]).value, a[1..], b);
      }
    }
  }

  lemma FollowOne(p: Phase, c: Call)
    ensures Follow(p, [c]) == Next(p, c)
  {
    hide Next;
    assert [c][1..] == [];
  }

  // ---- The fields in each phase ----

  predicate OpenHistory(events: seq<CadEvent>, paused: bool) {
    && Alternates(events)
    && events[|events| - 1].kind != Ended
    && (paused <==> events[|events| - 1].kind == Paused)
  }

  predicate ClosedHistory(s: Session) {
    && Alternates(s.events)
    && s.events[|s.events| - 1].kind == Ended
    && s.endedAt == Some(s.events[|s.events| - 1].at)
    && s.activeSeconds == WholeSeconds(ActiveTicks(s.events))
    && s.events[0].at == s.startedAt
  }

  predicate Stands(s: State, p: Phase) {
    match p
    case Waiting => s.active.None? && s.pending.None? && s.package.None? && s.recording.None? && !s.paused
    case Recording(id, paused) =>
      && s.active.Some? && s.active.value.id == id && s.lastForeground.Some?
      && s.pending.None? && s.package.None? && s.paused == paused
      && OpenHistory(s.active.value.events, paused) && s.active.value.events[0].at == s.active.value.startedAt
    case Delivering(id, attempted, package) =>
      && s.active.None? && !s.paused
      && s.pending.Some? && s.pending.value.id == id && ClosedHistory(s.pending.value)
      && s.package == package && attempted.GetOr(s.pending.value) == s.pending.value
  }

  lemma ExtendHistory(events: seq<CadEvent>, paused: bool, e: CadEvent)
    requires OpenHistory(events, paused)
    requires e.kind == Ended || e.kind == if paused then Resumed else Paused
    ensures Alternates(events + [e])
    ensures e.kind != Ended ==> OpenHistory(events + [e], e.kind == Paused)
  {
    var all := events + [e];
    forall i | 0 <= i < |all| - 1 ensures MayFollow(all[i].kind, all[i + 1].kind) {
      if i < |events| - 1 {
        assert MayFollow(events[i].kind, events[i + 1].kind);
      } else {
        LastKind(events);
      }
    }
  }

  lemma LastKind(events: seq<CadEvent>)
    requires Alternates(events) && events[|events| - 1].kind != Ended
    ensures events[|events| - 1].kind in {Started, Resumed, Paused}
  {
    if |events| > 1 {
      assert MayFollow(events[|events| - 2].kind, events[|events| - 1].kind);
    }
  }

  lemma DeliverFollows(s: State, input: FinalizeInput, p: Phase) returns (q: Phase)
    requires Stands(s, p) && p.Delivering?
    ensures var (s', _, calls) := Deliver(s, input); Follow(p, calls) == Some(q) && Stands(s', q)
  {
    var (s', outcome, calls) := Deliver(s, input);
    var session := s.pending.value;
    var written := if s.package.Some? then p else Delivering(p.id, Some(session), PackageOf(input.write));
    FollowOne(p, WriteCall(session.id, session, PackageOf(input.write)));
    hide ClosedHistory;
    if written.package.None? {
      q := written;
    } else {
      var upload := UploadCall(session.id, written.package.value, input.upload.Ok?);
      FollowOne(written, upload);
      FollowAppend(p, if s.package.Some? then [] else [WriteCall(session.id, session, PackageOf(input.write))], [upload]);
      q := if input.upload.Ok? then Waiting else written;
    }
  }

  lemma FinishFollows(s: State, input: FinalizeInput, p: Phase) returns (q: Phase)
    requires Stands(s, p)
    ensures var (s', _, calls) := FinishActive(s, input); Follow(p, calls) == Some(q) && Stands(s', q)
  {
    match p {
      case Waiting => q := p;
      case Delivering(_, _, _) => q := DeliverFollows(s, input, p);
      case Recording(id, paused) =>
        var stop := StopCall(id, input.stop.Ok?);
        FollowOne(p, stop);
        if input.stop.Err? {
          q := p;
        } else {
          ExtendHistory(s.active.value.events, paused, CadEvent(Ended, input.endedAt));
          var stopped := State(None, None, false, Some(Finish(s.active.value, input.endedAt)), input.stop.value, None);
          assert Stands(stopped, Delivering(id, None, None));
          q := DeliverFollows(stopped, input, Delivering(id, None, None));
          FollowAppend(p, [stop], Deliver(stopped, input).2);
        }
    }
    hide Deliver, OpenHistory, ClosedHistory, Finish;
  }

  lemma FinalizeFollows(s: State, input: FinalizeInput, p: Phase) returns (q: Phase)
    requires Stands(s, p)
    ensures var (s', outcome, calls) := FinalizeFromTick(s, input);
      && Follow(p, calls) == Some(q) && Stands(s', q)
      && (outcome == Completed ==> q.Waiting?)
  {
    q := FinishFollows(s, input, p);
    StandsWaiting(s, p);
    CompletedDelivers(s, input);
    hide Stands, FinishActive;
    StandsWaiting(FinishActive(s, input).0, q);
  }

  lemma CompletedDelivers(s: State, input: FinalizeInput)
    requires s.active.None? || s.pending.None?
    ensures FinishActive(s, input).1 == Completed ==>
      FinishActive(s, input).0.active.None? && FinishActive(s, input).0.pending.None?
  {
  }

  lemma StandsWaiting(s: State, p: Phase)
    requires Stands(s, p)
    ensures p.Waiting? <==> s.active.None? && s.pending.None?
    ensures s.active.None? || s.pending.None?
    ensures p.Delivering? <==> s.pending.Some?
  {
  }

  lemma ApprovedFollows(s: State, input: TickInput, p: Phase) returns (q: Phase)
    requires Stands(s, p) && !p.Delivering?
    ensures var (s', _, calls) := Approved(s, input); Follow(p, calls) == Some(q) && Stands(s', q)
  {
    if p.Waiting? {
      q := Recording(input.newId, false);
      FollowOne(p, StartCall(input.newId, input.start.Ok?));
    } else if p.paused {
      q := Recording(p.id, input.resume.Err?);
      FollowOne(p, ResumeCall(p.id, input.resume.Ok?));
      ExtendHistory(s.active.value.events, true, CadEvent(Resumed, input.now));
    } else {
      q := p;
    }
  }

  lemma UnapprovedFollows(s: State, grace: int, input: TickInput, p: Phase) returns (q: Phase)
    requires Stands(s, p) && !p.Delivering?
    ensures var (s', _, calls) := Unapproved(s, grace, input); Follow(p, calls) == Some(q) && Stands(s', q)
  {
    if p.Waiting? {
      q := p;
    } else {
      var call := if p.paused then [] else [PauseCall(p.id, input.pause.Ok?)];
      FollowOne(p, PauseCall(p.id, input.pause.Ok?));
      q := if p.paused || input.pause.Ok? then Recording(p.id, true) else p;
      assert Follow(p, call) == Some(q);
      if p.paused || input.pause.Ok? {
        if !p.paused { ExtendHistory(s.active.value.events, false, CadEvent(Paused, input.now)); }
        var left := if p.paused then s else s.(active := Some(Pause(s.active.value, input.now)), paused := true);
        assert Stands(left, q);
        if input.now - left.lastForeground.value >= grace * TICKS_PER_SECOND {
          q := FinalizeFollows(left, input.second, q);
          FollowAppend(p, call, FinalizeFromTick(left, input.second).2);
        }
      }
    }
    hide FinalizeFromTick, Stands, OpenHistory;
  }

  lemma TickFollows(s: State, grace: int, input: TickInput, p: Phase) returns (q: Phase)
    requires Stands(s, p)
    ensures var (s', _, calls) := Tick(s, grace, input); Follow(p, calls) == Some(q) && Stands(s', q)
  {
    hide Approved, Unapproved, FinalizeFromTick, Stands;
    StandsWaiting(s, p);
    var delivered, outcome, calls := s, Completed, [];
    q := p;
    if s.pending.Some? {
      q := FinalizeFollows(s, input.first, p);
      var (d, o, c) := FinalizeFromTick(s, input.first);
      delivered, outcome, calls := d, o, c;
    }
    if outcome == Completed {
      var middle := q;
      if input.approved {
        q := ApprovedFollows(delivered, input, middle);
        FollowAppend(p, calls, Approved(delivered, input).2);
      } else {
        q := UnapprovedFollows(delivered, grace, input, middle);
        FollowAppend(p, calls, Unapproved(delivered, grace, input).2);
      }
    }
  }

  // ---- Runs ----

  datatype Op = TickOp(input: TickInput) | FinishOp(finalize: FinalizeInput)

  function Step(s: State, grace: int, op: Op): (State, Outcome, seq<Call>) {
    match op
    case TickOp(input) => Tick(s, grace, input)
    case FinishOp(input) => FinishActive(s, input)
  }

  function Run(grace: int, ops: seq<Op>): (State, seq<Call>) {
    if ops == [] then (IDLE, [])
    else
      var (s, trace) := Run(grace, ops[..|ops| - 1]);
      var (s', _, calls) := Step(s, grace, ops[|ops| - 1]);
      (s', trace + calls)
  }

  /**
   Whatever fails and whatever the clock reads, the calls of a run follow the
   protocol and the fields stand where the protocol is: an active and a pending
   session never coexist, an active session's history is open, with the recorder
   paused exactly when its last event is a pause, and a pending session's history
   is closed with its active time computed.
   */
  lemma {:induction false} RunFollows(grace: int, ops: seq<Op>) returns (q: Phase)
    ensures Follow(Waiting, Run(grace, ops).1) == Some(q) && Stands(Run(grace, ops).0, q)
  {
    if ops == [] {
      q := Waiting;
    } else {
      var front, last := ops[..|ops| - 1], ops[|ops| - 1];
      var p := RunFollows(grace, front);
      var (s, trace) := Run(grace, front);
      if last.TickOp? {
        q := TickFollows(s, grace, last.input, p);
      } else {
        q := FinishFollows(s, last.finalize, p);
      }
      FollowAppend(Waiting, trace, Step(s, grace, last).2);
      hide Step, Stands, Next;
    }
  }

  // ---- What the protocol implies ----

  predicate Legal(trace: seq<Call>) {
    Follow(Waiting, trace).Some?
  }

  predicate NoStart(calls: seq<Call>) {
    forall c | c in calls :: !c.StartCall?
  }

  lemma LegalSplit(trace: seq<Call>, i: nat, j: nat)
    requires Legal(trace) && i < j < |trace|
    ensures Legal(trace[..i]) && Legal(trace[..j]) && Next(Follow(Waiting, trace[..i]).value, trace[i]).Some?
    ensures var after := Next(Follow(Waiting, trace[..i]).value, trace[i]).value;
      Follow(after, trace[i + 1..j]) == Follow(Waiting, trace[..j])
    ensures Next(Follow(Waiting, trace[..j]).value, trace[j]).Some?
  {
    hide Next;
    assert trace[..j] + trace[j..] == trace;
    assert trace[..i] + trace[i..j] == trace[..j];
    FollowAppend(Waiting, trace[..j], trace[j..]);
    FollowAppend(Waiting, trace[..i], trace[i..j]);
    assert trace[i..j][1..] == trace[i + 1..j] && trace[j..][0] == trace[j];
  }

  lemma {:induction false} WaitsOnlyAfterUpload(p: Phase, calls: seq<Call>) returns (k: nat)
    requires !p.Waiting? && Follow(p, calls) == Some(Waiting)
    ensures k < |calls| && calls[k].UploadCall? && calls[k].ok && calls[k].id == p.id
    decreases |calls|
  {
    var q := Next(p, calls[0]).value;
    if q.Waiting? {
      k := 0;
    } else {
      k := WaitsOnlyAfterUpload(q, calls[1..]);
      k := k + 1;
    }
  }

  /** No session starts until the one before it has been uploaded. */
  lemma NoStartBeforeUpload(trace: seq<Call>, i: nat, j: nat) returns (k: nat)
    requires Legal(trace) && i < j < |trace| && trace[i].StartCall? && trace[j].StartCall?
    ensures i < k < j && trace[k].UploadCall? && trace[k].ok && trace[k].id == trace[i].id
  {
    LegalSplit(trace, i, j);
    var after := Next(Follow(Waiting, trace[..i]).value, trace[i]).value;
    var m := WaitsOnlyAfterUpload(after, trace[i + 1..j]);
    k := i + 1 + m;
  }

  /** Without a new start, a session with a package keeps that package until it is uploaded. */
  lemma {:induction false} PackageStays(p: Phase, calls: seq<Call>)
    requires Follow(p, calls).Some? && NoStart(calls)
    requires p.Waiting? || (p.Delivering? && p.package.Some?)
    ensures var q := Follow(p, calls).value;
      q.Waiting? || (q.Delivering? && p.Delivering? && q.package == p.package && q.id == p.id)
    decreases |calls|
  {
    if calls != [] {
      assert calls[0] in calls;
      forall c | c in calls[1..] ensures c in calls {
      }
      PackageStays(Next(p, calls[0]).value, calls[1..]);
    }
  }

  /** Between two successful package writes another session has started: no session is written twice. */
  lemma OneWritePerSession(trace: seq<Call>, i: nat, j: nat)
    requires Legal(trace) && i < j < |trace|
    requires trace[i].WriteCall? && trace[i].written.Some? && trace[j].WriteCall? && trace[j].written.Some?
    ensures !NoStart(trace[i + 1..j])
  {
    LegalSplit(trace, i, j);
    if NoStart(trace[i + 1..j]) {
      PackageStays(Next(Follow(Waiting, trace[..i]).value, trace[i]).value, trace[i + 1..j]);
    }
  }

  /** Until the next start, every upload attempt is of the package that was written. */
  lemma UploadsUseThePackage(trace: seq<Call>, i: nat, j: nat)
    requires Legal(trace) && i < j < |trace| && NoStart(trace[i + 1..j])
    requires trace[i].WriteCall? && trace[i].written.Some? && trace[j].UploadCall?
    ensures Some(trace[j].package) == trace[i].written && trace[j].id == trace[i].id
  {
    LegalSplit(trace, i, j);
    PackageStays(Next(Follow(Waiting, trace[..i]).value, trace[i]).value, trace[i + 1..j]);
  }

  lemma {:induction false} PackageWasWritten(trace: seq<Call>) returns (i: nat)
    requires Legal(trace) && Follow(Waiting, trace).value.Delivering? && Follow(Waiting, trace).value.package.Some?
    ensures i < |trace| && trace[i].WriteCall? && NoStart(trace[i + 1..])
    ensures trace[i].written == Follow(Waiting, trace).value.package && trace[i].id == Follow(Waiting, trace).value.id
  {
    var front, last := trace[..|trace| - 1], trace[|trace| - 1];
    assert trace == front + [last];
    FollowAppend(Waiting, front, [last]);
    FollowOne(Follow(Waiting, front).value, last);
    if last.WriteCall? {
      i := |front|;
    } else {
      i := PackageWasWritten(front);
      assert trace[i + 1..] == front[i + 1..] + [last];
    }
  }

  /** Every upload attempt is of a package that was written for that session since it started. */
  lemma UploadWasWritten(trace: seq<Call>, j: nat) returns (i: nat)
    requires Legal(trace) && j < |trace| && trace[j].UploadCall?
    ensures i < j && trace[i].WriteCall? && NoStart(trace[i + 1..j])
    ensures trace[i].written == Some(trace[j].package) && trace[i].id == trace[j].id
  {
    hide Next;
    assert trace[..j] + trace[j..] == trace;
    FollowAppend(Waiting, trace[..j], trace[j..]);
    UploadPhase(Follow(Waiting, trace[..j]).value, trace[j]);
    i := PackageWasWritten(trace[..j]);
    assert trace[..j][i + 1..] == trace[i + 1..j];
  }

  lemma UploadPhase(p: Phase, c: Call)
    requires c.UploadCall? && Next(p, c).Some?
    ensures p.Delivering? && p.id == c.id && p.package == Some(c.package)
  {
  }

  lemma NoStartInFinalize(s: State, input: FinalizeInput, c: Call)
    requires c in FinalizeFromTick(s, input).2
    ensures !c.StartCall?
  {
    var start := if s.active.Some? then [StopCall(s.active.value.id, input.stop.Ok?)] else [];
    assert c in start ==> c.StopCall?;
  }

  lemma NoStartUnapproved(s: State, grace: int, input: TickInput, c: Call)
    requires c in Unapproved(s, grace, input).2
    ensures !c.StartCall?
  {
    var left := if s.paused || s.active.None? then s else s.(active := Some(Pause(s.active.value, input.now)), paused := true);
    if c in FinalizeFromTick(left, input.second).2 { NoStartInFinalize(left, input.second, c); }
    hide FinalizeFromTick, Pause;
  }

  lemma PendingDelivered(s: State, input: FinalizeInput)
    requires s.pending.Some? && FinalizeFromTick(s, input).1 == Completed
    ensures FinalizeFromTick(s, input).0.active == s.active && FinalizeFromTick(s, input).0.pending.None?
  {
  }

  lemma FailedStartMeans(s: State, input: TickInput, id: string)
    requires StartCall(id, false) in Approved(s, input).2
    ensures s.active.None? && id == input.newId && input.start.Err? && Approved(s, input).2 == [StartCall(id, false)]
    ensures Approved(s, input).0 == s.(lastForeground := Some(input.now), active := Some(Start(id, input.now)))
    ensures Approved(s, input).1 == Failed(input.start.error)
  {
  }

  /**
   A recorder that fails to start, at whatever tick, fails that tick and leaves
   its new session active all the same: only a tick that began without an
   active session, and has delivered what was pending, gets there.
   */
  lemma FailedStartStillActive(s: State, grace: int, input: TickInput, id: string)
    requires StartCall(id, false) in Tick(s, grace, input).2
    ensures var (s', outcome, calls) := Tick(s, grace, input);
      && input.approved && id == input.newId && input.start.Err? && outcome == Failed(input.start.error)
      && s.active.None? && s'.active == Some(Start(id, input.now)) && s'.pending.None?
      && calls[|calls| - 1] == StartCall(id, false)
  {
    hide FinalizeFromTick, Unapproved, Approved, Start;
    var failed := StartCall(id, false);
    var (delivered, outcome, before) := if s.pending.Some? then FinalizeFromTick(s, input.first) else (s, Completed, []);
    if failed in before { NoStartInFinalize(s, input.first, failed); }
    if outcome == Completed {
      if s.pending.Some? { PendingDelivered(s, input.first); }
      if input.approved {
        FailedStartMeans(delivered, input, id);
      } else {
        NoStartUnapproved(delivered, grace, input, failed);
      }
    }
  }
}
