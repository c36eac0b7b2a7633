/**
 The job table is a fold of the lease log, the log's per-job histories obey the
 fencing discipline, and neither a superseded lease nor a completion ever comes back.
 */
module LeaseHistory {
  import opened Basics
  import opened AuditLog
  import opened ControlLeases

  // ---- The log of one job, and its fold ----

  function JobEvents(events: seq<LeaseEvent>, jobId: string): seq<LeaseEvent> {
    if events == [] then []
    else
      var last := events[|events| - 1];
      JobEvents(events[..|events| - 1], jobId) + if last.jobId == jobId then [last] else []
  }

  lemma JobEventsSnoc(events: seq<LeaseEvent>, event: LeaseEvent, jobId: string)
    ensures JobEvents(events + [event], jobId)
         == JobEvents(events, jobId) + if event.jobId == jobId then [event] else []
  {
    assert (events + [event])[..|events|] == events;
  }

  datatype LeaseView = LeaseView(
    state: JobState, owner: Option<string>, token: nat, attempt: nat, expiresAt: Option<int>, resultDigest: Option<string>)

  function ViewOf(row: JobRow): LeaseView {
    LeaseView(row.state, row.owner, row.token, row.attempt, row.expiresAt, row.resultDigest)
  }

  function Apply(view: LeaseView, event: LeaseEvent): LeaseView {
    match event.kind
    case Heartbeaten => view.(expiresAt := event.expiresAt)
    case Finished => view.(state := Completed, resultDigest := event.resultDigest)
    case _ => LeaseView(Leased, Some(event.owner), event.token, event.attempt, event.expiresAt, view.resultDigest)
  }

  function Replay(history: seq<LeaseEvent>): LeaseView {
    if history == [] then LeaseView(Queued, None, 0, 0, None, None)
    else Apply(Replay(history[..|history| - 1]), history[|history| - 1])
  }

  // ---- The fencing discipline of one history ----

  predicate IsAcquisition(event: LeaseEvent) {
    event.kind == Acquired || event.kind == Reacquired
  }

  predicate CarriesCurrentLease(view: LeaseView, event: LeaseEvent) {
    && view.state == Leased
    && view.owner == Some(event.owner) && view.token == event.token && view.attempt == event.attempt
    && view.expiresAt.Some? && view.expiresAt.value > event.occurredAt
  }

  /** What may happen next to a job in a given view. */
  predicate LegalNext(view: LeaseView, event: LeaseEvent) {
    match event.kind
    case Heartbeaten =>
      && CarriesCurrentLease(view, event)
      && event.expiresAt.Some? && event.expiresAt.value > event.occurredAt && event.resultDigest.None?
    case Finished =>
      CarriesCurrentLease(view, event) && event.expiresAt.None? && event.resultDigest.Some?
    case _ =>
      && view.state != Completed
      && (view.state == Leased ==> view.expiresAt.Some? && view.expiresAt.value <= event.occurredAt)
      && event.token == view.token + 1 && event.attempt == event.token
      && (event.kind == Acquired <==> event.token == 1)
      && event.expiresAt.Some? && event.expiresAt.value > event.occurredAt && event.resultDigest.None?
  }

  predicate LegalHistory(history: seq<LeaseEvent>) {
    history == []
    || (LegalHistory(history[..|history| - 1]) && LegalNext(Replay(history[..|history| - 1]), history[|history| - 1]))
  }

  /** A leased row has an owner and an expiry; a completed row carries its completion. */
  predicate RowConsistent(row: JobRow) {
    && row.attempt == row.token
    && (row.state == Leased ==> row.owner.Some? && row.expiresAt.Some?)
    && (row.state == Completed ==> row.completionKey.Some? && row.resultDigest.Some? && row.completedAt.Some?)
  }

  /** The row and the log agree on one job. */
  ghost predicate RowRefinesLog(s: ControlState, jobId: string) {
    var history := JobEvents(s.events, jobId);
    && LegalHistory(history)
    && (if jobId in s.jobs
        then ViewOf(s.jobs[jobId]) == Replay(history) && RowConsistent(s.jobs[jobId])
        else history == [])
  }

  lemma LegalSnoc(history: seq<LeaseEvent>, event: LeaseEvent)
    requires LegalHistory(history) && LegalNext(Replay(history), event)
    ensures LegalHistory(history + [event]) && Replay(history + [event]) == Apply(Replay(history), event)
  {
    assert (history + [event])[..|history|] == history;
  }

  /** A step that writes the log appends one legal entry and applies it to that job's row only. */
  lemma StepLogs(s: ControlState, cap: nat, op: Op) returns (event: LeaseEvent)
    requires Step(s, cap, op).events != s.events
    requires forall jobId | jobId in s.jobs && s.jobs[jobId].state == Leased :: s.jobs[jobId].expiresAt.Some?
    requires forall jobId | jobId in s.jobs :: s.jobs[jobId].attempt == s.jobs[jobId].token
    ensures var s' := Step(s, cap, op);
      && s'.events == s.events + [event] && event.jobId in s.jobs && event.jobId in s'.jobs
      && s'.jobs == s.jobs[event.jobId := s'.jobs[event.jobId]]
      && LegalNext(ViewOf(s.jobs[event.jobId]), event)
      && ViewOf(s'.jobs[event.jobId]) == Apply(ViewOf(s.jobs[event.jobId]), event)
      && RowConsistent(s'.jobs[event.jobId])
  {
    var s' := Step(s, cap, op);
    event := s'.events[|s.events|];
  }

  lemma StepQuiet(s: ControlState, cap: nat, op: Op, jobId: string)
    requires Step(s, cap, op).events == s.events
    ensures jobId in s.jobs ==> jobId in Step(s, cap, op).jobs && Step(s, cap, op).jobs[jobId] == s.jobs[jobId]
    ensures jobId in Step(s, cap, op).jobs && jobId !in s.jobs ==>
              ViewOf(Step(s, cap, op).jobs[jobId]) == Replay([]) && RowConsistent(Step(s, cap, op).jobs[jobId])
  {
  }

  lemma StepKeepsRefinement(s: ControlState, cap: nat, op: Op, jobId: string)
    requires forall other :: RowRefinesLog(s, other)
    ensures RowRefinesLog(Step(s, cap, op), jobId)
  {
    hide Step, LegalNext, Apply;
    var s' := Step(s, cap, op);
    forall other | other in s.jobs ensures ViewOf(s.jobs[other]) == ViewOf(s.jobs[other]) && RowConsistent(s.jobs[other]) {
      assert RowRefinesLog(s, other);
    }
    assert RowRefinesLog(s, jobId);
    if s'.events == s.events {
      StepQuiet(s, cap, op, jobId);
    } else {
      var event := StepLogs(s, cap, op);
      JobEventsSnoc(s.events, event, jobId);
      if event.jobId == jobId {
        LegalSnoc(JobEvents(s.events, jobId), event);
      } else {
        assert JobEvents(s'.events, jobId) == JobEvents(s.events, jobId);
      }
    }
  }

  /** In every run, each job row is the fold of its own log entries, which form a legal history. */
  lemma {:induction false} RunRefinesLog(cap: nat, ops: seq<Op>, jobId: string)
    ensures RowRefinesLog(Run(EMPTY, cap, ops), jobId)
  {
    if ops != [] {
      var before := Run(EMPTY, cap, ops[..|ops| - 1]);
      forall other ensures RowRefinesLog(before, other) {
        RunRefinesLog(cap, ops[..|ops| - 1], other);
      }
      StepKeepsRefinement(Run(EMPTY, cap, ops[..|ops| - 1]), cap, ops[|ops| - 1], jobId);
    }
  }

  // ---- What a legal history looks like ----

  function Acquisitions(history: seq<LeaseEvent>): nat {
    if history == [] then 0
    else Acquisitions(history[..|history| - 1]) + if IsAcquisition(history[|history| - 1]) then 1 else 0
  }

  /**
   Fencing tokens count acquisitions: the n-th acquisition carries token and
   attempt n, and every heartbeat and completion carries the latest token.
   */
  lemma {:induction false} TokensCountAcquisitions(history: seq<LeaseEvent>)
    requires LegalHistory(history)
    ensures Replay(history).token == Replay(history).attempt == Acquisitions(history)
    ensures forall i | 0 <= i < |history| ::
              history[i].token == history[i].attempt == Acquisitions(history[..i + 1])
  {
    if history != [] {
      var front := history[..|history| - 1];
      TokensCountAcquisitions(front);
      forall i | 0 <= i < |history|
        ensures history[i].token == history[i].attempt == Acquisitions(history[..i + 1])
      {
        if i < |front| {
          assert history[..i + 1] == front[..i + 1];
        } else {
          assert history[..i + 1] == history;
        }
      }
    }
  }

  /** A completion is the last entry of its job's history, so there is at most one. */
  lemma {:induction false} CompletionIsLast(history: seq<LeaseEvent>, i: nat)
    requires LegalHistory(history) && i < |history| && history[i].kind == Finished
    ensures i == |history| - 1
    ensures Replay(history).state == Completed
  {
    if i < |history| - 1 {
      CompletionIsLast(history[..|history| - 1], i);
      assert false;
    }
  }

  /** A lease that is still running is never taken over: each acquisition waits for the last promised expiry. */
  lemma {:induction false} TakeoverWaitsForExpiry(history: seq<LeaseEvent>, i: nat)
    requires LegalHistory(history) && 0 < i < |history| && IsAcquisition(history[i])
    ensures history[i - 1].expiresAt.Some? && history[i - 1].expiresAt.value <= history[i].occurredAt
  {
    LegalPrefix(history, i + 1);
    LegalPrefix(history, i);
    assert history[..i + 1][..i] == history[..i];
    assert LegalNext(Replay(history[..i]), history[i]);
    assert history[..i][..i - 1] == history[..i - 1];
  }

  lemma {:induction false} LegalPrefix(history: seq<LeaseEvent>, n: nat)
    requires LegalHistory(history) && n <= |history|
    ensures LegalHistory(history[..n])
  {
    if n == |history| {
      assert history[..n] == history;
    } else {
      LegalPrefix(history[..|history| - 1], n);
      assert history[..|history| - 1][..n] == history[..n];
    }
  }

  // ---- Fencing and immutability over the rest of a run ----

  /** What later states keep of one job: tokens only grow and a completed row is frozen. */
  ghost predicate Later(s: ControlState, s': ControlState, jobId: string) {
    && jobId in s.jobs && jobId in s'.jobs
    && s.jobs[jobId].token <= s'.jobs[jobId].token
    && (s.jobs[jobId].state == Completed ==>
          s'.jobs[jobId] == s.jobs[jobId] && JobEvents(s'.events, jobId) == JobEvents(s.events, jobId))
  }

  lemma {:induction false} RunIsLater(s: ControlState, cap: nat, ops: seq<Op>, jobId: string)
    requires jobId in s.jobs
    ensures Later(s, Run(s, cap, ops), jobId)
  {
    if ops != [] {
      var front := ops[..|ops| - 1];
      RunIsLater(s, cap, front, jobId);
      var mid, op := Run(s, cap, front), ops[|ops| - 1];
      var s' := Step(mid, cap, op);
      if s'.events != mid.events {
        var event := s'.events[|mid.events|];
        assert s'.events == mid.events + [event];
        JobEventsSnoc(mid.events, event, jobId);
      }
    }
  }

  /** Once a job has a newer token, an older lease can never heartbeat or complete again, whatever follows. */
  lemma SupersededLeaseIsFenced(s: ControlState, cap: nat, ops: seq<Op>, lease: Lease, now: int, ttl: int,
                                key: string, digest: string, audit: Option<AuditContext>)
    requires lease.jobId in s.jobs && lease.token < s.jobs[lease.jobId].token
    ensures var s' := Run(s, cap, ops);
            && Heartbeat(s', lease, now, ttl, audit) == (s', Err(if ValidTtl(ttl) then StaleLease else InvalidArgument))
            && Complete(s', lease, key, digest, now, audit)
               == (s', Err(if HasText(key) && IsSha256(digest) then StaleLease else InvalidArgument))
  {
    RunIsLater(s, cap, ops, lease.jobId);
  }

  /**
   A completion is immutable: whatever follows, the job keeps its row and its
   log, and completing again succeeds exactly for the completing lease with the
   same key and digest, returning the same completion and changing nothing.
   */
  lemma {:induction false} CompletionIsImmutable(s: ControlState, cap: nat, ops: seq<Op>, lease: Lease, key: string, digest: string, now: int)
    requires lease.jobId in s.jobs && s.jobs[lease.jobId].state == Completed
    requires HasText(key) && IsSha256(digest)
    ensures var s', row := Run(s, cap, ops), s.jobs[lease.jobId];
            var (after, r) := Complete(s', lease, key, digest, now, None);
            && after == s' && lease.jobId in s'.jobs && s'.jobs[lease.jobId] == row
            && JobEvents(s'.events, lease.jobId) == JobEvents(s.events, lease.jobId)
            && (r.Ok? <==> HolderOf(row, lease) && row.completionKey == Some(key) && row.resultDigest == Some(digest))
            && (r.Ok? ==> r.value == CompletionOf(lease.jobId, row))
  {
    RunIsLater(s, cap, ops, lease.jobId);
  }

  /** A lease that was just granted carries a token no earlier log entry of the job carries. */
  lemma GrantedTokenIsFresh(cap: nat, ops: seq<Op>, jobId: string, owner: string, now: int, ttl: int,
                            audit: Option<AuditContext>, i: nat)
    requires var s := Run(EMPTY, cap, ops);
             var (s', r) := Acquire(s, cap, jobId, owner, now, ttl, audit);
             && s'.events != s.events
             && i < |JobEvents(s.events, jobId)|
    ensures var s := Run(EMPTY, cap, ops);
            JobEvents(s.events, jobId)[i].token < Acquire(s, cap, jobId, owner, now, ttl, audit).1.value.token
  {
    var s := Run(EMPTY, cap, ops);
    var history := JobEvents(s.events, jobId);
    RunRefinesLog(cap, ops, jobId);
    TokensCountAcquisitions(history);
    AcquisitionsMonotone(history, i + 1);
  }

  lemma {:induction false} AcquisitionsMonotone(history: seq<LeaseEvent>, n: nat)
    requires n <= |history|
    ensures Acquisitions(history[..n]) <= Acquisitions(history)
  {
    if n == |history| {
      assert history[..n] == history;
    } else {
      AcquisitionsMonotone(history[..|history| - 1], n);
      assert history[..|history| - 1][..n] == history[..n];
    }
  }
}
