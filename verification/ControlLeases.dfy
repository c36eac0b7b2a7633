/**
 Job leasing with fencing tokens, a global bound on active leases, heartbeats
 and idempotent completion, together with the append-only log of every change.
 */
module ControlLeases {
  import opened Basics
  import opened AuditLog

  const MAX_ACTIVE_LEASES := 3
  const MAX_LEASE_SECONDS := 30 * 60
  const MICROS_PER_SECOND := 1_000_000

  datatype JobState = Queued | Leased | Completed

  /** One row of the job table; `None` is a null column. */
  datatype JobRow = JobRow(
    payloadDigest: string,
    state: JobState,
    owner: Option<string>,
    token: nat,
    attempt: nat,
    acquiredAt: Option<int>,
    expiresAt: Option<int>,
    heartbeatAt: Option<int>,
    completionKey: Option<string>,
    resultDigest: Option<string>,
    completedAt: Option<int>,
    createdAt: int,
    updatedAt: int)

  datatype EventKind = Acquired | Reacquired | Heartbeaten | Finished

  datatype LeaseEvent = LeaseEvent(
    jobId: string,
    kind: EventKind,
    owner: string,
    token: nat,
    attempt: nat,
    occurredAt: int,
    expiresAt: Option<int>,
    resultDigest: Option<string>)

  datatype Lease = Lease(jobId: string, owner: string, token: nat, attempt: nat, acquiredAt: int, expiresAt: int)

  datatype Completion = Completion(jobId: string, key: string, resultDigest: string, token: nat, completedAt: int)

  datatype Error = InvalidArgument | Conflict | JobNotFound | LeaseUnavailable | StaleLease

  datatype ControlState = ControlState(jobs: map<string, JobRow>, events: seq<LeaseEvent>, audit: seq<AuditContext>)

  const EMPTY := ControlState(map[], [], [])

  // ---- What each operation tests ----

  predicate ValidTtl(ttl: int) {
    1 <= ttl <= MAX_LEASE_SECONDS
  }

  function Expiry(now: int, ttl: int): int {
    now + ttl * MICROS_PER_SECOND
  }

  /** `state = 'leased' and lease_expires_at > t` */
  predicate ActiveAfter(row: JobRow, t: int) {
    row.state == Leased && row.expiresAt.Some? && row.expiresAt.value > t
  }

  function ActiveJobs(jobs: map<string, JobRow>, t: int): set<string> {
    set jobId | jobId in jobs && ActiveAfter(jobs[jobId], t)
  }

  predicate HolderOf(row: JobRow, lease: Lease) {
    row.owner == Some(lease.owner) && row.token == lease.token && row.attempt == lease.attempt
  }

  predicate IsCurrentLease(row: JobRow, lease: Lease, now: int) {
    ActiveAfter(row, now) && HolderOf(row, lease)
  }

  function LeaseOf(jobId: string, row: JobRow): Lease {
    Lease(jobId, row.owner.GetOr(""), row.token, row.attempt, row.acquiredAt.GetOr(0), row.expiresAt.GetOr(0))
  }

  function CompletionOf(jobId: string, row: JobRow): Completion {
    Completion(jobId, row.completionKey.GetOr(""), row.resultDigest.GetOr(""), row.token, row.completedAt.GetOr(0))
  }

  // ---- The operations as functions on states ----

  function NewJob(digest: string, now: int): JobRow {
    JobRow(digest, Queued, None, 0, 0, None, None, None, None, None, None, now, now)
  }

  function Granted(row: JobRow, owner: string, now: int, ttl: int): JobRow {
    row.(state := Leased, owner := Some(owner), token := row.token + 1, attempt := row.attempt + 1,
         acquiredAt := Some(now), expiresAt := Some(Expiry(now, ttl)), heartbeatAt := Some(now), updatedAt := now)
  }

  function Extended(row: JobRow, now: int, ttl: int): JobRow {
    row.(expiresAt := Some(Expiry(now, ttl)), heartbeatAt := Some(now), updatedAt := now)
  }

  function Closed(row: JobRow, key: string, digest: string, now: int): JobRow {
    row.(state := Completed, completionKey := Some(key), resultDigest := Some(digest),
         completedAt := Some(now), updatedAt := now)
  }

  /** A transaction that only reads: its evidence is appended, or everything rolls back. */
  function ReadOnly<T>(s: ControlState, audit: Option<AuditContext>, r: Result<T, Error>): (ControlState, Result<T, Error>) {
    if AuditAdmitted(audit) then (s.(audit := AppendAudit(s.audit, audit)), r) else (s, Err(InvalidArgument))
  }

  /** A transaction that writes one job row and one log entry. */
  function Written<T>(s: ControlState, jobId: string, row: JobRow, event: LeaseEvent, audit: Option<AuditContext>, value: T)
    : (ControlState, Result<T, Error>)
  {
    if AuditAdmitted(audit)
    then (ControlState(s.jobs[jobId := row], s.events + [event], AppendAudit(s.audit, audit)), Ok(value))
    else (s, Err(InvalidArgument))
  }

  function Register(s: ControlState, jobId: string, digest: string, now: int, audit: Option<AuditContext>)
    : (ControlState, Result<JobRow, Error>)
  {
    if !HasText(jobId) || !IsSha256(digest) then (s, Err(InvalidArgument))
    else if jobId in s.jobs then
      if s.jobs[jobId].payloadDigest != digest then (s, Err(Conflict))
      else ReadOnly(s, audit, Ok(s.jobs[jobId]))
    else if !AuditAdmitted(audit) then (s, Err(InvalidArgument))
    else (s.(jobs := s.jobs[jobId := NewJob(digest, now)], audit := AppendAudit(s.audit, audit)), Ok(NewJob(digest, now)))
  }

  function Acquire(s: ControlState, cap: nat, jobId: string, owner: string, now: int, ttl: int, audit: Option<AuditContext>)
    : (ControlState, Result<Lease, Error>)
  {
    if !HasText(jobId) || !HasText(owner) || !ValidTtl(ttl) then (s, Err(InvalidArgument))
    else if jobId !in s.jobs then (s, Err(JobNotFound))
    else
      var row := s.jobs[jobId];
      if row.state == Completed then (s, Err(LeaseUnavailable))
      else if ActiveAfter(row, now) then
        if row.owner == Some(owner) then ReadOnly(s, audit, Ok(LeaseOf(jobId, row))) else (s, Err(LeaseUnavailable))
      else if |ActiveJobs(s.jobs, now)| >= cap then (s, Err(LeaseUnavailable))
      else
        var next := Granted(row, owner, now, ttl);
        var event := LeaseEvent(jobId, if next.token == 1 then Acquired else Reacquired, owner,
                                next.token, next.attempt, now, next.expiresAt, None);
        Written(s, jobId, next, event, audit, LeaseOf(jobId, next))
  }

  function Heartbeat(s: ControlState, lease: Lease, now: int, ttl: int, audit: Option<AuditContext>)
    : (ControlState, Result<Lease, Error>)
  {
    if !ValidTtl(ttl) then (s, Err(InvalidArgument))
    else if lease.jobId !in s.jobs then (s, Err(JobNotFound))
    else if !IsCurrentLease(s.jobs[lease.jobId], lease, now) then (s, Err(StaleLease))
    else
      var next := Extended(s.jobs[lease.jobId], now, ttl);
      var event := LeaseEvent(lease.jobId, Heartbeaten, lease.owner, lease.token, lease.attempt, now, next.expiresAt, None);
      Written(s, lease.jobId, next, event, audit, LeaseOf(lease.jobId, next))
  }

  function Complete(s: ControlState, lease: Lease, key: string, digest: string, now: int, audit: Option<AuditContext>)
    : (ControlState, Result<Completion, Error>)
  {
    if !HasText(key) || !IsSha256(digest) then (s, Err(InvalidArgument))
    else if lease.jobId !in s.jobs then (s, Err(JobNotFound))
    else
      var row := s.jobs[lease.jobId];
      if row.state == Completed then
        if !HolderOf(row, lease) then (s, Err(StaleLease))
        else if row.completionKey == Some(key) && row.resultDigest == Some(digest)
        then ReadOnly(s, audit, Ok(CompletionOf(lease.jobId, row)))
        else (s, Err(Conflict))
      else if !IsCurrentLease(row, lease, now) then (s, Err(StaleLease))
      else
        var next := Closed(row, key, digest, now);
        var event := LeaseEvent(lease.jobId, Finished, lease.owner, lease.token, lease.attempt, now, None, Some(digest));
        Written(s, lease.jobId, next, event, audit, CompletionOf(lease.jobId, next))
  }

  // ---- The store ----

  /** The durable store: three tables, changed by one transaction per call. */
  class ControlStore {
    const maxActive: nat
    var jobs: map<string, JobRow>
    var leaseEvents: seq<LeaseEvent>
    var auditEvents: seq<AuditContext>

    ghost function State(): ControlState
      reads this
    {
      ControlState(jobs, leaseEvents, auditEvents)
    }

    constructor (maxActive: nat)
      requires 1 <= maxActive <= MAX_ACTIVE_LEASES
      ensures this.maxActive == maxActive && State() == EMPTY
    {
      this.maxActive := maxActive;
      jobs, leaseEvents, auditEvents := map[], [], [];
    }

    method AppendAuditEvent(audit: Option<AuditContext>) returns (ok: bool)
      modifies this`auditEvents
      ensures ok == AuditAdmitted(audit)
      ensures auditEvents == if ok then AppendAudit(old(auditEvents), audit) else old(auditEvents)
    {
      if audit.None? { return true; }
      if !audit.value.wellFormed { return false; }
      auditEvents := auditEvents + [audit.value];
      return true;
    }

    method RegisterJob(jobId: string, digest: string, now: int, audit: Option<AuditContext>)
      returns (r: Result<JobRow, Error>)
      modifies this
      ensures (State(), r) == Register(old(State()), jobId, digest, now, audit)
    {
      if !HasText(jobId) || !IsSha256(digest) { return Err(InvalidArgument); }
      if jobId in jobs {
        if jobs[jobId].payloadDigest != digest { return Err(Conflict); }
        var admitted := AppendAuditEvent(audit);
        return if admitted then Ok(jobs[jobId]) else Err(InvalidArgument);
      }
      var savedJobs := jobs;
      jobs := jobs[jobId := JobRow(digest, Queued, None, 0, 0, None, None, None, None, None, None, now, now)];
      var ok := AppendAuditEvent(audit);
      if !ok {
        jobs := savedJobs;
        return Err(InvalidArgument);
      }
      return Ok(jobs[jobId]);
    }

    method AcquireLease(jobId: string, owner: string, now: int, ttl: int, audit: Option<AuditContext>)
      returns (r: Result<Lease, Error>)
      modifies this
      ensures (State(), r) == Acquire(old(State()), maxActive, jobId, owner, now, ttl, audit)
    {
      if !HasText(jobId) || !HasText(owner) || !ValidTtl(ttl) { return Err(InvalidArgument); }
      var expires := now + ttl * MICROS_PER_SECOND;
      if jobId !in jobs { return Err(JobNotFound); }
      var row := jobs[jobId];
      if row.state == Completed { return Err(LeaseUnavailable); }
      if ActiveAfter(row, now) {
        if row.owner != Some(owner) { return Err(LeaseUnavailable); }
        var admitted := AppendAuditEvent(audit);
        return if admitted then Ok(LeaseOf(jobId, row)) else Err(InvalidArgument);
      }
      var activeCount := |ActiveJobs(jobs, now)|;
      if activeCount >= maxActive { return Err(LeaseUnavailable); }
      var token, attempt := row.token + 1, row.attempt + 1;
      var kind := if token == 1 then Acquired else Reacquired;
      var savedJobs, savedEvents := jobs, leaseEvents;
      jobs := jobs[jobId := row.(state := Leased, owner := Some(owner), token := token, attempt := attempt,
                                 acquiredAt := Some(now), expiresAt := Some(expires), heartbeatAt := Some(now),
                                 updatedAt := now)];
      leaseEvents := leaseEvents + [LeaseEvent(jobId, kind, owner, token, attempt, now, Some(expires), None)];
      var ok := AppendAuditEvent(audit);
      if !ok {
        jobs, leaseEvents := savedJobs, savedEvents;
        return Err(InvalidArgument);
      }
      return Ok(LeaseOf(jobId, jobs[jobId]));
    }

    method HeartbeatLease(lease: Lease, now: int, ttl: int, audit: Option<AuditContext>)
      returns (r: Result<Lease, Error>)
      modifies this
      ensures (State(), r) == Heartbeat(old(State()), lease, now, ttl, audit)
    {
      if !ValidTtl(ttl) { return Err(InvalidArgument); }
      var expires := now + ttl * MICROS_PER_SECOND;
      if lease.jobId !in jobs { return Err(JobNotFound); }
      var row := jobs[lease.jobId];
      if !IsCurrentLease(row, lease, now) { return Err(StaleLease); }
      var savedJobs, savedEvents := jobs, leaseEvents;
      jobs := jobs[lease.jobId := row.(expiresAt := Some(expires), heartbeatAt := Some(now), updatedAt := now)];
      leaseEvents := leaseEvents + [LeaseEvent(lease.jobId, Heartbeaten, lease.owner, lease.token, lease.attempt,
                                               now, Some(expires), None)];
      var ok := AppendAuditEvent(audit);
      if !ok {
        jobs, leaseEvents := savedJobs, savedEvents;
        return Err(InvalidArgument);
      }
      return Ok(LeaseOf(lease.jobId, jobs[lease.jobId]));
    }

    method CompleteLease(lease: Lease, key: string, digest: string, now: int, audit: Option<AuditContext>)
      returns (r: Result<Completion, Error>)
      modifies this
      ensures (State(), r) == Complete(old(State()), lease, key, digest, now, audit)
    {
      if !HasText(key) || !IsSha256(digest) { return Err(InvalidArgument); }
      if lease.jobId !in jobs { return Err(JobNotFound); }
      var row := jobs[lease.jobId];
      if row.state == Completed {
        if !HolderOf(row, lease) { return Err(StaleLease); }
        if row.completionKey != Some(key) || row.resultDigest != Some(digest) { return Err(Conflict); }
        var admitted := AppendAuditEvent(audit);
        return if admitted then Ok(CompletionOf(lease.jobId, row)) else Err(InvalidArgument);
      }
      if !IsCurrentLease(row, lease, now) { return Err(StaleLease); }
      var savedJobs, savedEvents := jobs, leaseEvents;
      jobs := jobs[lease.jobId := row.(state := Completed, completionKey := Some(key), resultDigest := Some(digest),
                                       completedAt := Some(now), updatedAt := now)];
      leaseEvents := leaseEvents + [LeaseEvent(lease.jobId, Finished, lease.owner, lease.token, lease.attempt,
                                               now, None, Some(digest))];
      var ok := AppendAuditEvent(audit);
      if !ok {
        jobs, leaseEvents := savedJobs, savedEvents;
        return Err(InvalidArgument);
      }
      return Ok(CompletionOf(lease.jobId, jobs[lease.jobId]));
    }
  }

  // ---- Runs ----

  datatype Op =
    | RegisterOp(jobId: string, digest: string, now: int, audit: Option<AuditContext>)
    | AcquireOp(jobId: string, owner: string, now: int, ttl: int, audit: Option<AuditContext>)
    | HeartbeatOp(lease: Lease, now: int, ttl: int, audit: Option<AuditContext>)
    | CompleteOp(lease: Lease, key: string, digest: string, now: int, audit: Option<AuditContext>)

  function Step(s: ControlState, cap: nat, op: Op): ControlState {
    match op
    case RegisterOp(jobId, digest, now, audit) => Register(s, jobId, digest, now, audit).0
    case AcquireOp(jobId, owner, now, ttl, audit) => Acquire(s, cap, jobId, owner, now, ttl, audit).0
    case HeartbeatOp(lease, now, ttl, audit) => Heartbeat(s, lease, now, ttl, audit).0
    case CompleteOp(lease, key, digest, now, audit) => Complete(s, lease, key, digest, now, audit).0
  }

  function Run(s: ControlState, cap: nat, ops: seq<Op>): ControlState {
    if ops == [] then s else Step(Run(s, cap, ops[..|ops| - 1]), cap, ops[|ops| - 1])
  }

  lemma RunSnoc(s: ControlState, cap: nat, ops: seq<Op>, op: Op)
    ensures Run(s, cap, ops + [op]) == Step(Run(s, cap, ops), cap, op)
  {
    assert (ops + [op])[..|ops + [op]| - 1] == ops;
  }

  ghost predicate NondecreasingClock(ops: seq<Op>) {
    forall i, j | 0 <= i < j < |ops| :: ops[i].now <= ops[j].now
  }

  // ---- The bound on active leases ----

  lemma SubsetSize<T>(a: set<T>, b: set<T>)
    requires a <= b
    ensures |a| <= |b|
  {
    if a != {} {
      var x :| x in a;
      SubsetSize(a - {x}, b - {x});
    }
  }

  lemma OneRowMoreActive(jobs: map<string, JobRow>, jobId: string, row: JobRow, now: int, t: int)
    requires t >= now
    ensures ActiveJobs(jobs[jobId := row], t) <= ActiveJobs(jobs, now) + {jobId}
    ensures jobId in ActiveJobs(jobs, now) || !ActiveAfter(row, t)
            ==> ActiveJobs(jobs[jobId := row], t) <= ActiveJobs(jobs, now)
  {
  }

  /**
   One step keeps the bound: a new lease is counted when it is granted, and a
   heartbeat extends only a lease that was already counted at the same time.
   */
  lemma StepKeepsCap(s: ControlState, cap: nat, op: Op, t: int)
    requires |ActiveJobs(s.jobs, op.now)| <= cap
    requires t >= op.now
    ensures |ActiveJobs(Step(s, cap, op).jobs, t)| <= cap
  {
    var s' := Step(s, cap, op);
    var before, after := ActiveJobs(s.jobs, op.now), ActiveJobs(s'.jobs, t);
    if s'.jobs == s.jobs {
      assert after <= before;
    } else {
      var jobId := if op.HeartbeatOp? || op.CompleteOp? then op.lease.jobId else op.jobId;
      assert s'.jobs == s.jobs[jobId := s'.jobs[jobId]];
      OneRowMoreActive(s.jobs, jobId, s'.jobs[jobId], op.now, t);
    }
    if op.AcquireOp? && s'.jobs != s.jobs {
      assert |before| < cap;
      SubsetSize(after, before + {op.jobId});
    } else {
      assert after <= before;
      SubsetSize(after, before);
    }
  }

  /**
   While the clock never goes backwards, at the time of the last call and at
   every later time at most `cap` jobs hold a lease that has not expired.
   */
  lemma {:induction false} ActiveLeaseCap(cap: nat, ops: seq<Op>, t: int)
    requires NondecreasingClock(ops)
    requires ops != [] ==> t >= ops[|ops| - 1].now
    ensures |ActiveJobs(Run(EMPTY, cap, ops).jobs, t)| <= cap
  {
    if ops == [] {
      assert ActiveJobs(EMPTY.jobs, t) == {};
    } else {
      var front, last := ops[..|ops| - 1], ops[|ops| - 1];
      var s := Run(EMPTY, cap, front);
      ActiveLeaseCap(cap, front, last.now);
      StepKeepsCap(s, cap, last, t);
    }
  }

  function JobOf(op: Op): string {
    if op.RegisterOp? || op.AcquireOp? then op.jobId else op.lease.jobId
  }

  /** A heartbeat that is due to succeed and to keep alive, at time `t`, a lease that ends before. */
  predicate Extends(s: ControlState, op: Op, t: int) {
    && op.HeartbeatOp? && ValidTtl(op.ttl) && op.lease.jobId in s.jobs && AuditAdmitted(op.audit)
    && var row := s.jobs[op.lease.jobId];
       IsCurrentLease(row, op.lease, op.now) && !ActiveAfter(row, t) && Expiry(op.now, op.ttl) > t
  }

  /** An acquisition that is due to grant, alive at time `t`, a job whose lease ends before. */
  predicate Grants(s: ControlState, cap: nat, op: Op, t: int) {
    && op.AcquireOp? && HasText(op.jobId) && HasText(op.owner) && ValidTtl(op.ttl)
    && op.jobId in s.jobs && AuditAdmitted(op.audit) && |ActiveJobs(s.jobs, op.now)| < cap
    && var row := s.jobs[op.jobId];
       !row.state.Completed? && !ActiveAfter(row, op.now) && !ActiveAfter(row, t) && Expiry(op.now, op.ttl) > t
  }

  lemma ActiveAfterStep(s: ControlState, cap: nat, op: Op, t: int)
    ensures var s' := Step(s, cap, op);
            if Extends(s, op, t) || Grants(s, cap, op, t)
            then JobOf(op) !in ActiveJobs(s.jobs, t) && ActiveJobs(s'.jobs, t) == ActiveJobs(s.jobs, t) + {JobOf(op)}
            else ActiveJobs(s'.jobs, t) <= ActiveJobs(s.jobs, t)
  {
  }

  /**
   Whatever the clock does, a step takes the count at `t` over a full bound in
   exactly two ways: a heartbeat or an acquisition that is admitted at its own
   reading of the clock, for a job that is not among those counted at `t`.
   */
  lemma CapBrokenExactly(s: ControlState, cap: nat, op: Op, t: int)
    requires |ActiveJobs(s.jobs, t)| <= cap
    ensures |ActiveJobs(Step(s, cap, op).jobs, t)| > cap
       <==> |ActiveJobs(s.jobs, t)| == cap && (Extends(s, op, t) || Grants(s, cap, op, t))
  {
    ActiveAfterStep(s, cap, op, t);
    if !Extends(s, op, t) && !Grants(s, cap, op, t) {
      SubsetSize(ActiveJobs(Step(s, cap, op).jobs, t), ActiveJobs(s.jobs, t));
    }
  }

  /**
   At the call's own time and at every later one only a heartbeat can do it: an
   acquisition counts at its own time at least the leases that reach `t`.
   */
  lemma OnlyHeartbeatBreaksCap(s: ControlState, cap: nat, op: Op, t: int)
    requires |ActiveJobs(s.jobs, t)| <= cap && t >= op.now
    ensures |ActiveJobs(Step(s, cap, op).jobs, t)| > cap <==> |ActiveJobs(s.jobs, t)| == cap && Extends(s, op, t)
  {
    CapBrokenExactly(s, cap, op, t);
    SubsetSize(ActiveJobs(s.jobs, t), ActiveJobs(s.jobs, op.now));
  }

  function TwoJobOps(digest: string): seq<Op> {
    [RegisterOp("a", digest, 0, None), RegisterOp("b", digest, 0, None),
     AcquireOp("a", "a", 0, 10, None), AcquireOp("b", "b", 20_000_000, 10, None)]
  }

  lemma TwoJobRun(digest: string)
    requires IsSha256(digest)
    ensures Run(EMPTY, 1, TwoJobOps(digest)).jobs
         == map["a" := Granted(NewJob(digest, 0), "a", 0, 10), "b" := Granted(NewJob(digest, 0), "b", 20_000_000, 10)]
  {
    assert "a"[0] == 'a' && "b"[0] == 'b';
    assert HasText("a") && HasText("b");
    var ops, row := TwoJobOps(digest), NewJob(digest, 0);
    RunSnoc(EMPTY, 1, [], ops[0]);
    RunSnoc(EMPTY, 1, ops[..1], ops[1]);
    RunSnoc(EMPTY, 1, ops[..2], ops[2]);
    RunSnoc(EMPTY, 1, ops[..3], ops[3]);
    var s2, s3 := Run(EMPTY, 1, ops[..2]), Run(EMPTY, 1, ops[..3]);
    assert ops[..1] == [] + [ops[0]] && ops[..2] == ops[..1] + [ops[1]];
    assert ops[..3] == ops[..2] + [ops[2]] && ops == ops[..3] + [ops[3]];
    assert s2.jobs == map["a" := row, "b" := row];
    assert ActiveJobs(s2.jobs, 0) == {};
    assert s3.jobs == map["a" := Granted(row, "a", 0, 10), "b" := row];
    assert ActiveJobs(s3.jobs, 20_000_000) == {};
  }

  /**
   A clock that goes backwards does break the bound: job "a" expires, "b" takes
   the only place, and an earlier reading of the clock revives "a".
   */
  lemma BackwardClockBreaksCap(digest: string)
    requires IsSha256(digest)
    ensures var revive := HeartbeatOp(Lease("a", "a", 1, 1, 0, 0), 5_000_000, 1800, None);
            |ActiveJobs(Run(EMPTY, 1, TwoJobOps(digest) + [revive]).jobs, 25_000_000)| == 2
  {
    var revive := HeartbeatOp(Lease("a", "a", 1, 1, 0, 0), 5_000_000, 1800, None);
    TwoJobRun(digest);
    RunSnoc(EMPTY, 1, TwoJobOps(digest), revive);
    var s := Run(EMPTY, 1, TwoJobOps(digest));
    assert ActiveJobs(s.jobs, 25_000_000) == {"b"};
    ActiveAfterStep(s, 1, revive, 25_000_000);
    assert "a" != "b";
  }
}
