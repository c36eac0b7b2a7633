/** What the job store answers and writes, said over the arguments of the calls. */
module LeaseAnswers {
  import opened Basics
  import opened AuditLog
  import opened ControlLeases
  import opened LeaseHistory

  function Evidence(s: ControlState, audit: Option<AuditContext>): ControlState {
    if audit.Some? then s.(audit := s.audit + [audit.value]) else s
  }

  // ---- Registration ----

  /** The first registration of a job is kept: the same digest finds it queued, any other conflicts. */
  lemma RegistrationAnswers(s: ControlState, jobId: string, digest: string, now: int, audit: Option<AuditContext>,
                            digest': string, now': int, audit': Option<AuditContext>)
    requires HasText(jobId) && IsSha256(digest) && IsSha256(digest') && AuditAdmitted(audit) && AuditAdmitted(audit')
    requires jobId !in s.jobs
    ensures var row := JobRow(digest, Queued, None, 0, 0, None, None, None, None, None, None, now, now);
      var (s', r) := Register(s, jobId, digest, now, audit);
      && r == Ok(row) && s' == Evidence(s, audit).(jobs := s.jobs[jobId := row])
      && Register(s', jobId, digest', now', audit')
         == if digest' == digest then (Evidence(s', audit'), Ok(row)) else (s', Err(Conflict))
  {
  }

  // ---- Leases ----

  /** A lease of this job that has not ended at this time. */
  predicate Live(s: ControlState, jobId: string, now: int) {
    jobId in s.jobs && s.jobs[jobId].state == Leased && s.jobs[jobId].expiresAt.Some? && now < s.jobs[jobId].expiresAt.value
  }

  /** The jobs whose lease has not ended at this time. */
  function LiveJobs(s: ControlState, now: int): set<string> {
    set jobId | jobId in s.jobs && Live(s, jobId, now)
  }

  lemma LiveMeans(s: ControlState, now: int)
    ensures ActiveJobs(s.jobs, now) == LiveJobs(s, now)
    ensures forall jobId | jobId in s.jobs :: ActiveAfter(s.jobs[jobId], now) <==> Live(s, jobId, now)
  {
  }

  /** Who gets a lease: nobody else while it lives, its owner again, and anyone afterwards while fewer than the cap live. */
  lemma AcquisitionAnswers(s: ControlState, cap: nat, jobId: string, owner: string, now: int, ttl: int, audit: Option<AuditContext>)
    requires HasText(jobId) && HasText(owner) && 1 <= ttl <= 1800 && AuditAdmitted(audit)
    ensures var (s', r) := Acquire(s, cap, jobId, owner, now, ttl, audit);
      if jobId !in s.jobs then (s', r) == (s, Err(JobNotFound))
      else
        var row := s.jobs[jobId];
        if Live(s, jobId, now) && row.owner == Some(owner) then
          && s' == Evidence(s, audit)
          && r == Ok(Lease(jobId, owner, row.token, row.attempt, row.acquiredAt.GetOr(0), row.expiresAt.value))
        else if row.state == Completed || Live(s, jobId, now) || |LiveJobs(s, now)| >= cap then
          (s', r) == (s, Err(LeaseUnavailable))
        else
          var expiry := now + ttl * 1_000_000;
          && r == Ok(Lease(jobId, owner, row.token + 1, row.attempt + 1, now, expiry))
          && jobId in s'.jobs && s'.jobs == s.jobs[jobId := s'.jobs[jobId]]
          && s'.jobs[jobId].state == Leased && s'.jobs[jobId].owner == Some(owner) && s'.jobs[jobId].expiresAt == Some(expiry)
          && s'.events == s.events + [LeaseEvent(jobId, if row.token == 0 then Acquired else Reacquired, owner, row.token + 1,
                                                 row.attempt + 1, now, Some(expiry), None)]
          && s'.audit == Evidence(s, audit).audit
  {
    LiveMeans(s, now);
    hide HasText;
  }

  /**
   A lease that was granted or extended to an expiry is good until then and not
   after: its holder can extend and complete it exactly before the expiry, and
   until then no other owner gets the job.
   */
  lemma LeaseHolds(s: ControlState, cap: nat, lease: Lease, t: int, ttl: int, key: string, digest: string, other: string)
    requires 1 <= ttl <= 1800 && HasText(key) && IsSha256(digest) && HasText(other) && HasText(lease.jobId)
    requires lease.jobId in s.jobs && s.jobs[lease.jobId].state == Leased && s.jobs[lease.jobId].expiresAt == Some(lease.expiresAt)
    requires var row := s.jobs[lease.jobId]; row.owner == Some(lease.owner) && row.token == lease.token && row.attempt == lease.attempt
    ensures Heartbeat(s, lease, t, ttl, None).1.Ok? <==> t < lease.expiresAt
    ensures Complete(s, lease, key, digest, t, None).1.Ok? <==> t < lease.expiresAt
    ensures t >= lease.expiresAt ==> Heartbeat(s, lease, t, ttl, None) == (s, Err(StaleLease))
    ensures t >= lease.expiresAt ==> Complete(s, lease, key, digest, t, None) == (s, Err(StaleLease))
    ensures t < lease.expiresAt && other != lease.owner ==> Acquire(s, cap, lease.jobId, other, t, ttl, None) == (s, Err(LeaseUnavailable))
  {
    hide HasText, IsSha256;
  }

  /** A heartbeat that succeeds moves the expiry to its own time and period, and writes nothing else but its entry. */
  lemma HeartbeatAnswers(s: ControlState, lease: Lease, now: int, ttl: int, audit: Option<AuditContext>)
    requires Heartbeat(s, lease, now, ttl, audit).1.Ok?
    ensures Live(s, lease.jobId, now)
    ensures var (s', r) := Heartbeat(s, lease, now, ttl, audit);
      var row, expiry := s.jobs[lease.jobId], now + ttl * 1_000_000;
      && row.owner == Some(lease.owner) && row.token == lease.token && row.attempt == lease.attempt
      && r.value == Lease(lease.jobId, lease.owner, lease.token, lease.attempt, row.acquiredAt.GetOr(0), expiry)
      && s'.jobs == s.jobs[lease.jobId := row.(expiresAt := Some(expiry), heartbeatAt := Some(now), updatedAt := now)]
      && s'.events == s.events + [LeaseEvent(lease.jobId, Heartbeaten, lease.owner, lease.token, lease.attempt, now, Some(expiry), None)]
      && s'.audit == Evidence(s, audit).audit
  {
  }

  // ---- Completion ----

  /** What a first completion answers and writes. */
  lemma CompletionAnswers(s: ControlState, lease: Lease, key: string, digest: string, now: int, audit: Option<AuditContext>)
    requires Complete(s, lease, key, digest, now, audit).1.Ok?
    requires lease.jobId in s.jobs && s.jobs[lease.jobId].state != Completed
    ensures HasText(key) && IsSha256(digest) && Live(s, lease.jobId, now)
    ensures var (s', r) := Complete(s, lease, key, digest, now, audit);
      var row := s.jobs[lease.jobId];
      && row.owner == Some(lease.owner) && row.token == lease.token && row.attempt == lease.attempt
      && r.value == Completion(lease.jobId, key, digest, lease.token, now)
      && s'.jobs == s.jobs[lease.jobId := row.(state := Completed, completionKey := Some(key), resultDigest := Some(digest),
                                               completedAt := Some(now), updatedAt := now)]
      && s'.events == s.events + [LeaseEvent(lease.jobId, Finished, lease.owner, lease.token, lease.attempt, now, None, Some(digest))]
      && s'.audit == Evidence(s, audit).audit
  {
    hide HasText, IsSha256;
  }

  /** The lease that the job now has. */
  predicate IsOf(lease: Lease, s: ControlState) {
    lease.jobId in s.jobs
    && var row := s.jobs[lease.jobId]; row.owner == Some(lease.owner) && row.token == lease.token && row.attempt == lease.attempt
  }

  /** Why a heartbeat or a completion is refused, and that a refusal changes nothing. */
  lemma LeaseRefusals(s: ControlState, lease: Lease, ttl: int, key: string, digest: string, now: int, audit: Option<AuditContext>)
    ensures var (s', r) := Heartbeat(s, lease, now, ttl, audit);
      if !(1 <= ttl <= 1800) then (s', r) == (s, Err(InvalidArgument))
      else if lease.jobId !in s.jobs then (s', r) == (s, Err(JobNotFound))
      else if !IsOf(lease, s) || !Live(s, lease.jobId, now) then (s', r) == (s, Err(StaleLease))
      else if !AuditAdmitted(audit) then (s', r) == (s, Err(InvalidArgument))
      else r.Ok?
    ensures var (s', r) := Complete(s, lease, key, digest, now, audit);
      if !HasText(key) || !IsSha256(digest) then (s', r) == (s, Err(InvalidArgument))
      else if lease.jobId !in s.jobs then (s', r) == (s, Err(JobNotFound))
      else
        var row := s.jobs[lease.jobId];
        if !IsOf(lease, s) || (row.state != Completed && !Live(s, lease.jobId, now)) then (s', r) == (s, Err(StaleLease))
        else if row.state == Completed && (row.completionKey != Some(key) || row.resultDigest != Some(digest)) then
          (s', r) == (s, Err(Conflict))
        else if !AuditAdmitted(audit) then (s', r) == (s, Err(InvalidArgument))
        else r.Ok?
  {
    hide HasText, IsSha256;
  }

  /** Why a registration or an acquisition is refused for its arguments or its evidence. */
  lemma ArgumentRefusals(s: ControlState, cap: nat, jobId: string, owner: string, digest: string, ttl: int, now: int,
                         audit: Option<AuditContext>)
    ensures !HasText(jobId) || !IsSha256(digest) ==> Register(s, jobId, digest, now, audit) == (s, Err(InvalidArgument))
    ensures !HasText(jobId) || !HasText(owner) || !(1 <= ttl <= 1800) ==>
              Acquire(s, cap, jobId, owner, now, ttl, audit) == (s, Err(InvalidArgument))
    ensures !AuditAdmitted(audit) ==>
              && Register(s, jobId, digest, now, audit).0 == s && Register(s, jobId, digest, now, audit).1.Err?
              && Acquire(s, cap, jobId, owner, now, ttl, audit).0 == s && Acquire(s, cap, jobId, owner, now, ttl, audit).1.Err?
  {
    hide HasText, IsSha256;
  }

  /**
   A completion stands for good: after any further calls, the same lease with
   the same key and digest gets the very same answer and changes nothing but
   admitted evidence, and with any other key or digest it conflicts.
   */
  lemma CompletionStands(s: ControlState, cap: nat, ops: seq<Op>, lease: Lease, key: string, digest: string, now: int,
                         audit: Option<AuditContext>, key': string, digest': string, later: int, audit': Option<AuditContext>)
    requires Complete(s, lease, key, digest, now, audit).1.Ok?
    requires lease.jobId in s.jobs && s.jobs[lease.jobId].state != Completed
    requires HasText(key') && IsSha256(digest')
    ensures var s' := Run(Complete(s, lease, key, digest, now, audit).0, cap, ops);
      Complete(s', lease, key', digest', later, audit')
      == if key' != key || digest' != digest then (s', Err(Conflict))
         else if AuditAdmitted(audit') then (Evidence(s', audit'), Ok(Completion(lease.jobId, key, digest, lease.token, now)))
         else (s', Err(InvalidArgument))
  {
    CompletionAnswers(s, lease, key, digest, now, audit);
    var done := Complete(s, lease, key, digest, now, audit).0;
    RunIsLater(done, cap, ops, lease.jobId);
    hide HasText, IsSha256, Run;
  }
}
