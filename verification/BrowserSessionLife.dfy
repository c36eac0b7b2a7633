/**
 What every run of the browser-session store keeps: digests issued once,
 rows that read back, versions that only rise, and lifetimes that no amount of
 touching or rotating extends.
 */
module BrowserSessionLife {
  import opened Basics
  import opened BrowserSessions

  // ---- Digests ----

  predicate Distinct(allocations: seq<Allocation>) {
    forall i, j | 0 <= i < j < |allocations| :: allocations[i].digest != allocations[j].digest
  }

  /** Every stored row reads back, and its two digests were issued for it, each with its kind. */
  predicate SoundRow(allocations: seq<Allocation>, digest: string, row: Row) {
    && Readable(digest, row)
    && IssuedAs(allocations, digest, SessionIdentifier)
    && IssuedAs(allocations, row.csrf, Csrf)
  }

  predicate IssuedAs(allocations: seq<Allocation>, digest: string, kind: Kind) {
    exists i | 0 <= i < |allocations| :: allocations[i].digest == digest && allocations[i].kind == kind
  }

  ghost predicate Sound(s: State) {
    && Distinct(s.allocations)
    && (forall digest | digest in s.sessions :: SoundRow(s.allocations, digest, s.sessions[digest]))
    && (forall a, b | a in s.sessions && b in s.sessions && a != b :: s.sessions[a].csrf != s.sessions[b].csrf)
  }

  /** What one successful step does to the table: a fresh row, a changed row, or a row under a new digest. */
  ghost predicate Registers(s: State, s': State, op: Op) {
    && op.RegisterOp? && op.digest !in s.sessions
    && Claim(s.allocations, op.digest, op.csrf, op.now) == Some(s'.allocations)
    && s'.sessions == s.sessions[op.digest := Row(op.csrf, op.holder, 1, op.times, None, 1)]
    && WithinPolicy(op.times) && op.holder.admitted && op.holder.hasRoles && IsSha256(op.digest) && IsSha256(op.csrf)
    && CurrentError(s'.sessions[op.digest], op.now).None?
  }

  function Updated(row: Row, op: Op): Row {
    match op
    case TouchOp(_, _, now) =>
      var limit := if now + MAX_IDLE_LIFETIME <= MAX_INSTANT then now + MAX_IDLE_LIFETIME else MAX_INSTANT;
      row.(times := row.times.(lastSeenAt := now, idleExpiresAt := Min(limit, row.times.absoluteExpiresAt)),
           version := row.version + 1)
    case RevokeOp(_, _, now) => row.(revokedAt := Some(now), version := row.version + 1)
    case RotateOp(_, _, newCsrf, _, _) => row.(csrf := newCsrf, generation := row.generation + 1, version := row.version + 1)
    case RegisterOp(_, _, _, _, _) => row
  }

  function NewDigest(op: Op): string {
    if op.RotateOp? then op.newDigest else op.digest
  }

  /** A current row at the expected version is replaced by its update, which reads back. */
  ghost predicate Updates(s: State, s': State, op: Op) {
    && !op.RegisterOp? && op.digest in s.sessions
    && s.sessions[op.digest].version == op.version
    && s.sessions[op.digest].revokedAt.None?
    && s.sessions[op.digest].times.lastSeenAt <= op.now
    && (!op.RevokeOp? ==> CurrentError(s.sessions[op.digest], op.now).None?)
    && Readable(NewDigest(op), Updated(s.sessions[op.digest], op))
    && s'.sessions == (s.sessions - {op.digest})[NewDigest(op) := Updated(s.sessions[op.digest], op)]
    && (if op.RotateOp? then Claim(s.allocations, op.newDigest, op.newCsrf, op.now) == Some(s'.allocations)
        else s'.allocations == s.allocations)
  }

  lemma StepCases(s: State, op: Op)
    ensures var s' := Step(s, op);
      if Apply(s, op).1.Err? then s' == s
      else (Registers(s, s', op) || Updates(s, s', op)) && NewDigest(op) in s'.sessions
           && Apply(s, op).1.value == s'.sessions[NewDigest(op)]
  {
    hide Readable, WithinPolicy, IsSha256, Claim, IsVersion;
    var s' := Step(s, op);
    if Apply(s, op).1.Ok? && !op.RegisterOp? {
      assert s'.sessions == (s.sessions - {op.digest})[NewDigest(op) := s'.sessions[NewDigest(op)]];
    }
  }

  lemma ClaimKeepsDistinct(allocations: seq<Allocation>, digest: string, csrf: string, now: Instant)
    requires Distinct(allocations) && Claim(allocations, digest, csrf, now).Some?
    ensures var claimed := Claim(allocations, digest, csrf, now).value;
      && Distinct(claimed) && allocations <= claimed
      && IssuedAs(claimed, digest, SessionIdentifier) && IssuedAs(claimed, csrf, Csrf)
      && digest != csrf && !IsAllocated(allocations, digest) && !IsAllocated(allocations, csrf)
  {
    var claimed := Claim(allocations, digest, csrf, now).value;
    var n := |allocations|;
    assert claimed[n].digest == digest && claimed[n].kind == SessionIdentifier;
    assert claimed[n + 1].digest == csrf && claimed[n + 1].kind == Csrf;
  }

  lemma IssuedForGood(allocations: seq<Allocation>, later: seq<Allocation>, digest: string, kind: Kind)
    requires allocations <= later && IssuedAs(allocations, digest, kind)
    ensures IssuedAs(later, digest, kind) && IsAllocated(allocations, digest)
  {
    var i :| 0 <= i < |allocations| && allocations[i].digest == digest && allocations[i].kind == kind;
    assert later[i] == allocations[i];
  }

  /** The rows of a sound table, and the one row that a step adds or replaces. */
  lemma SoundWithRow(s: State, rest: map<string, Row>, allocations: seq<Allocation>, digest: string, row: Row)
    requires Sound(s) && Distinct(allocations) && s.allocations <= allocations
    requires forall d | d in rest :: d in s.sessions && rest[d] == s.sessions[d]
    requires SoundRow(allocations, digest, row)
    requires forall d | d in rest && d != digest :: rest[d].csrf != row.csrf
    ensures Sound(State(rest[digest := row], allocations))
  {
    var s' := State(rest[digest := row], allocations);
    forall d | d in s'.sessions ensures SoundRow(allocations, d, s'.sessions[d]) {
      if d != digest {
        IssuedForGood(s.allocations, allocations, d, SessionIdentifier);
        IssuedForGood(s.allocations, allocations, rest[d].csrf, Csrf);
      }
    }
    hide SoundRow;
  }

  lemma FreshCsrf(s: State, digest: string, csrf: string)
    requires Sound(s) && digest in s.sessions && !IsAllocated(s.allocations, csrf)
    ensures s.sessions[digest].csrf != csrf
  {
    IssuedForGood(s.allocations, s.allocations, s.sessions[digest].csrf, Csrf);
  }

  lemma StepKeepsSound(s: State, op: Op)
    requires Sound(s)
    ensures Sound(Step(s, op)) && s.allocations <= Step(s, op).allocations
  {
    StepCases(s, op);
    var s' := Step(s, op);
    if Apply(s, op).1.Ok? {
      hide Step, Apply, Readable, Claim, CurrentError, Sound;
      if op.RegisterOp? {
        ClaimKeepsDistinctOf(s, op.digest, op.csrf, op.now);
        RegisteredReadable(s, s', op);
        SoundWithRow(s, s.sessions, s'.allocations, op.digest, s'.sessions[op.digest]);
      } else {
        var row := s.sessions[op.digest];
        if op.RotateOp? {
          ClaimKeepsDistinctOf(s, op.newDigest, op.newCsrf, op.now);
        } else {
          OldRowSound(s, op.digest);
        }
        SoundWithRow(s, s.sessions - {op.digest}, s'.allocations, NewDigest(op), Updated(row, op));
      }
    }
  }

  lemma RegisteredReadable(s: State, s': State, op: Op)
    requires Registers(s, s', op)
    ensures Readable(op.digest, s'.sessions[op.digest])
  {
  }

  lemma OldRowSound(s: State, digest: string)
    requires Sound(s) && digest in s.sessions
    ensures Distinct(s.allocations) && SoundRow(s.allocations, digest, s.sessions[digest])
    ensures forall d | d in s.sessions && d != digest :: s.sessions[d].csrf != s.sessions[digest].csrf
  {
    hide SoundRow;
  }

  lemma ClaimKeepsDistinctOf(s: State, digest: string, csrf: string, now: Instant)
    requires Sound(s) && Claim(s.allocations, digest, csrf, now).Some?
    ensures var claimed := Claim(s.allocations, digest, csrf, now).value;
      && Distinct(claimed) && s.allocations <= claimed
      && IssuedAs(claimed, digest, SessionIdentifier) && IssuedAs(claimed, csrf, Csrf)
    ensures forall d | d in s.sessions :: s.sessions[d].csrf != csrf
  {
    ClaimKeepsDistinct(s.allocations, digest, csrf, now);
    forall d | d in s.sessions ensures s.sessions[d].csrf != csrf {
      FreshCsrf(s, d, csrf);
    }
  }

  /**
   In every run all digests ever issued, of both kinds, are distinct, and every
   stored row is one that reads back.
   */
  lemma {:induction false} RunKeepsSound(ops: seq<Op>)
    ensures Sound(Run(EMPTY, ops))
  {
    if ops != [] {
      RunKeepsSound(ops[..|ops| - 1]);
      StepKeepsSound(Run(EMPTY, ops[..|ops| - 1]), ops[|ops| - 1]);
    }
  }

  /** Because every stored digest was allocated, the session table's own unique constraints never decide anything. */
  lemma TableNeverCollides(s: State, without: set<string>, digest: string, csrf: string, now: Instant)
    requires Sound(s) && Claim(s.allocations, digest, csrf, now).Some?
    ensures !CollidesInTable(s.sessions - without, digest, csrf)
  {
    ClaimKeepsDistinctOf(s, digest, csrf, now);
    if digest in s.sessions {
      IssuedForGood(s.allocations, s.allocations, digest, SessionIdentifier);
    }
    hide SoundRow;
  }

  /** A digest that was ever issued, for whatever purpose, is refused for every later one. */
  lemma DigestNeverReissued(s: State, ops: seq<Op>, op: Op, digest: string)
    requires Sound(s) && IsAllocated(s.allocations, digest)
    requires (op.RegisterOp? && digest in {op.digest, op.csrf}) || (op.RotateOp? && digest in {op.newDigest, op.newCsrf})
    ensures Apply(Run(s, ops), op).1.Err? && Step(Run(s, ops), op) == Run(s, ops)
  {
    RunGrows(s, ops);
    var later := Run(s, ops);
    var i :| 0 <= i < |s.allocations| && s.allocations[i].digest == digest;
    assert later.allocations[i].digest == digest;
    StepCases(later, op);
    hide Run, Apply, Readable, CurrentError;
  }

  lemma {:induction false} RunGrows(s: State, ops: seq<Op>)
    requires Sound(s)
    ensures Sound(Run(s, ops)) && s.allocations <= Run(s, ops).allocations
  {
    if ops != [] {
      RunGrows(s, ops[..|ops| - 1]);
      StepKeepsSound(Run(s, ops[..|ops| - 1]), ops[|ops| - 1]);
    }
  }

  // ---- When an update succeeds ----

  /** What the caller can check before touching, rotating or revoking. */
  predicate CanUpdate(s: State, op: Op) {
    && !op.RegisterOp? && op.digest in s.sessions
    && var row := s.sessions[op.digest];
    && row.version == op.version && op.version + 1 < MAX_SIGNED_64
    && match op
       case RegisterOp(_, _, _, _, _) => false
       case TouchOp(_, _, now) => CurrentError(row, now).None? && now + MAX_IDLE_LIFETIME <= MAX_INSTANT
       case RevokeOp(_, _, now) => row.revokedAt.None? && row.times.lastSeenAt <= now
       case RotateOp(_, newDigest, newCsrf, _, now) =>
         && CurrentError(row, now).None? && row.generation < MAX_GENERATION
         && IsSha256(newDigest) && IsSha256(newCsrf)
         && Claim(s.allocations, newDigest, newCsrf, now).Some?
  }

  /** An update of a sound table succeeds exactly then; its readback fails only when the version is exhausted. */
  lemma UpdatesExactly(s: State, op: Op)
    requires Sound(s) && !op.RegisterOp?
    ensures Apply(s, op).1.Ok? <==> CanUpdate(s, op)
  {
    if op.digest in s.sessions {
      if op.RotateOp? {
        RotateExactly(s, op);
      } else if op.TouchOp? {
        TouchExactly(s, op);
      } else {
        RevokeExactly(s, op);
      }
    }
    hide Claim, CurrentError, CollidesInTable, Sound, IsSha256, Distinct, Stored;
  }

  lemma TouchExactly(s: State, op: Op)
    requires Sound(s) && op.TouchOp? && op.digest in s.sessions
    ensures Apply(s, op).1.Ok? <==> CanUpdate(s, op)
  {
    OldRowSound(s, op.digest);
    hide Sound, IsSha256, Distinct, IssuedAs;
  }

  lemma RevokeExactly(s: State, op: Op)
    requires Sound(s) && op.RevokeOp? && op.digest in s.sessions
    ensures Apply(s, op).1.Ok? <==> CanUpdate(s, op)
  {
    OldRowSound(s, op.digest);
    hide Sound, IsSha256, Distinct, IssuedAs;
  }

  /** Digests that can be claimed are new to the row that is rotated and to the rest of the table. */
  lemma ClaimedForRotation(s: State, digest: string, newDigest: string, newCsrf: string, now: Instant)
    requires Sound(s) && digest in s.sessions && Claim(s.allocations, newDigest, newCsrf, now).Some?
    ensures !CollidesInTable(s.sessions - {digest}, newDigest, newCsrf)
    ensures newDigest != digest && newCsrf != s.sessions[digest].csrf
  {
    OldRowSound(s, digest);
    TableNeverCollides(s, {digest}, newDigest, newCsrf, now);
    ClaimKeepsDistinct(s.allocations, newDigest, newCsrf, now);
    hide Claim, CollidesInTable, Sound, Distinct;
    IssuedForGood(s.allocations, s.allocations, digest, SessionIdentifier);
    IssuedForGood(s.allocations, s.allocations, s.sessions[digest].csrf, Csrf);
  }

  lemma RotateExactly(s: State, op: Op)
    requires Sound(s) && op.RotateOp? && op.digest in s.sessions
    ensures Apply(s, op).1.Ok? <==> CanUpdate(s, op)
  {
    OldRowSound(s, op.digest);
    if Claim(s.allocations, op.newDigest, op.newCsrf, op.now).Some? {
      ClaimedForRotation(s, op.digest, op.newDigest, op.newCsrf, op.now);
    }
    hide Claim, CollidesInTable, Sound, IsSha256, Distinct, CurrentError, IssuedAs;
  }

  // ---- One session over time ----

  /** How a session may differ from an earlier moment of its life. */
  predicate Descends(row: Row, later: Row) {
    && later.holder == row.holder
    && later.times.issuedAt == row.times.issuedAt && later.times.authenticatedAt == row.times.authenticatedAt
    && later.times.absoluteExpiresAt == row.times.absoluteExpiresAt
    && row.times.lastSeenAt <= later.times.lastSeenAt
    && 0 <= later.generation - row.generation <= later.version - row.version
    && (row.revokedAt.Some? || later.version == row.version ==> later == row)
  }

  /** Under which digest a session continues after a step. */
  function Next(s: State, op: Op, digest: string): string {
    if Apply(s, op).1.Ok? && op.digest == digest then NewDigest(op) else digest
  }

  lemma UpdatedDescends(row: Row, op: Op)
    requires !op.RegisterOp? && row.revokedAt.None? && row.times.lastSeenAt <= op.now
    ensures Descends(row, Updated(row, op)) && Updated(row, op).version == row.version + 1
  {
  }

  lemma SameRowDescends(row: Row)
    ensures Descends(row, row)
  {
  }

  /** What a step does to one row of a sound table. */
  lemma StepRow(s: State, op: Op, digest: string)
    requires Sound(s) && digest in s.sessions
    ensures var row, s' := s.sessions[digest], Step(s, op);
      if Apply(s, op).1.Ok? && op.digest == digest then
        && !op.RegisterOp? && row.revokedAt.None? && row.times.lastSeenAt <= op.now
        && NewDigest(op) in s'.sessions && s'.sessions[NewDigest(op)] == Updated(row, op)
      else digest in s'.sessions && s'.sessions[digest] == row
  {
    StepCases(s, op);
    RowIsIssued(s, digest);
    hide *;
    if Apply(s, op).1.Ok? {
      if Registers(s, Step(s, op), op) {
        RegisterLeavesRow(s, Step(s, op), op, digest);
      } else {
        UpdateLeavesRow(s, Step(s, op), op, digest);
      }
    }
  }

  lemma RowIsIssued(s: State, digest: string)
    requires Sound(s) && digest in s.sessions
    ensures IsAllocated(s.allocations, digest)
  {
    OldRowSound(s, digest);
    IssuedForGood(s.allocations, s.allocations, digest, SessionIdentifier);
  }

  lemma RegisterLeavesRow(s: State, s': State, op: Op, digest: string)
    requires Registers(s, s', op) && digest in s.sessions
    ensures op.digest != digest && digest in s'.sessions && s'.sessions[digest] == s.sessions[digest]
  {
    hide Claim, WithinPolicy, IsSha256, CurrentError;
  }

  lemma UpdateLeavesRow(s: State, s': State, op: Op, digest: string)
    requires Updates(s, s', op) && digest in s.sessions && IsAllocated(s.allocations, digest)
    ensures var row := s.sessions[digest];
      if op.digest == digest then
        && !op.RegisterOp? && row.revokedAt.None? && row.times.lastSeenAt <= op.now
        && NewDigest(op) in s'.sessions && s'.sessions[NewDigest(op)] == Updated(row, op)
      else digest in s'.sessions && s'.sessions[digest] == row
  {
    hide Updated, Readable, CurrentError, IsAllocated;
  }

  lemma StepDescends(s: State, op: Op, digest: string)
    requires Sound(s) && digest in s.sessions
    ensures var next := Next(s, op, digest);
      && next in Step(s, op).sessions
      && Descends(s.sessions[digest], Step(s, op).sessions[next])
      && (next == digest || Step(s, op).sessions[next].version > s.sessions[digest].version)
    ensures Apply(s, op).1.Ok? && op.digest == digest ==>
      !op.RegisterOp? && Step(s, op).sessions[NewDigest(op)].version == s.sessions[digest].version + 1
  {
    StepRow(s, op, digest);
    SameRowDescends(s.sessions[digest]);
    hide Apply, Step, Sound, Updated, Descends;
    if Apply(s, op).1.Ok? && op.digest == digest {
      UpdatedDescends(s.sessions[digest], op);
    }
  }

  /**
   A session's life over any run: its holder, its authentication and its
   absolute expiry never change, versions never fall and rise with every change,
   the generation never outruns the version, and a revoked row stays as it is.
   */
  lemma {:induction false} Lineage(s: State, ops: seq<Op>, digest: string) returns (now: string)
    requires Sound(s) && digest in s.sessions
    ensures now in Run(s, ops).sessions && Descends(s.sessions[digest], Run(s, ops).sessions[now])
    ensures now == digest || Run(s, ops).sessions[now].version > s.sessions[digest].version
  {
    if ops == [] {
      now := digest;
    } else {
      var before := Run(s, ops[..|ops| - 1]);
      var middle := Lineage(s, ops[..|ops| - 1], digest);
      RunGrows(s, ops[..|ops| - 1]);
      StepDescends(before, ops[|ops| - 1], middle);
      now := Next(before, ops[|ops| - 1], middle);
      hide Step, Next, Sound;
    }
  }

  /** Revocation is permanent: the row never changes again, and every use of it is refused. */
  lemma RevokedForGood(s: State, ops: seq<Op>, digest: string, op: Op, now: Instant)
    requires Sound(s) && digest in s.sessions && s.sessions[digest].revokedAt.Some?
    ensures var later := Run(s, ops);
      && digest in later.sessions && later.sessions[digest] == s.sessions[digest]
      && Resolve(later, digest, now) == Err(Rejected)
      && (op.digest == digest ==> Apply(later, op).1.Err? && Step(later, op) == later)
  {
    var later := Run(s, ops);
    var current := Lineage(s, ops, digest);
    RunGrows(s, ops);
    OldRowSound(later, digest);
    StepCases(later, op);
    hide Run, Apply, Sound, Distinct, IssuedAs, WithinPolicy;
  }

  /** A digest that a rotation has replaced never names a session again. */
  lemma {:induction false} RetiredForGood(s: State, ops: seq<Op>, digest: string)
    requires Sound(s) && IsAllocated(s.allocations, digest) && digest !in s.sessions
    ensures digest !in Run(s, ops).sessions
  {
    if ops != [] {
      var before, op := Run(s, ops[..|ops| - 1]), ops[|ops| - 1];
      RetiredForGood(s, ops[..|ops| - 1], digest);
      RunGrows(s, ops[..|ops| - 1]);
      var i :| 0 <= i < |s.allocations| && s.allocations[i].digest == digest;
      assert before.allocations[i].digest == digest;
      StepCases(before, op);
      hide Apply, Sound, Readable, CurrentError;
    }
  }

  lemma RotationRetires(s: State, ops: seq<Op>, op: Op, now: Instant)
    requires Sound(s) && op.RotateOp? && Apply(s, op).1.Ok?
    ensures Resolve(Run(Step(s, op), ops), op.digest, now) == Err(Rejected)
  {
    StepCases(s, op);
    StepKeepsSound(s, op);
    OldRowSound(s, op.digest);
    IssuedForGood(s.allocations, Step(s, op).allocations, op.digest, SessionIdentifier);
    var i :| 0 <= i < |s.allocations| && s.allocations[i].digest == op.digest;
    assert Step(s, op).allocations[i].digest == op.digest;
    assert op.digest !in Step(s, op).sessions by {
      hide Apply, Step, Sound, Readable, CurrentError, Claim;
      assert Updates(s, Step(s, op), op);
      RotationMoves(s, op);
    }
    RetiredForGood(Step(s, op), ops, op.digest);
    hide Run, Apply, Step, Sound;
  }

  lemma RotationMoves(s: State, op: Op)
    requires op.RotateOp? && Apply(s, op).1.Ok?
    ensures op.digest != op.newDigest
  {
    hide Active, Claim, CollidesInTable, Stored, IsSha256, IsVersion;
  }

  // ---- Lifetimes ----

  /** A registration that the store accepted, at its place in a run. */
  ghost predicate Registered(ops: seq<Op>, i: nat) {
    i < |ops| && ops[i].RegisterOp? && Apply(Run(EMPTY, ops[..i]), ops[i]).1.Ok?
  }

  ghost predicate Touched(ops: seq<Op>, i: nat) {
    i < |ops| && ops[i].TouchOp? && Apply(Run(EMPTY, ops[..i]), ops[i]).1.Ok?
  }

  /** Where a stored session comes from: its registration, and the registration or touch that last saw it. */
  ghost predicate Stems(ops: seq<Op>, row: Row, from: nat, seen: nat) {
    && Registered(ops, from)
    && ops[from].holder == row.holder
    && ops[from].times.authenticatedAt == row.times.authenticatedAt
    && ops[from].times.absoluteExpiresAt == row.times.absoluteExpiresAt
    && (|| (Registered(ops, seen) && ops[seen].times.lastSeenAt == row.times.lastSeenAt)
        || (Touched(ops, seen) && ops[seen].now == row.times.lastSeenAt))
  }

  lemma StemsLater(ops: seq<Op>, op: Op, row: Row, from: nat, seen: nat)
    requires Stems(ops, row, from, seen)
    ensures Stems(ops + [op], row, from, seen)
  {
    assert (ops + [op])[..from] == ops[..from] && (ops + [op])[..seen] == ops[..seen];
    hide Apply, Run;
  }

  lemma {:induction false} Stem(ops: seq<Op>, digest: string) returns (from: nat, seen: nat)
    requires digest in Run(EMPTY, ops).sessions
    ensures Stems(ops, Run(EMPTY, ops).sessions[digest], from, seen)
  {
    var front, op := ops[..|ops| - 1], ops[|ops| - 1];
    var before := Run(EMPTY, front);
    assert ops == front + [op] && ops[..|front|] == front;
    StepCases(before, op);
    var row := Run(EMPTY, ops).sessions[digest];
    hide Apply, Readable, Claim, CurrentError;
    if Apply(before, op).1.Ok? && op.RegisterOp? && digest == op.digest {
      from, seen := |front|, |front|;
    } else if Apply(before, op).1.Ok? && !op.RegisterOp? && digest == NewDigest(op) {
      from, seen := Stem(front, op.digest);
      StemsLater(front, op, before.sessions[op.digest], from, seen);
      if op.TouchOp? { seen := |front|; }
    } else {
      from, seen := Stem(front, digest);
      StemsLater(front, op, row, from, seen);
    }
  }

  /**
   However often a session was touched or rotated, it resolves only within eight
   hours of the authentication it was registered with and before the absolute
   expiry it was registered with, and within thirty minutes of the time at which
   a registration or an accepted touch last saw it.
   */
  lemma LifetimeBound(ops: seq<Op>, digest: string, now: Instant) returns (from: nat, seen: nat)
    requires Resolve(Run(EMPTY, ops), digest, now).Ok?
    ensures Registered(ops, from)
    ensures ops[from].times.authenticatedAt <= now < ops[from].times.authenticatedAt + MAX_ABSOLUTE_LIFETIME
    ensures now < ops[from].times.absoluteExpiresAt
    ensures (Registered(ops, seen) && ops[seen].times.lastSeenAt <= now < ops[seen].times.lastSeenAt + MAX_IDLE_LIFETIME)
         || (Touched(ops, seen) && ops[seen].now <= now < ops[seen].now + MAX_IDLE_LIFETIME)
  {
    from, seen := Stem(ops, digest);
    hide Run, Apply, Registered, Touched;
  }
}
