/**
 Which steps end a dataset's approved status: over every run, exactly posted
 records of another manifest and the appends of calls that had read the history
 before anything was recorded.
 */
module DatasetStatus {
  import opened Basics
  import opened ScopedKeys
  import opened DatasetApproval
  import opened DatasetSafety
  import Review = CandidateReview

  /** A call past its first read is about to append an approval of another manifest, under a key not used before. */
  predicate LateApproval(s: System, move: Move, dataset: string, manifest: string) {
    && move.Continue? && move.i < |s.processes|
    && var p := s.processes[move.i];
       && p.stage.Checked? && p.call.dataset == dataset && p.call.manifest != manifest
       && IsNew(s.log, ApprovalOf(p.call), p.call.manifestAdmitted)
  }

  /** Someone posts an approval or a promotion of another manifest to the dataset, under a key not used before. */
  predicate PostedAgainst(s: System, move: Move, dataset: string, manifest: string) {
    && move.Post? && move.event.target == Target(dataset) && Counts(move.event) && move.event.manifest != manifest
    && IsNew(s.log, move.event, move.admitted)
  }

  predicate Overturns(s: System, move: Move, dataset: string, manifest: string) {
    LateApproval(s, move, dataset, manifest) || PostedAgainst(s, move, dataset, manifest)
  }

  lemma SameTarget(dataset: string, other: string)
    ensures Target(dataset) == Target(other) <==> dataset == other
    ensures IsDatasetTarget(Target(dataset))
  {
    assert dataset == Target(dataset)[|"dataset:"|..] && other == Target(other)[|"dataset:"|..];
  }

  lemma CarrySnoc(log: seq<Event>, e: Event, target: string, manifest: string)
    ensures AllCarry(History(log + [e], target), manifest)
       <==> AllCarry(History(log, target), manifest) && (e.target == target && Counts(e) ==> e.manifest == manifest)
  {
    HistorySnoc(log, e, target);
    hide History;
    assert e in [e] && forall x | x in History(log, target) + [e] :: x in History(log, target) || x == e;
  }

  /** A call about to promote has its own manifest recorded already. */
  lemma CountedAgrees(log: seq<Event>, p: Process, manifest: string)
    requires Backed(log, p) && p.stage.Counted? && AllCarry(History(log, Target(p.call.dataset)), manifest)
    ensures p.call.manifest == manifest
  {
    var target := Target(p.call.dataset);
    TwoOf(p.stage.approvers);
    var actor :| actor in p.stage.approvers;
    assert ApprovedIn(log, target, p.call.manifest, actor);
    var e :| e in log && e.detail.Approval? && e.target == target && e.manifest == p.call.manifest;
    HistoryMembers(log, target, e);
    hide History;
  }

  /** One step of one call, on a dataset whose records agree. */
  lemma ContinueCarries(name: PromotionKey, log: seq<Event>, p: Process, dataset: string, manifest: string)
    requires Backed(log, p) && AllCarry(History(log, Target(dataset)), manifest)
    ensures AllCarry(History(Advance(name, log, p).0, Target(dataset)), manifest)
       <==> !(&& p.stage.Checked? && p.call.dataset == dataset && p.call.manifest != manifest
              && IsNew(log, ApprovalOf(p.call), p.call.manifestAdmitted))
  {
    SameTarget(dataset, p.call.dataset);
    if p.stage.Checked? {
      AppendsWhenNew(log, ApprovalOf(p.call), p.call.manifestAdmitted);
      CarrySnoc(log, ApprovalOf(p.call), Target(dataset), manifest);
    } else if p.stage.Counted? {
      var e := PromotionOf(name, p.call, p.stage.approvers);
      AppendKeeps(log, e, p.call.manifestAdmitted);
      CarrySnoc(log, e, Target(dataset), manifest);
      if p.call.dataset == dataset { CountedAgrees(log, p, manifest); }
    }
    hide History, Append, IsNew, AllCarry, Backed, Target, IsDatasetTarget;
  }

  lemma StepCarries(name: PromotionKey, s: System, move: Move, dataset: string, manifest: string)
    requires Invariant(s) && AllCarry(History(s.log, Target(dataset)), manifest)
    ensures AllCarry(History(Step(name, s, move).log, Target(dataset)), manifest) <==> !Overturns(s, move, dataset, manifest)
  {
    if move.Continue? && move.i < |s.processes| {
      assert s.processes[move.i] in s.processes;
      ContinueCarries(name, s.log, s.processes[move.i], dataset, manifest);
    } else if move.Post? {
      AppendsWhenNew(s.log, move.event, move.admitted);
      CarrySnoc(s.log, move.event, Target(dataset), manifest);
    }
    hide History, Append, IsNew, AllCarry, Backed, Target, IsDatasetTarget, Advance;
  }

  predicate IsApproved(log: seq<Event>, dataset: string, manifest: string) {
    var state := StateOf(History(log, Target(dataset)));
    state.Some? && state.value.Ok? && state.value.value.status == Approved && state.value.value.manifest == manifest
  }

  lemma ApprovedAfter(log: seq<Event>, later: seq<Event>, dataset: string, manifest: string)
    requires log <= later && IsApproved(log, dataset, manifest)
    ensures var state := StateOf(History(later, Target(dataset)));
      && (AllCarry(History(later, Target(dataset)), manifest) <==> IsApproved(later, dataset, manifest))
      && (!AllCarry(History(later, Target(dataset)), manifest) <==> state == Some(Err(Conflict)))
  {
    StatusAfterApproval(log, later, dataset, StateOf(History(log, Target(dataset))).value.value);
    hide History, StateOf, AllCarry;
  }

  /**
   The two steps that end an approved status. Every other step of any call, and
   every other posted review, leaves the dataset approved with the same
   manifest; these two leave it in conflict.
   */
  lemma ApprovedUntil(name: PromotionKey, s: System, move: Move, dataset: string, manifest: string)
    requires Invariant(s) && IsApproved(s.log, dataset, manifest)
    ensures IsApproved(Step(name, s, move).log, dataset, manifest) <==> !Overturns(s, move, dataset, manifest)
    ensures StateOf(History(Step(name, s, move).log, Target(dataset))) == Some(Err(Conflict)) <==> Overturns(s, move, dataset, manifest)
  {
    StepKeepsInvariant(name, s, move);
    ApprovedAfter(s.log, s.log, dataset, manifest);
    ApprovedAfter(s.log, Step(name, s, move).log, dataset, manifest);
    StepCarries(name, s, move, dataset, manifest);
    hide History, StateOf, AllCarry, Step, Overturns, IsApproved, Invariant;
  }

  /** Some move of the run is such a step. */
  ghost predicate SomeOverturn(name: PromotionKey, s: System, moves: seq<Move>, dataset: string, manifest: string) {
    exists k | 0 <= k < |moves| :: Overturns(Run(name, s, moves[..k]), moves[k], dataset, manifest)
  }

  lemma SomeOverturnSnoc(name: PromotionKey, s: System, moves: seq<Move>, move: Move, dataset: string, manifest: string)
    ensures SomeOverturn(name, s, moves + [move], dataset, manifest)
       <==> SomeOverturn(name, s, moves, dataset, manifest) || Overturns(Run(name, s, moves), move, dataset, manifest)
  {
    hide Run, Overturns;
    var all := moves + [move];
    assert all[..|moves|] == moves && all[|moves|] == move;
    forall k | 0 <= k < |moves| ensures all[..k] == moves[..k] && all[k] == moves[k] {
    }
  }

  lemma {:induction false} RunCarries(name: PromotionKey, s: System, moves: seq<Move>, dataset: string, manifest: string)
    requires Invariant(s) && AllCarry(History(s.log, Target(dataset)), manifest)
    ensures AllCarry(History(Run(name, s, moves).log, Target(dataset)), manifest)
       <==> !SomeOverturn(name, s, moves, dataset, manifest)
    decreases |moves|
  {
    if moves != [] {
      var front, last := moves[..|moves| - 1], moves[|moves| - 1];
      assert moves == front + [last];
      var s' := Run(name, s, front);
      RunCarries(name, s, front, dataset, manifest);
      RunMore(name, s, front, last);
      RunKeepsInvariant(name, s, front);
      StepKeepsInvariant(name, s', last);
      SomeOverturnSnoc(name, s, front, last, dataset, manifest);
      HistoryGrows(s'.log, Step(name, s', last).log, Target(dataset));
      if AllCarry(History(s'.log, Target(dataset)), manifest) {
        StepCarries(name, s', last, dataset, manifest);
      }
      hide Run, Step, History, SomeOverturn, Overturns, Invariant;
    }
  }

  /**
   Over every continuation of a run, an approved dataset ends approved with the
   same manifest exactly when no move on the way was a late approval or
   a post against it; otherwise it ends in conflict.
   */
  lemma ApprovedOverRuns(name: PromotionKey, s: System, moves: seq<Move>, dataset: string, manifest: string)
    requires Invariant(s) && IsApproved(s.log, dataset, manifest)
    ensures IsApproved(Run(name, s, moves).log, dataset, manifest) <==> !SomeOverturn(name, s, moves, dataset, manifest)
    ensures StateOf(History(Run(name, s, moves).log, Target(dataset))) == Some(Err(Conflict))
       <==> SomeOverturn(name, s, moves, dataset, manifest)
  {
    RunKeepsInvariant(name, s, moves);
    ApprovedAfter(s.log, s.log, dataset, manifest);
    ApprovedAfter(s.log, Run(name, s, moves).log, dataset, manifest);
    RunCarries(name, s, moves, dataset, manifest);
    hide History, StateOf, AllCarry, Run, SomeOverturn, IsApproved, Invariant;
  }

  // ---- What a late approval had read ----

  /** The `k`-th move is the first read of call `i`. */
  ghost predicate ReadAt(name: PromotionKey, moves: seq<Move>, i: nat, k: nat) {
    && k < |moves| && moves[k] == Continue(i)
    && var s := Run(name, EMPTY, moves[..k]);
       i < |s.processes| && s.processes[i].stage.Begun?
  }

  lemma FirstCheckPasses(history: seq<Event>, call: Call)
    ensures FirstCheck(history, call).Checked? ==> !HasRecord(history) || AllCarry(history, call.manifest)
  {
    StateCarries(history);
    StateMeans(history, call.manifest);
    hide StateOf, KeysOf;
  }

  lemma BecomesChecked(name: PromotionKey, s: System, move: Move, i: nat)
    requires i < |Step(name, s, move).processes| && Step(name, s, move).processes[i].stage.Checked?
    requires !(i < |s.processes| && s.processes[i].stage.Checked?)
    ensures move == Continue(i) && i < |s.processes| && s.processes[i].stage.Begun?
    ensures var call := Step(name, s, move).processes[i].call;
      call == s.processes[i].call && FirstCheck(History(s.log, Target(call.dataset)), call).Checked?
  {
    hide StateOf, History, KeysOf, Append, IsPublicId, HasText, ApprovalOf, PromotionOf, FirstCheck;
  }

  lemma CheckedCallStays(name: PromotionKey, s: System, move: Move, i: nat)
    requires i < |s.processes|
    ensures i < |Step(name, s, move).processes| && Step(name, s, move).processes[i].call == s.processes[i].call
  {
    hide FirstCheck, Count, Confirm, History, Append, IsPublicId, HasText, ApprovalOf, PromotionOf;
  }

  /** Every call past its first read had read a history with no record, or one that agreed with its manifest. */
  lemma {:induction false} ReadByChecked(name: PromotionKey, moves: seq<Move>, i: nat) returns (k: nat)
    requires i < |Run(name, EMPTY, moves).processes| && Run(name, EMPTY, moves).processes[i].stage.Checked?
    ensures ReadAt(name, moves, i, k)
    ensures var call := Run(name, EMPTY, moves).processes[i].call;
      var history := History(Run(name, EMPTY, moves[..k]).log, Target(call.dataset));
      !HasRecord(history) || AllCarry(history, call.manifest)
    decreases |moves|
  {
    if moves == [] {
      assert false;
    } else {
      var front, last := moves[..|moves| - 1], moves[|moves| - 1];
      assert moves == front + [last];
      var s := Run(name, EMPTY, front);
      RunMore(name, EMPTY, front, last);
      hide Run, Step, History, AllCarry, HasRecord;
      if i < |s.processes| && s.processes[i].stage.Checked? {
        k := ReadByChecked(name, front, i);
        CheckedCallStays(name, s, last, i);
        assert moves[..k] == front[..k];
      } else {
        k := |front|;
        BecomesChecked(name, s, last, i);
        FirstCheckPasses(History(s.log, Target(s.processes[i].call.dataset)), s.processes[i].call);
      }
    }
  }

  /**
   Every late approval is of a call whose first read found nothing recorded: the
   records of an approved dataset cannot all be later than a read that agreed
   with another manifest.
   */
  lemma LateApprovalReadNothing(name: PromotionKey, moves: seq<Move>, move: Move, dataset: string, manifest: string)
    requires IsApproved(Run(name, EMPTY, moves).log, dataset, manifest)
    requires LateApproval(Run(name, EMPTY, moves), move, dataset, manifest)
    ensures exists k: nat :: ReadAt(name, moves, move.i, k)
                     && !HasRecord(History(Run(name, EMPTY, moves[..k]).log, Target(dataset)))
  {
    var s := Run(name, EMPTY, moves);
    var k := ReadByChecked(name, moves, move.i);
    ApprovedAfter(s.log, s.log, dataset, manifest);
    assert moves == moves[..k] + moves[k..];
    RunAppend(name, EMPTY, moves[..k], moves[k..]);
    RunKeepsInvariant(name, EMPTY, moves[..k]);
    RunKeepsInvariant(name, Run(name, EMPTY, moves[..k]), moves[k..]);
    HistoryGrows(Run(name, EMPTY, moves[..k]).log, s.log, Target(dataset));
    hide History, Run, StateOf, ReadAt, IsApproved;
  }
}
