/**
 Dual approval in every interleaving, among reviews that anyone appends to any
 target: what the calls' promotions rest on, what breaks that rule, and what an
 approved state means.
 */
module DatasetSafety {
  import opened Basics
  import opened ScopedKeys
  import opened DatasetApproval
  import Review = CandidateReview

  // ---- Systems of interleaved calls ----

  datatype System = System(log: seq<Event>, processes: seq<Process>)

  /**
   Calls start, step in any order, and may stop for good; meanwhile any review
   may be posted to any target, a dataset's own included.
   */
  datatype Move = Start(call: Call) | Continue(i: nat) | Post(event: Event, admitted: bool)

  predicate IsDatasetTarget(target: string) {
    "dataset:" <= target
  }

  function Step(name: PromotionKey, s: System, move: Move): System {
    match move
    case Start(call) => s.(processes := s.processes + [Process(call, Begun)])
    case Continue(i) =>
      if i >= |s.processes| then s
      else
        var (log', p) := Advance(name, s.log, s.processes[i]);
        System(log', s.processes[i := p])
    case Post(event, admitted) => s.(log := Append(s.log, event, admitted).0)
  }

  function Run(name: PromotionKey, s: System, moves: seq<Move>): System
    decreases |moves|
  {
    if moves == [] then s else Run(name, Step(name, s, moves[0]), moves[1..])
  }

  const EMPTY := System([], [])

  lemma {:induction false} RunAppend(name: PromotionKey, s: System, moves: seq<Move>, more: seq<Move>)
    ensures Run(name, s, moves + more) == Run(name, Run(name, s, moves), more)
    decreases |moves|
  {
    if moves == [] {
      assert moves + more == more;
    } else {
      hide Step;
      assert (moves + more)[1..] == moves[1..] + more;
      RunAppend(name, Step(name, s, moves[0]), moves[1..], more);
    }
  }

  lemma RunOne(name: PromotionKey, s: System, move: Move)
    ensures Run(name, s, [move]) == Step(name, s, move)
  {
    hide Step;
    assert [move][1..] == [];
  }

  lemma RunMore(name: PromotionKey, s: System, moves: seq<Move>, move: Move)
    ensures Run(name, s, moves + [move]) == Step(name, Run(name, s, moves), move)
  {
    RunAppend(name, s, moves, [move]);
    RunOne(name, Run(name, s, moves), move);
  }

  // ---- Histories and derived states ----

  lemma HistorySnoc(log: seq<Event>, e: Event, target: string)
    ensures History(log + [e], target) == History(log, target) + if e.target == target then [e] else []
  {
    assert (log + [e])[..|log|] == log;
  }

  lemma {:induction false} HistoryMembers(log: seq<Event>, target: string, e: Event)
    ensures e in History(log, target) <==> e in log && e.target == target
  {
    if log != [] {
      HistoryMembers(log[..|log| - 1], target, e);
      assert log == log[..|log| - 1] + [log[|log| - 1]];
    }
  }

  lemma {:induction false} ApprovalMembers(history: seq<Event>, e: Event)
    ensures e in Approvals(history) <==> e in history && e.detail.Approval?
    ensures e in Promotions(history) <==> e in history && e.detail.Promotion?
  {
    if history != [] {
      ApprovalMembers(history[..|history| - 1], e);
      assert history == history[..|history| - 1] + [history[|history| - 1]];
    }
  }

  predicate Counts(e: Event) {
    e.detail.Approval? || e.detail.Promotion?
  }

  /** Every approval and promotion of a history carries this manifest. */
  predicate AllCarry(history: seq<Event>, manifest: string) {
    forall e | e in history && Counts(e) :: e.manifest == manifest
  }

  function Approvers(history: seq<Event>): set<string> {
    set e | e in history && e.detail.Approval? :: e.actor
  }

  predicate HasPromotion(history: seq<Event>) {
    exists e | e in history :: e.detail.Promotion?
  }

  predicate HasRecord(history: seq<Event>) {
    exists e | e in history :: Counts(e)
  }

  /** The derived state, said without the lists: what is recorded, whether it agrees, and who approved. */
  lemma StateMeans(history: seq<Event>, manifest: string)
    ensures StateOf(history).None? <==> !HasRecord(history)
    ensures StateOf(history).Some? && StateOf(history).value.Err? ==> StateOf(history).value.error == Conflict
    ensures HasRecord(history) && AllCarry(history, manifest) ==>
      StateOf(history) == Some(
        if HasPromotion(history) && |Approvers(history)| < 2 then Err(Conflict)
        else Ok(State(if HasPromotion(history) then Approved else Pending, Approvers(history), manifest)))
    ensures HasRecord(history) && !AllCarry(history, manifest) ==>
      StateOf(history).Some? && (StateOf(history).value.Ok? ==> StateOf(history).value.value.manifest != manifest)
  {
    var approvals, promotions := Approvals(history), Promotions(history);
    forall e ensures e in approvals <==> e in history && e.detail.Approval?
             ensures e in promotions <==> e in history && e.detail.Promotion? {
      ApprovalMembers(history, e);
    }
    hide Approvals, Promotions;
    assert (set e | e in approvals :: e.actor) == Approvers(history);
    if approvals != [] { assert approvals[0] in approvals; }
    if promotions != [] { assert promotions[0] in promotions; }
    StateMeansAgreed(history, manifest);
  }

  lemma StateMeansAgreed(history: seq<Event>, manifest: string)
    requires forall e :: e in Approvals(history) <==> e in history && e.detail.Approval?
    requires forall e :: e in Promotions(history) <==> e in history && e.detail.Promotion?
    ensures AllCarry(history, manifest) <==> forall e | e in Approvals(history) + Promotions(history) :: e.manifest == manifest
  {
    hide Approvals, Promotions;
  }

  // ---- What every interleaving keeps ----

  predicate ApprovedIn(log: seq<Event>, target: string, manifest: string, actor: string) {
    exists e | e in log :: e.detail.Approval? && e.target == target && e.manifest == manifest && e.actor == actor
  }

  /** Two distinct reviewers approved this very manifest of this target. */
  ghost predicate Earned(log: seq<Event>, target: string, manifest: string) {
    exists a, b :: a != b && ApprovedIn(log, target, manifest, a) && ApprovedIn(log, target, manifest, b)
  }

  ghost predicate PromotionsEarned(log: seq<Event>) {
    forall i | 0 <= i < |log| && log[i].detail.Promotion? && IsDatasetTarget(log[i].target) ::
      Earned(log[..i], log[i].target, log[i].manifest)
  }

  /** What a call that has come this far knows to be in the log for good. */
  predicate Backed(log: seq<Event>, p: Process) {
    var target := Target(p.call.dataset);
    match p.stage
    case Recorded => ApprovalOf(p.call) in log
    case Counted(approvers) =>
      |approvers| >= 2 && forall actor | actor in approvers :: ApprovedIn(log, target, p.call.manifest, actor)
    case Promoted => exists e | e in log :: e.target == target && e.detail.Promotion?
    case Returned(Ok(state)) => BorneOut(log, target, state)
    case _ => true
  }

  /** The log bears a state out: every reviewer it names approved its manifest, and an approved one was promoted. */
  predicate BorneOut(log: seq<Event>, target: string, state: State) {
    && (forall actor | actor in state.approvers :: ApprovedIn(log, target, state.manifest, actor))
    && (state.status == Approved ==>
          |state.approvers| >= 2 && exists e | e in log :: e.target == target && e.detail.Promotion? && e.manifest == state.manifest)
  }

  ghost predicate Invariant(s: System) {
    forall p | p in s.processes :: Backed(s.log, p)
  }

  lemma AppendKeeps(log: seq<Event>, e: Event, admitted: bool)
    ensures log <= Append(log, e, admitted).0
    ensures Append(log, e, admitted).1.None? ==> e in Append(log, e, admitted).0
    ensures Append(log, e, admitted).0 == log || Append(log, e, admitted).0 == log + [e]
  {
    hide Review.IsCandidateReviewTarget, IsPublicId;
  }

  /** The append of this event is admitted, under a key that was not used before. */
  predicate IsNew(log: seq<Event>, e: Event, admitted: bool) {
    && !Review.IsCandidateReviewTarget(e.target)
    && IsPublicId(e.target) && IsPublicId(e.key) && HasText(e.actor) && admitted
    && forall x | x in log :: x.key != e.key
  }

  lemma {:induction false} FindByKeyMeans(log: seq<Event>, key: string)
    ensures FindByKey(log, key).None? <==> forall e | e in log :: e.key != key
  {
    if log != [] {
      FindByKeyMeans(log[1..], key);
      assert log == [log[0]] + log[1..];
    }
  }

  lemma AppendsWhenNew(log: seq<Event>, e: Event, admitted: bool)
    ensures Append(log, e, admitted).0 == if IsNew(log, e, admitted) then log + [e] else log
  {
    FindByKeyMeans(log, e.key);
    hide IsPublicId, HasText, Review.IsCandidateReviewTarget, FindByKey;
  }

  lemma BackedForGood(log: seq<Event>, later: seq<Event>, p: Process)
    requires log <= later && Backed(log, p)
    ensures Backed(later, p)
  {
    if p.stage.Counted? {
      forall actor | actor in p.stage.approvers
        ensures ApprovedIn(later, Target(p.call.dataset), p.call.manifest, actor) {
        assert ApprovedIn(log, Target(p.call.dataset), p.call.manifest, actor);
      }
    } else if p.stage.Returned? && p.stage.result.Ok? {
      BorneOutForGood(log, later, Target(p.call.dataset), p.stage.result.value);
    }
  }

  lemma BorneOutForGood(log: seq<Event>, later: seq<Event>, target: string, state: State)
    requires log <= later && BorneOut(log, target, state)
    ensures BorneOut(later, target, state)
  {
    forall actor | actor in state.approvers ensures ApprovedIn(later, target, state.manifest, actor) {
      assert ApprovedIn(log, target, state.manifest, actor);
    }
  }

  lemma TwoOf(actors: set<string>)
    requires |actors| >= 2
    ensures exists a, b :: a in actors && b in actors && a != b
  {
    var a :| a in actors;
    assert |actors - {a}| >= 1;
    var b :| b in actors - {a};
  }

  lemma BackedIsEarned(log: seq<Event>, p: Process)
    requires Backed(log, p) && p.stage.Counted?
    ensures Earned(log, Target(p.call.dataset), p.call.manifest)
  {
    TwoOf(p.stage.approvers);
    var a, b :| a in p.stage.approvers && b in p.stage.approvers && a != b;
    assert ApprovedIn(log, Target(p.call.dataset), p.call.manifest, a);
    assert ApprovedIn(log, Target(p.call.dataset), p.call.manifest, b);
  }

  /** A derived state exists only when every record agrees with its manifest. */
  lemma StateCarries(history: seq<Event>)
    ensures StateOf(history).Some? && StateOf(history).value.Ok? ==>
      var state := StateOf(history).value.value;
      && AllCarry(history, state.manifest) && HasRecord(history) && state.approvers == Approvers(history)
      && (state.status == Approved <==> HasPromotion(history)) && (state.status == Approved ==> |state.approvers| >= 2)
  {
    StateMeans(history, if StateOf(history).Some? && StateOf(history).value.Ok? then StateOf(history).value.value.manifest else "");
    hide StateOf;
  }

  /** Whatever state a read derives is borne out by the log it read. */
  lemma ReadIsBorneOut(log: seq<Event>, target: string)
    ensures var state := StateOf(History(log, target));
      state.Some? && state.value.Ok? ==> BorneOut(log, target, state.value.value)
  {
    var history := History(log, target);
    StateCarries(history);
    forall e | e in history ensures e in log && e.target == target {
      HistoryMembers(log, target, e);
    }
    hide StateOf, History;
    if StateOf(history).Some? && StateOf(history).value.Ok? {
      var state := StateOf(history).value.value;
      forall actor | actor in state.approvers ensures ApprovedIn(log, target, state.manifest, actor) {
        var e :| e in history && e.detail.Approval? && e.actor == actor;
      }
    }
  }

  /** The second read comes after the call's own approval, so the state it derives is for the call's manifest. */
  lemma SecondReadBacked(log: seq<Event>, call: Call)
    requires ApprovalOf(call) in log
    ensures Backed(log, Process(call, Count(History(log, Target(call.dataset)))))
  {
    var target := Target(call.dataset);
    var history := History(log, target);
    HistoryMembers(log, target, ApprovalOf(call));
    StateCarries(history);
    ReadIsBorneOut(log, target);
    forall actor, e | e in history && e.detail.Approval? && e.actor == actor && e.manifest == call.manifest
      ensures ApprovedIn(log, target, call.manifest, actor) {
      HistoryMembers(log, target, e);
    }
    hide History, StateOf, BorneOut;
  }

  lemma ReadKeepsBacked(name: PromotionKey, log: seq<Event>, p: Process)
    requires Backed(log, p) && !p.stage.Checked? && !p.stage.Counted?
    ensures Advance(name, log, p).0 == log && Backed(log, Advance(name, log, p).1)
  {
    if p.stage.Recorded? {
      SecondReadBacked(log, p.call);
    } else if p.stage.Begun? || p.stage.Promoted? {
      ReadIsBorneOut(log, Target(p.call.dataset));
    }
    hide History, StateOf, Append, IsPublicId, HasText, KeysOf, BorneOut, Count;
  }

  lemma AppendKeepsBacked(name: PromotionKey, log: seq<Event>, p: Process)
    requires p.stage.Checked? || p.stage.Counted?
    ensures var e := if p.stage.Checked? then ApprovalOf(p.call) else PromotionOf(name, p.call, p.stage.approvers);
      var (log', p') := Advance(name, log, p);
      && Backed(log', p') && (log' == log || log' == log + [e])
  {
    AppendKeeps(log, if p.stage.Checked? then ApprovalOf(p.call) else PromotionOf(name, p.call, p.stage.approvers),
                p.call.manifestAdmitted);
    hide History, StateOf, Append, IsPublicId, HasText, KeysOf, BorneOut;
  }

  lemma ContinueKeepsBacked(name: PromotionKey, log: seq<Event>, p: Process)
    requires Backed(log, p)
    ensures var (log', p') := Advance(name, log, p);
      log <= log' && Backed(log', p') && (log' == log || (log' == log + [log'[|log|]] && |log'| == |log| + 1))
    ensures var (log', p') := Advance(name, log, p);
      log' != log && log'[|log|].detail.Promotion? ==>
        p.stage.Counted? && log'[|log|] == PromotionOf(name, p.call, p.stage.approvers)
  {
    if p.stage.Checked? || p.stage.Counted? {
      AppendKeepsBacked(name, log, p);
    } else {
      ReadKeepsBacked(name, log, p);
    }
    hide Advance, Backed;
  }

  lemma StepKeepsInvariant(name: PromotionKey, s: System, move: Move)
    requires Invariant(s)
    ensures Invariant(Step(name, s, move)) && s.log <= Step(name, s, move).log
  {
    var s' := Step(name, s, move);
    if move.Post? {
      AppendKeeps(s.log, move.event, move.admitted);
    } else if move.Continue? && move.i < |s.processes| {
      ContinueKeepsBacked(name, s.log, s.processes[move.i]);
    }
    hide Append, Advance, Backed;
    forall p | p in s'.processes ensures Backed(s'.log, p) {
      if p in s.processes { BackedForGood(s.log, s'.log, p); }
    }
  }

  lemma {:induction false} RunKeepsInvariant(name: PromotionKey, s: System, moves: seq<Move>)
    requires Invariant(s)
    ensures Invariant(Run(name, s, moves)) && s.log <= Run(name, s, moves).log
    decreases |moves|
  {
    if moves != [] {
      StepKeepsInvariant(name, s, moves[0]);
      RunKeepsInvariant(name, Step(name, s, moves[0]), moves[1..]);
    }
  }

  // ---- What promotions rest on ----

  /** The promotion that one move appends, if it appends one: a call's own rests on two approvals already in the log. */
  lemma StepPromotes(name: PromotionKey, s: System, move: Move)
    requires Invariant(s)
    ensures var log' := Step(name, s, move).log;
      log' == s.log
      || (&& |log'| == |s.log| + 1 && log' == s.log + [log'[|s.log|]]
          && var e := log'[|s.log|];
             if move.Post? then move.event == e else e.detail.Promotion? ==> Earned(s.log, e.target, e.manifest))
  {
    if move.Post? {
      AppendKeeps(s.log, move.event, move.admitted);
    } else if move.Continue? && move.i < |s.processes| {
      var p := s.processes[move.i];
      assert p in s.processes;
      ContinueKeepsBacked(name, s.log, p);
      if p.stage.Counted? { BackedIsEarned(s.log, p); }
    }
    hide Append, Advance, Backed, Earned;
  }

  /** Some move of a run posted the event that stands at this place of the log. */
  ghost predicate Posted(name: PromotionKey, moves: seq<Move>, i: nat, e: Event) {
    exists k | 0 <= k < |moves| :: moves[k].Post? && moves[k].event == e && |Run(name, EMPTY, moves[..k]).log| == i
  }

  /**
   In every run of any number of calls, among reviews that others post to any
   target, each promotion that a call appended is preceded in the log by
   approvals of that same manifest from two distinct reviewers; any other
   promotion was posted.
   */
  lemma {:induction false} PromotionIsEarned(name: PromotionKey, moves: seq<Move>, i: nat)
    requires i < |Run(name, EMPTY, moves).log|
    ensures var log := Run(name, EMPTY, moves).log;
      log[i].detail.Promotion? ==> Earned(log[..i], log[i].target, log[i].manifest) || Posted(name, moves, i, log[i])
    decreases |moves|
  {
    if moves == [] {
      assert false;
    } else {
      var front, last := moves[..|moves| - 1], moves[|moves| - 1];
      var s := Run(name, EMPTY, front);
      assert moves == front + [last];
      RunMore(name, EMPTY, front, last);
      RunKeepsInvariant(name, EMPTY, front);
      StepPromotes(name, s, last);
      hide Run, Step, Earned, Invariant;
      var log := Run(name, EMPTY, moves).log;
      if i < |s.log| {
        PromotionIsEarned(name, front, i);
        assert log[..i] == s.log[..i] && log[i] == s.log[i];
        if Posted(name, front, i, log[i]) {
          var k :| 0 <= k < |front| && front[k].Post? && front[k].event == log[i] && |Run(name, EMPTY, front[..k]).log| == i;
          assert moves[k] == front[k] && moves[..k] == front[..k];
        }
      } else {
        assert log[..i] == s.log;
        assert last.Post? ==> moves[|front|] == last && moves[..|front|] == front;
      }
    }
  }

  /** A posted promotion of a dataset, under a new key, that two approvals of its manifest do not precede. */
  ghost predicate UnearnedPost(s: System, move: Move) {
    && move.Post? && move.event.detail.Promotion? && IsDatasetTarget(move.event.target)
    && IsNew(s.log, move.event, move.admitted) && !Earned(s.log, move.event.target, move.event.manifest)
  }

  lemma PromotionsEarnedSnoc(log: seq<Event>, e: Event)
    ensures PromotionsEarned(log + [e])
       <==> PromotionsEarned(log) && (e.detail.Promotion? && IsDatasetTarget(e.target) ==> Earned(log, e.target, e.manifest))
  {
    hide Earned, IsDatasetTarget;
    var log' := log + [e];
    assert log'[|log|] == e && log'[..|log|] == log;
    forall i | 0 <= i < |log| ensures log'[i] == log[i] && log'[..i] == log[..i] {
    }
    if PromotionsEarned(log') {
      forall i | 0 <= i < |log| && log[i].detail.Promotion? && IsDatasetTarget(log[i].target)
        ensures Earned(log[..i], log[i].target, log[i].manifest) {
        assert log'[i].detail.Promotion? && IsDatasetTarget(log'[i].target);
        assert Earned(log'[..i], log'[i].target, log'[i].manifest);
      }
    }
  }

  /** The one step after which some promotion of a dataset is not earned. */
  lemma EarnedUntil(name: PromotionKey, s: System, move: Move)
    requires Invariant(s) && PromotionsEarned(s.log)
    ensures PromotionsEarned(Step(name, s, move).log) <==> !UnearnedPost(s, move)
  {
    StepPromotes(name, s, move);
    if move.Post? { AppendsWhenNew(s.log, move.event, move.admitted); }
    var log' := Step(name, s, move).log;
    if log' != s.log { PromotionsEarnedSnoc(s.log, log'[|s.log|]); }
    hide Append, Advance, Invariant, Earned, IsDatasetTarget, IsNew;
  }

  ghost predicate SomeUnearnedPost(name: PromotionKey, s: System, moves: seq<Move>) {
    exists k | 0 <= k < |moves| :: UnearnedPost(Run(name, s, moves[..k]), moves[k])
  }

  lemma SomeUnearnedSnoc(name: PromotionKey, s: System, moves: seq<Move>, move: Move)
    ensures SomeUnearnedPost(name, s, moves + [move])
       <==> SomeUnearnedPost(name, s, moves) || UnearnedPost(Run(name, s, moves), move)
  {
    hide Run, UnearnedPost;
    var all := moves + [move];
    assert all[..|moves|] == moves && all[|moves|] == move;
    forall k | 0 <= k < |moves| ensures all[..k] == moves[..k] && all[k] == moves[k] {
    }
  }

  lemma PrefixEarned(log: seq<Event>, later: seq<Event>)
    requires log <= later && PromotionsEarned(later)
    ensures PromotionsEarned(log)
  {
    hide Earned, IsDatasetTarget;
    forall i | 0 <= i < |log| && log[i].detail.Promotion? && IsDatasetTarget(log[i].target)
      ensures Earned(log[..i], log[i].target, log[i].manifest) {
      assert log[i] == later[i] && log[..i] == later[..i];
    }
  }

  /** Over every run, each promotion of a dataset is earned exactly when no unearned one was posted on the way. */
  lemma {:induction false} EarnedOverRuns(name: PromotionKey, moves: seq<Move>)
    ensures PromotionsEarned(Run(name, EMPTY, moves).log) <==> !SomeUnearnedPost(name, EMPTY, moves)
    decreases |moves|
  {
    if moves != [] {
      var front, last := moves[..|moves| - 1], moves[|moves| - 1];
      var s := Run(name, EMPTY, front);
      assert moves == front + [last];
      EarnedOverRuns(name, front);
      RunMore(name, EMPTY, front, last);
      RunKeepsInvariant(name, EMPTY, front);
      StepKeepsInvariant(name, s, last);
      SomeUnearnedSnoc(name, EMPTY, front, last);
      hide Run, Step, SomeUnearnedPost, UnearnedPost, Invariant, PromotionsEarned;
      if PromotionsEarned(s.log) {
        EarnedUntil(name, s, last);
      } else if PromotionsEarned(Step(name, s, last).log) {
        PrefixEarned(s.log, Step(name, s, last).log);
      }
    }
  }

  /** Whatever was posted, an approved state rests on two distinct approvals of its manifest. */
  lemma ApprovedIsEarned(log: seq<Event>, dataset: string, state: State)
    requires StateOf(History(log, Target(dataset))) == Some(Ok(state)) && state.status == Approved
    ensures Earned(log, Target(dataset), state.manifest)
  {
    ReadIsBorneOut(log, Target(dataset));
    hide StateOf, History;
    TwoOf(state.approvers);
    var a, b :| a in state.approvers && b in state.approvers && a != b;
    assert ApprovedIn(log, Target(dataset), state.manifest, a) && ApprovedIn(log, Target(dataset), state.manifest, b);
  }

  /**
   What a call has returned stays true of the log, whatever follows: the
   reviewers it names approved that manifest, and an approved state rests on at
   least two of them and on a recorded promotion.
   */
  lemma ReturnedStateHolds(name: PromotionKey, moves: seq<Move>, more: seq<Move>, i: nat, state: State)
    requires var s := Run(name, EMPTY, moves);
      i < |s.processes| && s.processes[i].stage == Returned(Ok(state))
    ensures var s := Run(name, EMPTY, moves);
      BorneOut(Run(name, s, more).log, Target(s.processes[i].call.dataset), state)
  {
    RunKeepsInvariant(name, EMPTY, moves);
    var s := Run(name, EMPTY, moves);
    RunKeepsInvariant(name, s, more);
    assert s.processes[i] in s.processes;
    BorneOutForGood(s.log, Run(name, s, more).log, Target(s.processes[i].call.dataset), state);
    hide Run, BorneOut;
  }

  // ---- What the derived status can be ----

  lemma EarnedApprovers(log: seq<Event>, target: string, manifest: string)
    requires Earned(log, target, manifest)
    ensures |Approvers(History(log, target))| >= 2
  {
    var a, b :| a != b && ApprovedIn(log, target, manifest, a) && ApprovedIn(log, target, manifest, b);
    var x :| x in log && x.detail.Approval? && x.target == target && x.actor == a;
    var y :| y in log && y.detail.Approval? && y.target == target && y.actor == b;
    HistoryMembers(log, target, x);
    HistoryMembers(log, target, y);
    var approvers := Approvers(History(log, target));
    assert {a, b} <= approvers;
    assert |{a, b}| == 2;
    assert |approvers| == |{a, b}| + |approvers - {a, b}|;
  }

  lemma EarnedForGood(log: seq<Event>, later: seq<Event>, target: string, manifest: string)
    requires log <= later && Earned(log, target, manifest)
    ensures Earned(later, target, manifest)
  {
    var a, b :| a != b && ApprovedIn(log, target, manifest, a) && ApprovedIn(log, target, manifest, b);
    assert ApprovedIn(later, target, manifest, a) && ApprovedIn(later, target, manifest, b);
  }

  /** A promotion stands among the records and fewer than two reviewers approved. */
  predicate LacksApprovers(history: seq<Event>) {
    HasPromotion(history) && |Approvers(history)| < 2
  }

  lemma EarnedNeverLacks(log: seq<Event>, dataset: string)
    requires PromotionsEarned(log)
    ensures !LacksApprovers(History(log, Target(dataset)))
  {
    var target := Target(dataset);
    var history := History(log, target);
    assert IsDatasetTarget(target);
    if HasPromotion(history) {
      var e :| e in history && e.detail.Promotion?;
      HistoryMembers(log, target, e);
      var i :| 0 <= i < |log| && log[i] == e;
      EarnedForGood(log[..i], log, target, e.manifest);
      EarnedApprovers(log, target, e.manifest);
    }
    hide History, Earned, IsDatasetTarget;
  }

  /**
   What any log derives: once something is recorded, no state exactly when the
   records disagree on the manifest or a promotion lacks approvers; otherwise
   an approved one exactly when a promotion is recorded.
   */
  lemma DerivedState(history: seq<Event>, manifest: string)
    requires HasRecord(history)
    ensures AllCarry(history, manifest) && !LacksApprovers(history) ==>
      StateOf(history) == Some(Ok(State(if HasPromotion(history) then Approved else Pending, Approvers(history), manifest)))
    ensures StateOf(history) == Some(Err(Conflict)) <==> (!exists m :: AllCarry(history, m)) || LacksApprovers(history)
  {
    forall m ensures AllCarry(history, m) && !LacksApprovers(history) ==> StateOf(history).Some? && StateOf(history).value.Ok? {
      StateMeans(history, m);
    }
    StateMeans(history, manifest);
    StateCarries(history);
    hide StateOf;
  }

  /**
   In every run without an unearned posted promotion, the state of a dataset
   with records cannot be derived exactly when they disagree on the manifest.
   */
  lemma ReachableState(name: PromotionKey, moves: seq<Move>, dataset: string)
    requires HasRecord(History(Run(name, EMPTY, moves).log, Target(dataset)))
    requires !SomeUnearnedPost(name, EMPTY, moves)
    ensures var history := History(Run(name, EMPTY, moves).log, Target(dataset));
      && (StateOf(history) == Some(Err(Conflict)) <==> !exists m :: AllCarry(history, m))
      && (HasPromotion(history) ==> |Approvers(history)| >= 2)
  {
    EarnedOverRuns(name, moves);
    EarnedNeverLacks(Run(name, EMPTY, moves).log, dataset);
    DerivedState(History(Run(name, EMPTY, moves).log, Target(dataset)), "");
    hide Run, History, StateOf, AllCarry, HasRecord, SomeUnearnedPost, PromotionsEarned;
  }

  lemma {:induction false} HistoryGrows(log: seq<Event>, later: seq<Event>, target: string)
    requires log <= later
    ensures History(log, target) <= History(later, target)
  {
    if log != later {
      HistoryGrows(log, later[..|later| - 1], target);
    }
  }

  /**
   Once a dataset is approved its derived status never goes back to pending and
   its record never disappears: it stays approved exactly as long as no record
   with another manifest is appended, and becomes a manifest conflict when one is.
   */
  lemma StatusAfterApproval(log: seq<Event>, later: seq<Event>, dataset: string, state: State)
    requires log <= later
    requires StateOf(History(log, Target(dataset))) == Some(Ok(state)) && state.status == Approved
    ensures var history := History(later, Target(dataset));
      StateOf(history) == Some(
        if AllCarry(history, state.manifest) then Ok(State(Approved, Approvers(history), state.manifest)) else Err(Conflict))
  {
    var before, history := History(log, Target(dataset)), History(later, Target(dataset));
    HistoryGrows(log, later, Target(dataset));
    StateCarries(before);
    StateCarries(history);
    var e :| e in before && Counts(e);
    assert e in history;
    var promotion :| promotion in before && promotion.detail.Promotion?;
    assert promotion in history;
    StateMeans(history, state.manifest);
    MoreApprovers(before, history);
    hide History, StateOf;
  }

  lemma MoreApprovers(before: seq<Event>, history: seq<Event>)
    requires before <= history
    ensures |Approvers(before)| <= |Approvers(history)|
  {
    assert Approvers(before) <= Approvers(history);
    assert |Approvers(history)| == |Approvers(before)| + |Approvers(history) - Approvers(before)|;
  }

  /** After its own append, a call's next read always finds a record. */
  lemma ReadsFindRecord(s: System, p: Process)
    requires Invariant(s) && p in s.processes && (p.stage.Recorded? || p.stage.Promoted?)
    ensures StateOf(History(s.log, Target(p.call.dataset))).Some?
  {
    var target := Target(p.call.dataset);
    assert Backed(s.log, p);
    var e :| e in s.log && e.target == target && Counts(e);
    HistoryMembers(s.log, target, e);
    StateMeans(History(s.log, target), "");
    hide History, StateOf;
  }

  // ---- A race that leaves an approved dataset in conflict ----

  const FIRST := Call("d", "a", "1", "m", true)
  const SECOND := Call("d", "b", "2", "m", true)
  const LATE := Call("d", "c", "3", "n", true)

  function RacePromotion(name: PromotionKey): Event {
    PromotionOf(name, SECOND, {"a", "b"})
  }

  lemma PlainKeys()
    ensures IsPublicId("1") && IsPublicId("2") && IsPublicId("3") && IsPublicId("p")
    ensures HasText("a") && HasText("b") && HasText("c") && HasText("d")
    ensures Target("d") == "dataset:d" && IsPublicId("dataset:d") && !Review.IsCandidateReviewTarget("dataset:d")
    ensures "1" != "2" && "1" != "3" && "2" != "3" && "p" != "1" && "p" != "2" && "p" != "3" && "m" != "n"
    ensures "a" != "b" && "a" != "c" && "b" != "c"
  {
    assert "1"[0] == '1' && "2"[0] == '2' && "3"[0] == '3' && "p"[0] == 'p' && "m"[0] == 'm' && "n"[0] == 'n';
    assert "a"[0] == 'a' && "b"[0] == 'b' && "c"[0] == 'c' && "d"[0] == 'd' && "dataset:d"[0] == 'd';
    assert |"dataset:d"| == 9;
  }

  /** An append of a new plain event to a short log of this dataset. */
  lemma AppendsNew(log: seq<Event>, e: Event)
    requires forall x | x in log :: x.key != e.key
    requires e.target == "dataset:d" && IsPublicId(e.key) && HasText(e.actor)
    ensures Append(log, e, true) == (log + [e], None)
  {
    PlainKeys();
    hide IsPublicId, HasText, Review.IsCandidateReviewTarget;
  }

  lemma {:induction false} WholeHistory(log: seq<Event>)
    requires forall e | e in log :: e.target == "dataset:d"
    ensures History(log, "dataset:d") == log
  {
    if log != [] {
      WholeHistory(log[..|log| - 1]);
      assert log == log[..|log| - 1] + [log[|log| - 1]];
    }
  }

  lemma ApproversSnoc(history: seq<Event>, e: Event)
    ensures Approvers(history + [e]) == Approvers(history) + if e.detail.Approval? then {e.actor} else {}
  {
    assert e in history + [e];
  }

  lemma RaceApprovers(name: PromotionKey)
    ensures Approvers([ApprovalOf(FIRST)]) == {"a"}
    ensures Approvers([ApprovalOf(FIRST), ApprovalOf(SECOND)]) == {"a", "b"}
    ensures Approvers([ApprovalOf(FIRST), ApprovalOf(SECOND), RacePromotion(name)]) == {"a", "b"}
  {
    var one, two := [ApprovalOf(FIRST)], [ApprovalOf(FIRST), ApprovalOf(SECOND)];
    ApproversSnoc([], ApprovalOf(FIRST));
    ApproversSnoc(one, ApprovalOf(SECOND));
    ApproversSnoc(two, RacePromotion(name));
    assert Approvers([]) == {};
    hide Approvers;
    assert [] + [ApprovalOf(FIRST)] == one && one + [ApprovalOf(SECOND)] == two;
    assert two + [RacePromotion(name)] == [ApprovalOf(FIRST), ApprovalOf(SECOND), RacePromotion(name)];
  }

  lemma RaceReads(name: PromotionKey)
    ensures forall log | log in {[], [ApprovalOf(FIRST)], [ApprovalOf(FIRST), ApprovalOf(SECOND)]} :: History(log, "dataset:d") == log
    ensures Advance(name, [], Process(FIRST, Begun)) == ([], Process(FIRST, Checked))
    ensures Advance(name, [], Process(LATE, Begun)) == ([], Process(LATE, Checked))
    ensures var log := [ApprovalOf(FIRST)]; Advance(name, log, Process(SECOND, Begun)) == (log, Process(SECOND, Checked))
    ensures var log := [ApprovalOf(FIRST), ApprovalOf(SECOND)];
      Advance(name, log, Process(SECOND, Recorded)) == (log, Process(SECOND, Counted({"a", "b"})))
  {
    PlainKeys();
    hide IsPublicId, HasText, StateOf, History;
    var log1, log2 := [ApprovalOf(FIRST)], [ApprovalOf(FIRST), ApprovalOf(SECOND)];
    WholeHistory([]);
    WholeHistory(log1);
    WholeHistory(log2);
    StateMeans([], "m");
    StateMeans(log1, "m");
    StateMeans(log2, "m");
    assert log1[0] in log1 && log2[0] in log2;
    RaceApprovers(name);
    OnlyFirst();
  }

  lemma OnlyFirst()
    ensures KeysOf([ApprovalOf(FIRST)], "b") == {}
  {
    forall e ensures e in Approvals([ApprovalOf(FIRST)]) ==> e == ApprovalOf(FIRST) {
      ApprovalMembers([ApprovalOf(FIRST)], e);
    }
    assert "a"[0] != "b"[0];
    hide Approvals;
  }

  lemma RaceAppends(name: PromotionKey)
    requires name("d", "m", {"a", "b"}, "b") == "p"
    ensures Advance(name, [], Process(FIRST, Checked)) == ([ApprovalOf(FIRST)], Process(FIRST, Recorded))
    ensures var log := [ApprovalOf(FIRST)];
      Advance(name, log, Process(SECOND, Checked)) == (log + [ApprovalOf(SECOND)], Process(SECOND, Recorded))
    ensures var log := [ApprovalOf(FIRST), ApprovalOf(SECOND)];
      Advance(name, log, Process(SECOND, Counted({"a", "b"}))) == (log + [RacePromotion(name)], Process(SECOND, Promoted))
    ensures var log := [ApprovalOf(FIRST), ApprovalOf(SECOND), RacePromotion(name)];
      Advance(name, log, Process(LATE, Checked)) == (log + [ApprovalOf(LATE)], Process(LATE, Recorded))
  {
    PlainKeys();
    AppendsNew([], ApprovalOf(FIRST));
    AppendsNew([ApprovalOf(FIRST)], ApprovalOf(SECOND));
    AppendsNew([ApprovalOf(FIRST), ApprovalOf(SECOND)], RacePromotion(name));
    AppendsNew([ApprovalOf(FIRST), ApprovalOf(SECOND), RacePromotion(name)], ApprovalOf(LATE));
    assert [] + [ApprovalOf(FIRST)] == [ApprovalOf(FIRST)];
    hide IsPublicId, HasText, Append, StateOf, History;
  }

  /** The three calls at one moment of the race. */
  function Race(log: seq<Event>, first: Stage, second: Stage, late: Stage): System {
    System(log, [Process(FIRST, first), Process(SECOND, second), Process(LATE, late)])
  }

  const STARTS := [Start(FIRST)] + [Start(SECOND)] + [Start(LATE)]
  const FIRST_HALF := STARTS + [Continue(2)] + [Continue(0)] + [Continue(0)]
  const RACE := FIRST_HALF + [Continue(1)] + [Continue(1)] + [Continue(1)] + [Continue(1)]

  lemma RaceStarts(name: PromotionKey)
    ensures Run(name, EMPTY, STARTS) == Race([], Begun, Begun, Begun)
  {
    RunOne(name, EMPTY, Start(FIRST));
    RunMore(name, EMPTY, [Start(FIRST)], Start(SECOND));
    RunMore(name, EMPTY, [Start(FIRST)] + [Start(SECOND)], Start(LATE));
    hide Run;
    assert [] + [Process(FIRST, Begun)] == [Process(FIRST, Begun)];
  }

  lemma FirstMoves(name: PromotionKey, s: System, log: seq<Event>, stage: Stage)
    requires |s.processes| == 3 && Advance(name, s.log, s.processes[0]) == (log, Process(FIRST, stage))
    ensures Step(name, s, Continue(0)) == System(log, [Process(FIRST, stage), s.processes[1], s.processes[2]])
  {
    hide Advance;
  }

  lemma SecondMoves(name: PromotionKey, s: System, log: seq<Event>, stage: Stage)
    requires |s.processes| == 3 && Advance(name, s.log, s.processes[1]) == (log, Process(SECOND, stage))
    ensures Step(name, s, Continue(1)) == System(log, [s.processes[0], Process(SECOND, stage), s.processes[2]])
  {
    hide Advance;
  }

  lemma LateMoves(name: PromotionKey, s: System, log: seq<Event>, stage: Stage)
    requires |s.processes| == 3 && Advance(name, s.log, s.processes[2]) == (log, Process(LATE, stage))
    ensures Step(name, s, Continue(2)) == System(log, [s.processes[0], s.processes[1], Process(LATE, stage)])
  {
    hide Advance;
  }

  lemma RaceFirstSteps(name: PromotionKey)
    requires name("d", "m", {"a", "b"}, "b") == "p"
    ensures Step(name, Race([], Begun, Begun, Begun), Continue(2)) == Race([], Begun, Begun, Checked)
    ensures Step(name, Race([], Begun, Begun, Checked), Continue(0)) == Race([], Checked, Begun, Checked)
    ensures Step(name, Race([], Checked, Begun, Checked), Continue(0)) == Race([ApprovalOf(FIRST)], Recorded, Begun, Checked)
  {
    RaceReads(name);
    RaceAppends(name);
    hide Advance, ApprovalOf, Step;
    LateMoves(name, Race([], Begun, Begun, Begun), [], Checked);
    FirstMoves(name, Race([], Begun, Begun, Checked), [], Checked);
    FirstMoves(name, Race([], Checked, Begun, Checked), [ApprovalOf(FIRST)], Recorded);
  }

  lemma RaceFirstHalf(name: PromotionKey)
    requires name("d", "m", {"a", "b"}, "b") == "p"
    ensures Run(name, EMPTY, FIRST_HALF) == Race([ApprovalOf(FIRST)], Recorded, Begun, Checked)
  {
    RaceStarts(name);
    RunMore(name, EMPTY, STARTS, Continue(2));
    RunMore(name, EMPTY, STARTS + [Continue(2)], Continue(0));
    RunMore(name, EMPTY, STARTS + [Continue(2)] + [Continue(0)], Continue(0));
    RaceFirstSteps(name);
    hide Run, Step, ApprovalOf, Race;
  }

  lemma RaceSecondSteps(name: PromotionKey)
    requires name("d", "m", {"a", "b"}, "b") == "p"
    ensures var log1, log2 := [ApprovalOf(FIRST)], [ApprovalOf(FIRST), ApprovalOf(SECOND)];
      && Step(name, Race(log1, Recorded, Begun, Checked), Continue(1)) == Race(log1, Recorded, Checked, Checked)
      && Step(name, Race(log1, Recorded, Checked, Checked), Continue(1)) == Race(log2, Recorded, Recorded, Checked)
      && Step(name, Race(log2, Recorded, Recorded, Checked), Continue(1)) == Race(log2, Recorded, Counted({"a", "b"}), Checked)
      && Step(name, Race(log2, Recorded, Counted({"a", "b"}), Checked), Continue(1))
         == Race([ApprovalOf(FIRST), ApprovalOf(SECOND), RacePromotion(name)], Recorded, Promoted, Checked)
  {
    RaceReads(name);
    RaceAppends(name);
    hide Advance, ApprovalOf, RacePromotion, Step;
    var log1, log2 := [ApprovalOf(FIRST)], [ApprovalOf(FIRST), ApprovalOf(SECOND)];
    var log3 := [ApprovalOf(FIRST), ApprovalOf(SECOND), RacePromotion(name)];
    assert log1 + [ApprovalOf(SECOND)] == log2 && log2 + [RacePromotion(name)] == log3;
    SecondMoves(name, Race(log1, Recorded, Begun, Checked), log1, Checked);
    SecondMoves(name, Race(log1, Recorded, Checked, Checked), log2, Recorded);
    SecondMoves(name, Race(log2, Recorded, Recorded, Checked), log2, Counted({"a", "b"}));
    SecondMoves(name, Race(log2, Recorded, Counted({"a", "b"}), Checked), log3, Promoted);
  }

  /** The first two calls approve and promote while the third has read an empty history. */
  lemma RaceToPromotion(name: PromotionKey)
    requires name("d", "m", {"a", "b"}, "b") == "p"
    ensures Run(name, EMPTY, RACE)
         == Race([ApprovalOf(FIRST), ApprovalOf(SECOND), RacePromotion(name)], Recorded, Promoted, Checked)
  {
    RaceFirstHalf(name);
    var one := FIRST_HALF + [Continue(1)];
    RunMore(name, EMPTY, FIRST_HALF, Continue(1));
    RunMore(name, EMPTY, one, Continue(1));
    RunMore(name, EMPTY, one + [Continue(1)], Continue(1));
    RunMore(name, EMPTY, one + [Continue(1)] + [Continue(1)], Continue(1));
    RaceSecondSteps(name);
    hide Run, Step, ApprovalOf, RacePromotion, Race;
  }

  /**
   The derived status can leave approved: two calls approve and promote one
   manifest, and a third, which read the history while it was empty, then
   appends its approval of another.
   */
  lemma LateApprovalConflicts(name: PromotionKey)
    requires name("d", "m", {"a", "b"}, "b") == "p"
    ensures StateOf(History(Run(name, EMPTY, RACE).log, "dataset:d")) == Some(Ok(State(Approved, {"a", "b"}, "m")))
    ensures StateOf(History(Step(name, Run(name, EMPTY, RACE), Continue(2)).log, "dataset:d")) == Some(Err(Conflict))
  {
    RaceToPromotion(name);
    RaceAppends(name);
    RacePromoted(name);
    RaceOverturned(name);
    hide Run, StateOf, History, Advance, ApprovalOf, RacePromotion;
  }

  lemma RacePromoted(name: PromotionKey)
    ensures var log := [ApprovalOf(FIRST), ApprovalOf(SECOND), RacePromotion(name)];
      StateOf(History(log, "dataset:d")) == Some(Ok(State(Approved, {"a", "b"}, "m")))
  {
    PlainKeys();
    var log := [ApprovalOf(FIRST), ApprovalOf(SECOND), RacePromotion(name)];
    WholeHistory(log);
    StateMeans(log, "m");
    hide StateOf, History, IsPublicId, HasText;
    assert log[2] in log;
    RaceApprovers(name);
  }

  lemma RaceOverturned(name: PromotionKey)
    ensures var log := [ApprovalOf(FIRST), ApprovalOf(SECOND), RacePromotion(name)];
      StateOf(History(log + [ApprovalOf(LATE)], "dataset:d")) == Some(Err(Conflict))
  {
    var log := [ApprovalOf(FIRST), ApprovalOf(SECOND), RacePromotion(name)];
    RacePromoted(name);
    LateDiffers();
    hide *;
    OtherManifestConflicts(log, ApprovalOf(LATE), "d", State(Approved, {"a", "b"}, "m"));
  }

  lemma LateDiffers()
    ensures Target("d") == "dataset:d" == ApprovalOf(LATE).target
    ensures Counts(ApprovalOf(LATE)) && ApprovalOf(LATE).manifest != "m" && State(Approved, {"a", "b"}, "m").status == Approved
    ensures State(Approved, {"a", "b"}, "m").manifest == "m"
  {
    assert "m"[0] == 'm' && "n"[0] == 'n';
  }

  lemma OtherManifestConflicts(log: seq<Event>, e: Event, dataset: string, state: State)
    requires StateOf(History(log, Target(dataset))) == Some(Ok(state)) && state.status == Approved
    requires e.target == Target(dataset) && Counts(e) && e.manifest != state.manifest
    ensures StateOf(History(log + [e], Target(dataset))) == Some(Err(Conflict))
  {
    HistorySnoc(log, e, Target(dataset));
    assert e in History(log + [e], Target(dataset));
    hide StateOf, History;
    StatusAfterApproval(log, log + [e], dataset, state);
  }

  // ---- Posted reviews ----

  const LONE_PROMOTION := Event("dataset:d", "1", "a", ApprovedReview, "m", Promotion({}, ""))

  /** One posted review is a promotion that nobody approved; the state can then not be derived. */
  lemma LonePromotion(name: PromotionKey)
    ensures var s := Run(name, EMPTY, [Post(LONE_PROMOTION, true)]);
      && s.log == [LONE_PROMOTION] && !PromotionsEarned(s.log) && StateOf(History(s.log, "dataset:d")) == Some(Err(Conflict))
  {
    PlainKeys();
    var log := [LONE_PROMOTION];
    RunOne(name, EMPTY, Post(LONE_PROMOTION, true));
    AppendsNew([], LONE_PROMOTION);
    assert [] + log == log;
    WholeHistory(log);
    hide Run, Append, History, StateOf, IsPublicId, HasText;
    assert log[0].detail.Promotion? && IsDatasetTarget(log[0].target) && !Earned(log[..0], log[0].target, log[0].manifest);
    assert log[0] in log;
    assert Approvers(log) == {};
    DerivedState(log, "m");
  }

  /** Without any late call, one posted approval of another manifest ends the approved status of the race. */
  lemma PostedApprovalConflicts(name: PromotionKey)
    requires name("d", "m", {"a", "b"}, "b") == "p"
    ensures StateOf(History(Run(name, EMPTY, RACE).log, "dataset:d")) == Some(Ok(State(Approved, {"a", "b"}, "m")))
    ensures var move := Post(ApprovalOf(LATE), true);
      StateOf(History(Step(name, Run(name, EMPTY, RACE), move).log, "dataset:d")) == Some(Err(Conflict))
  {
    RaceToPromotion(name);
    RacePromoted(name);
    RaceOverturned(name);
    PlainKeys();
    AppendsNew([ApprovalOf(FIRST), ApprovalOf(SECOND), RacePromotion(name)], ApprovalOf(LATE));
    hide Run, StateOf, History, Append, IsPublicId, HasText;
  }
}
