/**
 What a call of dataset approval answers, said over the log it starts from: the
 records of its dataset, the manifests they carry and the reviewers behind them.
 */
module DatasetAnswers {
  import opened Basics
  import opened ScopedKeys
  import opened DatasetApproval
  import opened DatasetSafety
  import Review = CandidateReview

  /** The reviewer has approved under this very key. */
  predicate ApprovedUnder(history: seq<Event>, actor: string, key: string) {
    exists e | e in history :: e.detail.Approval? && e.actor == actor && e.key == key
  }

  /** What the records of a dataset amount to when they agree on this manifest. */
  function Present(history: seq<Event>, manifest: string): State {
    State(if HasPromotion(history) then Approved else Pending, Approvers(history), manifest)
  }

  /** From these records no state for this manifest can be derived. */
  predicate Unusable(history: seq<Event>, manifest: string) {
    !AllCarry(history, manifest) || LacksApprovers(history)
  }

  lemma PresentState(history: seq<Event>, manifest: string)
    ensures StateOf(history).None? <==> !HasRecord(history)
    ensures HasRecord(history) && !Unusable(history, manifest) ==> StateOf(history) == Some(Ok(Present(history, manifest)))
    ensures HasRecord(history) && Unusable(history, manifest) ==>
              StateOf(history) == Some(Err(Conflict))
              || (StateOf(history).Some? && StateOf(history).value.Ok? && StateOf(history).value.value.manifest != manifest)
  {
    StateMeans(history, manifest);
    hide StateOf;
  }

  lemma OwnKeys(history: seq<Event>, actor: string)
    ensures forall key :: key in KeysOf(history, actor) <==> ApprovedUnder(history, actor, key)
    ensures KeysOf(history, actor) != {} <==> actor in Approvers(history)
  {
    forall e ensures e in Approvals(history) <==> e in history && e.detail.Approval? {
      ApprovalMembers(history, e);
    }
    hide Approvals;
    if KeysOf(history, actor) != {} {
      var key :| key in KeysOf(history, actor);
    }
    if actor in Approvers(history) {
      var e :| e in history && e.detail.Approval? && e.actor == actor;
      assert e.key in KeysOf(history, actor);
    }
  }

  // ---- Each read, in any interleaving ----

  /** The first read of a call, whatever has happened before it. */
  lemma FirstRead(name: PromotionKey, log: seq<Event>, call: Call)
    requires HasText(call.dataset) && IsPublicId(Target(call.dataset))
    ensures var history := History(log, Target(call.dataset));
      Advance(name, log, Process(call, Begun))
      == (log, Process(call,
            if !HasRecord(history) then Checked
            else if Unusable(history, call.manifest) then Returned(Err(Conflict))
            else if ApprovedUnder(history, call.actor, call.key) then Returned(Ok(Present(history, call.manifest)))
            else if HasPromotion(history) || call.actor in Approvers(history) then Returned(Err(Conflict))
            else Checked))
  {
    var history := History(log, Target(call.dataset));
    PresentState(history, call.manifest);
    OwnKeys(history, call.actor);
    hide StateOf, History, KeysOf, IsPublicId, HasText, Approvers, HasRecord, HasPromotion, Unusable, ApprovedUnder, Append;
  }

  /** The second read: a call goes on to promote exactly when two reviewers agree and nobody has promoted. */
  lemma SecondRead(name: PromotionKey, log: seq<Event>, call: Call)
    requires HasRecord(History(log, Target(call.dataset))) && AllCarry(History(log, Target(call.dataset)), call.manifest)
    ensures var history := History(log, Target(call.dataset));
      Advance(name, log, Process(call, Recorded))
      == (log, Process(call,
            if LacksApprovers(history) then Returned(Err(Conflict))
            else if HasPromotion(history) || |Approvers(history)| < 2 then Returned(Ok(Present(history, call.manifest)))
            else Counted(Approvers(history))))
  {
    var history := History(log, Target(call.dataset));
    PresentState(history, call.manifest);
    DerivedState(history, call.manifest);
    hide StateOf, History, Append, AllCarry, HasRecord;
  }

  /** The last read of a call that has promoted: approved while the records agree and two reviewers stand behind them. */
  lemma LastRead(name: PromotionKey, s: System, i: nat)
    requires Invariant(s) && i < |s.processes| && s.processes[i].stage.Promoted?
    ensures var call := s.processes[i].call;
      var history := History(s.log, Target(call.dataset));
      var s' := Step(name, s, Continue(i));
      && s'.log == s.log
      && s'.processes == s.processes[i := s'.processes[i]]
      && (AllCarry(history, call.manifest) && |Approvers(history)| >= 2 ==>
            s'.processes[i] == Process(call, Returned(Ok(State(Approved, Approvers(history), call.manifest)))))
      && ((forall m :: !AllCarry(history, m)) || |Approvers(history)| < 2 ==>
            s'.processes[i] == Process(call, Returned(Err(Conflict))))
  {
    var p := s.processes[i];
    var target := Target(p.call.dataset);
    var history := History(s.log, target);
    assert Backed(s.log, p);
    var e :| e in s.log && e.target == target && e.detail.Promotion?;
    HistoryMembers(s.log, target, e);
    assert HasRecord(history) && HasPromotion(history);
    PresentState(history, p.call.manifest);
    DerivedState(history, p.call.manifest);
    hide StateOf, History, Append, AllCarry, Backed;
  }

  // ---- A whole call with nothing in between ----

  predicate Callable(call: Call) {
    && HasText(call.dataset) && IsPublicId("dataset:" + call.dataset) && !Review.IsCandidateReviewTarget("dataset:" + call.dataset)
    && IsPublicId(call.key) && HasText(call.actor) && call.manifestAdmitted
  }

  function ApprovalEvent(call: Call): Event {
    Event("dataset:" + call.dataset, call.key, call.actor, PendingReview, call.manifest, Approval(""))
  }

  function PromotionEvent(call: Call, key: string, approvers: set<string>): Event {
    Event("dataset:" + call.dataset, key, call.actor, ApprovedReview, call.manifest, Promotion(approvers, ""))
  }

  lemma AppendsFresh(log: seq<Event>, e: Event)
    requires !Review.IsCandidateReviewTarget(e.target) && IsPublicId(e.target) && IsPublicId(e.key) && HasText(e.actor)
    requires forall x | x in log :: x.key != e.key
    ensures Append(log, e, true) == (log + [e], None)
  {
    FindByKeyMeans(log, e.key);
    hide IsPublicId, HasText, Review.IsCandidateReviewTarget;
  }

  /** A key that is in use for anything else is a conflict. */
  lemma AppendsTaken(log: seq<Event>, e: Event)
    requires !Review.IsCandidateReviewTarget(e.target) && IsPublicId(e.target) && IsPublicId(e.key) && HasText(e.actor)
    requires e !in log && exists x | x in log :: x.key == e.key
    ensures Append(log, e, true) == (log, Some(Conflict))
  {
    FindByKeyMeans(log, e.key);
    hide IsPublicId, HasText, Review.IsCandidateReviewTarget;
  }

  /** The records with one approval more. */
  lemma WithApproval(history: seq<Event>, call: Call)
    requires AllCarry(history, call.manifest)
    ensures var after := history + [ApprovalEvent(call)];
      && AllCarry(after, call.manifest) && HasRecord(after) && Approvers(after) == Approvers(history) + {call.actor}
      && (HasPromotion(after) <==> HasPromotion(history))
  {
    ApproversSnoc(history, ApprovalEvent(call));
    var after := history + [ApprovalEvent(call)];
    assert after[|history|] == ApprovalEvent(call);
    assert ApprovalEvent(call) in after;
    hide Approvers;
    if HasPromotion(history) {
      var e :| e in history && e.detail.Promotion?;
      assert e in after;
    }
  }

  lemma WithPromotion(history: seq<Event>, call: Call, key: string, approvers: set<string>)
    requires AllCarry(history, call.manifest)
    ensures var after := history + [PromotionEvent(call, key, approvers)];
      AllCarry(after, call.manifest) && HasPromotion(after) && HasRecord(after) && Approvers(after) == Approvers(history)
  {
    ApproversSnoc(history, PromotionEvent(call, key, approvers));
    assert PromotionEvent(call, key, approvers) in history + [PromotionEvent(call, key, approvers)];
    hide Approvers;
  }

  /** After its approval a call either answers, as the only reviewer, or is about to promote. */
  lemma ApprovalPlays(name: PromotionKey, log: seq<Event>, call: Call)
    requires Callable(call) && forall e | e in log :: e.key != call.key
    requires AllCarry(History(log, Target(call.dataset)), call.manifest) && !HasPromotion(History(log, Target(call.dataset)))
    ensures var both := Approvers(History(log, Target(call.dataset))) + {call.actor};
      Play(name, log, Process(call, Checked))
      == Play(name, log + [ApprovalEvent(call)],
              Process(call, if |both| < 2 then Returned(Ok(State(Pending, both, call.manifest))) else Counted(both)))
    ensures AllCarry(History(log + [ApprovalEvent(call)], Target(call.dataset)), call.manifest)
    ensures Approvers(History(log + [ApprovalEvent(call)], Target(call.dataset)))
         == Approvers(History(log, Target(call.dataset))) + {call.actor}
  {
    var target := Target(call.dataset);
    var history := History(log, target);
    ApprovalAppends(log, call);
    assert !LacksApprovers(history + [ApprovalEvent(call)]) by { WithApproval(history, call); }
    assert Present(history + [ApprovalEvent(call)], call.manifest) == State(Pending, Approvers(history) + {call.actor}, call.manifest) by {
      WithApproval(history, call);
    }
    hide *;
    PlayAppend(name, log, call, Checked);
    HistorySnoc(log, ApprovalEvent(call), target);
    WithApproval(history, call);
    SecondRead(name, log + [ApprovalEvent(call)], call);
    PlayOnce(name, log + [ApprovalEvent(call)], Process(call, Recorded));
  }

  /** From the moment a call may append: one approval, and a promotion when it is the second of two. */
  lemma CheckedPlays(name: PromotionKey, log: seq<Event>, call: Call)
    requires Callable(call) && forall e | e in log :: e.key != call.key
    requires AllCarry(History(log, Target(call.dataset)), call.manifest) && !HasPromotion(History(log, Target(call.dataset)))
    ensures var both := Approvers(History(log, Target(call.dataset))) + {call.actor};
      var key := name(call.dataset, call.manifest, both, call.actor);
      if |both| < 2 then
        Play(name, log, Process(call, Checked))
        == (log + [ApprovalEvent(call)], Process(call, Returned(Ok(State(Pending, both, call.manifest)))))
      else if IsPublicId(key) && key != call.key && (forall e | e in log :: e.key != key) then
        Play(name, log, Process(call, Checked))
        == (log + [ApprovalEvent(call), PromotionEvent(call, key, both)], Process(call, Returned(Ok(State(Approved, both, call.manifest)))))
      else
        Play(name, log, Process(call, Checked))
        == (log + [ApprovalEvent(call)], Process(call, Returned(Err(if IsPublicId(key) then Conflict else InvalidArgument))))
  {
    var both := Approvers(History(log, Target(call.dataset))) + {call.actor};
    var key := name(call.dataset, call.manifest, both, call.actor);
    var log1 := log + [ApprovalEvent(call)];
    hide *;
    ApprovalPlays(name, log, call);
    if |both| < 2 {
      ReturnedPlays(name, log1, Process(call, Returned(Ok(State(Pending, both, call.manifest)))));
    } else if IsPublicId(key) && key != call.key && (forall e | e in log :: e.key != key) {
      ApprovalKeyed(call);
      CountedPlays(name, log1, call, both, key);
      assert log1 + [PromotionEvent(call, key, both)] == log + [ApprovalEvent(call), PromotionEvent(call, key, both)];
    } else {
      NotPromoted(log, call, key, both);
      PromotionFails(name, log1, call, both, key);
    }
  }

  /** While nobody has promoted the dataset, its promotion is not in the log, under whatever key. */
  lemma NotPromoted(log: seq<Event>, call: Call, key: string, approvers: set<string>)
    requires !HasPromotion(History(log, Target(call.dataset)))
    ensures PromotionEvent(call, key, approvers) !in log + [ApprovalEvent(call)]
    ensures (exists e | e in log + [ApprovalEvent(call)] :: e.key == key) <==> key == call.key || exists e | e in log :: e.key == key
  {
    var e := PromotionEvent(call, key, approvers);
    HistoryMembers(log, Target(call.dataset), e);
    var last := ApprovalEvent(call);
    assert last in log + [last] && last.key == call.key;
    hide History;
  }

  lemma PromotionFails(name: PromotionKey, log: seq<Event>, call: Call, both: set<string>, key: string)
    requires Callable(call) && key == name(call.dataset, call.manifest, both, call.actor)
    requires PromotionEvent(call, key, both) !in log && (IsPublicId(key) ==> exists e | e in log :: e.key == key)
    ensures Play(name, log, Process(call, Counted(both)))
         == (log, Process(call, Returned(Err(if IsPublicId(key) then Conflict else InvalidArgument))))
  {
    var e := PromotionEvent(call, key, both);
    assert PromotionOf(name, call, both) == e && Target(call.dataset) == e.target;
    hide Play, History, IsPublicId, HasText, PromotionOf, Target, Review.IsCandidateReviewTarget;
    if IsPublicId(key) { AppendsTaken(log, e); }
    PlayOnce(name, log, Process(call, Counted(both)));
    var error := if IsPublicId(key) then Conflict else InvalidArgument;
    ReturnedPlays(name, log, Process(call, Returned(Err(error))));
  }

  /** An approval under a key that is in use for anything else appends nothing. */
  lemma ApprovalFails(name: PromotionKey, log: seq<Event>, call: Call)
    requires Callable(call) && exists e | e in log :: e.key == call.key
    requires !ApprovedUnder(History(log, Target(call.dataset)), call.actor, call.key)
    ensures Play(name, log, Process(call, Checked)) == (log, Process(call, Returned(Err(Conflict))))
  {
    var e := ApprovalEvent(call);
    assert ApprovalOf(call) == e && Target(call.dataset) == e.target;
    HistoryMembers(log, e.target, e);
    assert e !in log;
    hide Play, History, IsPublicId, HasText, ApprovalOf, Target, Review.IsCandidateReviewTarget;
    AppendsTaken(log, e);
    PlayOnce(name, log, Process(call, Checked));
    ReturnedPlays(name, log, Process(call, Returned(Err(Conflict))));
  }

  lemma ApprovalAppends(log: seq<Event>, call: Call)
    requires Callable(call) && forall e | e in log :: e.key != call.key
    ensures Append(log, ApprovalOf(call), call.manifestAdmitted) == (log + [ApprovalEvent(call)], None)
    ensures Target(call.dataset) == ApprovalEvent(call).target
  {
    AppendsFresh(log, ApprovalEvent(call));
    hide Append, IsPublicId, HasText, Review.IsCandidateReviewTarget;
  }

  lemma ApprovalKeyed(call: Call)
    ensures ApprovalEvent(call).key == call.key
  {
  }

  lemma CountedPlays(name: PromotionKey, log: seq<Event>, call: Call, both: set<string>, key: string)
    requires Callable(call) && key == name(call.dataset, call.manifest, both, call.actor)
    requires IsPublicId(key) && forall e | e in log :: e.key != key
    requires AllCarry(History(log, Target(call.dataset)), call.manifest)
    requires Approvers(History(log, Target(call.dataset))) == both && |both| >= 2
    ensures Play(name, log, Process(call, Counted(both)))
         == (log + [PromotionEvent(call, key, both)], Process(call, Returned(Ok(State(Approved, both, call.manifest)))))
  {
    var target, e := Target(call.dataset), PromotionEvent(call, key, both);
    assert PromotionOf(name, call, both) == e && target == e.target;
    hide Play, History, Approvers, AllCarry, HasPromotion, HasRecord, Append, IsPublicId, HasText, Advance, PromotionOf, Target;
    AppendsFresh(log, e);
    PlayAppend(name, log, call, Counted(both));
    HistorySnoc(log, e, target);
    WithPromotion(History(log, target), call, key, both);
    FinalRead(name, log + [e], call);
    PlayOnce(name, log + [e], Process(call, Promoted));
    ReturnedPlays(name, log + [e], Process(call, Returned(Ok(State(Approved, both, call.manifest)))));
  }

  lemma ReturnedPlays(name: PromotionKey, log: seq<Event>, p: Process)
    requires p.stage.Returned?
    ensures Play(name, log, p) == (log, p)
  {
  }

  lemma PlayOnce(name: PromotionKey, log: seq<Event>, p: Process)
    requires !p.stage.Returned?
    ensures Play(name, log, p) == Play(name, Advance(name, log, p).0, Advance(name, log, p).1)
  {
    hide Advance;
  }

  lemma FinalRead(name: PromotionKey, log: seq<Event>, call: Call)
    requires var history := History(log, Target(call.dataset));
      AllCarry(history, call.manifest) && HasPromotion(history) && HasRecord(history) && |Approvers(history)| >= 2
    ensures Advance(name, log, Process(call, Promoted))
         == (log, Process(call, Returned(Ok(State(Approved, Approvers(History(log, Target(call.dataset))), call.manifest)))))
  {
    var history := History(log, Target(call.dataset));
    PresentState(history, call.manifest);
    hide StateOf, History, Append, AllCarry, Approvers;
  }

  /**
   The answer of one call, by what is recorded for its dataset beforehand. A
   first approval waits; a second one, by another reviewer for the same
   manifest, promotes; an approval that is already there answers the present
   state; a promotion whose key cannot be used leaves the approval behind; and
   everything else is a conflict that appends nothing.
   */
  lemma CallAnswers(name: PromotionKey, log: seq<Event>, call: Call)
    requires Callable(call)
    ensures var history := History(log, "dataset:" + call.dataset);
      var both := Approvers(history) + {call.actor};
      var key := name(call.dataset, call.manifest, both, call.actor);
      if HasRecord(history) && Unusable(history, call.manifest) then Approve(name, log, call) == (log, Err(Conflict))
      else if ApprovedUnder(history, call.actor, call.key) then
        Approve(name, log, call) == (log, Ok(Present(history, call.manifest)))
      else if HasPromotion(history) || call.actor in Approvers(history) then Approve(name, log, call) == (log, Err(Conflict))
      else if exists e | e in log :: e.key == call.key then Approve(name, log, call) == (log, Err(Conflict))
      else if Approvers(history) == {} then
        Approve(name, log, call) == (log + [ApprovalEvent(call)], Ok(State(Pending, {call.actor}, call.manifest)))
      else if IsPublicId(key) && key != call.key && (forall e | e in log :: e.key != key) then
        Approve(name, log, call)
        == (log + [ApprovalEvent(call), PromotionEvent(call, key, both)], Ok(State(Approved, both, call.manifest)))
      else Approve(name, log, call) == (log + [ApprovalEvent(call)], Err(if IsPublicId(key) then Conflict else InvalidArgument))
  {
    var history := History(log, Target(call.dataset));
    var both := Approvers(history) + {call.actor};
    FirstRead(name, log, call);
    PlayOnce(name, log, Process(call, Begun));
    NoRecord(history, call);
    BothCount(Approvers(history), call.actor);
    if (HasRecord(history) ==> !Unusable(history, call.manifest)) && !HasPromotion(history) {
      if forall e | e in log :: e.key != call.key {
        CheckedPlays(name, log, call);
      } else if !ApprovedUnder(history, call.actor, call.key) {
        ApprovalFails(name, log, call);
      }
    }
    hide Play, History, Approvers, AllCarry, HasPromotion, HasRecord, Append, IsPublicId, HasText, Advance, ApprovedUnder;
  }

  lemma NoRecord(history: seq<Event>, call: Call)
    ensures !HasRecord(history) ==>
      && AllCarry(history, call.manifest) && !HasPromotion(history) && Approvers(history) == {}
      && !ApprovedUnder(history, call.actor, call.key) && !LacksApprovers(history)
    ensures HasRecord(history) && !HasPromotion(history) ==> Approvers(history) != {}
  {
    if HasRecord(history) && !HasPromotion(history) {
      var e :| e in history && Counts(e);
      assert e.actor in Approvers(history);
    }
  }

  lemma BothCount(approvers: set<string>, actor: string)
    ensures |approvers + {actor}| < 2 <==> approvers <= {actor}
    ensures actor !in approvers && approvers <= {actor} ==> approvers == {}
  {
    if approvers <= {actor} {
      assert approvers + {actor} == {actor};
    } else {
      var other :| other in approvers && other != actor;
      assert {other, actor} <= approvers + {actor};
      assert |approvers + {actor}| == |{other, actor}| + |approvers + {actor} - {other, actor}|;
    }
  }
}
