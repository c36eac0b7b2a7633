/**
 Dual-human dataset approval over an append-only review log. One call reads,
 appends an approval, reads again, appends a promotion and reads a last time;
 any number of calls may interleave between these steps, and any may stop.
 */
module DatasetApproval {
  import opened Basics
  import opened ScopedKeys
  import Review = CandidateReview

  const PAGE_LIMIT := 100

  // ---- The log ----

  /**
   What the detail of an event counts as, with the text of its other members;
   `approve_dataset` itself writes none.
   */
  datatype Detail = Approval(more: string) | Promotion(approvers: set<string>, more: string) | OtherDetail(text: string)

  datatype ReviewStatus = PendingReview | ApprovedReview | RejectedReview | NeedsChangesReview

  /** One review event; `manifest` is the canonical text of its provenance. */
  datatype Event = Event(
    target: string, key: string, actor: string, status: ReviewStatus, manifest: string, detail: Detail)

  datatype Error = InvalidArgument | Conflict

  function History(log: seq<Event>, target: string): seq<Event> {
    if log == [] then []
    else
      var last := log[|log| - 1];
      History(log[..|log| - 1], target) + if last.target == target then [last] else []
  }

  function FindByKey(log: seq<Event>, key: string): (r: Option<Event>)
    ensures r.Some? ==> r.value in log && r.value.key == key
  {
    if log == [] then None else if log[0].key == key then Some(log[0]) else FindByKey(log[1..], key)
  }

  /**
   The service's general append, which `approve_dataset` calls and the review
   route offers to every reviewer: it refuses candidate targets only, and a key
   that was used before must carry the same content.
   */
  function Append(log: seq<Event>, e: Event, admitted: bool): (seq<Event>, Option<Error>) {
    if Review.IsCandidateReviewTarget(e.target) then (log, Some(Conflict))
    else if !IsPublicId(e.target) || !IsPublicId(e.key) || !HasText(e.actor) || !admitted then (log, Some(InvalidArgument))
    else
      match FindByKey(log, e.key)
      case Some(existing) => (log, if existing == e then None else Some(Conflict))
      case None => (log + [e], None)
  }

  // ---- Reading a history ----

  /** Rows of one target past a target-local sequence number, in order. */
  function ListReviews(history: seq<Event>, after: nat, limit: nat): seq<Event> {
    if after >= |history| then []
    else if after + limit <= |history| then history[after..after + limit]
    else history[after..]
  }

  /**
   Reassembles a history from pages while the log may grow between any two of
   them: `view(k)` is the history when the `k`-th page is read. What comes back
   is the history as it stood at some moment of the loop, complete.
   */
  method AllEvents(view: nat -> seq<Event>, ghost final: seq<Event>) returns (events: seq<Event>, pages: nat)
    requires forall k: nat :: view(k) <= view(k + 1)
    requires forall k: nat :: view(k) <= final
    ensures pages > 0 && events == view(pages - 1)
  {
    events, pages := [], 0;
    var afterSequence := 0;
    while true
      invariant afterSequence == |events| == pages * PAGE_LIMIT
      invariant pages > 0 ==> events <= view(pages - 1)
      decreases |final| - |events|
    {
      assert view(pages) <= final;
      assert pages > 0 ==> view(pages - 1) <= view(pages - 1 + 1);
      var batch := ListReviews(view(pages), afterSequence, PAGE_LIMIT);
      pages := pages + 1;
      if batch == [] { return; }
      events := events + batch;
      afterSequence := afterSequence + |batch|;
      if |batch| < PAGE_LIMIT { return; }
    }
  }

  // ---- The state derived from a history ----

  datatype Status = Pending | Approved

  datatype State = State(status: Status, approvers: set<string>, manifest: string)

  function Approvals(history: seq<Event>): seq<Event> {
    if history == [] then []
    else
      var last := history[|history| - 1];
      Approvals(history[..|history| - 1]) + if last.detail.Approval? then [last] else []
  }

  function Promotions(history: seq<Event>): seq<Event> {
    if history == [] then []
    else
      var last := history[|history| - 1];
      Promotions(history[..|history| - 1]) + if last.detail.Promotion? then [last] else []
  }

  /** `None` when nothing about approval is recorded. */
  function StateOf(history: seq<Event>): Option<Result<State, Error>> {
    var approvals, promotions := Approvals(history), Promotions(history);
    if approvals == [] && promotions == [] then None
    else
      var reference := if approvals != [] then approvals[0].manifest else promotions[0].manifest;
      if exists e | e in approvals + promotions :: e.manifest != reference then Some(Err(Conflict))
      else
        var approvers := set e | e in approvals :: e.actor;
        if promotions != [] && |approvers| < 2 then Some(Err(Conflict))
        else Some(Ok(State(if promotions != [] then Approved else Pending, approvers, reference)))
  }

  // ---- One call, step by step ----

  datatype Call = Call(dataset: string, actor: string, key: string, manifest: string, manifestAdmitted: bool)

  /** How a promotion's key is formed; it need not be injective. */
  type PromotionKey = (string, string, set<string>, string) -> string

  datatype Stage =
    | Begun
    | Checked
    | Recorded
    | Counted(approvers: set<string>)
    | Promoted
    | Returned(result: Result<State, Error>)

  datatype Process = Process(call: Call, stage: Stage)

  function Target(dataset: string): string {
    "dataset:" + dataset
  }

  function ApprovalOf(call: Call): Event {
    Event(Target(call.dataset), call.key, call.actor, PendingReview, call.manifest, Approval(""))
  }

  function PromotionOf(name: PromotionKey, call: Call, approvers: set<string>): Event {
    Event(Target(call.dataset), name(call.dataset, call.manifest, approvers, call.actor), call.actor, ApprovedReview,
          call.manifest, Promotion(approvers, ""))
  }

  /** The keys of one reviewer's approvals. */
  function KeysOf(history: seq<Event>, actor: string): set<string> {
    set e | e in Approvals(history) && e.actor == actor :: e.key
  }

  /** What the first read decides. */
  function FirstCheck(history: seq<Event>, call: Call): Stage {
    match StateOf(history)
    case None => Checked
    case Some(Err(error)) => Returned(Err(error))
    case Some(Ok(current)) =>
      var mine := KeysOf(history, call.actor);
      if current.manifest != call.manifest then Returned(Err(Conflict))
      else if call.key in mine then Returned(Ok(current))
      else if current.status == Approved || mine != {} then Returned(Err(Conflict))
      else Checked
  }

  /** What the second read decides. */
  function Count(history: seq<Event>): Stage {
    match StateOf(history)
    case Some(Ok(state)) =>
      if state.status == Approved || |state.approvers| < 2 then Returned(Ok(state)) else Counted(state.approvers)
    case _ => Returned(Err(Conflict))
  }

  /** What the last read decides. */
  function Confirm(history: seq<Event>): Stage {
    match StateOf(history)
    case Some(Ok(state)) => if state.status == Approved then Returned(Ok(state)) else Returned(Err(Conflict))
    case _ => Returned(Err(Conflict))
  }

  /** The next step of one call: a read, or an append. */
  function Advance(name: PromotionKey, log: seq<Event>, p: Process): (seq<Event>, Process) {
    var history := History(log, Target(p.call.dataset));
    match p.stage
    case Begun =>
      if !HasText(p.call.dataset) || !IsPublicId(Target(p.call.dataset))
      then (log, p.(stage := Returned(Err(InvalidArgument))))
      else (log, p.(stage := FirstCheck(history, p.call)))
    case Checked =>
      var (log', error) := Append(log, ApprovalOf(p.call), p.call.manifestAdmitted);
      (log', p.(stage := if error.Some? then Returned(Err(error.value)) else Recorded))
    case Recorded => (log, p.(stage := Count(history)))
    case Counted(approvers) =>
      var (log', error) := Append(log, PromotionOf(name, p.call, approvers), p.call.manifestAdmitted);
      (log', p.(stage := if error.Some? then Returned(Err(error.value)) else Promoted))
    case Promoted => (log, p.(stage := Confirm(history)))
    case Returned(_) => (log, p)
  }

  // ---- An uninterrupted call ----

  class ReviewService {
    const name: PromotionKey
    var log: seq<Event>

    constructor (name: PromotionKey)
      ensures this.name == name && log == []
    {
      this.name := name;
      log := [];
    }

    method AppendReview(e: Event, admitted: bool) returns (error: Option<Error>)
      modifies this
      ensures (log, error) == Append(old(log), e, admitted)
    {
      if Review.IsCandidateReviewTarget(e.target) { return Some(Conflict); }
      if !IsPublicId(e.target) || !IsPublicId(e.key) || !HasText(e.actor) || !admitted { return Some(InvalidArgument); }
      var existing := FindByKey(log, e.key);
      if existing.Some? { return if existing.value == e then None else Some(Conflict); }
      log := log + [e];
      return None;
    }

    method ReadState(target: string) returns (state: Option<Result<State, Error>>, ghost history: seq<Event>)
      ensures history == History(log, target) && state == StateOf(history)
    {
      var current := History(log, target);
      var events, _ := AllEvents(_ => current, current);
      return StateOf(events), current;
    }

    method ApproveDataset(call: Call) returns (result: Result<State, Error>)
      modifies this
      ensures (log, result) == Approve(name, old(log), call)
    {
      if !HasText(call.dataset) || !IsPublicId(Target(call.dataset)) { return Err(InvalidArgument); }
      PlayBegun(name, log, call);
      hide StateOf, Approvals, History, Append, PromotionOf, ApprovalOf, IsPublicId, HasText, Play, KeysOf;
      var target := Target(call.dataset);
      var current := History(log, target);
      var events, _ := AllEvents(_ => current, current);
      var state := StateOf(events);
      if state.Some? {
        if state.value.Err? { return Err(state.value.error); }
        if state.value.value.manifest != call.manifest { return Err(Conflict); }
        var mine := KeysOf(events, call.actor);
        if call.key in mine { return Ok(state.value.value); }
        if state.value.value.status == Approved { return Err(Conflict); }
        if mine != {} { return Err(Conflict); }
      }
      PlayAppend(name, log, call, Checked);
      var error := AppendReview(ApprovalOf(call), call.manifestAdmitted);
      if error.Some? { return Err(error.value); }
      PlayRead(name, log, call, Recorded);
      var second, _ := ReadState(target);
      if second.None? || second.value.Err? { return Err(Conflict); }
      var counted := second.value.value;
      if counted.status == Approved || |counted.approvers| < 2 { return Ok(counted); }
      PlayAppend(name, log, call, Counted(counted.approvers));
      error := AppendReview(PromotionOf(name, call, counted.approvers), call.manifestAdmitted);
      if error.Some? { return Err(error.value); }
      PlayRead(name, log, call, Promoted);
      var third, _ := ReadState(target);
      if third.None? || third.value.Err? || third.value.value.status != Approved { return Err(Conflict); }
      return Ok(third.value.value);
    }
  }

  function StepsLeft(stage: Stage): nat {
    match stage
    case Begun => 5
    case Checked => 4
    case Recorded => 3
    case Counted(_) => 2
    case Promoted => 1
    case Returned(_) => 0
  }

  /** A call that runs to its end with nothing in between. */
  function Play(name: PromotionKey, log: seq<Event>, p: Process): (end: (seq<Event>, Process))
    ensures p.stage.Returned? ==> end == (log, p)
    decreases StepsLeft(p.stage)
  {
    if p.stage.Returned? then (log, p)
    else
      AdvanceLeavesFewer(name, log, p);
      var (log', p') := Advance(name, log, p);
      Play(name, log', p')
  }

  /** One call with nothing in between: the log it leaves, and its answer. */
  function Approve(name: PromotionKey, log: seq<Event>, call: Call): (seq<Event>, Result<State, Error>) {
    var (log', p) := Play(name, log, Process(call, Begun));
    PlayReturns(name, log, Process(call, Begun));
    (log', p.stage.result)
  }

  lemma {:induction false} PlayReturns(name: PromotionKey, log: seq<Event>, p: Process)
    ensures Play(name, log, p).1.stage.Returned?
    decreases StepsLeft(p.stage)
  {
    hide Advance;
    if !p.stage.Returned? {
      AdvanceLeavesFewer(name, log, p);
      PlayReturns(name, Advance(name, log, p).0, Advance(name, log, p).1);
    }
  }

  lemma AdvanceLeavesFewer(name: PromotionKey, log: seq<Event>, p: Process)
    requires !p.stage.Returned?
    ensures StepsLeft(Advance(name, log, p).1.stage) < StepsLeft(p.stage)
  {
    hide StateOf, Approvals, History, Append, PromotionOf, ApprovalOf, IsPublicId, HasText;
  }

  lemma PlayBegun(name: PromotionKey, log: seq<Event>, call: Call)
    requires HasText(call.dataset) && IsPublicId(Target(call.dataset))
    ensures Play(name, log, Process(call, Begun))
         == Play(name, log, Process(call, FirstCheck(History(log, Target(call.dataset)), call)))
  {
    hide FirstCheck, History, HasText, IsPublicId;
  }

  /** The two appends, of the approval and of the promotion. */
  lemma PlayAppend(name: PromotionKey, log: seq<Event>, call: Call, stage: Stage)
    requires stage.Checked? || stage.Counted?
    ensures var e := if stage.Checked? then ApprovalOf(call) else PromotionOf(name, call, stage.approvers);
      var (log', error) := Append(log, e, call.manifestAdmitted);
      var next := if error.Some? then Returned(Err(error.value)) else if stage.Checked? then Recorded else Promoted;
      Play(name, log, Process(call, stage)) == Play(name, log', Process(call, next))
  {
    hide Append, ApprovalOf, PromotionOf;
  }

  /** The two reads that follow them. */
  lemma PlayRead(name: PromotionKey, log: seq<Event>, call: Call, stage: Stage)
    requires stage.Recorded? || stage.Promoted?
    ensures var history := History(log, Target(call.dataset));
      Play(name, log, Process(call, stage))
      == Play(name, log, Process(call, if stage.Recorded? then Count(history) else Confirm(history)))
  {
    hide Count, Confirm, History;
  }
}
