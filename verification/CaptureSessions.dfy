/** Capture sessions and the arithmetic of their active time. */
module CaptureSessions {
  import opened Basics

  /** `TimeSpan` counts ticks of 100 nanoseconds. */
  const TICKS_PER_SECOND := 10_000_000

  datatype EventKind = Started | Paused | Resumed | Ended | OtherKind

  datatype CadEvent = CadEvent(kind: EventKind, at: int)

  datatype Session = Session(
    id: string, startedAt: int, endedAt: Option<int>, activeSeconds: int, events: seq<CadEvent>)

  function Start(id: string, at: int): Session {
    Session(id, at, None, 0, [CadEvent(Started, at)])
  }

  function Pause(s: Session, at: int): Session {
    s.(events := s.events + [CadEvent(Paused, at)])
  }

  function Resume(s: Session, at: int): Session {
    s.(events := s.events + [CadEvent(Resumed, at)])
  }

  function Finish(s: Session, at: int): Session {
    var events := s.events + [CadEvent(Ended, at)];
    s.(endedAt := Some(at), activeSeconds := WholeSeconds(ActiveTicks(events)), events := events)
  }

  // ---- The loop ----

  predicate Activates(e: CadEvent) {
    e.kind == Started || e.kind == Resumed
  }

  predicate Deactivates(e: CadEvent) {
    e.kind == Paused || e.kind == Ended
  }

  /** Since when the session is active after these events, if it is. */
  function ActiveSince(events: seq<CadEvent>): Option<int> {
    if events == [] then None
    else
      var last := events[|events| - 1];
      if Activates(last) then Some(last.at)
      else if Deactivates(last) then None
      else ActiveSince(events[..|events| - 1])
  }

  /** What the loop adds up: each deactivation closes the interval that is open, if one is. */
  function ActiveTicks(events: seq<CadEvent>): int {
    if events == [] then 0
    else
      var front, last := events[..|events| - 1], events[|events| - 1];
      ActiveTicks(front)
      + if Deactivates(last) && !Activates(last) && ActiveSince(front).Some? then last.at - ActiveSince(front).value else 0
  }

  /** `Math.Max(0, (int)duration.TotalSeconds)`, the cast truncating. */
  function WholeSeconds(ticks: int): int {
    if ticks < 0 then 0 else ticks / TICKS_PER_SECOND
  }

  method CalculateActiveDurationSeconds(events: seq<CadEvent>) returns (seconds: int)
    ensures seconds == WholeSeconds(ActiveTicks(events))
  {
    var activeSince: Option<int> := None;
    var activeDuration := 0;
    for i := 0 to |events|
      invariant activeSince == ActiveSince(events[..i]) && activeDuration == ActiveTicks(events[..i])
    {
      var e := events[i];
      assert events[..i + 1][..i] == events[..i];
      if e.kind == Started || e.kind == Resumed {
        activeSince := Some(e.at);
      } else if (e.kind == Paused || e.kind == Ended) && activeSince.Some? {
        activeDuration := activeDuration + (e.at - activeSince.value);
        activeSince := None;
      }
    }
    assert events[..|events|] == events;
    return if activeDuration < 0 then 0 else activeDuration / TICKS_PER_SECOND;
  }

  // ---- Well-formed histories ----

  predicate MayFollow(before: EventKind, after: EventKind) {
    match before
    case Started => after == Paused || after == Ended
    case Resumed => after == Paused || after == Ended
    case Paused => after == Resumed || after == Ended
    case _ => false
  }

  /** started, (paused, resumed)*, [paused], [ended] */
  predicate Alternates(events: seq<CadEvent>) {
    && events != [] && events[0].kind == Started
    && forall i | 0 <= i < |events| - 1 :: MayFollow(events[i].kind, events[i + 1].kind)
  }

  predicate Nondecreasing(events: seq<CadEvent>) {
    forall i | 0 <= i < |events| - 1 :: events[i].at <= events[i + 1].at
  }

  /** The time between each event and the next, for the events that open an interval of one sort. */
  function Intervals(events: seq<CadEvent>, active: bool): int {
    if |events| < 2 then 0
    else
      var k := |events| - 2;
      Intervals(events[..k + 1], active) + if Activates(events[k]) == active then events[k + 1].at - events[k].at else 0
  }

  lemma FrontAlternates(events: seq<CadEvent>)
    requires Alternates(events) && |events| > 1
    ensures Alternates(events[..|events| - 1])
    ensures var before := events[|events| - 2]; !Deactivates(before) <==> Activates(before)
  {
    var front := events[..|events| - 1];
    forall i | 0 <= i < |front| - 1 ensures MayFollow(front[i].kind, front[i + 1].kind) {
      assert MayFollow(events[i].kind, events[i + 1].kind);
    }
    assert MayFollow(events[|events| - 2].kind, events[|events| - 1].kind);
  }

  /** On a well-formed history the loop's total is the sum of its disjoint active intervals. */
  lemma {:induction false} LoopSumsActiveIntervals(events: seq<CadEvent>)
    requires Alternates(events)
    ensures ActiveTicks(events) == Intervals(events, true)
  {
    if |events| == 1 {
      assert ActiveTicks(events[..0]) == 0;
    } else {
      var front := events[..|events| - 1];
      FrontAlternates(events);
      LoopSumsActiveIntervals(front);
      assert MayFollow(events[|events| - 2].kind, events[|events| - 1].kind);
      assert front[|front| - 1] == events[|events| - 2];
    }
  }

  /** Active and paused time together are the whole session, whatever the clock did. */
  lemma {:induction false} IntervalsConserve(events: seq<CadEvent>)
    requires events != []
    ensures Intervals(events, true) + Intervals(events, false) == events[|events| - 1].at - events[0].at
  {
    if |events| > 1 {
      IntervalsConserve(events[..|events| - 1]);
    }
  }

  lemma {:induction false} IntervalsNonNegative(events: seq<CadEvent>, active: bool)
    requires Nondecreasing(events)
    ensures Intervals(events, active) >= 0
  {
    if |events| > 1 {
      var front := events[..|events| - 1];
      forall i | 0 <= i < |front| - 1 ensures front[i].at <= front[i + 1].at {
        assert events[i].at <= events[i + 1].at;
      }
      IntervalsNonNegative(front, active);
    }
  }

  /**
   A finished session with a well-formed history: active plus paused time is the
   time from start to end, and while the clock does not go back the stored whole
   seconds lie between zero and the session's length.
   */
  lemma ActiveTimeConserved(s: Session, at: int)
    requires Alternates(Finish(s, at).events)
    ensures var f := Finish(s, at);
      && ActiveTicks(f.events) + Intervals(f.events, false) == at - f.events[0].at
      && (Nondecreasing(f.events) ==>
            && 0 <= f.activeSeconds && f.activeSeconds * TICKS_PER_SECOND <= at - f.events[0].at
            && f.activeSeconds == Intervals(f.events, true) / TICKS_PER_SECOND)
  {
    var events := Finish(s, at).events;
    LoopSumsActiveIntervals(events);
    IntervalsConserve(events);
    if Nondecreasing(events) {
      IntervalsNonNegative(events, true);
      IntervalsNonNegative(events, false);
    }
  }

  /** The time that follows the events of certain kinds, each up to the next event. */
  function TimeAfter(events: seq<CadEvent>, kinds: set<EventKind>): int {
    if |events| < 2 then 0
    else
      (if events[0].kind in kinds then events[1].at - events[0].at else 0) + TimeAfter(events[1..], kinds)
  }

  lemma {:induction false} TimeAfterSnoc(events: seq<CadEvent>, e: CadEvent, kinds: set<EventKind>)
    requires events != []
    ensures TimeAfter(events + [e], kinds)
         == TimeAfter(events, kinds)
            + if events[|events| - 1].kind in kinds then e.at - events[|events| - 1].at else 0
  {
    var all := events + [e];
    assert all[1..] == events[1..] + [e];
    if |events| > 1 {
      TimeAfterSnoc(events[1..], e, kinds);
    } else {
      assert TimeAfter(all[1..], kinds) == 0;
    }
  }

  /**
   What is counted is the time after each start and each resumption, and what is
   not counted is the time after each pause; the whole seconds are rounded down.
   */
  lemma {:induction false} CountsRunningTime(events: seq<CadEvent>)
    requires Alternates(events)
    ensures ActiveTicks(events) == TimeAfter(events, {Started, Resumed})
    ensures Intervals(events, false) == TimeAfter(events, {Paused, Ended, OtherKind})
    ensures var seconds := WholeSeconds(ActiveTicks(events));
      if ActiveTicks(events) < 0 then seconds == 0
      else 10_000_000 * seconds <= ActiveTicks(events) < 10_000_000 * (seconds + 1)
  {
    LoopSumsActiveIntervals(events);
    IntervalsAreTimes(events);
  }

  lemma {:induction false} IntervalsAreTimes(events: seq<CadEvent>)
    ensures Intervals(events, true) == TimeAfter(events, {Started, Resumed})
    ensures Intervals(events, false) == TimeAfter(events, {Paused, Ended, OtherKind})
  {
    if |events| > 1 {
      var front, last := events[..|events| - 1], events[|events| - 1];
      IntervalsAreTimes(front);
      assert events == front + [last] && front[|front| - 1] == events[|events| - 2];
      TimeAfterSnoc(front, last, {Started, Resumed});
      TimeAfterSnoc(front, last, {Paused, Ended, OtherKind});
    }
  }
}
