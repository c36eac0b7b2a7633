/**
 Deriving the one qualifying run of CAD commands from a processing result: the
 run-splitting loop of the publication store refines a simple rule.
 */
module RunDerivation {
  import opened Basics
  import opened Segments
  import opened SegmentRules

  datatype Occurrence = Occurrence(eventId: string, command: string, sequence: int)

  /** The run's occurrences, its drawing and its length. */
  datatype Run = Run(occurrences: seq<Occurrence>, drawing: string, length: nat)

  datatype Error = Invalid | NoCandidate

  const MAX_RUN := 64

  // ---- The simple rule ----

  predicate Unambiguous(s: Segment) {
    |s.commands| == 1 && |s.events| == 1
  }

  /** The segment of each event, when every segment has one command and one event of its own. */
  function ByEvent(segments: seq<Segment>): Option<map<string, Segment>> {
    if segments == [] then Some(map[])
    else
      var front, last := ByEvent(segments[..|segments| - 1]), segments[|segments| - 1];
      if front.None? || !Unambiguous(last) || last.events[0] in front.value then None
      else Some(front.value[last.events[0] := last])
  }

  /** The first timeline item that is no CAD command, or has no segment. */
  function TimelineError(t: seq<TimelineItem>, byEvent: map<string, Segment>): Option<Error> {
    if t == [] then None
    else
      var front, last := t[..|t| - 1], t[|t| - 1];
      var earlier := TimelineError(front, byEvent);
      if earlier.Some? then earlier
      else if !last.isCadCommand then Some(NoCandidate)
      else if last.eventId !in byEvent then Some(Invalid)
      else None
  }

  function SegmentsOf(t: seq<TimelineItem>, byEvent: map<string, Segment>): seq<Segment>
    requires TimelineError(t, byEvent).None?
  {
    if t == [] then [] else SegmentsOf(t[..|t| - 1], byEvent) + [byEvent[t[|t| - 1].eventId]]
  }

  function OccurrenceOf(eventId: string, s: Segment): Occurrence {
    Occurrence(eventId, if s.commands == [] then "" else s.commands[0], s.sequence)
  }

  function Occurrences(t: seq<TimelineItem>, byEvent: map<string, Segment>): seq<Occurrence>
    requires TimelineError(t, byEvent).None?
  {
    if t == [] then []
    else Occurrences(t[..|t| - 1], byEvent) + [OccurrenceOf(t[|t| - 1].eventId, byEvent[t[|t| - 1].eventId])]
  }

  function Drawings(segments: seq<Segment>): set<string> {
    set s | s in segments :: s.drawing
  }

  /** All of the timeline, or nothing. */
  function Derive(d: Document): Result<Run, Error> {
    match ByEvent(d.segments)
    case None => Err(Invalid)
    case Some(byEvent) =>
      var wrong := TimelineError(d.timeline, byEvent);
      if wrong.Some? then Err(wrong.value)
      else
        var segments := SegmentsOf(d.timeline, byEvent);
        if |Drawings(segments)| != 1 || !(2 <= |d.timeline| <= MAX_RUN) || |segments| != |d.timeline| then Err(NoCandidate)
        else Ok(Run(Occurrences(d.timeline, byEvent), segments[0].drawing, |d.timeline|))
  }

  lemma {:induction false} SegmentsOfLength(t: seq<TimelineItem>, byEvent: map<string, Segment>)
    requires TimelineError(t, byEvent).None?
    ensures |SegmentsOf(t, byEvent)| == |t| == |Occurrences(t, byEvent)|
  {
    if t != [] { SegmentsOfLength(t[..|t| - 1], byEvent); }
  }

  // ---- The loop ----

  datatype Unit = Unit(item: TimelineItem, segment: Segment)

  function OccurrencesOf(units: seq<Unit>): seq<Occurrence> {
    if units == [] then []
    else
      var last := units[|units| - 1];
      OccurrencesOf(units[..|units| - 1]) + [OccurrenceOf(last.item.eventId, last.segment)]
  }

  /** The units of a timeline that has an unambiguous segment for every CAD command. */
  function UnitsOf(t: seq<TimelineItem>, byEvent: map<string, Segment>): seq<Unit>
    requires TimelineError(t, byEvent).None?
  {
    if t == [] then [] else UnitsOf(t[..|t| - 1], byEvent) + [Unit(t[|t| - 1], byEvent[t[|t| - 1].eventId])]
  }

  lemma {:induction false} UnitsMean(t: seq<TimelineItem>, byEvent: map<string, Segment>)
    requires TimelineError(t, byEvent).None?
    ensures var units := UnitsOf(t, byEvent);
      && |units| == |t| == |SegmentsOf(t, byEvent)|
      && OccurrencesOf(units) == Occurrences(t, byEvent)
      && forall k | 0 <= k < |t| :: units[k].item == t[k] && units[k].segment == SegmentsOf(t, byEvent)[k]
  {
    if t != [] {
      UnitsMean(t[..|t| - 1], byEvent);
      var units := UnitsOf(t, byEvent);
      assert units[..|units| - 1] == UnitsOf(t[..|t| - 1], byEvent);
    }
  }

  lemma ByEventStep(segments: seq<Segment>, i: nat)
    requires i < |segments|
    ensures ByEvent(segments[..i + 1])
         == if ByEvent(segments[..i]).None? || !Unambiguous(segments[i]) || segments[i].events[0] in ByEvent(segments[..i]).value
            then None else Some(ByEvent(segments[..i]).value[segments[i].events[0] := segments[i]])
    ensures ByEvent(segments).Some? ==> ByEvent(segments[..i + 1]).Some?
  {
    assert segments[..i + 1][..i] == segments[..i];
    if ByEvent(segments).Some? { ByEventPrefix(segments, i + 1); }
  }

  lemma {:induction false} ByEventPrefix(segments: seq<Segment>, i: nat)
    requires i <= |segments| && ByEvent(segments).Some?
    ensures ByEvent(segments[..i]).Some?
  {
    if i == |segments| {
      assert segments[..i] == segments;
    } else {
      ByEventPrefix(segments[..|segments| - 1], i);
      assert segments[..|segments| - 1][..i] == segments[..i];
    }
  }

  lemma {:induction false} FirstErrorStands(t: seq<TimelineItem>, byEvent: map<string, Segment>, i: nat)
    requires i <= |t| && TimelineError(t[..i], byEvent).Some?
    ensures TimelineError(t, byEvent) == TimelineError(t[..i], byEvent)
  {
    if i == |t| {
      assert t[..i] == t;
    } else {
      assert t[..|t| - 1][..i] == t[..i];
      FirstErrorStands(t[..|t| - 1], byEvent, i);
    }
  }

  lemma UnitsStep(t: seq<TimelineItem>, byEvent: map<string, Segment>, i: nat)
    requires i < |t| && TimelineError(t[..i], byEvent).None?
    ensures var item := t[i];
      if !item.isCadCommand then TimelineError(t, byEvent) == Some(NoCandidate)
      else if item.eventId !in byEvent then TimelineError(t, byEvent) == Some(Invalid)
      else TimelineError(t[..i + 1], byEvent).None?
           && UnitsOf(t[..i + 1], byEvent) == UnitsOf(t[..i], byEvent) + [Unit(item, byEvent[item.eventId])]
  {
    assert t[..i + 1][..i] == t[..i];
    if TimelineError(t[..i + 1], byEvent).Some? {
      FirstErrorStands(t, byEvent, i + 1);
    }
  }

  function DrawingsOf(units: seq<Unit>): set<string> {
    set u | u in units :: u.segment.drawing
  }

  /** The simple rule, said about the units that the loop has collected. */
  lemma DeriveByUnits(d: Document, byEvent: map<string, Segment>)
    requires ByEvent(d.segments) == Some(byEvent) && TimelineError(d.timeline, byEvent).None?
    ensures var units := UnitsOf(d.timeline, byEvent);
      Derive(d) == if |DrawingsOf(units)| == 1 && 2 <= |units| <= MAX_RUN
                   then Ok(Run(OccurrencesOf(units), units[0].segment.drawing, |units|)) else Err(NoCandidate)
  {
    UnitsMean(d.timeline, byEvent);
    DrawingsOfUnits(UnitsOf(d.timeline, byEvent), SegmentsOf(d.timeline, byEvent));
    hide ByEvent, TimelineError, SegmentsOf, UnitsOf, Occurrences, OccurrencesOf, DrawingsOf, Drawings;
  }

  lemma DrawingsOfUnits(units: seq<Unit>, segments: seq<Segment>)
    requires |units| == |segments| && forall k | 0 <= k < |units| :: units[k].segment == segments[k]
    ensures DrawingsOf(units) == Drawings(segments)
  {
    forall u | u in units ensures u.segment in segments {
      var k :| 0 <= k < |units| && units[k] == u;
    }
    forall s | s in segments ensures exists u :: u in units && u.segment == s {
      var k :| 0 <= k < |segments| && segments[k] == s;
      assert units[k] in units;
    }
  }

  lemma OneDrawing(units: seq<Unit>)
    requires |DrawingsOf(units)| == 1
    ensures forall u, v | u in units && v in units :: u.segment.drawing == v.segment.drawing
  {
    var one :| one in DrawingsOf(units);
    assert |DrawingsOf(units) - {one}| == 0;
    forall u | u in units ensures u.segment.drawing == one {
      assert u.segment.drawing in DrawingsOf(units);
      assert u.segment.drawing !in DrawingsOf(units) - {one};
    }
  }

  lemma NothingCollected()
    ensures ByEvent([]) == Some(map[]) && forall byEvent :: TimelineError([], byEvent).None? && UnitsOf([], byEvent) == []
  {
  }

  /** A segment that fails its check makes the whole lookup fail. */
  lemma LookupFails(d: Document, i: nat)
    requires i < |d.segments| && ByEvent(d.segments[..i]).Some?
    requires !Unambiguous(d.segments[i]) || d.segments[i].events[0] in ByEvent(d.segments[..i]).value
    ensures Derive(d) == Err(Invalid)
  {
    ByEventStep(d.segments, i);
  }

  /**
   The derivation as the store performs it: a lookup by event, one unit per
   timeline item, and a scan that starts a new run whenever the drawing changes.
   Every unit is a CAD command by then, so the scan's other branch is not kept.
   */
  method DeriveOccurrences(d: Document) returns (r: Result<Run, Error>)
    ensures r == Derive(d)
  {
    var byEvent: map<string, Segment> := map[];
    WholeSequences(d.segments);
    WholeSequences(d.timeline);
    NothingCollected();
    hide ByEvent, TimelineError, UnitsOf, Derive, OccurrencesOf, DrawingsOf;
    for i := 0 to |d.segments|
      invariant ByEvent(d.segments[..i]) == Some(byEvent)
    {
      var segment := d.segments[i];
      if |segment.commands| != 1 || |segment.events| != 1 || segment.events[0] in byEvent {
        LookupFails(d, i);
        return Err(Invalid);
      }
      ByEventStep(d.segments, i);
      byEvent := byEvent[segment.events[0] := segment];
    }
    var units: seq<Unit> := [];
    for i := 0 to |d.timeline|
      invariant TimelineError(d.timeline[..i], byEvent).None? && units == UnitsOf(d.timeline[..i], byEvent)
    {
      var item := d.timeline[i];
      UnitsStep(d.timeline, byEvent, i);
      if !item.isCadCommand {
        DeriveTimelineError(d, byEvent);
        return Err(NoCandidate);
      }
      if item.eventId !in byEvent {
        DeriveTimelineError(d, byEvent);
        return Err(Invalid);
      }
      units := units + [Unit(item, byEvent[item.eventId])];
    }
    DeriveByUnits(d, byEvent);
    if |DrawingsOf(units)| != 1 { return Err(NoCandidate); }
    OneDrawing(units);
    var runs: seq<seq<Unit>> := [];
    var current: seq<Unit> := [];
    for i := 0 to |units|
      invariant runs == [] && current == units[..i]
    {
      var unit := units[i];
      assert unit in units && (i > 0 ==> units[i - 1] in units);
      if current != [] && unit.segment.drawing != current[|current| - 1].segment.drawing {
        if |current| >= 2 { runs := runs + [current]; }
        current := [];
      }
      current := current + [unit];
    }
    assert current == units;
    if |current| >= 2 { runs := runs + [current]; }
    if |runs| != 1 || !(2 <= |runs[0]| <= MAX_RUN) { return Err(NoCandidate); }
    var run := runs[0];
    if exists u | u in run :: u.segment.drawing != run[0].segment.drawing { return Err(NoCandidate); }
    return Ok(Run(OccurrencesOf(run), run[0].segment.drawing, |run|));
  }

  lemma DeriveTimelineError(d: Document, byEvent: map<string, Segment>)
    requires ByEvent(d.segments) == Some(byEvent) && TimelineError(d.timeline, byEvent).Some?
    ensures Derive(d) == Err(TimelineError(d.timeline, byEvent).value)
  {
    hide ByEvent, TimelineError;
  }

  // ---- Exactness on validated results ----

  lemma {:induction false} ByEventMeans(segments: seq<Segment>)
    ensures ByEvent(segments).Some? ==> forall i | 0 <= i < |segments| ::
      Unambiguous(segments[i]) && segments[i].events[0] in ByEvent(segments).value
      && ByEvent(segments).value[segments[i].events[0]] == segments[i]
    ensures ByEvent(segments).Some? ==> forall id | id in ByEvent(segments).value ::
      exists i | 0 <= i < |segments| :: segments[i].events == [id] && segments[i] == ByEvent(segments).value[id]
  {
    if segments != [] && ByEvent(segments).Some? {
      var front, last := segments[..|segments| - 1], segments[|segments| - 1];
      ByEventMeans(front);
      forall id | id in ByEvent(segments).value
        ensures exists i | 0 <= i < |segments| :: segments[i].events == [id] && segments[i] == ByEvent(segments).value[id] {
        if id == last.events[0] {
          assert segments[|front|] == last;
        } else {
          var i :| 0 <= i < |front| && front[i].events == [id] && front[i] == ByEvent(front).value[id];
          assert segments[i] == front[i];
        }
      }
    }
  }

  /** In a document whose evidence is used once, the lookup fails only for an ambiguous segment. */
  lemma {:induction false} ByEventExists(segments: seq<Segment>)
    requires Distinct(Assigned(segments))
    ensures ByEvent(segments).Some? <==> forall i | 0 <= i < |segments| :: Unambiguous(segments[i])
  {
    if segments != [] {
      var front, last := segments[..|segments| - 1], segments[|segments| - 1];
      DistinctAppend(Assigned(front), last.events);
      ByEventExists(front);
      ByEventMeans(front);
      if Unambiguous(last) {
        assert last.events[0] in last.events;
        forall i | 0 <= i < |front| ensures front[i].events != [last.events[0]] {
          AssignedFrom(front, i);
          assert last.events[0] !in front[i].events;
        }
      }
      assert forall i | 0 <= i < |front| :: segments[i] == front[i];
    }
  }

  lemma {:induction false} TimelineErrorMeans(t: seq<TimelineItem>, byEvent: map<string, Segment>)
    ensures TimelineError(t, byEvent).None? <==> forall k | 0 <= k < |t| :: t[k].isCadCommand && t[k].eventId in byEvent
    ensures TimelineError(t, byEvent).None? ==>
      && |SegmentsOf(t, byEvent)| == |t| == |Occurrences(t, byEvent)|
      && forall k | 0 <= k < |t| ::
           && SegmentsOf(t, byEvent)[k] == byEvent[t[k].eventId]
           && Occurrences(t, byEvent)[k] == OccurrenceOf(t[k].eventId, byEvent[t[k].eventId])
  {
    if t != [] {
      TimelineErrorMeans(t[..|t| - 1], byEvent);
    }
  }

  /** The event belongs to exactly the one segment. */
  predicate HasSegment(segments: seq<Segment>, id: string) {
    exists i | 0 <= i < |segments| :: segments[i].events == [id]
  }

  /** One command and one event per segment; only CAD commands, each with its segment; one drawing; two to sixty-four items. */
  predicate Qualifies(d: Document) {
    && (forall i | 0 <= i < |d.segments| :: |d.segments[i].commands| == 1 && |d.segments[i].events| == 1)
    && (forall k | 0 <= k < |d.timeline| :: d.timeline[k].isCadCommand && HasSegment(d.segments, d.timeline[k].eventId))
    && (forall i, j | 0 <= i < |d.segments| && 0 <= j < |d.segments| :: d.segments[i].drawing == d.segments[j].drawing)
    && 2 <= |d.timeline| <= 64
  }

  lemma LookupFinds(d: Document, byEvent: map<string, Segment>, id: string)
    requires ByEvent(d.segments) == Some(byEvent)
    ensures id in byEvent <==> HasSegment(d.segments, id)
  {
    ByEventMeans(d.segments);
    hide ByEvent;
  }

  /** Every segment of an accepted, unambiguous document is the segment of some timeline item. */
  lemma SegmentIsUnit(d: Document, byEvent: map<string, Segment>, i: nat) returns (k: nat)
    requires Acceptable(d) && ByEvent(d.segments) == Some(byEvent) && i < |d.segments|
    ensures k < |d.timeline| && d.segments[i].events == [d.timeline[k].eventId]
    ensures d.timeline[k].eventId in byEvent && byEvent[d.timeline[k].eventId] == d.segments[i]
  {
    ByEventMeans(d.segments);
    var id := d.segments[i].events[0];
    assert Evident(d.timeline, d.segments[i], id);
    k :| 0 <= k < |d.timeline| && d.timeline[k].eventId == id && InBounds(d.segments[i], d.timeline[k].offset);
    hide ByEvent;
  }

  lemma SameDrawings(d: Document, byEvent: map<string, Segment>)
    requires Acceptable(d) && ByEvent(d.segments) == Some(byEvent) && TimelineError(d.timeline, byEvent).None?
    requires d.timeline != []
    ensures |Drawings(SegmentsOf(d.timeline, byEvent))| == 1
       <==> forall i, j | 0 <= i < |d.segments| && 0 <= j < |d.segments| :: d.segments[i].drawing == d.segments[j].drawing
  {
    TimelineErrorMeans(d.timeline, byEvent);
    ByEventMeans(d.segments);
    var units := SegmentsOf(d.timeline, byEvent);
    assert units != [];
    forall i | 0 <= i < |d.segments| ensures d.segments[i] in units {
      var k := SegmentIsUnit(d, byEvent, i);
      assert units[k] == d.segments[i];
    }
    forall s | s in units ensures s in d.segments {
      var k :| 0 <= k < |units| && units[k] == s;
    }
    hide *;
    SameMembersSameDrawing(d.segments, units);
  }

  lemma SameMembersSameDrawing(segments: seq<Segment>, units: seq<Segment>)
    requires units != [] && forall s :: s in units <==> s in segments
    ensures |Drawings(units)| == 1
       <==> forall i, j | 0 <= i < |segments| && 0 <= j < |segments| :: segments[i].drawing == segments[j].drawing
  {
    var all := Drawings(units);
    assert units[0].drawing in all && units[0] in segments;
    if |all| == 1 {
      forall i | 0 <= i < |segments| ensures segments[i].drawing == units[0].drawing {
        assert segments[i] in segments && segments[i].drawing in all;
        SingletonMember(all, segments[i].drawing, units[0].drawing);
      }
    }
    if forall i, j | 0 <= i < |segments| && 0 <= j < |segments| :: segments[i].drawing == segments[j].drawing {
      assert all == {units[0].drawing};
    }
  }

  lemma SingletonMember(xs: set<string>, a: string, b: string)
    requires |xs| == 1 && a in xs && b in xs
    ensures a == b
  {
    var one :| one in xs;
    assert |xs - {one}| == 0;
    assert a !in xs - {one} && b !in xs - {one};
  }

  /** On a validated result the derivation succeeds exactly for a qualifying one. */
  lemma DeriveExactly(d: Document)
    requires Acceptable(d)
    ensures Derive(d).Ok? <==> Qualifies(d)
  {
    ByEventExists(d.segments);
    if ByEvent(d.segments).Some? {
      var byEvent := ByEvent(d.segments).value;
      TimelineErrorMeans(d.timeline, byEvent);
      forall k | 0 <= k < |d.timeline|
        ensures d.timeline[k].eventId in byEvent <==> HasSegment(d.segments, d.timeline[k].eventId) {
        LookupFinds(d, byEvent, d.timeline[k].eventId);
      }
      if TimelineError(d.timeline, byEvent).None? && d.timeline != [] {
        SameDrawings(d, byEvent);
      }
    }
    hide ByEvent, TimelineError, SegmentsOf, Acceptable, Occurrences, HasSegment, Drawings, Unambiguous;
  }

  /** What a successful derivation returns: the whole timeline in order, each item with its own segment's command and number. */
  lemma DerivesWholeTimeline(d: Document)
    requires Derive(d).Ok?
    ensures var run := Derive(d).value;
      && |run.occurrences| == run.length == |d.timeline|
      && forall k | 0 <= k < |d.timeline| ::
           exists i | 0 <= i < |d.segments| ::
             && d.segments[i].events == [d.timeline[k].eventId] && |d.segments[i].commands| == 1
             && run.occurrences[k] == Occurrence(d.timeline[k].eventId, d.segments[i].commands[0], d.segments[i].sequence)
             && run.drawing == d.segments[i].drawing
  {
    var byEvent := ByEvent(d.segments).value;
    TimelineErrorMeans(d.timeline, byEvent);
    ByEventMeans(d.segments);
    var units := SegmentsOf(d.timeline, byEvent);
    var run := Derive(d).value;
    hide ByEvent, TimelineError, SegmentsOf, Occurrences;
    forall k | 0 <= k < |d.timeline|
      ensures exists i | 0 <= i < |d.segments| ::
                && d.segments[i].events == [d.timeline[k].eventId] && |d.segments[i].commands| == 1
                && run.occurrences[k] == Occurrence(d.timeline[k].eventId, d.segments[i].commands[0], d.segments[i].sequence)
                && run.drawing == d.segments[i].drawing {
      assert units[k] in units && units[0] in units;
      SingletonMember(Drawings(units), units[k].drawing, units[0].drawing);
    }
  }

  /** The numbers of the occurrences are a permutation of one to their count: each appears exactly once. */
  lemma NumbersPermuted(d: Document)
    requires Acceptable(d) && Derive(d).Ok?
    ensures var occurrences := Derive(d).value.occurrences;
      && |occurrences| == |d.segments|
      && (forall k | 0 <= k < |occurrences| :: 1 <= occurrences[k].sequence <= |occurrences|)
      && (forall k, m | 0 <= k < m < |occurrences| :: occurrences[k].sequence != occurrences[m].sequence)
  {
    DerivesWholeTimeline(d);
    var occurrences := Derive(d).value.occurrences;
    var byEvent := ByEvent(d.segments).value;
    hide Derive, ByEvent, OccurrenceOf;
    forall k | 0 <= k < |occurrences|
      ensures 1 <= occurrences[k].sequence <= |d.segments|
      ensures d.segments[occurrences[k].sequence - 1].events == [d.timeline[k].eventId] {
      NumberOf(d, occurrences[k], k);
    }
    forall k, m | 0 <= k < m < |occurrences| ensures occurrences[k].sequence != occurrences[m].sequence {
      assert d.timeline[k].eventId != d.timeline[m].eventId;
    }
    CountsMatch(d, byEvent, occurrences);
  }

  lemma NumberOf(d: Document, o: Occurrence, k: nat)
    requires Acceptable(d) && k < |d.timeline|
    requires exists i | 0 <= i < |d.segments| ::
      d.segments[i].events == [d.timeline[k].eventId] && o == OccurrenceOf(d.timeline[k].eventId, d.segments[i])
    ensures 1 <= o.sequence <= |d.segments| && d.segments[o.sequence - 1].events == [d.timeline[k].eventId]
  {
    var i :| 0 <= i < |d.segments| && d.segments[i].events == [d.timeline[k].eventId]
             && o == OccurrenceOf(d.timeline[k].eventId, d.segments[i]);
    assert d.segments[i].sequence == i + 1;
  }

  lemma CountsMatch(d: Document, byEvent: map<string, Segment>, occurrences: seq<Occurrence>)
    requires Acceptable(d) && ByEvent(d.segments) == Some(byEvent) && |occurrences| == |d.timeline|
    requires forall k | 0 <= k < |occurrences| ::
      1 <= occurrences[k].sequence <= |d.segments| && d.segments[occurrences[k].sequence - 1].events == [d.timeline[k].eventId]
    requires forall k, m | 0 <= k < m < |occurrences| :: occurrences[k].sequence != occurrences[m].sequence
    ensures |d.segments| == |d.timeline|
  {
    var numbers := seq(|occurrences|, k requires 0 <= k < |occurrences| => occurrences[k].sequence - 1);
    InjectionBound(numbers, |d.segments|);
    ByEventMeans(d.segments);
    hide ByEvent;
    AssignedCount(d.segments);
    EvidenceIsPartitioned(d);
  }

  lemma {:induction false} AssignedCount(segments: seq<Segment>)
    requires forall i | 0 <= i < |segments| :: Unambiguous(segments[i])
    ensures |Assigned(segments)| == |segments|
  {
    if segments != [] { AssignedCount(segments[..|segments| - 1]); }
  }

  /** Distinct numbers below a bound are no more than the bound. */
  lemma {:induction false} InjectionBound(numbers: seq<int>, n: nat)
    requires forall k | 0 <= k < |numbers| :: 0 <= numbers[k] < n
    requires forall k, m | 0 <= k < m < |numbers| :: numbers[k] != numbers[m]
    ensures |numbers| <= n
  {
    if numbers != [] {
      assert 0 <= numbers[0] < n;
      if k :| 0 <= k < |numbers| && numbers[k] == n - 1 {
        var rest := numbers[..k] + numbers[k + 1..];
        InjectionBound(rest, n - 1);
      } else {
        InjectionBound(numbers, n - 1);
      }
    }
  }

  /** The first timeline item that is no CAD command of some segment. */
  predicate FirstOffends(t: seq<TimelineItem>, segments: seq<Segment>, k: nat) {
    && k < |t| && !(t[k].isCadCommand && HasSegment(segments, t[k].eventId))
    && forall j | 0 <= j < k :: t[j].isCadCommand && HasSegment(segments, t[j].eventId)
  }

  lemma {:induction false} TimelineErrorIs(t: seq<TimelineItem>, segments: seq<Segment>, byEvent: map<string, Segment>, k: nat)
    requires FirstOffends(t, segments, k)
    requires forall j | 0 <= j < |t| :: t[j].eventId in byEvent <==> HasSegment(segments, t[j].eventId)
    ensures TimelineError(t, byEvent) == Some(if t[k].isCadCommand then Invalid else NoCandidate)
  {
    hide HasSegment;
    var front := t[..|t| - 1];
    if k < |front| {
      assert front[k] == t[k] && forall j | 0 <= j < k :: front[j] == t[j];
      TimelineErrorIs(front, segments, byEvent, k);
    } else {
      assert forall j | 0 <= j < |front| :: front[j] == t[j];
      TimelineErrorMeans(front, byEvent);
    }
  }

  /**
   Why an accepted document gives no run: an ambiguous segment or a CAD command
   without its segment, whichever item offends first, is invalid evidence; all
   else is no candidate.
   */
  lemma DeriveErrors(d: Document, k: nat)
    requires Acceptable(d) && !Qualifies(d)
    ensures if exists i | 0 <= i < |d.segments| :: |d.segments[i].commands| != 1 || |d.segments[i].events| != 1
            then Derive(d) == Err(Invalid)
            else if FirstOffends(d.timeline, d.segments, k)
            then Derive(d) == Err(if d.timeline[k].isCadCommand then Invalid else NoCandidate)
            else (forall j :: !FirstOffends(d.timeline, d.segments, j)) ==> Derive(d) == Err(NoCandidate)
  {
    DeriveExactly(d);
    ByEventExists(d.segments);
    if ByEvent(d.segments).Some? {
      var byEvent := ByEvent(d.segments).value;
      forall j | 0 <= j < |d.timeline|
        ensures d.timeline[j].eventId in byEvent <==> HasSegment(d.segments, d.timeline[j].eventId) {
        LookupFinds(d, byEvent, d.timeline[j].eventId);
      }
      if FirstOffends(d.timeline, d.segments, k) {
        TimelineErrorIs(d.timeline, d.segments, byEvent, k);
      } else if forall j :: !FirstOffends(d.timeline, d.segments, j) {
        NoneOffends(d.timeline, d.segments, |d.timeline|);
        TimelineErrorMeans(d.timeline, byEvent);
      }
    }
    hide ByEvent, TimelineError, SegmentsOf, Acceptable, Occurrences, HasSegment, Drawings, Qualifies, FirstOffends;
  }

  lemma {:induction false} NoneOffends(t: seq<TimelineItem>, segments: seq<Segment>, n: nat)
    requires n <= |t| && forall j :: !FirstOffends(t, segments, j)
    ensures forall j | 0 <= j < n :: t[j].isCadCommand && HasSegment(segments, t[j].eventId)
  {
    if n > 0 {
      NoneOffends(t, segments, n - 1);
      assert !FirstOffends(t, segments, n - 1);
    }
  }
}
