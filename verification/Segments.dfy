/**
 Operation segments of a processing result: two independently written
 validators, and the global facts that their step-by-step checks amount to.
 */
module Segments {
  import opened Basics

  /** A JSON number as a float: some are not finite. */
  datatype Offset = Finite(value: real) | NotFinite

  datatype TimelineItem = TimelineItem(eventId: string, offset: Offset, isCadCommand: bool)

  datatype Segment = Segment(
    sequence: int, start: Offset, end: Offset, commands: seq<string>, drawing: string, events: seq<string>)

  datatype Document = Document(timeline: seq<TimelineItem>, segments: seq<Segment>)

  const MAX_OFFSET := 604800.0

  // ---- The global rule ----

  predicate Bounded(o: Offset) {
    o.Finite? && 0.0 <= o.value <= MAX_OFFSET
  }

  predicate Distinct<T(==)>(xs: seq<T>) {
    forall i, j | 0 <= i < j < |xs| :: xs[i] != xs[j]
  }

  /** What the field types guarantee of one segment before any relation between segments is checked. */
  predicate ShapedSegment(s: Segment) {
    && 1 <= s.sequence <= 1000
    && Bounded(s.start) && Bounded(s.end)
    && 1 <= |s.commands| <= 64 && Distinct(s.commands)
    && (forall c | c in s.commands :: 1 <= |c| <= 128)
    && 1 <= |s.drawing| <= 255
    && 1 <= |s.events| <= 256 && Distinct(s.events)
  }

  predicate Shaped(d: Document) {
    |d.segments| <= 1000 && forall s | s in d.segments :: ShapedSegment(s)
  }

  predicate BoundsFinite(d: Document) {
    forall s | s in d.segments :: s.start.Finite? && s.end.Finite?
  }

  // ---- The step-by-step rule ----

  function Offsets(t: seq<TimelineItem>): map<string, Offset> {
    if t == [] then map[] else Offsets(t[..|t| - 1])[t[|t| - 1].eventId := t[|t| - 1].offset]
  }

  predicate TimelineChecked(t: seq<TimelineItem>) {
    t == [] || (var front, last := t[..|t| - 1], t[|t| - 1];
                TimelineChecked(front) && last.offset.Finite? && last.eventId !in Offsets(front))
  }

  predicate InBounds(s: Segment, o: Offset) {
    s.start.Finite? && s.end.Finite? && o.Finite? && s.start.value <= o.value <= s.end.value
  }

  /** The evidence of one segment, checked in order against what earlier evidence has used. */
  predicate EvidenceChecked(offsets: map<string, Offset>, s: Segment, events: seq<string>, used: set<string>) {
    events == [] || (var front, last := events[..|events| - 1], events[|events| - 1];
                     && EvidenceChecked(offsets, s, front, used)
                     && last in offsets && last !in used && last !in front && InBounds(s, offsets[last]))
  }

  /** All evidence, segment by segment. */
  function Assigned(segments: seq<Segment>): seq<string> {
    if segments == [] then [] else Assigned(segments[..|segments| - 1]) + segments[|segments| - 1].events
  }

  function SetOf(ids: seq<string>): set<string> {
    set e | e in ids
  }

  function Used(segments: seq<Segment>): set<string> {
    SetOf(Assigned(segments))
  }

  function PreviousEnd(segments: seq<Segment>): Offset {
    if segments == [] then Finite(-1.0) else segments[|segments| - 1].end
  }

  predicate Bounds(s: Segment, previous: Offset) {
    s.start.Finite? && s.end.Finite? && previous.Finite? && s.start.value <= s.end.value && previous.value <= s.start.value
  }

  predicate SegmentsChecked(offsets: map<string, Offset>, segments: seq<Segment>) {
    segments == [] || (var front, last := segments[..|segments| - 1], segments[|segments| - 1];
                       && SegmentsChecked(offsets, front)
                       && last.sequence == |segments| && Bounds(last, PreviousEnd(front))
                       && EvidenceChecked(offsets, last, last.events, Used(front)))
  }

  predicate Checked(d: Document) {
    TimelineChecked(d.timeline) && SegmentsChecked(Offsets(d.timeline), d.segments)
  }

  lemma {:induction false} TimelinePrefix(t: seq<TimelineItem>, i: nat)
    requires i <= |t| && TimelineChecked(t)
    ensures TimelineChecked(t[..i])
  {
    if i == |t| {
      assert t[..i] == t;
    } else {
      TimelinePrefix(t[..|t| - 1], i);
      assert t[..|t| - 1][..i] == t[..i];
    }
  }

  lemma {:induction false} EvidencePrefix(offsets: map<string, Offset>, s: Segment, events: seq<string>, used: set<string>, i: nat)
    requires i <= |events| && EvidenceChecked(offsets, s, events, used)
    ensures EvidenceChecked(offsets, s, events[..i], used)
  {
    if i == |events| {
      assert events[..i] == events;
    } else {
      EvidencePrefix(offsets, s, events[..|events| - 1], used, i);
      assert events[..|events| - 1][..i] == events[..i];
    }
  }

  lemma {:induction false} SegmentsPrefix(offsets: map<string, Offset>, segments: seq<Segment>, i: nat)
    requires i <= |segments| && SegmentsChecked(offsets, segments)
    ensures SegmentsChecked(offsets, segments[..i])
  {
    if i == |segments| {
      assert segments[..i] == segments;
    } else {
      SegmentsPrefix(offsets, segments[..|segments| - 1], i);
      assert segments[..|segments| - 1][..i] == segments[..i];
    }
  }

  lemma TimelineStep(t: seq<TimelineItem>, i: nat)
    requires i < |t|
    ensures Offsets(t[..i + 1]) == Offsets(t[..i])[t[i].eventId := t[i].offset]
    ensures TimelineChecked(t[..i + 1])
       <==> TimelineChecked(t[..i]) && t[i].offset.Finite? && t[i].eventId !in Offsets(t[..i])
    ensures TimelineChecked(t) ==> TimelineChecked(t[..i + 1])
  {
    assert t[..i + 1][..i] == t[..i];
    if TimelineChecked(t) { TimelinePrefix(t, i + 1); }
  }

  lemma EvidenceStep(offsets: map<string, Offset>, s: Segment, events: seq<string>, used: set<string>, i: nat)
    requires i < |events|
    ensures EvidenceChecked(offsets, s, events[..i + 1], used)
       <==> EvidenceChecked(offsets, s, events[..i], used) && events[i] in offsets && events[i] !in used
            && events[i] !in events[..i] && InBounds(s, offsets[events[i]])
    ensures EvidenceChecked(offsets, s, events, used) ==> EvidenceChecked(offsets, s, events[..i + 1], used)
    ensures SetOf(events[..i + 1]) == SetOf(events[..i]) + {events[i]}
    ensures events[i] in events[..i] <==> events[i] in SetOf(events[..i])
  {
    assert events[..i + 1][..i] == events[..i];
    assert events[..i + 1] == events[..i] + [events[i]];
    if EvidenceChecked(offsets, s, events, used) { EvidencePrefix(offsets, s, events, used, i + 1); }
  }

  lemma SegmentsStep(offsets: map<string, Offset>, segments: seq<Segment>, i: nat)
    requires i < |segments|
    ensures SegmentsChecked(offsets, segments[..i + 1])
       <==> SegmentsChecked(offsets, segments[..i]) && segments[i].sequence == i + 1
            && Bounds(segments[i], PreviousEnd(segments[..i]))
            && EvidenceChecked(offsets, segments[i], segments[i].events, Used(segments[..i]))
    ensures SegmentsChecked(offsets, segments) ==> SegmentsChecked(offsets, segments[..i + 1])
    ensures Used(segments[..i + 1]) == Used(segments[..i]) + SetOf(segments[i].events)
    ensures PreviousEnd(segments[..i + 1]) == segments[i].end
  {
    assert segments[..i + 1][..i] == segments[..i];
    if SegmentsChecked(offsets, segments) { SegmentsPrefix(offsets, segments, i + 1); }
  }

  lemma NothingChecked()
    ensures Offsets([]) == map[] && TimelineChecked([])
    ensures forall offsets :: SegmentsChecked(offsets, [])
    ensures forall offsets, s, used :: EvidenceChecked(offsets, s, [], used)
    ensures Used([]) == {} && SetOf([]) == {} && PreviousEnd([]) == Finite(-1.0)
  {
  }

  lemma WholeSequences<T>(xs: seq<T>)
    ensures xs[..0] == [] && xs[..|xs|] == xs
  {
  }

  // ---- The two validators ----

  /** The one in the API's models; its field types have already made every bound finite. */
  method ValidateOperationSegments(d: Document) returns (ok: bool)
    requires BoundsFinite(d)
    ensures ok == Checked(d)
  {
    NothingChecked();
    WholeSequences(d.timeline);
    WholeSequences(d.segments);
    hide Offsets, TimelineChecked, EvidenceChecked, SegmentsChecked, Used, SetOf, PreviousEnd;
    var timelineEvents: map<string, Offset> := map[];
    for i := 0 to |d.timeline|
      invariant timelineEvents == Offsets(d.timeline[..i]) && TimelineChecked(d.timeline[..i])
    {
      TimelineStep(d.timeline, i);
      var event := d.timeline[i];
      if event.offset.NotFinite? { return false; }
      if event.eventId in timelineEvents { return false; }
      timelineEvents := timelineEvents[event.eventId := event.offset];
    }
    var previousEnd := -1.0;
    var used: set<string> := {};
    for k := 0 to |d.segments|
      invariant SegmentsChecked(timelineEvents, d.segments[..k]) && used == Used(d.segments[..k])
      invariant PreviousEnd(d.segments[..k]) == Finite(previousEnd)
    {
      SegmentsStep(timelineEvents, d.segments, k);
      var segment := d.segments[k];
      if segment.sequence != k + 1 { return false; }
      if segment.start.value > segment.end.value { return false; }
      if segment.start.value < previousEnd { return false; }
      var before := used;
      WholeSequences(segment.events);
      for i := 0 to |segment.events|
        invariant EvidenceChecked(timelineEvents, segment, segment.events[..i], before)
        invariant used == before + SetOf(segment.events[..i])
      {
        EvidenceStep(timelineEvents, segment, segment.events, before, i);
        var id := segment.events[i];
        if id !in timelineEvents { return false; }
        if id in used { return false; }
        var offset := timelineEvents[id];
        if offset.NotFinite? || !(segment.start.value <= offset.value <= segment.end.value) { return false; }
        used := used + {id};
      }
      previousEnd := segment.end.value;
    }
    return true;
  }

  /** The one in the contract checks; it tests finiteness and emptiness itself. */
  method ValidateProcessingResultSemantics(d: Document) returns (ok: bool)
    ensures ok <==> Checked(d) && forall s | s in d.segments :: s.events != []
  {
    NothingChecked();
    WholeSequences(d.timeline);
    WholeSequences(d.segments);
    hide Offsets, TimelineChecked, EvidenceChecked, SegmentsChecked, Used, SetOf, PreviousEnd;
    var timelineEvents: map<string, Offset> := map[];
    for i := 0 to |d.timeline|
      invariant timelineEvents == Offsets(d.timeline[..i]) && TimelineChecked(d.timeline[..i])
    {
      TimelineStep(d.timeline, i);
      var id, offset := d.timeline[i].eventId, d.timeline[i].offset;
      if offset.NotFinite? { return false; }
      if id in timelineEvents { return false; }
      timelineEvents := timelineEvents[id := offset];
    }
    var previousEnd := -1.0;
    var used: set<string> := {};
    for k := 0 to |d.segments|
      invariant SegmentsChecked(timelineEvents, d.segments[..k]) && used == Used(d.segments[..k])
      invariant PreviousEnd(d.segments[..k]) == Finite(previousEnd)
      invariant forall i | 0 <= i < k :: d.segments[i].events != []
    {
      SegmentsStep(timelineEvents, d.segments, k);
      var segment := d.segments[k];
      if segment.sequence != k + 1 { return false; }
      if segment.start.NotFinite? || segment.end.NotFinite? { return false; }
      var start, end := segment.start.value, segment.end.value;
      if start > end { return false; }
      if start < previousEnd { return false; }
      if segment.events == [] { return false; }
      var before := used;
      WholeSequences(segment.events);
      for i := 0 to |segment.events|
        invariant EvidenceChecked(timelineEvents, segment, segment.events[..i], before)
        invariant used == before + SetOf(segment.events[..i])
      {
        EvidenceStep(timelineEvents, segment, segment.events, before, i);
        var id := segment.events[i];
        if id !in timelineEvents { return false; }
        if id in used { return false; }
        var offset := timelineEvents[id];
        if offset.NotFinite? || !(start <= offset.value <= end) { return false; }
        used := used + {id};
      }
      previousEnd := end;
    }
    return true;
  }
}
