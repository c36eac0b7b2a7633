/**
 What acceptance of a processing result means for the whole document, and when
 the two validators accept the same documents.
 */
module SegmentRules {
  import opened Segments

  // ---- The global rule ----

  predicate UniqueTimeline(t: seq<TimelineItem>) {
    && (forall i | 0 <= i < |t| :: t[i].offset.Finite?)
    && forall i, j | 0 <= i < j < |t| :: t[i].eventId != t[j].eventId
  }

  /** Numbered from one, bounds not reversed, and every segment ended before each later one starts. */
  predicate InOrder(segments: seq<Segment>) {
    && (forall i | 0 <= i < |segments| ::
          && segments[i].sequence == i + 1 && segments[i].start.Finite? && segments[i].end.Finite?
          && -1.0 <= segments[i].start.value <= segments[i].end.value)
    && forall i, j | 0 <= i < j < |segments| :: segments[i].end.value <= segments[j].start.value
  }

  /** The event is in the timeline, at a time within the segment's bounds. */
  predicate Evident(t: seq<TimelineItem>, s: Segment, eventId: string) {
    exists k | 0 <= k < |t| :: t[k].eventId == eventId && InBounds(s, t[k].offset)
  }

  predicate AllEvident(t: seq<TimelineItem>, segments: seq<Segment>) {
    forall i, e | 0 <= i < |segments| && e in segments[i].events :: Evident(t, segments[i], e)
  }

  predicate Acceptable(d: Document) {
    UniqueTimeline(d.timeline) && InOrder(d.segments) && AllEvident(d.timeline, d.segments) && Distinct(Assigned(d.segments))
  }

  // ---- The step-by-step checks amount to the global rule ----

  lemma {:induction false} OffsetsMembers(t: seq<TimelineItem>, id: string)
    ensures id in Offsets(t) <==> exists k | 0 <= k < |t| :: t[k].eventId == id
  {
    if t != [] {
      var front := t[..|t| - 1];
      OffsetsMembers(front, id);
      if id in Offsets(front) {
        var k :| 0 <= k < |front| && front[k].eventId == id;
        assert t[k].eventId == id;
      }
      if exists k | 0 <= k < |t| :: t[k].eventId == id {
        var k :| 0 <= k < |t| && t[k].eventId == id;
        if k < |front| { assert front[k].eventId == id; }
      }
    }
  }

  lemma {:induction false} TimelineIsUnique(t: seq<TimelineItem>)
    ensures TimelineChecked(t) <==> UniqueTimeline(t)
  {
    if t != [] {
      var front, last := t[..|t| - 1], t[|t| - 1];
      TimelineIsUnique(front);
      OffsetsMembers(front, last.eventId);
      hide Offsets;
      assert t == front + [last];
      UniqueSnoc(front, last);
    }
  }

  lemma UniqueSnoc(front: seq<TimelineItem>, last: TimelineItem)
    ensures UniqueTimeline(front + [last])
       <==> UniqueTimeline(front) && last.offset.Finite? && forall k | 0 <= k < |front| :: front[k].eventId != last.eventId
  {
    var t := front + [last];
    assert t[|front|] == last && forall k | 0 <= k < |front| :: t[k] == front[k];
  }

  lemma {:induction false} OffsetAt(t: seq<TimelineItem>, k: nat)
    requires UniqueTimeline(t) && k < |t|
    ensures t[k].eventId in Offsets(t) && Offsets(t)[t[k].eventId] == t[k].offset
  {
    if k < |t| - 1 {
      var front := t[..|t| - 1];
      assert front + [t[|t| - 1]] == t;
      UniqueSnoc(front, t[|t| - 1]);
      OffsetAt(front, k);
    }
  }

  lemma EvidentMeans(t: seq<TimelineItem>, s: Segment, id: string)
    requires UniqueTimeline(t)
    ensures Evident(t, s, id) <==> id in Offsets(t) && InBounds(s, Offsets(t)[id])
  {
    OffsetsMembers(t, id);
    forall k | 0 <= k < |t| ensures t[k].eventId in Offsets(t) && Offsets(t)[t[k].eventId] == t[k].offset {
      OffsetAt(t, k);
    }
    hide Offsets;
  }

  lemma {:induction false} EvidenceMeans(offsets: map<string, Offset>, s: Segment, events: seq<string>, used: set<string>)
    ensures EvidenceChecked(offsets, s, events, used)
       <==> && (forall e | e in events :: e in offsets && e !in used && InBounds(s, offsets[e])) && Distinct(events)
  {
    if events != [] {
      var front, last := events[..|events| - 1], events[|events| - 1];
      EvidenceMeans(offsets, s, front, used);
      assert events == front + [last];
      DistinctSnoc(front, last);
    }
  }

  lemma DistinctSnoc(front: seq<string>, last: string)
    ensures Distinct(front + [last]) <==> Distinct(front) && last !in front
  {
    var all := front + [last];
    assert all[|front|] == last && forall k | 0 <= k < |front| :: all[k] == front[k];
    if last in front {
      var i :| 0 <= i < |front| && front[i] == last;
      assert all[i] == all[|front|];
    }
    if Distinct(all) {
      forall i, j | 0 <= i < j < |front| ensures front[i] != front[j] {
        assert all[i] != all[j];
      }
    }
  }

  lemma DistinctAppend(a: seq<string>, b: seq<string>)
    ensures Distinct(a + b) <==> Distinct(a) && Distinct(b) && forall e | e in b :: e !in a
  {
    var all := a + b;
    if Distinct(all) {
      forall i, j | 0 <= i < j < |a| ensures a[i] != a[j] {
        assert all[i] != all[j];
      }
      forall i, j | 0 <= i < j < |b| ensures b[i] != b[j] {
        assert all[|a| + i] != all[|a| + j];
      }
      forall e | e in b ensures e !in a {
        var j :| 0 <= j < |b| && b[j] == e;
        forall i | 0 <= i < |a| ensures a[i] != e {
          assert all[i] != all[|a| + j];
        }
      }
    } else {
      var i, j :| 0 <= i < j < |all| && all[i] == all[j];
      assert j >= |a| > i ==> b[j - |a|] in b;
    }
  }

  lemma InOrderSnoc(front: seq<Segment>, last: Segment)
    ensures InOrder(front + [last])
       <==> InOrder(front) && last.sequence == |front| + 1 && Bounds(last, PreviousEnd(front))
  {
    var all := front + [last];
    assert all[|front|] == last && forall k | 0 <= k < |front| :: all[k] == front[k];
    if InOrder(all) {
      assert InOrder(front) by {
        forall i, j | 0 <= i < j < |front| ensures front[i].end.value <= front[j].start.value {
          assert all[i].end.value <= all[j].start.value;
        }
      }
      if front != [] {
        assert all[|front| - 1].end.value <= all[|front|].start.value;
      }
    } else if InOrder(front) && last.sequence == |front| + 1 && Bounds(last, PreviousEnd(front)) {
      assert front != [];
      LastEndsLatest(front);
      assert false;
    }
  }

  lemma LastEndsLatest(segments: seq<Segment>)
    requires InOrder(segments) && segments != []
    ensures forall i | 0 <= i < |segments| :: segments[i].end.value <= segments[|segments| - 1].end.value
    ensures segments[|segments| - 1].end.value >= -1.0
  {
  }

  lemma {:induction false} SegmentsMean(t: seq<TimelineItem>, segments: seq<Segment>)
    requires UniqueTimeline(t)
    ensures SegmentsChecked(Offsets(t), segments)
       <==> InOrder(segments) && AllEvident(t, segments) && Distinct(Assigned(segments))
  {
    if segments != [] {
      var front, last := segments[..|segments| - 1], segments[|segments| - 1];
      assert segments == front + [last];
      SegmentsMean(t, front);
      InOrderSnoc(front, last);
      EvidenceMeans(Offsets(t), last, last.events, Used(front));
      DistinctAppend(Assigned(front), last.events);
      forall e ensures Evident(t, last, e) <==> e in Offsets(t) && InBounds(last, Offsets(t)[e]) {
        EvidentMeans(t, last, e);
      }
      AllEvidentSnoc(t, front, last);
      hide Offsets, InOrder, Evident, AllEvident, InBounds, Bounds, EvidenceChecked, PreviousEnd, UniqueTimeline;
    }
  }

  lemma AllEvidentSnoc(t: seq<TimelineItem>, front: seq<Segment>, last: Segment)
    ensures AllEvident(t, front + [last]) <==> AllEvident(t, front) && forall e | e in last.events :: Evident(t, last, e)
  {
    var all := front + [last];
    assert all[|front|] == last && forall k | 0 <= k < |front| :: all[k] == front[k];
    hide Evident;
  }

  /**
   Checking each segment against its predecessor and each piece of evidence
   against what is already used amounts to the global rule: no two segments
   overlap, whatever their distance, and no evidence is used twice anywhere.
   */
  lemma CheckedIsGlobal(d: Document)
    ensures Checked(d) <==> Acceptable(d)
  {
    TimelineIsUnique(d.timeline);
    if UniqueTimeline(d.timeline) {
      SegmentsMean(d.timeline, d.segments);
    }
    hide TimelineChecked, SegmentsChecked, UniqueTimeline, Assigned;
  }

  // ---- Consequences ----

  lemma {:induction false} AssignedFrom(segments: seq<Segment>, i: nat)
    requires i < |segments|
    ensures forall e | e in segments[i].events :: e in Assigned(segments)
  {
    if i < |segments| - 1 {
      AssignedFrom(segments[..|segments| - 1], i);
    }
  }

  lemma {:induction false} AssignedTo(segments: seq<Segment>, e: string) returns (i: nat)
    requires e in Assigned(segments)
    ensures i < |segments| && e in segments[i].events
  {
    var front, last := segments[..|segments| - 1], segments[|segments| - 1];
    if e in last.events {
      i := |front|;
    } else {
      i := AssignedTo(front, e);
    }
  }

  lemma {:induction false} OneOwner(segments: seq<Segment>, i: nat, j: nat, e: string)
    requires Distinct(Assigned(segments)) && i < j < |segments|
    ensures !(e in segments[i].events && e in segments[j].events)
  {
    var front, last := segments[..|segments| - 1], segments[|segments| - 1];
    DistinctAppend(Assigned(front), last.events);
    if j < |front| {
      OneOwner(front, i, j, e);
    } else {
      AssignedFrom(front, i);
    }
  }

  function EventIds(t: seq<TimelineItem>): set<string> {
    set k | 0 <= k < |t| :: t[k].eventId
  }

  lemma {:induction false} AtMostAsMany(ids: seq<string>, pool: set<string>)
    requires Distinct(ids) && forall e | e in ids :: e in pool
    ensures |ids| <= |pool|
  {
    if ids != [] {
      var front, last := ids[..|ids| - 1], ids[|ids| - 1];
      assert ids == front + [last];
      DistinctSnoc(front, last);
      AtMostAsMany(front, pool - {last});
    }
  }

  lemma {:induction false} EventIdsCount(t: seq<TimelineItem>)
    ensures |EventIds(t)| <= |t|
  {
    if t != [] {
      var front := t[..|t| - 1];
      EventIdsCount(front);
      assert EventIds(t) == EventIds(front) + {t[|t| - 1].eventId};
    }
  }

  /** In an accepted document each piece of evidence belongs to exactly one segment, and there is no more of it than timeline. */
  lemma EvidenceIsPartitioned(d: Document)
    requires Acceptable(d)
    ensures |Assigned(d.segments)| <= |d.timeline|
    ensures forall e | e in Assigned(d.segments) ::
              exists i | 0 <= i < |d.segments| :: e in d.segments[i].events && Evident(d.timeline, d.segments[i], e)
    ensures forall i, j, e | 0 <= i < j < |d.segments| :: !(e in d.segments[i].events && e in d.segments[j].events)
  {
    forall e | e in Assigned(d.segments)
      ensures e in EventIds(d.timeline)
      ensures exists i | 0 <= i < |d.segments| :: e in d.segments[i].events && Evident(d.timeline, d.segments[i], e) {
      var i := AssignedTo(d.segments, e);
      assert Evident(d.timeline, d.segments[i], e);
    }
    AtMostAsMany(Assigned(d.segments), EventIds(d.timeline));
    EventIdsCount(d.timeline);
    forall i, j, e | 0 <= i < j < |d.segments| ensures !(e in d.segments[i].events && e in d.segments[j].events) {
      OneOwner(d.segments, i, j, e);
    }
  }

  // ---- Spelling ----

  function LowerChar(c: char): char {
    if 'A' <= c <= 'Z' then (c as int + 32) as char else c
  }

  /** What parsing makes of a UUID's text: the letters lose their case. */
  function Lower(id: string): string {
    seq(|id|, i requires 0 <= i < |id| => LowerChar(id[i]))
  }

  function LowerAll(ids: seq<string>): seq<string> {
    seq(|ids|, i requires 0 <= i < |ids| => Lower(ids[i]))
  }

  function LowerTimeline(t: seq<TimelineItem>): seq<TimelineItem> {
    seq(|t|, i requires 0 <= i < |t| => t[i].(eventId := Lower(t[i].eventId)))
  }

  /** The document as the models see it: identifiers parsed. The contract check sees their text. */
  function Parsed(d: Document): Document {
    Document(
      LowerTimeline(d.timeline),
      seq(|d.segments|, i requires 0 <= i < |d.segments| => d.segments[i].(events := LowerAll(d.segments[i].events))))
  }

  function TimelineIds(t: seq<TimelineItem>): seq<string> {
    seq(|t|, i requires 0 <= i < |t| => t[i].eventId)
  }

  /** Every identifier that the document writes down. */
  function AllIds(d: Document): seq<string> {
    TimelineIds(d.timeline) + Assigned(d.segments)
  }

  /** No identifier is written in two ways. */
  predicate SpelledOnce(ids: seq<string>) {
    forall a, b | a in ids && b in ids :: Lower(a) == Lower(b) ==> a == b
  }

  lemma DistinctLower(ids: seq<string>)
    requires SpelledOnce(ids)
    ensures Distinct(LowerAll(ids)) <==> Distinct(ids)
  {
    hide Lower;
    var lower := LowerAll(ids);
    if Distinct(lower) {
      forall i, j | 0 <= i < j < |ids| ensures ids[i] != ids[j] {
        assert lower[i] != lower[j];
      }
    } else {
      var i, j :| 0 <= i < j < |lower| && lower[i] == lower[j];
      assert ids[i] in ids && ids[j] in ids;
    }
  }

  lemma {:induction false} AssignedLower(d: Document, k: nat)
    requires k <= |d.segments|
    ensures Assigned(Parsed(d).segments[..k]) == LowerAll(Assigned(d.segments[..k]))
  {
    hide Lower;
    if k > 0 {
      AssignedLower(d, k - 1);
      assert d.segments[..k][..k - 1] == d.segments[..k - 1];
      assert Parsed(d).segments[..k][..k - 1] == Parsed(d).segments[..k - 1];
    }
  }

  lemma UniqueTimelineLower(d: Document)
    requires SpelledOnce(TimelineIds(d.timeline))
    ensures UniqueTimeline(Parsed(d).timeline) <==> UniqueTimeline(d.timeline)
  {
    hide Lower;
    var t, p, ids := d.timeline, Parsed(d).timeline, TimelineIds(d.timeline);
    assert forall i | 0 <= i < |t| :: p[i].offset == t[i].offset && p[i].eventId == Lower(t[i].eventId);
    forall i, j | 0 <= i < j < |t| ensures p[i].eventId == p[j].eventId <==> t[i].eventId == t[j].eventId {
      assert ids[i] in ids && ids[j] in ids;
    }
  }

  lemma EvidentLower(d: Document, s: Segment, s': Segment, e: string)
    requires SpelledOnce(AllIds(d)) && e in AllIds(d) && s.start == s'.start && s.end == s'.end
    ensures Evident(Parsed(d).timeline, s', Lower(e)) <==> Evident(d.timeline, s, e)
  {
    hide Lower, Assigned;
    var t, p, ids := d.timeline, Parsed(d).timeline, TimelineIds(d.timeline);
    forall k | 0 <= k < |t| ensures p[k].offset == t[k].offset && (p[k].eventId == Lower(e) <==> t[k].eventId == e) {
      assert ids[k] in ids;
      assert t[k].eventId in AllIds(d);
    }
    assert |p| == |t|;
    hide Parsed, SpelledOnce, AllIds;
    if Evident(t, s, e) {
      var k :| 0 <= k < |t| && t[k].eventId == e && InBounds(s, t[k].offset);
      assert p[k].eventId == Lower(e);
    }
    if Evident(p, s', Lower(e)) {
      var k :| 0 <= k < |p| && p[k].eventId == Lower(e) && InBounds(s', p[k].offset);
      assert t[k].eventId == e;
    }
  }

  lemma AllEvidentLower(d: Document)
    requires SpelledOnce(AllIds(d))
    ensures AllEvident(Parsed(d).timeline, Parsed(d).segments) <==> AllEvident(d.timeline, d.segments)
  {
    var p := Parsed(d);
    forall i, e | 0 <= i < |d.segments| && e in d.segments[i].events
      ensures Lower(e) in p.segments[i].events
      ensures Evident(p.timeline, p.segments[i], Lower(e)) <==> Evident(d.timeline, d.segments[i], e) {
      AssignedFrom(d.segments, i);
      EvidentLower(d, d.segments[i], p.segments[i], e);
      var k :| 0 <= k < |d.segments[i].events| && d.segments[i].events[k] == e;
      assert p.segments[i].events[k] == Lower(e);
    }
    if AllEvident(d.timeline, d.segments) {
      forall i, f | 0 <= i < |p.segments| && f in p.segments[i].events ensures Evident(p.timeline, p.segments[i], f) {
        var k :| 0 <= k < |p.segments[i].events| && p.segments[i].events[k] == f;
        assert d.segments[i].events[k] in d.segments[i].events;
      }
    }
    if AllEvident(p.timeline, p.segments) {
      forall i, e | 0 <= i < |d.segments| && e in d.segments[i].events ensures Evident(d.timeline, d.segments[i], e) {
        assert Lower(e) in p.segments[i].events;
        assert Evident(p.timeline, p.segments[i], Lower(e));
      }
    }
    hide Lower, Evident, Parsed, SpelledOnce, AllIds;
  }

  lemma AcceptableLower(d: Document)
    requires SpelledOnce(AllIds(d))
    ensures Acceptable(Parsed(d)) <==> Acceptable(d)
  {
    var ids := AllIds(d);
    forall a | a in TimelineIds(d.timeline) ensures a in ids {
    }
    forall a | a in Assigned(d.segments) ensures a in ids {
    }
    UniqueTimelineLower(d);
    AllEvidentLower(d);
    AssignedLower(d, |d.segments|);
    assert d.segments[..|d.segments|] == d.segments && Parsed(d).segments[..|d.segments|] == Parsed(d).segments;
    DistinctLower(Assigned(d.segments));
    InOrderLower(d);
    hide Parsed, InOrder, AllEvident, UniqueTimeline, Assigned, LowerAll, SpelledOnce, AllIds;
  }

  lemma InOrderLower(d: Document)
    ensures InOrder(Parsed(d).segments) <==> InOrder(d.segments)
  {
    hide LowerAll;
    var p := Parsed(d).segments;
    assert |p| == |d.segments| && forall i | 0 <= i < |p| ::
      p[i].sequence == d.segments[i].sequence && p[i].start == d.segments[i].start && p[i].end == d.segments[i].end;
    hide Parsed;
  }

  lemma SpelledOnceAgree(d: Document)
    requires Shaped(d) && SpelledOnce(AllIds(d))
    ensures Checked(Parsed(d)) <==> Checked(d)
  {
    AcceptableLower(d);
    CheckedIsGlobal(d);
    CheckedIsGlobal(Parsed(d));
    hide Acceptable, Checked, LowerAll;
  }

  /** No two items of the timeline carry one identifier, however it is written. */
  predicate ParsedApart(t: seq<TimelineItem>) {
    forall i, j | 0 <= i < j < |t| :: Lower(t[i].eventId) != Lower(t[j].eventId)
  }

  /** Every piece of evidence is written as an item of the timeline is. */
  predicate WrittenAlike(d: Document) {
    forall e | e in Assigned(d.segments) :: e in TimelineIds(d.timeline)
  }

  lemma ApartIsSpelledOnce(d: Document)
    requires ParsedApart(d.timeline) && WrittenAlike(d)
    ensures SpelledOnce(AllIds(d))
  {
    hide Lower, Assigned;
    var t, ids := d.timeline, TimelineIds(d.timeline);
    forall a, b | a in AllIds(d) && b in AllIds(d) && Lower(a) == Lower(b) ensures a == b {
      assert a in ids && b in ids;
      var i, j :| 0 <= i < |ids| && 0 <= j < |ids| && ids[i] == a && ids[j] == b;
      assert t[i].eventId == a && t[j].eventId == b;
    }
  }

  lemma CheckedTextIsWrittenAlike(d: Document)
    requires Checked(d)
    ensures WrittenAlike(d)
  {
    CheckedIsGlobal(d);
    forall e | e in Assigned(d.segments) ensures e in TimelineIds(d.timeline) {
      var i := AssignedTo(d.segments, e);
      assert Evident(d.timeline, d.segments[i], e);
      var k :| 0 <= k < |d.timeline| && d.timeline[k].eventId == e;
      assert TimelineIds(d.timeline)[k] == e;
    }
  }

  lemma CheckedParsedIsApart(d: Document)
    requires Checked(Parsed(d))
    ensures ParsedApart(d.timeline)
  {
    CheckedIsGlobal(Parsed(d));
    var t, p := d.timeline, Parsed(d).timeline;
    assert UniqueTimeline(p);
    hide Lower, Checked, Acceptable;
    forall i, j | 0 <= i < j < |t| ensures Lower(t[i].eventId) != Lower(t[j].eventId) {
      assert p[i].eventId != p[j].eventId;
    }
  }

  lemma ShapeAsks(d: Document)
    requires Shaped(d)
    ensures BoundsFinite(Parsed(d)) && forall s | s in d.segments :: s.events != []
  {
    forall i | 0 <= i < |d.segments| ensures ShapedSegment(d.segments[i]) {
      assert d.segments[i] in d.segments;
    }
    hide LowerAll;
  }

  /** What the models require of each segment by itself follows from the relations they check. */
  lemma ParsedIsShaped(d: Document)
    requires Shaped(d) && Checked(Parsed(d))
    ensures Shaped(Parsed(d))
  {
    var p := Parsed(d);
    CheckedIsGlobal(p);
    forall i | 0 <= i < |p.segments| ensures ShapedSegment(p.segments[i]) {
      assert d.segments[i] in d.segments;
      OwnEvidenceDistinct(p.segments, i);
    }
    hide Lower, Checked, Acceptable;
  }

  lemma {:induction false} OwnEvidenceDistinct(segments: seq<Segment>, i: nat)
    requires i < |segments| && Distinct(Assigned(segments))
    ensures Distinct(segments[i].events)
  {
    var front, last := segments[..|segments| - 1], segments[|segments| - 1];
    DistinctAppend(Assigned(front), last.events);
    if i < |front| {
      OwnEvidenceDistinct(front, i);
    }
  }

  /**
   Once the shape of every field holds, a document that passes as text passes
   as parsed values exactly when its timeline has no identifier in two
   spellings, and one that passes as parsed values passes as text exactly when
   its evidence is spelled as in the timeline. Beyond `Checked`, each validator
   asks nothing that the shape does not give.
   */
  lemma ValidatorsAgree(d: Document)
    requires Shaped(d)
    ensures BoundsFinite(Parsed(d)) && forall s | s in d.segments :: s.events != []
    ensures Checked(Parsed(d)) ==> Shaped(Parsed(d))
    ensures Checked(d) ==> (Checked(Parsed(d)) <==> ParsedApart(d.timeline))
    ensures Checked(Parsed(d)) ==> (Checked(d) <==> WrittenAlike(d))
  {
    ShapeAsks(d);
    hide Shaped, Checked, Parsed, ParsedApart, WrittenAlike, SpelledOnce;
    if Checked(d) {
      CheckedTextIsWrittenAlike(d);
    }
    if Checked(Parsed(d)) {
      ParsedIsShaped(d);
      CheckedParsedIsApart(d);
    }
    if ParsedApart(d.timeline) && WrittenAlike(d) {
      ApartIsSpelledOnce(d);
      SpelledOnceAgree(d);
    }
  }

  predicate IsHex(c: char) {
    '0' <= c <= '9' || 'a' <= c <= 'f' || 'A' <= c <= 'F'
  }

  /** The hyphenated form of a UUID, with letters of either case. */
  predicate IsUuidText(id: string) {
    |id| == 36 && forall k | 0 <= k < 36 :: if k in {8, 13, 18, 23} then id[k] == '-' else IsHex(id[k])
  }

  /** A UUID text that begins with the given character. */
  function UuidFrom(first: char): string {
    seq(36, k => if k == 0 then first else if k in {8, 13, 18, 23} then '-' else 'a')
  }

  lemma TwoSpellings()
    ensures IsUuidText(UuidFrom('a')) && IsUuidText(UuidFrom('A'))
    ensures UuidFrom('a') != UuidFrom('A') && Lower(UuidFrom('a')) == Lower(UuidFrom('A'))
  {
    assert UuidFrom('a')[0] != UuidFrom('A')[0];
  }

  function At0(id: string): TimelineItem {
    TimelineItem(id, Finite(0.0), true)
  }

  function LineSegment(id: string): Segment {
    Segment(1, Finite(0.0), Finite(0.0), ["LINE"], "drawing", [id])
  }

  /** Passes as parsed values only: the evidence is spelled otherwise than in the timeline. */
  const EVIDENCE_RESPELLED := Document([At0(UuidFrom('a'))], [LineSegment(UuidFrom('A'))])

  /** Passes as text only: the timeline has one identifier twice. */
  const TIMELINE_RESPELLED := Document([At0(UuidFrom('a')), At0(UuidFrom('A'))], [LineSegment(UuidFrom('a'))])

  lemma RespelledAreShaped()
    ensures Shaped(EVIDENCE_RESPELLED) && Shaped(TIMELINE_RESPELLED)
    ensures forall id | id in AllIds(EVIDENCE_RESPELLED) + AllIds(TIMELINE_RESPELLED) :: IsUuidText(id)
  {
    TwoSpellings();
    hide UuidFrom, IsUuidText;
    assert Assigned([]) == [];
    forall id ensures Assigned([LineSegment(id)]) == [id] {
      assert [LineSegment(id)][..0] == [];
    }
  }

  /**
   Two spellings of one UUID are enough to make each validator accept a
   well-shaped document that the other refuses.
   */
  lemma TwoSpellingsDisagree()
    ensures Shaped(EVIDENCE_RESPELLED) && Checked(Parsed(EVIDENCE_RESPELLED)) && !Checked(EVIDENCE_RESPELLED)
    ensures Shaped(TIMELINE_RESPELLED) && Checked(TIMELINE_RESPELLED) && !Checked(Parsed(TIMELINE_RESPELLED))
    ensures forall id | id in AllIds(EVIDENCE_RESPELLED) + AllIds(TIMELINE_RESPELLED) :: IsUuidText(id)
  {
    var a, b := UuidFrom('a'), UuidFrom('A');
    TwoSpellings();
    RespelledAreShaped();
    OneSegmentChecked([At0(Lower(a))], Lower(b));
    OneSegmentChecked([At0(a)], b);
    OneSegmentChecked([At0(a), At0(b)], a);
    OneSegmentChecked([At0(Lower(a)), At0(Lower(b))], Lower(a));
    hide Lower, UuidFrom, Shaped, Checked, AllIds, IsUuidText;
    ParsedOneSegment([At0(a)], b);
    ParsedOneSegment([At0(a), At0(b)], a);
    assert LowerTimeline([At0(a)]) == [At0(Lower(a))];
    assert LowerTimeline([At0(a), At0(b)]) == [At0(Lower(a)), At0(Lower(b))];
    assert [At0(Lower(a))][0].eventId == Lower(b);
    assert [At0(a), At0(b)][0].eventId == a;
    assert UniqueTimeline([At0(a), At0(b)]) by {
      assert [At0(a), At0(b)][0].eventId != [At0(a), At0(b)][1].eventId;
    }
    assert !UniqueTimeline([At0(Lower(a)), At0(Lower(b))]) by {
      assert [At0(Lower(a)), At0(Lower(b))][0].eventId == [At0(Lower(a)), At0(Lower(b))][1].eventId;
    }
  }

  lemma ParsedOneSegment(t: seq<TimelineItem>, id: string)
    ensures Parsed(Document(t, [LineSegment(id)])) == Document(LowerTimeline(t), [LineSegment(Lower(id))])
  {
    hide Lower;
    assert LowerAll([id]) == [Lower(id)];
  }

  lemma OneSegmentChecked(t: seq<TimelineItem>, id: string)
    requires forall i | 0 <= i < |t| :: t[i].offset == Finite(0.0)
    ensures Checked(Document(t, [LineSegment(id)]))
       <==> UniqueTimeline(t) && exists i | 0 <= i < |t| :: t[i].eventId == id
  {
    var d := Document(t, [LineSegment(id)]);
    CheckedIsGlobal(d);
    assert d.segments[..0] == [] && Assigned([]) == [];
    assert Assigned(d.segments) == [id];
    assert AllEvident(t, d.segments) <==> Evident(t, d.segments[0], id);
    hide Assigned, Checked, UniqueTimeline;
  }
}
