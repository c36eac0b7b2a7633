/**
 Two-level paging over finalized publications: a scan in batches of 100 that
 skips rows the store cannot show, inside a service loop that confirms each row
 with the review authority, while rows and reviews change between any two reads.
 */
module DiscoveryScan {
  import opened Basics
  import opened SortedByName
  import opened Discovery

  const SCAN_BATCH: nat := 100
  const MAX_LIMIT := 100

  datatype Error = Invalid

  // ---- Reads of a changing state ----

  /**
   What each read of one listing finds, by the number of the read: whether a row
   is in the table of finalized rows, whether the store shows it (it verifies and
   the store's own look at its review admits it), and whether the review
   authority confirms it.
   */
  datatype Answers = Answers(
    present: (nat, Row) -> bool, visible: (nat, Row) -> bool, confirmed: (nat, Row) -> bool)

  /** The store's scan, or the service's loop over such scans. */
  datatype Reader = Store | Service

  function PresentAt(ans: Answers, t: nat): Row -> bool {
    row => ans.present(t, row)
  }

  /** Whether a row would pass all of a reader's tests at one read. */
  function Passes(who: Reader, ans: Answers): (nat, Row) -> bool {
    (t: nat, row) => ans.present(t, row) && ans.visible(t, row) && (who == Service ==> ans.confirmed(t, row))
  }

  /** The row passes at every read from one to another. */
  ghost predicate Steady(who: Reader, ans: Answers, row: Row, from: nat, to: nat) {
    forall t: nat | from <= t < to :: Passes(who, ans)(t, row)
  }

  /** The row was read from the table and then shown. */
  ghost predicate Seen(ans: Answers, row: Row, from: nat, to: nat) {
    exists b: nat, v: nat :: from <= b < v < to && ans.present(b, row) && ans.visible(v, row)
  }

  /** The row was read, shown and confirmed, each by its own read, in this order. */
  ghost predicate Confirmed(ans: Answers, row: Row, from: nat, to: nat) {
    exists b: nat, v: nat, u: nat ::
      from <= b < v < u < to && ans.present(b, row) && ans.visible(v, row) && ans.confirmed(u, row)
  }

  ghost predicate Found(who: Reader, ans: Answers, row: Row, from: nat, to: nat) {
    match who
    case Store => Seen(ans, row, from, to)
    case Service => Confirmed(ans, row, from, to)
  }

  /** Rows of the table past the cursor, in strict order, at most the limit. */
  ghost predicate InPlace(rows: seq<Row>, cursor: Option<Cursor>, limit: nat, page: seq<Row>) {
    && Ordered(page) && |page| <= limit
    && forall row | row in page :: row in rows && Past(cursor, row)
  }

  /** No row that passes throughout is missing, unless the page is full and ends before it. */
  ghost predicate Complete(who: Reader, rows: seq<Row>, ans: Answers, from: nat, to: nat,
                           cursor: Option<Cursor>, limit: nat, page: seq<Row>) {
    forall row | row in rows && Past(cursor, row) && Steady(who, ans, row, from, to) ::
      row in page || (0 < |page| == limit && Before(page[|page| - 1].cursor, row.cursor))
  }

  /** What a reader returns after the reads from one number to another. */
  ghost predicate Lists(who: Reader, rows: seq<Row>, ans: Answers, from: nat, to: nat,
                        cursor: Option<Cursor>, limit: nat, page: seq<Row>) {
    && InPlace(rows, cursor, limit, page)
    && (forall row | row in page :: Found(who, ans, row, from, to))
    && Complete(who, rows, ans, from, to, cursor, limit, page)
  }

  // ---- How far a reader has come ----

  /** A cursor that a scan from this one may have come to. */
  predicate Reaches(cursor: Option<Cursor>, further: Option<Cursor>) {
    further == cursor || (further.Some? && (cursor.Some? ==> Before(cursor.value, further.value)))
  }

  /** The rows listed so far, none beyond the place the scan has come to. */
  ghost predicate Reached(who: Reader, rows: seq<Row>, ans: Answers, from: nat, t: nat,
                          cursor: Option<Cursor>, limit: nat, done: seq<Row>, scanCursor: Option<Cursor>) {
    && from <= t && InPlace(rows, cursor, limit, done) && Reaches(cursor, scanCursor)
    && forall row | row in done ::
         scanCursor.Some? && !Before(scanCursor.value, row.cursor) && Found(who, ans, row, from, t)
  }

  /** Before a page is read: every steady row is listed or lies past the scan. */
  ghost predicate AtHead(who: Reader, rows: seq<Row>, ans: Answers, from: nat, t: nat,
                         cursor: Option<Cursor>, limit: nat, done: seq<Row>, scanCursor: Option<Cursor>) {
    && Reached(who, rows, ans, from, t, cursor, limit, done, scanCursor)
    && forall row | row in rows && Past(cursor, row) && Steady(who, ans, row, from, t) ::
         row in done || Past(scanCursor, row)
  }

  /** Every steady row is listed, ahead in the page at hand, or past a page that was full. */
  ghost predicate Owed(who: Reader, rows: seq<Row>, ans: Answers, from: nat, t: nat,
                       cursor: Option<Cursor>, done: seq<Row>, ahead: seq<Row>, beyond: Option<Cursor>) {
    forall row | row in rows && Past(cursor, row) && Steady(who, ans, row, from, t) ::
      row in done || row in ahead || (beyond.Some? && Past(beyond, row))
  }

  function EndOf(page: seq<Row>, n: nat): Option<Cursor> {
    if 0 < |page| == n then Some(page[|page| - 1].cursor) else None
  }

  /** At one place of a page of at most `n` rows: what lies ahead of it is past the scan. */
  ghost predicate AtRow(who: Reader, rows: seq<Row>, ans: Answers, from: nat, t: nat, cursor: Option<Cursor>, limit: nat,
                        done: seq<Row>, scanCursor: Option<Cursor>, page: seq<Row>, i: nat, n: nat) {
    && Ordered(page) && i <= |page| <= n && |done| < limit
    && Reached(who, rows, ans, from, t, cursor, limit, done, scanCursor)
    && Owed(who, rows, ans, from, t, cursor, done, page[i..], EndOf(page, n))
    && (forall j | i <= j < |page| :: page[j] in rows && Past(scanCursor, page[j]))
    && (0 < i ==> scanCursor == Some(page[i - 1].cursor))
  }

  lemma PastFurther(cursor: Option<Cursor>, further: Option<Cursor>, row: Row)
    requires Reaches(cursor, further) && Past(further, row)
    ensures Past(cursor, row) && Reaches(cursor, Some(row.cursor))
  {
    if cursor.Some? && further != cursor { BeforeTransitive(cursor.value, further.value, row.cursor); }
  }

  lemma BeforeOrNot(a: Cursor, b: Cursor, c: Cursor)
    requires !Before(b, a) && Before(b, c)
    ensures Before(a, c) && !Before(c, a)
  {
    BelowTotal(KeyBytes(a.publicationKey), KeyBytes(b.publicationKey));
    if Before(a, b) { BeforeTransitive(a, b, c); }
    if Before(c, a) { BeforeTransitive(b, c, a); }
  }

  lemma FoundSince(who: Reader, ans: Answers, row: Row, from: nat, t: nat, to: nat)
    requires t <= to && Found(who, ans, row, from, t)
    ensures Found(who, ans, row, from, to)
  {
  }

  lemma SteadyBefore(who: Reader, ans: Answers, row: Row, from: nat, t: nat, to: nat)
    requires from <= t <= to && Steady(who, ans, row, from, to)
    ensures Steady(who, ans, row, from, t) && Steady(who, ans, row, t, to)
  {
    hide Passes;
  }

  lemma ReachedLater(who: Reader, rows: seq<Row>, ans: Answers, from: nat, t: nat, to: nat, cursor: Option<Cursor>, limit: nat,
                     done: seq<Row>, scanCursor: Option<Cursor>)
    requires t <= to && Reached(who, rows, ans, from, t, cursor, limit, done, scanCursor)
    ensures Reached(who, rows, ans, from, to, cursor, limit, done, scanCursor)
  {
    hide Found, Before, InPlace;
    forall row | row in done ensures Found(who, ans, row, from, to) {
      FoundSince(who, ans, row, from, t, to);
    }
  }

  lemma NothingListed(who: Reader, rows: seq<Row>, ans: Answers, from: nat, cursor: Option<Cursor>, limit: nat)
    ensures AtHead(who, rows, ans, from, from, cursor, limit, [], cursor)
  {
  }

  /** A page is read that misses no steady row past the scan, unless it is full. */
  lemma OpenPage(who: Reader, rows: seq<Row>, ans: Answers, from: nat, t: nat, to: nat, cursor: Option<Cursor>, limit: nat,
                 done: seq<Row>, scanCursor: Option<Cursor>, page: seq<Row>, n: nat)
    requires t <= to && |done| < limit && AtHead(who, rows, ans, from, t, cursor, limit, done, scanCursor)
    requires InPlace(rows, scanCursor, n, page) && Complete(who, rows, ans, t, to, scanCursor, n, page)
    ensures AtRow(who, rows, ans, from, to, cursor, limit, done, scanCursor, page, 0, n)
  {
    hide Before, Found, Steady, Reaches, Ordered;
    ReachedLater(who, rows, ans, from, t, to, cursor, limit, done, scanCursor);
    forall row | row in rows && Past(cursor, row) && Steady(who, ans, row, from, to)
      ensures row in done || row in page || (EndOf(page, n).Some? && Past(EndOf(page, n), row)) {
      SteadyBefore(who, ans, row, from, t, to);
    }
    assert page[0..] == page;
  }

  lemma OwedLess(who: Reader, rows: seq<Row>, ans: Answers, from: nat, t: nat, to: nat, cursor: Option<Cursor>,
                 done: seq<Row>, ahead: seq<Row>, beyond: Option<Cursor>, listed: bool)
    requires from <= t <= to && ahead != [] && Owed(who, rows, ans, from, t, cursor, done, ahead, beyond)
    requires listed || !Steady(who, ans, ahead[0], from, to)
    ensures Owed(who, rows, ans, from, to, cursor, if listed then done + [ahead[0]] else done, ahead[1..], beyond)
  {
    hide Past, Steady;
    forall row | row in rows && Past(cursor, row) && Steady(who, ans, row, from, to)
      ensures row in (if listed then done + [ahead[0]] else done) || row in ahead[1..] || (beyond.Some? && Past(beyond, row)) {
      SteadyBefore(who, ans, row, from, t, to);
      assert ahead == [ahead[0]] + ahead[1..];
    }
  }

  /** A row past the scan goes behind everything that is listed. */
  lemma ReachRow(who: Reader, rows: seq<Row>, ans: Answers, from: nat, t: nat, to: nat, cursor: Option<Cursor>, limit: nat,
                 done: seq<Row>, scanCursor: Option<Cursor>, row: Row, listed: bool)
    requires t <= to && Reached(who, rows, ans, from, t, cursor, limit, done, scanCursor)
    requires row in rows && Past(scanCursor, row) && |done| < limit && (listed ==> Found(who, ans, row, from, to))
    ensures Reached(who, rows, ans, from, to, cursor, limit, if listed then done + [row] else done, Some(row.cursor))
  {
    ReachedLater(who, rows, ans, from, t, to, cursor, limit, done, scanCursor);
    PastFurther(cursor, scanCursor, row);
    BeforeIrreflexive(row.cursor);
    forall d | d in done ensures Before(d.cursor, row.cursor) && !Before(row.cursor, d.cursor) {
      BeforeOrNot(d.cursor, scanCursor.value, row.cursor);
    }
    hide Before, Found, Reaches;
  }

  /** A list that has become full ends before everything that is still ahead. */
  lemma FullList(who: Reader, rows: seq<Row>, ans: Answers, from: nat, to: nat, cursor: Option<Cursor>,
                 limit: nat, done: seq<Row>, page: seq<Row>, i: nat, n: nat)
    requires Ordered(page) && i < |page| && 0 < |done| == limit && done[|done| - 1] == page[i]
    requires Owed(who, rows, ans, from, to, cursor, done, page[i + 1..], EndOf(page, n))
    ensures Complete(who, rows, ans, from, to, cursor, limit, done)
  {
    hide Before, Steady;
    var last := page[|page| - 1].cursor;
    forall row | row in rows && Past(cursor, row) && Steady(who, ans, row, from, to)
      ensures row in done || Before(page[i].cursor, row.cursor) {
      if row !in done && row !in page[i + 1..] && i < |page| - 1 {
        BeforeTransitive(page[i].cursor, last, row.cursor);
      }
    }
  }

  /** One row of a page is looked at: listed, or left out because it failed a read since. */
  lemma LookAt(who: Reader, rows: seq<Row>, ans: Answers, from: nat, t: nat, to: nat, cursor: Option<Cursor>, limit: nat,
               done: seq<Row>, scanCursor: Option<Cursor>, page: seq<Row>, i: nat, n: nat, listed: bool)
    requires Ordered(rows) && t <= to && AtRow(who, rows, ans, from, t, cursor, limit, done, scanCursor, page, i, n) && i < |page|
    requires if listed then Found(who, ans, page[i], from, to) else !Steady(who, ans, page[i], from, to)
    ensures Past(scanCursor, page[i]) && |Rest(rows, Some(page[i].cursor))| < |Rest(rows, scanCursor)|
    ensures var done' := if listed then done + [page[i]] else done;
      if |done'| < limit
      then AtRow(who, rows, ans, from, to, cursor, limit, done', Some(page[i].cursor), page, i + 1, n)
      else Lists(who, rows, ans, from, to, cursor, limit, done')
  {
    var done' := if listed then done + [page[i]] else done;
    OwedLess(who, rows, ans, from, t, to, cursor, done, page[i..], EndOf(page, n), listed);
    assert page[i..][1..] == page[i + 1..];
    ReachRow(who, rows, ans, from, t, to, cursor, limit, done, scanCursor, page[i], listed);
    RestShrinks(rows, scanCursor, page[i]);
    if |done'| == limit { FullList(who, rows, ans, from, to, cursor, limit, done', page, i, n); }
    hide Before, Owed, Complete, Rest, Steady, EndOf, Found, InPlace, Reaches;
  }

  /** A page is used up: the scan stands at its last row, and a page that was not full was the last. */
  lemma ClosePage(who: Reader, rows: seq<Row>, ans: Answers, from: nat, t: nat, cursor: Option<Cursor>, limit: nat,
                  done: seq<Row>, scanCursor: Option<Cursor>, page: seq<Row>, n: nat)
    requires AtRow(who, rows, ans, from, t, cursor, limit, done, scanCursor, page, |page|, n)
    ensures page != [] ==> AtHead(who, rows, ans, from, t, cursor, limit, done, scanCursor)
    ensures |page| < n ==> Lists(who, rows, ans, from, t, cursor, limit, done)
  {
    hide Before, Steady, Found, Reaches, Ordered;
  }

  // ---- The store's batched scan ----

  /** The batch that one query reads: the rows of the table past the cursor, in order, at most 100. */
  function Batch(rows: seq<Row>, ans: Answers, t: nat, cursor: Option<Cursor>): seq<Row> {
    Page(rows, PresentAt(ans, t), SCAN_BATCH, cursor)
  }

  lemma BatchFacts(rows: seq<Row>, ans: Answers, t: nat, cursor: Option<Cursor>)
    requires Ordered(rows)
    ensures InPlace(rows, cursor, SCAN_BATCH, Batch(rows, ans, t, cursor))
    ensures var batch := Batch(rows, ans, t, cursor); forall j | 0 <= j < |batch| :: batch[j] in batch && ans.present(t, batch[j])
    ensures Complete(Store, rows, ans, t, t + 1, cursor, SCAN_BATCH, Batch(rows, ans, t, cursor))
  {
    PageIsOrdered(rows, PresentAt(ans, t), SCAN_BATCH, cursor);
    forall row | row in rows && Past(cursor, row) && Steady(Store, ans, row, t, t + 1)
      ensures var page := Batch(rows, ans, t, cursor);
        row in page || (0 < |page| == SCAN_BATCH && Before(page[|page| - 1].cursor, row.cursor)) {
      assert Passes(Store, ans)(t, row);
      PageMisses(rows, PresentAt(ans, t), SCAN_BATCH, cursor, row);
    }
    hide Page, Ordered, Past, Before;
  }

  lemma ShownNow(ans: Answers, row: Row, from: nat, b: nat, v: nat)
    requires from <= b < v && ans.present(b, row)
    ensures if ans.visible(v, row) then Found(Store, ans, row, from, v + 1) else !Steady(Store, ans, row, from, v + 1)
  {
    if !ans.visible(v, row) { assert !Passes(Store, ans)(v, row); }
  }

  /** One batch: every row is looked at in turn, until the list is full. */
  method ShowBatch(rows: seq<Row>, ans: Answers, start: nat, limit: int, cursor: Option<Cursor>,
                   batch: seq<Row>, read: nat, records: seq<Row>, scanCursor: Option<Cursor>, t: nat)
    returns (shown: seq<Row>, reached: Option<Cursor>, after: nat)
    requires Ordered(rows) && start <= read < t && |records| < limit
    requires forall j | 0 <= j < |batch| :: ans.present(read, batch[j])
    requires AtRow(Store, rows, ans, start, t, cursor, limit, records, scanCursor, batch, 0, SCAN_BATCH)
    ensures t <= after && |shown| <= limit
    ensures if |shown| == limit then Lists(Store, rows, ans, start, after, cursor, limit, shown)
            else AtRow(Store, rows, ans, start, after, cursor, limit, shown, reached, batch, |batch|, SCAN_BATCH)
    ensures batch != [] ==> |Rest(rows, reached)| < |Rest(rows, scanCursor)|
  {
    hide *;
    shown, reached, after := records, scanCursor, t;
    for i := 0 to |batch|
      invariant start <= read < after && t <= after && |shown| < limit
      invariant AtRow(Store, rows, ans, start, after, cursor, limit, shown, reached, batch, i, SCAN_BATCH)
      invariant i > 0 ==> |Rest(rows, reached)| < |Rest(rows, scanCursor)|
      invariant i == 0 ==> reached == scanCursor
    {
      var row := batch[i];
      ShownNow(ans, row, start, read, after);
      LookAt(Store, rows, ans, start, after, after + 1, cursor, limit, shown, reached, batch, i, SCAN_BATCH, ans.visible(after, row));
      reached := Some(row.cursor);
      var visible := ans.visible(after, row);
      after := after + 1;
      if visible {
        shown := shown + [row];
        if |shown| == limit { return; }
      }
    }
  }

  /**
   The store's scan, over every row that is finalized at some point of the call;
   the next read is number `start` before it and number `t` after it.
   */
  method ScanFinalizedUnreviewed(rows: seq<Row>, ans: Answers, start: nat, limit: int, cursor: Option<Cursor>)
    returns (r: Result<seq<Row>, Error>, t: nat)
    requires Ordered(rows)
    ensures r.Ok? <==> 1 <= limit <= MAX_LIMIT
    ensures r.Ok? ==> start < t && Lists(Store, rows, ans, start, t, cursor, limit, r.value)
  {
    t := start;
    if !(1 <= limit <= MAX_LIMIT) { return Err(Invalid), t; }
    var scanCursor := cursor;
    var records: seq<Row> := [];
    NothingListed(Store, rows, ans, start, cursor, limit);
    hide *;
    while |records| < limit
      invariant start <= t && |records| < limit
      invariant AtHead(Store, rows, ans, start, t, cursor, limit, records, scanCursor)
      decreases |Rest(rows, scanCursor)|
    {
      var batch := Batch(rows, ans, t, scanCursor);
      BatchFacts(rows, ans, t, scanCursor);
      OpenPage(Store, rows, ans, start, t, t + 1, cursor, limit, records, scanCursor, batch, SCAN_BATCH);
      records, scanCursor, t := ShowBatch(rows, ans, start, limit, cursor, batch, t, records, scanCursor, t + 1);
      if |records| < limit {
        ClosePage(Store, rows, ans, start, t, cursor, limit, records, scanCursor, batch, SCAN_BATCH);
      }
      if |batch| < SCAN_BATCH || |records| == limit { break; }
    }
    return Ok(records), t;
  }

  // ---- The service's loop over pages ----

  lemma ConfirmedNow(ans: Answers, row: Row, from: nat, t: nat, u: nat)
    requires from <= t <= u && Seen(ans, row, from, t)
    ensures if ans.confirmed(u, row) then Found(Service, ans, row, from, u + 1) else !Steady(Service, ans, row, from, u + 1)
  {
    if !ans.confirmed(u, row) { assert !Passes(Service, ans)(u, row); }
  }

  /** A row that the service would pass throughout is one that the store shows throughout. */
  lemma ScanServes(rows: seq<Row>, ans: Answers, from: nat, t: nat, to: nat, cursor: Option<Cursor>, n: nat, page: seq<Row>)
    requires from <= t && Lists(Store, rows, ans, t, to, cursor, n, page)
    ensures InPlace(rows, cursor, n, page) && Complete(Service, rows, ans, t, to, cursor, n, page)
    ensures forall j | 0 <= j < |page| :: Seen(ans, page[j], from, to)
  {
    hide Past, Before, InPlace;
    forall row | Steady(Service, ans, row, t, to) ensures Steady(Store, ans, row, t, to) {
      forall k: nat | t <= k < to ensures Passes(Store, ans)(k, row) {
        assert Passes(Service, ans)(k, row);
      }
    }
    forall j | 0 <= j < |page| ensures Seen(ans, page[j], from, to) {
      assert Found(Store, ans, page[j], t, to);
    }
  }

  lemma PastMeans(cursor: Option<Cursor>, row: Row)
    ensures Past(cursor, row) <==> cursor.None? || Before(cursor.value, row.cursor)
  {
  }

  lemma ConfirmAt(rows: seq<Row>, ans: Answers, start: nat, after: nat, t: nat, cursor: Option<Cursor>, limit: nat,
                  done: seq<Row>, scanCursor: Option<Cursor>, page: seq<Row>, i: nat, n: nat)
    requires Ordered(rows) && AtRow(Service, rows, ans, start, t, cursor, limit, done, scanCursor, page, i, n)
    requires i < |page| && start <= after <= t && Seen(ans, page[i], start, after)
    ensures scanCursor.None? || Before(scanCursor.value, page[i].cursor)
    ensures |Rest(rows, Some(page[i].cursor))| < |Rest(rows, scanCursor)|
    ensures var done' := if ans.confirmed(t, page[i]) then done + [page[i]] else done;
      if |done'| < limit
      then AtRow(Service, rows, ans, start, t + 1, cursor, limit, done', Some(page[i].cursor), page, i + 1, n)
      else Lists(Service, rows, ans, start, t + 1, cursor, limit, done')
  {
    hide *;
    PastMeans(scanCursor, page[i]);
    ConfirmedNow(ans, page[i], start, after, t);
    LookAt(Service, rows, ans, start, t, t + 1, cursor, limit, done, scanCursor, page, i, n, ans.confirmed(t, page[i]));
  }

  /** One page of the store: every row is confirmed in turn, until the list is full. */
  method ConfirmPage(rows: seq<Row>, ans: Answers, start: nat, limit: int, cursor: Option<Cursor>, page: seq<Row>, n: nat,
                     discovered: seq<Row>, scanCursor: Option<Cursor>, t: nat)
    returns (listed: seq<Row>, reached: Option<Cursor>, after: nat, progressed: bool)
    requires Ordered(rows) && start <= t && |discovered| < limit
    requires forall j | 0 <= j < |page| :: Seen(ans, page[j], start, t)
    requires AtRow(Service, rows, ans, start, t, cursor, limit, discovered, scanCursor, page, 0, n)
    ensures t <= after && |listed| <= limit && (progressed <==> page != [])
    ensures if |listed| == limit then Lists(Service, rows, ans, start, after, cursor, limit, listed)
            else AtRow(Service, rows, ans, start, after, cursor, limit, listed, reached, page, |page|, n)
    ensures page != [] ==> |Rest(rows, reached)| < |Rest(rows, scanCursor)|
  {
    hide *;
    listed, reached, after, progressed := discovered, scanCursor, t, false;
    for i := 0 to |page|
      invariant t <= after && |listed| < limit && (progressed <==> i > 0)
      invariant AtRow(Service, rows, ans, start, after, cursor, limit, listed, reached, page, i, n)
      invariant i > 0 ==> |Rest(rows, reached)| < |Rest(rows, scanCursor)|
      invariant i == 0 ==> reached == scanCursor
    {
      var row := page[i];
      ConfirmAt(rows, ans, start, t, after, cursor, limit, listed, reached, page, i, n);
      if reached.Some? && !Before(reached.value, row.cursor) { continue; }
      reached, progressed := Some(row.cursor), true;
      var confirmed := ans.confirmed(after, row);
      after := after + 1;
      if confirmed {
        listed := listed + [row];
        if |listed| == limit { return; }
      }
    }
  }

  /** The service: each row of a store page is confirmed once more before it is listed. */
  method ListFinalizedUnreviewed(rows: seq<Row>, ans: Answers, start: nat, limit: int, cursor: Option<Cursor>)
    returns (r: Result<seq<Row>, Error>, t: nat)
    requires Ordered(rows)
    ensures r.Ok? <==> 1 <= limit <= MAX_LIMIT
    ensures r.Ok? ==> start <= t && Lists(Service, rows, ans, start, t, cursor, limit, r.value)
  {
    t := start;
    if !(1 <= limit <= MAX_LIMIT) { return Err(Invalid), t; }
    var scanCursor := cursor;
    var discovered: seq<Row> := [];
    NothingListed(Service, rows, ans, start, cursor, limit);
    hide *;
    while |discovered| < limit
      invariant start <= t && |discovered| <= limit
      invariant |discovered| == limit ==> Lists(Service, rows, ans, start, t, cursor, limit, discovered)
      invariant |discovered| < limit ==> AtHead(Service, rows, ans, start, t, cursor, limit, discovered, scanCursor)
      decreases |discovered| < limit, |Rest(rows, scanCursor)|
    {
      var remaining := limit - |discovered|;
      var listed, after := ScanFinalizedUnreviewed(rows, ans, t, remaining, scanCursor);
      var page := listed.value;
      ScanServes(rows, ans, start, t, after, scanCursor, remaining, page);
      OpenPage(Service, rows, ans, start, t, after, cursor, limit, discovered, scanCursor, page, remaining);
      var progressed;
      discovered, scanCursor, t, progressed := ConfirmPage(rows, ans, start, limit, cursor, page, remaining, discovered, scanCursor, after);
      if |discovered| < limit {
        ClosePage(Service, rows, ans, start, t, cursor, limit, discovered, scanCursor, page, remaining);
      }
      if !progressed { break; }
    }
    return Ok(discovered), t;
  }
}
