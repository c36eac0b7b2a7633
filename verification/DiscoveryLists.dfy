/** What the lists that a reader returns amount to, while nothing changes and from one call to the next. */
module DiscoveryLists {
  import opened Basics
  import opened Discovery
  import opened DiscoveryScan

  // ---- Pages of a state that stands still ----

  lemma {:induction false} FirstInOrder(page: seq<Row>, kept: seq<Row>)
    requires Ordered(page) && Ordered(kept) && forall row | row in page :: row in kept
    requires page != [] ==> forall row | row in kept :: row in page || Before(page[|page| - 1].cursor, row.cursor)
    ensures page <= kept
  {
    hide Before;
    if page != [] {
      var front, last := page[..|page| - 1], page[|page| - 1];
      assert page == front + [last];
      forall row | row in kept && front != [] ensures row in front || Before(front[|front| - 1].cursor, row.cursor) {
        if row !in front && row != last {
          BeforeTransitive(front[|front| - 1].cursor, last.cursor, row.cursor);
        }
      }
      FirstInOrder(front, kept);
      NextInOrder(front, last, kept);
    }
  }

  lemma NextInOrder(front: seq<Row>, last: Row, kept: seq<Row>)
    requires Ordered(front + [last]) && Ordered(kept) && front <= kept && last in kept
    requires forall row | row in kept :: row in front + [last] || Before(last.cursor, row.cursor)
    ensures |front| < |kept| && kept[|front|] == last
  {
    hide Before;
    var n := |front|;
    OrderedFresh(front + [last], n);
    assert (front + [last])[..n] == front && last !in front;
    assert kept == front + kept[n..] && last in kept[n..];
    var j :| 0 <= j < |kept[n..]| && kept[n..][j] == last;
    assert kept[n + j] == last;
    OrderedFresh(kept, n);
    assert kept[..n] == front;
    BeforeIrreflexive(last.cursor);
    if Before(kept[n].cursor, last.cursor) && Before(last.cursor, kept[n].cursor) {
      BeforeTransitive(last.cursor, kept[n].cursor, last.cursor);
    }
    assert kept[n] in kept && kept[n] !in front;
  }

  /** In order, no row comes again. */
  lemma OrderedFresh(rows: seq<Row>, n: nat)
    requires Ordered(rows) && n < |rows|
    ensures rows[n] !in rows[..n]
  {
    BeforeIrreflexive(rows[n].cursor);
    hide Before;
  }

  /** While nothing changes, a reader lists exactly the first rows past the cursor that pass its tests. */
  lemma StillListing(who: Reader, rows: seq<Row>, ans: Answers, eligible: Row -> bool, from: nat, to: nat,
                     cursor: Option<Cursor>, limit: nat, page: seq<Row>)
    requires Ordered(rows) && Lists(who, rows, ans, from, to, cursor, limit, page)
    requires forall t: nat, row :: ans.present(t, row) == ans.present(0, row)
    requires forall t: nat, row :: ans.visible(t, row) == ans.visible(0, row)
    requires forall t: nat, row :: ans.confirmed(t, row) == ans.confirmed(0, row)
    requires forall row :: eligible(row) == Passes(who, ans)(0, row)
    ensures page == Page(rows, eligible, limit, cursor)
  {
    forall row | row in page ensures eligible(row) {
      assert Found(who, ans, row, from, to);
    }
    forall row | eligible(row) ensures Steady(who, ans, row, from, to) {
      forall t: nat ensures Passes(who, ans)(t, row) {
        assert Passes(who, ans)(0, row);
      }
    }
    hide Found, Steady;
    StillPage(who, rows, ans, eligible, from, to, cursor, limit, page);
  }

  lemma StillPage(who: Reader, rows: seq<Row>, ans: Answers, eligible: Row -> bool, from: nat, to: nat,
                  cursor: Option<Cursor>, limit: nat, page: seq<Row>)
    requires Ordered(rows) && InPlace(rows, cursor, limit, page) && Complete(who, rows, ans, from, to, cursor, limit, page)
    requires forall row | row in page :: eligible(row)
    requires forall row | eligible(row) :: Steady(who, ans, row, from, to)
    ensures page == Page(rows, eligible, limit, cursor)
  {
    var rest := Rest(rows, cursor);
    var kept := Kept(rest, eligible);
    RestOrdered(rows, cursor);
    KeptOrdered(rest, eligible);
    hide Before, Past, Rest, Kept, Steady;
    forall row | row in page ensures row in kept {
      InRest(rows, cursor, row);
      InKept(rest, eligible, row);
    }
    forall row | row in kept
      ensures row in page || (0 < |page| == limit && Before(page[|page| - 1].cursor, row.cursor)) {
      var j :| 0 <= j < |kept| && kept[j] == row;
      KeptMember(rest, eligible, j);
      var k :| 0 <= k < |rest| && rest[k] == row;
      RestMember(rows, cursor, k);
    }
    FirstInOrder(page, kept);
    if |page| < |kept| {
      OrderedFresh(kept, |page|);
      assert kept[..|page|] == page && kept[|page|] in kept;
    }
  }

  /**
   A client that resumes from the last row it was given, whatever changed since:
   no row comes twice, the order goes on, and every row that passed throughout
   both calls is in one of the two lists, unless the second is full and ends
   before it.
   */
  lemma ResumedListing(who: Reader, rows: seq<Row>, ans: Answers, from: nat, t: nat, t': nat, to: nat, cursor: Option<Cursor>,
                       a: nat, b: nat, page: seq<Row>, next: seq<Row>)
    requires from <= t <= t' <= to && page != []
    requires Lists(who, rows, ans, from, t, cursor, a, page)
    requires Lists(who, rows, ans, t', to, Some(page[|page| - 1].cursor), b, next)
    ensures Ordered(page + next)
    ensures forall row | row in rows && Past(cursor, row) && Steady(who, ans, row, from, to) ::
              row in page + next || (0 < |next| == b && Before(next[|next| - 1].cursor, row.cursor))
  {
    var last := page[|page| - 1];
    hide Before, Found;
    forall row | row in next ensures Before(last.cursor, row.cursor) {
    }
    forall row, other | row in page && other in next ensures Before(row.cursor, other.cursor) {
      if row != last { BeforeTransitive(row.cursor, last.cursor, other.cursor); }
    }
    forall row | row in rows && Past(cursor, row) && Steady(who, ans, row, from, to)
      ensures row in page + next || (0 < |next| == b && Before(next[|next| - 1].cursor, row.cursor)) {
      SteadyBefore(who, ans, row, from, t, to);
      SteadyBefore(who, ans, row, t, t', to);
    }
  }
}
