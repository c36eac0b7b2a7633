/**
 Paging over a fixed table: the order of the scan, and one simple definition of
 the page that a reader owes its caller.
 */
module Discovery {
  import opened Basics
  import opened SortedByName

  datatype Cursor = Cursor(finalizedAt: int, publicationKey: string)

  /** One finalized row of one scope; `content` stands for its other columns. */
  datatype Row = Row(cursor: Cursor, content: string)

  // ---- The order of the scan ----

  /** Publication keys are ASCII, so their characters are their bytes. */
  function KeyBytes(key: string): seq<nat> {
    seq(|key|, i requires 0 <= i < |key| => key[i] as nat)
  }

  /** `finalized_at_us` first, then the key by its bytes. */
  predicate Before(a: Cursor, b: Cursor) {
    || a.finalizedAt < b.finalizedAt
    || (a.finalizedAt == b.finalizedAt && Below(KeyBytes(a.publicationKey), KeyBytes(b.publicationKey)))
  }

  predicate Past(cursor: Option<Cursor>, row: Row) {
    cursor.None? || Before(cursor.value, row.cursor)
  }

  /** What `ORDER BY finalized_at_us, publication_key` yields: the keys of one scope are distinct. */
  predicate Ordered(rows: seq<Row>) {
    forall i, j | 0 <= i < j < |rows| :: Before(rows[i].cursor, rows[j].cursor)
  }

  /** The key comes first by its characters: a proper prefix of the other, or smaller where they first differ. */
  ghost predicate KeyPrecedes(a: string, b: string) {
    || (|a| < |b| && a == b[..|a|])
    || exists k :: 0 <= k < |a| && k < |b| && a[..k] == b[..k] && a[k] < b[k]
  }

  /** Earlier finalized comes first, and at one time the smaller key does. */
  lemma BeforeMeans(a: Cursor, b: Cursor)
    ensures Before(a, b)
       <==> a.finalizedAt < b.finalizedAt
            || (a.finalizedAt == b.finalizedAt && KeyPrecedes(a.publicationKey, b.publicationKey))
  {
    BelowPrecedes(KeyBytes(a.publicationKey), KeyBytes(b.publicationKey));
    KeyBytesPrecede(a.publicationKey, b.publicationKey);
    hide Below, Precedes, KeyPrecedes;
  }

  lemma KeyBytesPrecede(a: string, b: string)
    ensures Precedes(KeyBytes(a), KeyBytes(b)) <==> KeyPrecedes(a, b)
  {
    var x, y := KeyBytes(a), KeyBytes(b);
    forall k | 0 <= k <= |a| && k <= |b| ensures x[..k] == y[..k] <==> a[..k] == b[..k] {
      if x[..k] == y[..k] {
        forall i | 0 <= i < k ensures a[i] == b[i] {
          assert x[..k][i] == y[..k][i];
        }
      }
      if a[..k] == b[..k] {
        forall i | 0 <= i < k ensures x[i] == y[i] {
          assert a[..k][i] == b[..k][i];
        }
      }
    }
    assert x[..|a|] == x && a[..|a|] == a;
  }

  lemma BeforeIrreflexive(a: Cursor)
    ensures !Before(a, a)
  {
    BelowTotal(KeyBytes(a.publicationKey), KeyBytes(a.publicationKey));
  }

  lemma BeforeTransitive(a: Cursor, b: Cursor, c: Cursor)
    requires Before(a, b) && Before(b, c)
    ensures Before(a, c)
  {
    if a.finalizedAt == b.finalizedAt == c.finalizedAt {
      BelowTransitive(KeyBytes(a.publicationKey), KeyBytes(b.publicationKey), KeyBytes(c.publicationKey));
    }
  }

  // ---- One page, defined simply ----

  function Kept(rows: seq<Row>, keep: Row -> bool): seq<Row> {
    if rows == [] then []
    else if keep(rows[0]) then [rows[0]] + Kept(rows[1..], keep)
    else Kept(rows[1..], keep)
  }

  function First(rows: seq<Row>, n: nat): seq<Row> {
    if |rows| <= n then rows else rows[..n]
  }

  /** The rows strictly after a cursor. */
  function Rest(rows: seq<Row>, cursor: Option<Cursor>): seq<Row> {
    if rows == [] then []
    else if Past(cursor, rows[0]) then [rows[0]] + Rest(rows[1..], cursor)
    else Rest(rows[1..], cursor)
  }

  /** The first `limit` eligible rows strictly after the cursor. */
  function Page(rows: seq<Row>, eligible: Row -> bool, limit: nat, cursor: Option<Cursor>): seq<Row> {
    First(Kept(Rest(rows, cursor), eligible), limit)
  }

  // ---- Facts about the definition ----

  lemma {:induction false} KeptMember(rows: seq<Row>, keep: Row -> bool, j: nat)
    requires j < |Kept(rows, keep)|
    ensures keep(Kept(rows, keep)[j]) && Kept(rows, keep)[j] in rows
  {
    if keep(rows[0]) {
      if j > 0 { KeptMember(rows[1..], keep, j - 1); }
    } else {
      KeptMember(rows[1..], keep, j);
    }
  }

  /** The `j`-th kept row, and what is kept of the rows behind it. */
  lemma {:induction false} SkipTo(rows: seq<Row>, keep: Row -> bool, j: nat) returns (m: nat)
    requires j < |Kept(rows, keep)|
    ensures m < |rows| && rows[m] == Kept(rows, keep)[j]
    ensures Kept(rows[m + 1..], keep) == Kept(rows, keep)[j + 1..]
  {
    if keep(rows[0]) && j == 0 {
      m := 0;
    } else {
      m := SkipTo(rows[1..], keep, if keep(rows[0]) then j - 1 else j);
      assert rows[1..][m + 1..] == rows[m + 2..];
      m := m + 1;
    }
  }

  lemma {:induction false} RestMember(rows: seq<Row>, cursor: Option<Cursor>, j: nat)
    requires j < |Rest(rows, cursor)|
    ensures Past(cursor, Rest(rows, cursor)[j]) && Rest(rows, cursor)[j] in rows
  {
    hide Past;
    if Past(cursor, rows[0]) {
      if j > 0 { RestMember(rows[1..], cursor, j - 1); }
    } else {
      RestMember(rows[1..], cursor, j);
    }
  }

  lemma {:induction false} RestOfAll(rows: seq<Row>, cursor: Option<Cursor>)
    requires forall row | row in rows :: Past(cursor, row)
    ensures Rest(rows, cursor) == rows
  {
    hide Past;
    if rows != [] {
      RestOfAll(rows[1..], cursor);
    }
  }

  lemma RestFromFirst(rows: seq<Row>, cursor: Option<Cursor>)
    requires Ordered(rows) && rows != [] && Past(cursor, rows[0])
    ensures Rest(rows[1..], cursor) == rows[1..]
  {
    forall row | row in rows[1..] ensures Past(cursor, row) {
      if cursor.Some? { BeforeTransitive(cursor.value, rows[0].cursor, row.cursor); }
    }
    RestOfAll(rows[1..], cursor);
  }

  /** Resuming from a row's own cursor leaves exactly the rows behind it. */
  lemma {:induction false} RestOfRest(rows: seq<Row>, cursor: Option<Cursor>, i: nat)
    requires Ordered(rows) && i < |Rest(rows, cursor)|
    ensures Rest(rows, Some(Rest(rows, cursor)[i].cursor)) == Rest(rows, cursor)[i + 1..]
  {
    var row := Rest(rows, cursor)[i];
    if i == 0 && Past(cursor, rows[0]) {
      BeforeIrreflexive(row.cursor);
      RestFromFirst(rows, cursor);
      RestFromFirst(rows, None);
      forall later | later in rows[1..] ensures Past(Some(row.cursor), later) {
      }
      RestOfAll(rows[1..], Some(row.cursor));
    } else {
      var j := if Past(cursor, rows[0]) then i - 1 else i;
      RestMember(rows[1..], cursor, j);
      RestOfRest(rows[1..], cursor, j);
      NotPastLater(rows, row);
    }
  }

  lemma NotPastLater(rows: seq<Row>, row: Row)
    requires Ordered(rows) && rows != [] && row in rows[1..]
    ensures !Past(Some(row.cursor), rows[0])
  {
    BeforeIrreflexive(row.cursor);
    if Past(Some(row.cursor), rows[0]) {
      BeforeTransitive(row.cursor, rows[0].cursor, row.cursor);
    }
  }

  lemma {:induction false} KeptOrdered(rows: seq<Row>, keep: Row -> bool)
    requires Ordered(rows)
    ensures Ordered(Kept(rows, keep))
  {
    if rows != [] {
      KeptOrdered(rows[1..], keep);
      if keep(rows[0]) {
        var kept := Kept(rows[1..], keep);
        forall j | 0 <= j < |kept| ensures Before(rows[0].cursor, kept[j].cursor) {
          KeptMember(rows[1..], keep, j);
          var k :| 0 <= k < |rows[1..]| && rows[1..][k] == kept[j];
          assert rows[k + 1] == kept[j];
        }
      }
    }
  }

  lemma {:induction false} RestOrdered(rows: seq<Row>, cursor: Option<Cursor>)
    requires Ordered(rows)
    ensures Ordered(Rest(rows, cursor))
  {
    if rows != [] {
      if Past(cursor, rows[0]) {
        RestFromFirst(rows, cursor);
      } else {
        RestOrdered(rows[1..], cursor);
      }
    }
  }

  lemma OrderedPrefix(rows: seq<Row>, n: nat)
    requires Ordered(rows)
    ensures Ordered(First(rows, n))
  {
  }

  /** Every listed row is eligible and past the cursor, and the rows come in strict order, so none comes twice. */
  lemma PageIsOrdered(rows: seq<Row>, eligible: Row -> bool, limit: nat, cursor: Option<Cursor>)
    requires Ordered(rows)
    ensures Ordered(Page(rows, eligible, limit, cursor)) && |Page(rows, eligible, limit, cursor)| <= limit
    ensures forall row | row in Page(rows, eligible, limit, cursor) :: row in rows && eligible(row) && Past(cursor, row)
  {
    RestOrdered(rows, cursor);
    var rest := Rest(rows, cursor);
    KeptOrdered(rest, eligible);
    hide Ordered, Rest, Kept, Past;
    forall row | row in Page(rows, eligible, limit, cursor) ensures row in rows && eligible(row) && Past(cursor, row) {
      var j :| 0 <= j < |Kept(rest, eligible)| && Kept(rest, eligible)[j] == row;
      KeptMember(rest, eligible, j);
      var k :| 0 <= k < |rest| && rest[k] == row;
      RestMember(rows, cursor, k);
    }
    OrderedPrefix(Kept(rest, eligible), limit);
  }

  lemma {:induction false} InKept(rows: seq<Row>, keep: Row -> bool, row: Row)
    requires row in rows && keep(row)
    ensures row in Kept(rows, keep)
  {
    if row != rows[0] {
      InKept(rows[1..], keep, row);
    }
  }

  lemma {:induction false} InRest(rows: seq<Row>, cursor: Option<Cursor>, row: Row)
    requires row in rows && Past(cursor, row)
    ensures row in Rest(rows, cursor)
  {
    hide Past;
    if row != rows[0] {
      InRest(rows[1..], cursor, row);
    }
  }

  /** A page misses an eligible row only when it is full and ends before that row. */
  lemma PageMisses(rows: seq<Row>, eligible: Row -> bool, limit: nat, cursor: Option<Cursor>, row: Row)
    requires Ordered(rows) && row in rows && eligible(row) && Past(cursor, row)
    ensures var page := Page(rows, eligible, limit, cursor);
      row in page || (|page| == limit && (page != [] ==> Before(page[limit - 1].cursor, row.cursor)))
  {
    InRest(rows, cursor, row);
    InKept(Rest(rows, cursor), eligible, row);
    RestOrdered(rows, cursor);
    KeptOrdered(Rest(rows, cursor), eligible);
    hide Rest, Kept, Past, Before;
    var kept := Kept(Rest(rows, cursor), eligible);
    var j :| 0 <= j < |kept| && kept[j] == row;
    if j < limit { assert First(kept, limit)[j] == row; }
  }

  /** Resuming behind a row that a scan has come to leaves fewer rows. */
  lemma RestShrinks(rows: seq<Row>, cursor: Option<Cursor>, row: Row)
    requires Ordered(rows) && row in rows && Past(cursor, row)
    ensures |Rest(rows, Some(row.cursor))| < |Rest(rows, cursor)|
  {
    InRest(rows, cursor, row);
    hide Past;
    var i :| 0 <= i < |Rest(rows, cursor)| && Rest(rows, cursor)[i] == row;
    RestOfRest(rows, cursor, i);
  }

  // ---- Pages ----

  /** Resuming from the last row of a page neither repeats nor skips a row. */
  lemma PagesConcatenate(rows: seq<Row>, eligible: Row -> bool, a: nat, b: nat, cursor: Option<Cursor>)
    requires Ordered(rows)
    ensures var page := Page(rows, eligible, a, cursor);
      page != [] ==>
        page + Page(rows, eligible, b, Some(page[|page| - 1].cursor)) == Page(rows, eligible, a + b, cursor)
  {
    var page := Page(rows, eligible, a, cursor);
    if page != [] {
      var rest := Rest(rows, cursor);
      var m := SkipTo(rest, eligible, |page| - 1);
      RestOfRest(rows, cursor, m);
    }
    hide Ordered, Rest, Kept, Past;
  }
}
