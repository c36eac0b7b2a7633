/**
 The shared append-only audit log, and the two queries that expose one scope
 of it under scope-local sequence numbers.
 */
module AuditLog {
  import opened Basics
  import opened ScopedKeys

  /** Evidence a caller attaches to a mutation. The field checks of the store are folded into `wellFormed`. */
  datatype AuditContext = AuditContext(targetId: string, wellFormed: bool)

  /** The evidence is absent, or passes the store's checks: otherwise the whole transaction rolls back. */
  predicate AuditAdmitted(audit: Option<AuditContext>) {
    audit.Some? ==> audit.value.wellFormed
  }

  function AppendAudit(log: seq<AuditContext>, audit: Option<AuditContext>): seq<AuditContext> {
    if audit.Some? then log + [audit.value] else log
  }

  datatype AuditRow = AuditRow(sequence: int, eventId: string, targetId: string)

  /** What the table's keys guarantee: ascending row sequences and unique event identifiers. */
  ghost predicate IsAuditTable(rows: seq<AuditRow>) {
    && (forall i, j | 0 <= i < j < |rows| :: rows[i].sequence < rows[j].sequence)
    && (forall i, j | 0 <= i < j < |rows| :: rows[i].eventId != rows[j].eventId)
  }

  /** `where substr(target_id, 1, length(prefix)) = prefix order by sequence` */
  function Scoped(rows: seq<AuditRow>, prefix: string): (r: seq<AuditRow>)
    ensures forall row :: row in r <==> row in rows && prefix <= row.targetId
  {
    if rows == [] then []
    else
      var front := Scoped(rows[..|rows| - 1], prefix);
      var last := rows[|rows| - 1];
      assert rows == rows[..|rows| - 1] + [last];
      if prefix <= last.targetId then front + [last] else front
  }

  datatype NumberedRow = NumberedRow(number: nat, row: AuditRow)

  /** One page of the scope, numbered from 1 before the cursor and the limit apply. */
  function ListScoped(rows: seq<AuditRow>, prefix: string, after: nat, limit: nat): seq<NumberedRow> {
    var scoped := Scoped(rows, prefix);
    var first := if after <= |scoped| then after else |scoped|;
    var past := if first + limit <= |scoped| then first + limit else |scoped|;
    seq(past - first, i requires 0 <= i < past - first => NumberedRow(first + i + 1, scoped[first + i]))
  }

  /** `count(*)` of the scope's rows up to and including one row sequence. */
  function CountUpTo(rows: seq<AuditRow>, prefix: string, sequence: int): nat {
    if rows == [] then 0
    else
      var last := rows[|rows| - 1];
      CountUpTo(rows[..|rows| - 1], prefix, sequence)
      + if prefix <= last.targetId && last.sequence <= sequence then 1 else 0
  }

  function FindEvent(rows: seq<AuditRow>, eventId: string): (r: Option<AuditRow>)
    ensures r.Some? ==> r.value in rows && r.value.eventId == eventId
    ensures r.None? ==> forall row | row in rows :: row.eventId != eventId
  {
    if rows == [] then None
    else if rows[0].eventId == eventId then Some(rows[0])
    else FindEvent(rows[1..], eventId)
  }

  /** The single-event read, numbered by counting instead of by listing. */
  function GetScoped(rows: seq<AuditRow>, prefix: string, eventId: string): Option<NumberedRow> {
    var found := FindEvent(rows, eventId);
    if found.None? || !(prefix <= found.value.targetId) then None
    else Some(NumberedRow(CountUpTo(rows, prefix, found.value.sequence), found.value))
  }

  lemma {:induction false} CountAll(rows: seq<AuditRow>, prefix: string, sequence: int)
    requires forall row | row in rows :: row.sequence <= sequence
    ensures CountUpTo(rows, prefix, sequence) == |Scoped(rows, prefix)|
  {
    if rows != [] {
      assert rows == rows[..|rows| - 1] + [rows[|rows| - 1]];
      CountAll(rows[..|rows| - 1], prefix, sequence);
    }
  }

  lemma LastRowEnds(rows: seq<AuditRow>, prefix: string)
    requires rows != [] && prefix <= rows[|rows| - 1].targetId
    requires forall other | other in rows[..|rows| - 1] :: other.sequence <= rows[|rows| - 1].sequence
    ensures var n := CountUpTo(rows, prefix, rows[|rows| - 1].sequence);
      1 <= n <= |Scoped(rows, prefix)| && Scoped(rows, prefix)[n - 1] == rows[|rows| - 1]
  {
    CountAll(rows[..|rows| - 1], prefix, rows[|rows| - 1].sequence);
  }

  lemma LaterRowAddsNothing(rows: seq<AuditRow>, prefix: string, sequence: int)
    requires rows != [] && sequence < rows[|rows| - 1].sequence
    ensures CountUpTo(rows, prefix, sequence) == CountUpTo(rows[..|rows| - 1], prefix, sequence)
    ensures Scoped(rows[..|rows| - 1], prefix) <= Scoped(rows, prefix)
  {
  }

  /** Counting up to a row of the scope gives the row's position in the scope. */
  lemma {:induction false} CountIsPosition(rows: seq<AuditRow>, prefix: string, row: AuditRow)
    requires IsAuditTable(rows) && row in rows && prefix <= row.targetId
    ensures var n := CountUpTo(rows, prefix, row.sequence);
      1 <= n <= |Scoped(rows, prefix)| && Scoped(rows, prefix)[n - 1] == row
  {
    hide CountUpTo, Scoped;
    var front, last := rows[..|rows| - 1], rows[|rows| - 1];
    forall other | other in front ensures other.sequence < last.sequence {
      var i :| 0 <= i < |front| && front[i] == other;
      assert rows[i].sequence < rows[|rows| - 1].sequence;
    }
    if row == last {
      LastRowEnds(rows, prefix);
    } else {
      assert row in front;
      LaterRowAddsNothing(rows, prefix, row.sequence);
      CountIsPosition(front, prefix, row);
    }
  }

  lemma TableExtends(rows: seq<AuditRow>, last: AuditRow)
    requires IsAuditTable(rows)
    requires forall row | row in rows :: row.sequence < last.sequence && row.eventId != last.eventId
    ensures IsAuditTable(rows + [last])
  {
    forall i | 0 <= i < |rows| ensures rows[i].sequence < last.sequence && rows[i].eventId != last.eventId {
      assert rows[i] in rows;
    }
  }

  lemma {:induction false} ScopedDistinct(rows: seq<AuditRow>, prefix: string)
    requires IsAuditTable(rows)
    ensures IsAuditTable(Scoped(rows, prefix))
  {
    if rows != [] {
      var front, last := rows[..|rows| - 1], rows[|rows| - 1];
      ScopedDistinct(front, prefix);
      var scoped := Scoped(front, prefix);
      forall row | row in scoped ensures row.sequence < last.sequence && row.eventId != last.eventId {
        var j :| 0 <= j < |front| && front[j] == row;
        assert rows[j] == row;
      }
      TableExtends(scoped, last);
    }
  }

  /**
   The listing and the single read agree: an event is read under number `n`
   exactly when the page of length one after `n - 1` shows that event.
   */
  lemma ListAndGetAgree(rows: seq<AuditRow>, prefix: string, eventId: string, numbered: NumberedRow)
    requires IsAuditTable(rows)
    ensures GetScoped(rows, prefix, eventId) == Some(numbered)
       <==> numbered.row.eventId == eventId && numbered.number >= 1
            && ListScoped(rows, prefix, numbered.number - 1, 1) == [numbered]
  {
    hide CountUpTo, Scoped, FindEvent;
    var scoped := Scoped(rows, prefix);
    if GetScoped(rows, prefix, eventId) == Some(numbered) {
      CountIsPosition(rows, prefix, numbered.row);
    }
    if numbered.row.eventId == eventId && numbered.number >= 1
       && ListScoped(rows, prefix, numbered.number - 1, 1) == [numbered] {
      var n := numbered.number;
      assert ListScoped(rows, prefix, n - 1, 1)[0] == numbered;
      assert scoped[n - 1] == numbered.row && scoped[n - 1] in scoped;
      var found := FindEvent(rows, eventId);
      assert found.Some? && found.value == numbered.row;
      CountIsPosition(rows, prefix, numbered.row);
      ScopedDistinct(rows, prefix);
    }
  }

  /** Filtering by one scope's prefix for a kind keeps exactly the events whose target is of that kind in that scope. */
  lemma ScopedIsOneScope(rows: seq<AuditRow>, scope: Scope, kind: string, row: AuditRow)
    requires IsKind(kind)
    requires forall other | other in rows ::
               exists s: Scope, k, id :: Qualify(s, k, id) == Some(other.targetId)
    ensures row in Scoped(rows, KindPrefix(scope, kind).value)
       <==> row in rows && exists id :: Qualify(scope, kind, id) == Some(row.targetId)
  {
    if row in rows {
      var s: Scope, k, id :| Qualify(s, k, id) == Some(row.targetId);
      KindPrefixSelects(scope, kind, s, k, id);
      forall id' | Qualify(scope, kind, id') == Some(row.targetId)
        ensures KindPrefix(scope, kind).value <= row.targetId
      {
        KindPrefixSelects(scope, kind, scope, kind, id');
      }
    }
  }

  /** Successive pages tile the scope: a page and the page after it make one longer page. */
  lemma PagesConcatenate(rows: seq<AuditRow>, prefix: string, after: nat, m: nat, n: nat)
    ensures ListScoped(rows, prefix, after, m) + ListScoped(rows, prefix, after + m, n)
         == ListScoped(rows, prefix, after, m + n)
  {
  }

  /** The rows of a scope up to one row, as a set. */
  function UpTo(rows: seq<AuditRow>, prefix: string, row: AuditRow): set<AuditRow> {
    set other | other in rows && prefix <= other.targetId && other.sequence <= row.sequence
  }

  lemma FrontOfTable(rows: seq<AuditRow>)
    requires IsAuditTable(rows) && rows != []
    ensures IsAuditTable(rows[..|rows| - 1]) && rows[|rows| - 1] !in rows[..|rows| - 1]
  {
    var front, last := rows[..|rows| - 1], rows[|rows| - 1];
    forall i | 0 <= i < |front| ensures front[i].eventId != last.eventId {
      assert rows[i] == front[i];
    }
  }

  lemma UpToSnoc(front: seq<AuditRow>, last: AuditRow, prefix: string, row: AuditRow)
    requires last !in front
    ensures |UpTo(front + [last], prefix, row)|
         == |UpTo(front, prefix, row)| + if prefix <= last.targetId && last.sequence <= row.sequence then 1 else 0
  {
    var before := UpTo(front, prefix, row);
    assert last !in before;
    assert UpTo(front + [last], prefix, row)
        == before + if prefix <= last.targetId && last.sequence <= row.sequence then {last} else {};
  }

  lemma {:induction false} CountIsSize(rows: seq<AuditRow>, prefix: string, row: AuditRow)
    requires IsAuditTable(rows)
    ensures CountUpTo(rows, prefix, row.sequence) == |UpTo(rows, prefix, row)|
  {
    if rows == [] {
      assert UpTo(rows, prefix, row) == {};
    } else {
      var front, last := rows[..|rows| - 1], rows[|rows| - 1];
      FrontOfTable(rows);
      hide UpTo, IsAuditTable;
      CountIsSize(front, prefix, row);
      UpToSnoc(front, last, prefix, row);
      assert rows == front + [last];
    }
  }

  /** In a scope's list every row stands at its own count, and nowhere else. */
  lemma PlaceIsCount(rows: seq<AuditRow>, prefix: string, row: AuditRow, k: nat)
    requires IsAuditTable(rows)
    ensures k < |Scoped(rows, prefix)| && Scoped(rows, prefix)[k] == row
       <==> row in rows && prefix <= row.targetId && |UpTo(rows, prefix, row)| == k + 1
  {
    var scoped := Scoped(rows, prefix);
    CountIsSize(rows, prefix, row);
    ScopedDistinct(rows, prefix);
    hide CountUpTo, Scoped, UpTo;
    if row in rows && prefix <= row.targetId {
      CountIsPosition(rows, prefix, row);
    } else if k < |scoped| {
      assert scoped[k] in scoped;
    }
  }

  /**
   A page, row by row: it holds a row of the scope under the number of scope rows
   up to it, exactly when that number is past the cursor and within the limit.
   */
  lemma PageIs(rows: seq<AuditRow>, prefix: string, after: nat, limit: nat, numbered: NumberedRow)
    requires IsAuditTable(rows)
    ensures numbered in ListScoped(rows, prefix, after, limit)
       <==> && numbered.row in rows && prefix <= numbered.row.targetId
            && numbered.number == |UpTo(rows, prefix, numbered.row)| && after < numbered.number <= after + limit
  {
    var scoped, page := Scoped(rows, prefix), ListScoped(rows, prefix, after, limit);
    hide Scoped, UpTo, IsAuditTable;
    if numbered.number > 0 {
      PlaceIsCount(rows, prefix, numbered.row, numbered.number - 1);
    }
    if after < numbered.number <= after + limit && numbered.number <= |scoped| && scoped[numbered.number - 1] == numbered.row {
      assert page[numbered.number - 1 - after] == numbered;
    }
    if numbered in page {
      var i :| 0 <= i < |page| && page[i] == numbered;
      assert scoped[after + i] == numbered.row;
    }
  }

  /** A page is numbered upwards without a gap. */
  lemma PageCounts(rows: seq<AuditRow>, prefix: string, after: nat, limit: nat)
    ensures var page := ListScoped(rows, prefix, after, limit);
      |page| <= limit && forall i | 0 <= i < |page| :: page[i].number == after + i + 1
  {
    hide Scoped;
  }
}
