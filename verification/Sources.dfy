/**
 `get_research_sources` (api/routes/sources.py): stateless pages over the sources
 of a job, newest first, each continuing where the cursor of the last one points.
 */
module Sources {

  datatype Row = Row(jobId: string, fetchedAt: int, id: string)

  /** What the `cursor` parameter decodes to; an empty one counts as absent. */
  datatype Cursor = Absent | Malformed | At(fetchedAt: int, id: string)

  datatype Response =
    | JobNotFound
    | InvalidCursor
    | Page(items: seq<Row>, nextCursor: Cursor, hasMore: bool)

  /** Strings in the order of their characters. */
  predicate Less(a: string, b: string) {
    b != "" && (a == "" || a[0] < b[0] || (a[0] == b[0] && Less(a[1..], b[1..])))
  }

  lemma {:induction false} LessOrders(a: string, b: string, c: string)
    ensures !Less(a, a)
    ensures Less(a, b) && Less(b, c) ==> Less(a, c)
    ensures a == b || Less(a, b) || Less(b, a)
  {
    if a != "" && b != "" {
      LessOrders(a[1..], b[1..], if c == "" then "" else c[1..]);
      assert a == [a[0]] + a[1..] && b == [b[0]] + b[1..];
    } else if a != "" {
      LessOrders(a[1..], "", "");
    }
  }

  /** The filter of a page: strictly older than what the cursor names. */
  predicate Older(fetchedAt: int, id: string, than: Cursor) {
    than.At? ==> fetchedAt < than.fetchedAt || (fetchedAt == than.fetchedAt && Less(id, than.id))
  }

  predicate After(r: Row, s: Row) {
    Older(r.fetchedAt, r.id, At(s.fetchedAt, s.id))
  }

  lemma AfterOrders(r: Row, s: Row, t: Row)
    ensures !After(r, r)
    ensures After(r, s) && After(s, t) ==> After(r, t)
    ensures r.id != s.id ==> After(r, s) || After(s, r)
    ensures After(r, s) ==> !After(s, r)
  {
    LessOrders(r.id, s.id, t.id);
    LessOrders(r.id, s.id, r.id);
  }

  ghost predicate Descending(rows: seq<Row>) {
    forall i, j | 0 <= i < j < |rows| :: After(rows[j], rows[i])
  }

  /** Ids are unique: they are the table's primary key. */
  ghost predicate IsTable(rows: seq<Row>) {
    forall i, j | 0 <= i < j < |rows| :: rows[i].id != rows[j].id
  }

  /** Rows of one job older than the cursor, in storage order. */
  function Matching(table: seq<Row>, job: string, cursor: Cursor): seq<Row> {
    if table == [] then []
    else
      var rest := Matching(table[1..], job, cursor);
      if table[0].jobId == job && Older(table[0].fetchedAt, table[0].id, cursor) then [table[0]] + rest else rest
  }

  lemma {:induction false} MatchingMembers(table: seq<Row>, job: string, cursor: Cursor)
    ensures forall x :: x in Matching(table, job, cursor) <==>
              x in table && x.jobId == job && Older(x.fetchedAt, x.id, cursor)
  {
    if table != [] {
      MatchingMembers(table[1..], job, cursor);
      assert table == [table[0]] + table[1..];
    }
  }

  lemma {:induction false} MatchingIsTable(table: seq<Row>, job: string, cursor: Cursor)
    requires IsTable(table)
    ensures IsTable(Matching(table, job, cursor))
  {
    if table != [] {
      MatchingIsTable(table[1..], job, cursor);
      MatchingMembers(table[1..], job, cursor);
      forall x | x in Matching(table[1..], job, cursor) ensures x.id != table[0].id {
        assert x in table[1..];
      }
    }
  }

  function Insert(r: Row, rows: seq<Row>): (s: seq<Row>)
    ensures |s| == |rows| + 1 && forall x :: x in s <==> x == r || x in rows
  {
    if rows == [] || After(rows[0], r) then [r] + rows
    else
      assert rows == [rows[0]] + rows[1..];
      [rows[0]] + Insert(r, rows[1..])
  }

  /** ORDER BY fetched_at DESC, id DESC */
  function Sorted(rows: seq<Row>): seq<Row> {
    if rows == [] then [] else Insert(rows[0], Sorted(rows[1..]))
  }

  /** Sorting only rearranges. */
  lemma {:induction false} SortedMembers(rows: seq<Row>)
    ensures |Sorted(rows)| == |rows| && forall x :: x in Sorted(rows) <==> x in rows
  {
    if rows != [] {
      SortedMembers(rows[1..]);
      assert rows == [rows[0]] + rows[1..];
    }
  }

  lemma {:induction false} InsertDescending(r: Row, rows: seq<Row>)
    requires Descending(rows) && forall x | x in rows :: x.id != r.id
    ensures Descending(Insert(r, rows))
  {
    if rows != [] {
      if After(rows[0], r) {
        forall j | 0 < j < |rows| ensures After(rows[j], r) {
          AfterOrders(rows[j], rows[0], r);
        }
      } else {
        InsertDescending(r, rows[1..]);
        AfterOrders(r, rows[0], r);
        forall x | x in Insert(r, rows[1..]) ensures After(x, rows[0]) {
        }
      }
    }
  }

  lemma {:induction false} SortedDescending(rows: seq<Row>)
    requires IsTable(rows)
    ensures Descending(Sorted(rows))
  {
    if rows != [] {
      SortedDescending(rows[1..]);
      SortedMembers(rows[1..]);
      InsertDescending(rows[0], Sorted(rows[1..]));
    }
  }

  function GetSources(jobExists: bool, table: seq<Row>, job: string, limit: nat, cursor: Cursor): Response
    requires 1 <= limit <= 100
  {
    if !jobExists then JobNotFound
    else if cursor.Malformed? then InvalidCursor
    else
      var rows := Sorted(Matching(table, job, cursor));
      var fetched := if |rows| <= limit + 1 then rows else rows[..limit + 1];
      var hasMore := |fetched| > limit;
      var items := if hasMore then fetched[..limit] else fetched;
      Page(items, if items == [] then Absent else At(items[|items| - 1].fetchedAt, items[|items| - 1].id), hasMore)
  }

  /** A page is the newest rows behind the cursor, at most `limit`; its cursor names the last of them. */
  lemma {:induction false} PageIsPrefix(table: seq<Row>, job: string, limit: nat, cursor: Cursor)
    requires 1 <= limit <= 100 && !cursor.Malformed?
    ensures var rows := Sorted(Matching(table, job, cursor));
            var p := GetSources(true, table, job, limit, cursor);
            && p.Page? && p.hasMore == (|rows| > limit)
            && p.items == (if p.hasMore then rows[..limit] else rows)
            && p.nextCursor == if p.items == [] then Absent
                else At(p.items[|p.items| - 1].fetchedAt, p.items[|p.items| - 1].id)
  {
    hide Sorted, Matching;
    var rows := Sorted(Matching(table, job, cursor));
    if |rows| > limit + 1 {
      assert rows[..limit + 1][..limit] == rows[..limit];
    }
  }

  lemma {:induction false} RowsBehind(table: seq<Row>, job: string, cursor: Cursor)
    requires IsTable(table)
    ensures Descending(Sorted(Matching(table, job, cursor)))
    ensures forall x :: x in Sorted(Matching(table, job, cursor)) <==>
              x in table && x.jobId == job && Older(x.fetchedAt, x.id, cursor)
    ensures forall x :: x in Sorted(Matching(table, job, cursor)) <==> x in Matching(table, job, cursor)
    ensures |Sorted(Matching(table, job, cursor))| == |Matching(table, job, cursor)|
  {
    MatchingIsTable(table, job, cursor);
    SortedDescending(Matching(table, job, cursor));
    MatchingMembers(table, job, cursor);
    SortedMembers(Matching(table, job, cursor));
  }

  /** `hasMore` is true exactly if a row of the job remains behind the page. */
  lemma HasMoreIffRowsRemain(table: seq<Row>, job: string, limit: nat, cursor: Cursor)
    requires IsTable(table) && 1 <= limit <= 100 && !cursor.Malformed?
    ensures var p := GetSources(true, table, job, limit, cursor);
            p.hasMore <==> exists x :: x in Matching(table, job, cursor) && x !in p.items
  {
    hide GetSources, Sorted, Matching;
    var rows := Sorted(Matching(table, job, cursor));
    PageIsPrefix(table, job, limit, cursor);
    RowsBehind(table, job, cursor);
    if |rows| > limit {
      assert rows[limit] in rows;
      forall i | 0 <= i < limit ensures rows[i] != rows[limit] {
        AfterOrders(rows[limit], rows[i], rows[i]);
      }
      assert rows[limit] !in rows[..limit];
    }
  }

  /** One request of a walk: the table as it is then, and the page size asked for. */
  datatype Visit = Visit(table: seq<Row>, limit: nat)

  ghost predicate Visits(visits: seq<Visit>) {
    forall k | 0 <= k < |visits| :: IsTable(visits[k].table) && 1 <= visits[k].limit <= 100
  }

  /** Following the cursor from page to page while there is more. */
  function Walk(visits: seq<Visit>, job: string, cursor: Cursor): seq<Row>
    requires Visits(visits) && !cursor.Malformed?
  {
    if visits == [] then []
    else
      var p := GetSources(true, visits[0].table, job, visits[0].limit, cursor);
      p.items + if p.hasMore then Walk(visits[1..], job, p.nextCursor) else []
  }

  /** The walk got to a page without more. */
  predicate Finished(visits: seq<Visit>, job: string, cursor: Cursor)
    requires Visits(visits) && !cursor.Malformed?
  {
    if visits == [] then false
    else
      var p := GetSources(true, visits[0].table, job, visits[0].limit, cursor);
      !p.hasMore || Finished(visits[1..], job, p.nextCursor)
  }

  lemma {:induction false} WalkStep(visits: seq<Visit>, job: string, cursor: Cursor)
    requires Visits(visits) && !cursor.Malformed? && visits != []
    ensures Visits(visits[1..])
    ensures var rows := Sorted(Matching(visits[0].table, job, cursor));
            var limit := visits[0].limit;
            if |rows| <= limit then Walk(visits, job, cursor) == rows && Finished(visits, job, cursor)
            else
              var next := At(rows[limit - 1].fetchedAt, rows[limit - 1].id);
              && Walk(visits, job, cursor) == rows[..limit] + Walk(visits[1..], job, next)
              && (Finished(visits, job, cursor) <==> Finished(visits[1..], job, next))
  {
    hide Walk, Finished, GetSources, Sorted, Matching;
    PageIsPrefix(visits[0].table, job, visits[0].limit, cursor);
    var p := GetSources(true, visits[0].table, job, visits[0].limit, cursor);
    WalkUnfolds(visits, job, cursor, p);
    assert p.items + [] == p.items;
  }

  lemma WalkUnfolds(visits: seq<Visit>, job: string, cursor: Cursor, p: Response)
    requires Visits(visits) && !cursor.Malformed? && visits != [] && p.Page?
    requires p == GetSources(true, visits[0].table, job, visits[0].limit, cursor)
    ensures Visits(visits[1..]) && !p.nextCursor.Malformed?
    ensures Walk(visits, job, cursor) == p.items + if p.hasMore then Walk(visits[1..], job, p.nextCursor) else []
    ensures Finished(visits, job, cursor) <==> !p.hasMore || Finished(visits[1..], job, p.nextCursor)
  {
  }

  /** Whatever is inserted or deleted between the pages, a walk goes strictly down: no row comes twice. */
  lemma {:induction false} WalkDescends(visits: seq<Visit>, job: string, cursor: Cursor)
    requires Visits(visits) && !cursor.Malformed?
    ensures Descending(Walk(visits, job, cursor))
    ensures forall x | x in Walk(visits, job, cursor) :: x.jobId == job && Older(x.fetchedAt, x.id, cursor)
  {
    hide Walk, Finished, Sorted, Matching, Older;
    if visits == [] {
      assert Walk(visits, job, cursor) == [] by { EmptyWalk(job, cursor); }
    } else {
      var rows, limit := Sorted(Matching(visits[0].table, job, cursor)), visits[0].limit;
      WalkStep(visits, job, cursor);
      RowsBehind(visits[0].table, job, cursor);
      if |rows| > limit {
        var last := rows[limit - 1];
        var next := At(last.fetchedAt, last.id);
        WalkDescends(visits[1..], job, next);
        assert last in rows;
        forall i, y | 0 <= i < limit && y in Walk(visits[1..], job, next) ensures After(y, rows[i]) {
          AfterOrders(y, last, rows[i]);
        }
        forall y | y in Walk(visits[1..], job, next) ensures Older(y.fetchedAt, y.id, cursor) {
          OlderStill(y, last, cursor);
        }
      }
    }
  }

  lemma EmptyWalk(job: string, cursor: Cursor)
    requires !cursor.Malformed?
    ensures Walk([], job, cursor) == []
  {
  }

  lemma OlderStill(y: Row, x: Row, cursor: Cursor)
    requires After(y, x) && Older(x.fetchedAt, x.id, cursor)
    ensures Older(y.fetchedAt, y.id, cursor)
  {
    if cursor.At? {
      AfterOrders(y, x, Row("", cursor.fetchedAt, cursor.id));
    }
  }

  /** A finished walk has returned every row that was there at each of its pages. */
  lemma {:induction false} WalkMissesNothing(visits: seq<Visit>, job: string, cursor: Cursor, x: Row)
    requires Visits(visits) && !cursor.Malformed? && Finished(visits, job, cursor)
    requires x.jobId == job && Older(x.fetchedAt, x.id, cursor)
    requires forall k | 0 <= k < |visits| :: x in visits[k].table
    ensures x in Walk(visits, job, cursor)
  {
    hide Walk, Sorted, Matching, Older, GetSources;
    assert visits != [];
    var rows, limit := Sorted(Matching(visits[0].table, job, cursor)), visits[0].limit;
    WalkStep(visits, job, cursor);
    RowsBehind(visits[0].table, job, cursor);
    assert x in visits[0].table;
    assert x in rows;
    if |rows| > limit && x !in rows[..limit] {
      assert rows == rows[..limit] + rows[limit..];
      TailIsBehind(rows, limit, x);
      WalkMissesNothing(visits[1..], job, At(rows[limit - 1].fetchedAt, rows[limit - 1].id), x);
    }
  }

  lemma SomeRow(rows: seq<Row>)
    ensures rows == [] || exists x :: x in rows
  {
    if rows != [] {
      assert rows[0] in rows;
    }
  }

  /** Two descending lists of the same rows are the same list. */
  lemma {:induction false} SameRows(a: seq<Row>, b: seq<Row>)
    requires Descending(a) && Descending(b) && forall x :: x in a <==> x in b
    ensures a == b
  {
    if a == [] {
      SomeRow(b);
    } else {
      assert a[0] in a;
      var j :| 0 <= j < |b| && b[j] == a[0];
      assert b[0] in b;
      var i :| 0 <= i < |a| && a[i] == b[0];
      AfterOrders(a[0], b[0], a[0]);
      assert a[0] == b[0];
      forall x ensures x in a[1..] <==> x in b[1..] {
        NotInTail(a, x);
        NotInTail(b, x);
      }
      SameRows(a[1..], b[1..]);
    }
  }

  lemma NotInTail(a: seq<Row>, x: Row)
    requires a != [] && Descending(a)
    ensures x in a[1..] <==> x in a && x != a[0]
  {
    if x in a[1..] {
      var i :| 0 <= i < |a[1..]| && a[1..][i] == x;
      AfterOrders(a[i + 1], a[0], a[0]);
    }
    assert a == [a[0]] + a[1..];
  }

  ghost predicate Still(visits: seq<Visit>, table: seq<Row>) {
    forall k | 0 <= k < |visits| :: visits[k].table == table
  }

  lemma {:induction false} WalkStaysInTable(visits: seq<Visit>, table: seq<Row>, job: string, cursor: Cursor, x: Row)
    requires Visits(visits) && !cursor.Malformed? && Still(visits, table) && x in Walk(visits, job, cursor)
    ensures x in table
  {
    hide Walk, Finished, Sorted, Matching, Older, GetSources, Descending, IsTable;
    if visits == [] {
      EmptyWalk(job, cursor);
    } else {
      var rows, limit := Sorted(Matching(table, job, cursor)), visits[0].limit;
      WalkStep(visits, job, cursor);
      assert visits[0].table == table;
      RowsBehind(table, job, cursor);
      if |rows| > limit && x !in rows[..limit] {
        WalkStaysInTable(visits[1..], table, job, At(rows[limit - 1].fetchedAt, rows[limit - 1].id), x);
      } else {
        assert x in rows;
      }
    }
  }

  /** Over a table that stands still the pages put together are the plain sorted list. */
  lemma {:induction false} WalkIsSortedList(visits: seq<Visit>, table: seq<Row>, job: string)
    requires Visits(visits) && Still(visits, table) && Finished(visits, job, Absent)
    ensures Walk(visits, job, Absent) == Sorted(Matching(table, job, Absent))
  {
    hide Walk, Sorted, Older, GetSources;
    assert visits[0].table == table;
    WalkDescends(visits, job, Absent);
    RowsBehind(table, job, Absent);
    forall x ensures x in Walk(visits, job, Absent) <==> x in Sorted(Matching(table, job, Absent)) {
      if x in Walk(visits, job, Absent) {
        WalkStaysInTable(visits, table, job, Absent, x);
      }
      if x in Sorted(Matching(table, job, Absent)) {
        WalkMissesNothing(visits, job, Absent, x);
      }
    }
    SameRows(Walk(visits, job, Absent), Sorted(Matching(table, job, Absent)));
  }

  function Capacity(visits: seq<Visit>): nat {
    if visits == [] then 0 else visits[0].limit + Capacity(visits[1..])
  }

  /** And it ends as soon as the page sizes add up to the number of rows. */
  lemma {:induction false} WalkFinishes(visits: seq<Visit>, table: seq<Row>, job: string, cursor: Cursor)
    requires Visits(visits) && !cursor.Malformed? && Still(visits, table) && visits != []
    requires |Matching(table, job, cursor)| <= Capacity(visits)
    ensures Finished(visits, job, cursor)
  {
    hide Walk, Finished, Sorted, Matching, Older;
    var rows, limit := Sorted(Matching(table, job, cursor)), visits[0].limit;
    assert visits[0].table == table;
    WalkStep(visits, job, cursor);
    RowsBehind(table, job, cursor);
    if |rows| > limit {
      var next := At(rows[limit - 1].fetchedAt, rows[limit - 1].id);
      RowsBehind(table, job, next);
      FewerBehind(table, job, cursor, limit);
      assert |Sorted(Matching(table, job, next))| == |rows| - limit;
      WalkFinishes(visits[1..], table, job, next);
    }
  }

  /** Behind the first `n` rows there are `n` fewer. */
  lemma {:induction false} FewerBehind(table: seq<Row>, job: string, cursor: Cursor, n: nat)
    requires IsTable(table) && !cursor.Malformed?
    requires 0 < n <= |Sorted(Matching(table, job, cursor))|
    ensures var rows := Sorted(Matching(table, job, cursor));
            Sorted(Matching(table, job, At(rows[n - 1].fetchedAt, rows[n - 1].id))) == rows[n..]
  {
    hide Sorted, Matching, Less;
    var rows := Sorted(Matching(table, job, cursor));
    var last := rows[n - 1];
    var next := At(last.fetchedAt, last.id);
    RowsBehind(table, job, cursor);
    RowsBehind(table, job, next);
    assert last in rows;
    forall x ensures x in Matching(table, job, next) <==> x in rows[n..] {
      TailIsBehind(rows, n, x);
      if x in table && x.jobId == job && After(x, last) {
        OlderStill(x, last, cursor);
      }
    }
    SameRows(Sorted(Matching(table, job, next)), rows[n..]);
  }

  lemma TailIsBehind(rows: seq<Row>, n: nat, x: Row)
    requires Descending(rows) && 0 < n <= |rows|
    ensures x in rows[n..] <==> x in rows && After(x, rows[n - 1])
  {
    hide After;
    if x in rows[n..] {
      var i :| 0 <= i < |rows[n..]| && rows[n..][i] == x;
      assert rows[n + i] == x;
    }
    forall i | 0 <= i < n ensures !After(rows[i], rows[n - 1]) {
      AfterOrders(rows[n - 1], rows[i], rows[i]);
    }
    if x in rows && After(x, rows[n - 1]) {
      var i :| 0 <= i < |rows| && rows[i] == x;
      assert rows[n..][i - n] == x;
    }
  }

  // ---------------------------------------------------------------------------
  // Newest first
  // ---------------------------------------------------------------------------

  /** One id comes before another: it is a proper part of its beginning, or has the smaller character at the first place
      where they differ. */
  ghost predicate ComesBefore(a: string, b: string) {
    || a < b
    || exists i | 0 <= i < |a| && i < |b| :: a[..i] == b[..i] && a[i] < b[i]
  }

  lemma {:induction false} LessIsBefore(a: string, b: string)
    ensures Less(a, b) <==> ComesBefore(a, b)
  {
    if a != "" && b != "" && a[0] == b[0] {
      LessIsBefore(a[1..], b[1..]);
      BeforeBehind(a, b);
    } else if a != "" && b != "" {
      assert a[..0] == b[..0];
      assert forall i | 0 < i < |a| && i < |b| :: a[..i][0] != b[..i][0];
    }
  }

  /** An equal first character changes nothing. */
  lemma BeforeBehind(a: string, b: string)
    requires a != "" && b != "" && a[0] == b[0]
    ensures ComesBefore(a, b) <==> ComesBefore(a[1..], b[1..])
  {
    assert a == [a[0]] + a[1..] && b == [b[0]] + b[1..];
    assert a < b <==> a[1..] < b[1..];
    if i :| 0 <= i < |a| && i < |b| && a[..i] == b[..i] && a[i] < b[i] {
      assert a[1..][..i - 1] == a[..i][1..] && b[1..][..i - 1] == b[..i][1..];
      assert a[1..][i - 1] < b[1..][i - 1];
    }
    if i :| 0 <= i < |a[1..]| && i < |b[1..]| && a[1..][..i] == b[1..][..i] && a[1..][i] < b[1..][i] {
      assert a[..i + 1] == [a[0]] + a[1..][..i] && b[..i + 1] == [b[0]] + b[1..][..i];
      assert a[i + 1] < b[i + 1];
    }
  }

  /** The rows of a walk, and so of any page, come newest first, and those of one time by falling id. */
  lemma WalkIsNewestFirst(visits: seq<Visit>, job: string, cursor: Cursor, i: nat, j: nat)
    requires Visits(visits) && !cursor.Malformed? && i < j < |Walk(visits, job, cursor)|
    ensures var r, s := Walk(visits, job, cursor)[i], Walk(visits, job, cursor)[j];
            r.fetchedAt > s.fetchedAt || (r.fetchedAt == s.fetchedAt && ComesBefore(s.id, r.id))
  {
    hide Walk, Less, ComesBefore;
    WalkDescends(visits, job, cursor);
    var r, s := Walk(visits, job, cursor)[i], Walk(visits, job, cursor)[j];
    assert After(s, r);
    LessIsBefore(s.id, r.id);
  }

  /** The rows behind a cursor are those it has not shown: older ones, and of its time those of a smaller id. */
  lemma WalkIsBehindTheCursor(visits: seq<Visit>, job: string, fetchedAt: int, id: string, i: nat)
    requires Visits(visits) && i < |Walk(visits, job, At(fetchedAt, id))|
    ensures var r := Walk(visits, job, At(fetchedAt, id))[i];
            r.jobId == job && (r.fetchedAt < fetchedAt || (r.fetchedAt == fetchedAt && ComesBefore(r.id, id)))
  {
    hide Walk, Less, ComesBefore;
    WalkDescends(visits, job, At(fetchedAt, id));
    LessIsBefore(Walk(visits, job, At(fetchedAt, id))[i].id, id);
  }

  /** The first page has the newest rows of the job: none that it leaves out is newer than one it shows. */
  lemma FirstPageIsNewest(table: seq<Row>, job: string, limit: nat, shown: Row, other: Row)
    requires IsTable(table) && 1 <= limit <= 100
    requires var p := GetSources(true, table, job, limit, Absent);
             p.Page? && shown in p.items && other in table && other.jobId == job && other !in p.items
    ensures other.fetchedAt <= shown.fetchedAt
  {
    hide Sorted, Matching, GetSources, Less;
    var rows := Sorted(Matching(table, job, Absent));
    PageIsPrefix(table, job, limit, Absent);
    RowsBehind(table, job, Absent);
    assert other in rows;
    var i :| 0 <= i < limit && i < |rows| && rows[i] == shown;
    var j :| 0 <= j < |rows| && rows[j] == other;
    if |rows| > limit {
      assert forall k | 0 <= k < limit :: rows[..limit][k] == rows[k];
    }
    assert After(rows[j], rows[i]);
  }
}
