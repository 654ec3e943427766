/**
 Reading the audit log page by page. Rows are ordered by time and id, newest first; the cursor
 is the last row's id and its time as a `Date` keeps it, in whole milliseconds, while the
 database keeps microseconds. Times here are in microseconds.
 */
module AuditPages {
  import opened Outcomes

  datatype Row = Row(id: int, createdAt: int, domain: int, entityType: string, entityId: int, action: string)

  datatype Filter = Filter(domain: int, entityType: Option<string>, entityId: Option<int>, action: Option<string>)

  datatype Cursor = Cursor(createdAt: int, id: int)

  function ClampLimit(limit: Option<int>): (n: nat)
    ensures 1 <= n <= 500
    ensures limit.None? ==> n == 50
    ensures limit.Some? && 1 <= limit.value <= 500 ==> n == limit.value
    ensures limit.Some? && limit.value < 1 ==> n == 1
    ensures limit.Some? && limit.value > 500 ==> n == 500
  {
    if limit.None? then 50 else if limit.value > 500 then 500 else if limit.value < 1 then 1 else limit.value
  }

  /** An absent or empty text does not restrict. */
  predicate TextFits(wanted: Option<string>, actual: string) {
    wanted.None? || wanted.value == "" || wanted.value == actual
  }

  predicate Fits(r: Row, f: Filter) {
    && r.domain == f.domain && TextFits(f.entityType, r.entityType)
    && (f.entityId.None? || f.entityId.value == r.entityId) && TextFits(f.action, r.action)
  }

  /** The row is of the asked domain and, where asked for, of that entity type, entity and action. */
  ghost predicate AskedFor(r: Row, f: Filter) {
    && f.domain == r.domain
    && (f.entityType == None || f.entityType == Some("") || f.entityType == Some(r.entityType))
    && (f.entityId == None || f.entityId == Some(r.entityId))
    && (f.action == None || f.action == Some("") || f.action == Some(r.action))
  }

  function WholeMs(t: int): int { t - t % 1000 }

  function CursorOf(r: Row): Cursor { Cursor(WholeMs(r.createdAt), r.id) }

  /** The cursor condition of the query. */
  predicate Survives(r: Row, c: Cursor) {
    r.createdAt < c.createdAt || (r.createdAt == c.createdAt && r.id < c.id)
  }

  predicate Newer(a: Row, b: Row) {
    a.createdAt > b.createdAt || (a.createdAt == b.createdAt && a.id > b.id)
  }

  predicate Selected(r: Row, f: Filter, c: Option<Cursor>) {
    Fits(r, f) && (c.None? || Survives(r, c.value))
  }

  function Select(rows: seq<Row>, f: Filter, c: Option<Cursor>): seq<Row> {
    if |rows| == 0 then []
    else if Selected(rows[0], f, c) then [rows[0]] + Select(rows[1..], f, c) else Select(rows[1..], f, c)
  }

  function Insert(r: Row, sorted: seq<Row>): seq<Row> {
    if |sorted| == 0 || Newer(r, sorted[0]) then [r] + sorted else [sorted[0]] + Insert(r, sorted[1..])
  }

  /** `ORDER BY created_at DESC, id DESC` */
  function Sort(rows: seq<Row>): seq<Row> {
    if |rows| == 0 then [] else Insert(rows[0], Sort(rows[1..]))
  }

  function Take(rows: seq<Row>, n: nat): seq<Row> {
    if |rows| <= n then rows else rows[..n]
  }

  /** One auditLogs query. */
  function Page(table: seq<Row>, f: Filter, limit: nat, c: Option<Cursor>): seq<Row> {
    Take(Sort(Select(table, f, c)), limit)
  }

  // ---------------------------------------------------------------- order

  ghost predicate DistinctIds(rows: seq<Row>) {
    forall i, j :: 0 <= i < j < |rows| ==> rows[i].id != rows[j].id
  }

  ghost predicate Descending(rows: seq<Row>) {
    forall i, j :: 0 <= i < j < |rows| ==> Newer(rows[i], rows[j])
  }

  lemma FirstIsNewest(first: Row, rest: seq<Row>)
    requires Descending(rest) && forall x :: x in rest ==> Newer(first, x)
    ensures Descending([first] + rest)
  {
  }

  lemma {:induction false} InsertInOrder(r: Row, sorted: seq<Row>)
    requires Descending(sorted) && forall x :: x in sorted ==> x.id != r.id
    ensures Descending(Insert(r, sorted)) && forall x :: x in Insert(r, sorted) <==> x == r || x in sorted
    ensures |Insert(r, sorted)| == |sorted| + 1
  {
    if |sorted| > 0 {
      assert sorted == [sorted[0]] + sorted[1..];
      if Newer(r, sorted[0]) {
        assert forall x :: x in sorted ==> Newer(r, x);
      } else {
        InsertInOrder(r, sorted[1..]);
        assert forall x :: x in sorted[1..] ==> Newer(sorted[0], x);
        FirstIsNewest(sorted[0], Insert(r, sorted[1..]));
      }
    }
  }

  lemma {:induction false} SortWorks(rows: seq<Row>)
    requires DistinctIds(rows)
    ensures Descending(Sort(rows)) && forall x :: x in Sort(rows) <==> x in rows
    ensures |Sort(rows)| == |rows|
  {
    if |rows| > 0 {
      SortWorks(rows[1..]);
      forall x | x in Sort(rows[1..]) ensures x.id != rows[0].id {
        var k :| 0 <= k < |rows[1..]| && rows[1..][k] == x;
        assert rows[k + 1] == x;
      }
      InsertInOrder(rows[0], Sort(rows[1..]));
      assert rows == [rows[0]] + rows[1..];
    }
  }

  lemma {:induction false} SelectMembers(rows: seq<Row>, f: Filter, c: Option<Cursor>)
    ensures forall x :: x in Select(rows, f, c) <==> x in rows && Selected(x, f, c)
  {
    if |rows| > 0 {
      SelectMembers(rows[1..], f, c);
      assert rows == [rows[0]] + rows[1..];
    }
  }

  lemma {:induction false} SelectDistinct(rows: seq<Row>, f: Filter, c: Option<Cursor>)
    requires DistinctIds(rows)
    ensures DistinctIds(Select(rows, f, c))
  {
    if |rows| > 0 {
      SelectDistinct(rows[1..], f, c);
      SelectMembers(rows[1..], f, c);
      forall x | x in Select(rows[1..], f, c) ensures x.id != rows[0].id {
        var k :| 0 <= k < |rows[1..]| && rows[1..][k] == x;
        assert rows[k + 1] == x;
      }
    }
  }

  /** Two descending lists of the same rows are equal. */
  lemma {:induction false} DescendingUnique(a: seq<Row>, b: seq<Row>)
    requires Descending(a) && Descending(b) && forall x :: x in a <==> x in b
    ensures a == b
  {
    assert |a| > 0 ==> a[0] in b;
    assert |b| > 0 ==> b[0] in a;
    if |a| > 0 {
      var i :| 0 <= i < |b| && b[i] == a[0];
      var j :| 0 <= j < |a| && a[j] == b[0];
      assert i == 0 && j == 0;
      forall x ensures x in a[1..] <==> x in b[1..] {
        if x in a[1..] {
          var k :| 1 <= k < |a| && a[k] == x;
          assert x in b && x != b[0];
        }
        if x in b[1..] {
          var k :| 1 <= k < |b| && b[k] == x;
          assert x in a && x != a[0];
        }
      }
      DescendingUnique(a[1..], b[1..]);
      assert a == [a[0]] + a[1..] && b == [b[0]] + b[1..];
    }
  }

  /** All matching rows behind the cursor, newest first. */
  function Remaining(table: seq<Row>, f: Filter, c: Option<Cursor>): seq<Row> {
    Sort(Select(table, f, c))
  }

  lemma RemainingIsSorted(table: seq<Row>, f: Filter, c: Option<Cursor>)
    requires DistinctIds(table)
    ensures Descending(Remaining(table, f, c))
    ensures forall x :: x in Remaining(table, f, c) <==> x in table && Selected(x, f, c)
  {
    SelectDistinct(table, f, c);
    SelectMembers(table, f, c);
    SortWorks(Select(table, f, c));
  }

  // ---------------------------------------------------------------- the walk

  /** Rows behind a row's cursor are older than the row, and rows newer than it are not behind it. */
  lemma SurvivorsAreOlder(r: Row, x: Row)
    ensures Survives(x, CursorOf(r)) ==> Newer(r, x)
  {
  }

  lemma SurvivalIsTransitive(r: Row, c: Cursor, x: Row)
    requires Survives(r, c) && Survives(x, CursorOf(r))
    ensures Survives(x, c)
  {
  }

  lemma RemainingShrinks(table: seq<Row>, f: Filter, c: Option<Cursor>, r: Row)
    requires DistinctIds(table) && r in Remaining(table, f, c)
    ensures |Remaining(table, f, Some(CursorOf(r)))| < |Remaining(table, f, c)|
  {
    RemainingIsSorted(table, f, c);
    RemainingIsSorted(table, f, Some(CursorOf(r)));
    var before, after := Remaining(table, f, c), Remaining(table, f, Some(CursorOf(r)));
    forall x | x in after ensures x in before && x != r {
      SurvivorsAreOlder(r, x);
      if c.Some? { SurvivalIsTransitive(r, c.value, x); }
    }
    DescendingSize(before);
    DescendingSize(after);
    var big, small := set x | x in before, set x | x in after;
    assert r in big && r !in small && small <= big;
    SmallerSet(small, big, r);
  }

  lemma SmallerSet(small: set<Row>, big: set<Row>, r: Row)
    requires small <= big && r in big && r !in small
    ensures |small| < |big|
  {
    SubsetSize(small, big - {r});
  }

  lemma {:induction false} SubsetSize(a: set<Row>, b: set<Row>)
    requires a <= b
    ensures |a| <= |b|
    decreases a
  {
    if a != {} {
      var x :| x in a;
      SubsetSize(a - {x}, b - {x});
    }
  }

  lemma {:induction false} DescendingSize(rows: seq<Row>)
    requires Descending(rows)
    ensures |set x | x in rows| == |rows|
  {
    if |rows| > 0 {
      DescendingSize(rows[1..]);
      var rest := set x | x in rows[1..];
      assert (set x | x in rows) == {rows[0]} + rest;
      assert rows[0] !in rest;
    }
  }

  /** Page after page, each from the last row of the one before, until an empty page; it always ends. */
  ghost function Walk(table: seq<Row>, f: Filter, limit: nat, c: Option<Cursor>): seq<Row>
    requires DistinctIds(table) && limit >= 1
    decreases |Remaining(table, f, c)|
  {
    var page := Page(table, f, limit, c);
    if |page| == 0 then [] else
    var last := page[|page| - 1];
    RemainingShrinks(table, f, c, last);
    page + Walk(table, f, limit, Some(CursorOf(last)))
  }

  /** The rows of a list behind a cursor. */
  function Behind(rows: seq<Row>, c: Cursor): seq<Row> {
    if |rows| == 0 then []
    else if Survives(rows[0], c) then [rows[0]] + Behind(rows[1..], c) else Behind(rows[1..], c)
  }

  lemma {:induction false} BehindMembers(rows: seq<Row>, c: Cursor)
    ensures |Behind(rows, c)| <= |rows|
    ensures forall x :: x in Behind(rows, c) <==> x in rows && Survives(x, c)
    ensures Descending(rows) ==> Descending(Behind(rows, c))
  {
    if |rows| > 0 {
      BehindMembers(rows[1..], c);
      assert rows == [rows[0]] + rows[1..];
      if Descending(rows) && Survives(rows[0], c) {
        var rest := Behind(rows[1..], c);
        assert forall x :: x in rest ==> Newer(rows[0], x);
      }
    }
  }

  /** The walk on the sorted list alone. */
  function WalkList(rest: seq<Row>, limit: nat): seq<Row>
    requires limit >= 1
    decreases |rest|
  {
    if |rest| <= limit then rest else
    BehindMembers(rest[limit..], CursorOf(rest[limit - 1]));
    rest[..limit] + WalkList(Behind(rest[limit..], CursorOf(rest[limit - 1])), limit)
  }

  /** The next query sees exactly those of the unread rows that are behind the cursor. */
  lemma NextRemaining(table: seq<Row>, f: Filter, c: Option<Cursor>, n: nat)
    requires DistinctIds(table) && 1 <= n <= |Remaining(table, f, c)|
    ensures var rest := Remaining(table, f, c);
            Remaining(table, f, Some(CursorOf(rest[n - 1]))) == Behind(rest[n..], CursorOf(rest[n - 1]))
  {
    var rest := Remaining(table, f, c);
    var r := rest[n - 1];
    assert r in rest;
    RemainingIsSorted(table, f, c);
    RemainingIsSorted(table, f, Some(CursorOf(r)));
    BehindMembers(rest[n..], CursorOf(r));
    var next, behind := Remaining(table, f, Some(CursorOf(r))), Behind(rest[n..], CursorOf(r));
    forall x ensures x in next <==> x in behind {
      if x in next {
        SurvivorsAreOlder(r, x);
        if c.Some? { SurvivalIsTransitive(r, c.value, x); }
        var k :| 0 <= k < |rest| && rest[k] == x;
        assert k >= n;
        assert rest[n..][k - n] == x;
      }
      if x in behind {
        assert x in rest[n..] && x in rest;
      }
    }
    DescendingUnique(next, behind);
  }

  lemma {:induction false} WalkIsWalkList(table: seq<Row>, f: Filter, limit: nat, c: Option<Cursor>)
    requires DistinctIds(table) && limit >= 1
    ensures Walk(table, f, limit, c) == WalkList(Remaining(table, f, c), limit)
    decreases |Remaining(table, f, c)|
  {
    var rest := Remaining(table, f, c);
    if |rest| > 0 {
      var n := if |rest| <= limit then |rest| else limit;
      NextRemaining(table, f, c, n);
      RemainingShrinks(table, f, c, rest[n - 1]);
      WalkIsWalkList(table, f, limit, Some(CursorOf(rest[n - 1])));
      if |rest| <= limit {
        assert Behind(rest[n..], CursorOf(rest[n - 1])) == [];
      }
    }
  }

  // ---------------------------------------------------------------- what the walk delivers

  /** At every page boundary, the first row of the next page is behind the cursor of the page before. */
  predicate CleanBoundaries(rows: seq<Row>, limit: nat)
    requires limit >= 1
    decreases |rows|
  {
    |rows| > limit ==> Survives(rows[limit], CursorOf(rows[limit - 1])) && CleanBoundaries(rows[limit..], limit)
  }

  /** If the newest of some rows is behind a cursor, all are. */
  lemma {:induction false} AllBehind(rows: seq<Row>, c: Cursor)
    requires Descending(rows) && (|rows| > 0 ==> Survives(rows[0], c))
    ensures Behind(rows, c) == rows
  {
    if |rows| > 0 {
      if |rows| > 1 {
        assert Newer(rows[0], rows[1]);
      }
      AllBehind(rows[1..], c);
    }
  }

  /** A descending list loses nothing to a cursor exactly if its newest row is behind it. */
  lemma BehindLosesExactly(rows: seq<Row>, c: Cursor)
    requires |rows| > 0 && Descending(rows)
    ensures if Survives(rows[0], c) then Behind(rows, c) == rows else |Behind(rows, c)| < |rows|
  {
  }

  /** What the walk makes of the unread rows. */
  ghost predicate Delivers(walked: seq<Row>, rest: seq<Row>, clean: bool) {
    && |walked| <= |rest|
    && (walked == rest <==> clean)
    && (!clean ==> |walked| < |rest|)
    && Descending(walked) && (forall x :: x in walked ==> x in rest)
  }

  lemma {:induction false} WalkListDelivers(rest: seq<Row>, limit: nat)
    requires limit >= 1 && Descending(rest)
    ensures Delivers(WalkList(rest, limit), rest, CleanBoundaries(rest, limit))
    decreases |rest|
  {
    if |rest| > limit {
      var c := CursorOf(rest[limit - 1]);
      var unread := rest[limit..];
      var behind := Behind(unread, c);
      BehindMembers(unread, c);
      BehindLosesExactly(unread, c);
      WalkListDelivers(behind, limit);
      PageDelivers(rest, limit, WalkList(behind, limit), behind,
                   Survives(unread[0], c), CleanBoundaries(behind, limit));
    }
  }

  /** A page in front of what the rest of the walk delivers. */
  lemma PageDelivers(rest: seq<Row>, limit: nat, later: seq<Row>, behind: seq<Row>, smooth: bool, clean: bool)
    requires limit <= |rest| && Descending(rest) && Delivers(later, behind, clean)
    requires if smooth then behind == rest[limit..] else |behind| < |rest| - limit
    requires forall x :: x in behind ==> x in rest[limit..]
    ensures Delivers(rest[..limit] + later, rest, smooth && clean)
  {
    PagesDescend(rest, limit, later);
    assert rest == rest[..limit] + rest[limit..];
    assert forall x :: x in rest[limit..] ==> x in rest;
    if rest[..limit] + later == rest {
      assert later == (rest[..limit] + later)[limit..];
    }
  }

  lemma PagesDescend(rest: seq<Row>, limit: nat, later: seq<Row>)
    requires limit <= |rest| && Descending(rest) && Descending(later)
    requires forall x :: x in later ==> x in rest[limit..]
    ensures Descending(rest[..limit] + later)
  {
    var all := rest[..limit] + later;
    forall i, j | 0 <= i < j < |all| ensures Newer(all[i], all[j]) {
      if i < limit <= j {
        assert all[j] == later[j - limit] && all[j] in rest[limit..];
        var k :| limit <= k < |rest| && rest[k] == all[j];
      }
    }
  }

  /**
   The walk never repeats a row, never leaves its order, and delivers only matching rows; it
   delivers all of them if and only if no page boundary separates rows of one millisecond the
   wrong way, that is, if each page's cursor is before the first row of the next page.
   */
  lemma WalkIsCompleteExactly(table: seq<Row>, f: Filter, limit: Option<int>)
    requires DistinctIds(table)
    ensures var all := Remaining(table, f, None);
            var walked := Walk(table, f, ClampLimit(limit), None);
            && Descending(all) && (forall x :: x in all <==> x in table && AskedFor(x, f))
            && Descending(walked) && (forall x :: x in walked ==> x in all)
            && (walked == all <==> CleanBoundaries(all, ClampLimit(limit)))
  {
    RemainingIsSorted(table, f, None);
    WalkIsWalkList(table, f, ClampLimit(limit), None);
    WalkListDelivers(Remaining(table, f, None), ClampLimit(limit));
  }

  lemma {:induction false} WholeMsAreClean(rows: seq<Row>, limit: nat)
    requires limit >= 1 && Descending(rows) && forall x :: x in rows ==> WholeMs(x.createdAt) == x.createdAt
    ensures CleanBoundaries(rows, limit)
    decreases |rows|
  {
    if |rows| > limit {
      assert rows[limit - 1] in rows && Newer(rows[limit - 1], rows[limit]);
      WholeMsAreClean(rows[limit..], limit);
    }
  }

  /** Where times are whole milliseconds, the pages concatenate to the full filtered list, whatever the limit. */
  lemma WalkIsCompleteForWholeMs(table: seq<Row>, f: Filter, limit: Option<int>)
    requires DistinctIds(table) && forall x :: x in table ==> WholeMs(x.createdAt) == x.createdAt
    ensures Walk(table, f, ClampLimit(limit), None) == Remaining(table, f, None)
    ensures forall x :: x in Walk(table, f, ClampLimit(limit), None) <==> x in table && AskedFor(x, f)
  {
    WalkIsCompleteExactly(table, f, limit);
    WholeMsAreClean(Remaining(table, f, None), ClampLimit(limit));
  }

  /** Otherwise rows can be missed: two rows of one millisecond, read one per page. */
  lemma SubMillisecondRowsAreMissed()
    ensures var older, newer := Row(1, 10_500, 0, "e", 1, "a"), Row(2, 10_900, 0, "e", 1, "a");
            var f := Filter(0, None, None, None);
            && Remaining([older, newer], f, None) == [newer, older]
            && Walk([older, newer], f, 1, None) == [newer]
  {
    var older, newer := Row(1, 10_500, 0, "e", 1, "a"), Row(2, 10_900, 0, "e", 1, "a");
    var f := Filter(0, None, None, None);
    var table := [older, newer];
    assert table[1..] == [newer] && [newer][1..] == [];
    assert Select([newer], f, None) == [newer];
    assert Select(table, f, None) == [older, newer];
    assert Sort([newer]) == [newer];
    assert Insert(older, [newer]) == [newer] + Insert(older, [newer][1..]);
    assert Remaining(table, f, None) == [newer, older];
    WalkIsWalkList(table, f, 1, None);
    var rest := [newer, older];
    assert rest[1..] == [older] && rest[..1] == [newer] && [older][1..] == [];
    assert Behind([older], CursorOf(newer)) == Behind([older][1..], CursorOf(newer)) == [];
  }

  // ---------------------------------------------------------------- rows arriving during the walk

  lemma {:induction false} SelectNone(rows: seq<Row>, f: Filter, c: Option<Cursor>)
    requires forall x :: x in rows ==> !Selected(x, f, c)
    ensures Select(rows, f, c) == []
  {
    if |rows| > 0 {
      assert rows[0] in rows;
      SelectNone(rows[1..], f, c);
    }
  }

  /** Rows newer than a row already read are not behind its cursor. */
  lemma {:induction false} ArrivalsUnseen(table: seq<Row>, arrived: seq<Row>, f: Filter, r: Row)
    requires forall x :: x in arrived ==> Newer(x, r)
    ensures Select(table + arrived, f, Some(CursorOf(r))) == Select(table, f, Some(CursorOf(r)))
  {
    if |table| > 0 {
      ArrivalsUnseen(table[1..], arrived, f, r);
      assert (table + arrived)[1..] == table[1..] + arrived;
    } else {
      assert table + arrived == arrived;
      forall x | x in arrived ensures !Selected(x, f, Some(CursorOf(r))) {
        SurvivorsAreOlder(r, x);
      }
      SelectNone(arrived, f, Some(CursorOf(r)));
    }
  }

  /** The walk over a log that has grown by `arrived(n)` when its n-th further page is read. */
  ghost function GrowingWalk(table: seq<Row>, arrived: nat -> seq<Row>, n: nat, f: Filter, limit: nat, r: Row): seq<Row>
    requires DistinctIds(table) && limit >= 1
    requires forall k, x :: x in arrived(k) ==> forall y :: y in table ==> Newer(x, y)
    requires r in table
    decreases |Remaining(table, f, Some(CursorOf(r)))|
  {
    var page := Page(table + arrived(n), f, limit, Some(CursorOf(r)));
    if |page| == 0 then [] else
    var last := page[|page| - 1];
    ArrivalsUnseen(table, arrived(n), f, r);
    RemainingShrinks(table, f, Some(CursorOf(r)), last);
    RemainingIsSorted(table, f, Some(CursorOf(r)));
    page + GrowingWalk(table, arrived, n + 1, f, limit, last)
  }

  /** Newer rows appended during the walk change none of the later pages. */
  lemma {:induction false} NewerRowsDoNotDisturb(
      table: seq<Row>, arrived: nat -> seq<Row>, n: nat, f: Filter, limit: nat, r: Row)
    requires DistinctIds(table) && limit >= 1
    requires forall k, x :: x in arrived(k) ==> forall y :: y in table ==> Newer(x, y)
    requires r in table
    ensures GrowingWalk(table, arrived, n, f, limit, r) == Walk(table, f, limit, Some(CursorOf(r)))
    decreases |Remaining(table, f, Some(CursorOf(r)))|
  {
    ArrivalsUnseen(table, arrived(n), f, r);
    var page := Page(table, f, limit, Some(CursorOf(r)));
    if |page| > 0 {
      var last := page[|page| - 1];
      RemainingShrinks(table, f, Some(CursorOf(r)), last);
      RemainingIsSorted(table, f, Some(CursorOf(r)));
      NewerRowsDoNotDisturb(table, arrived, n + 1, f, limit, last);
    }
  }
}
