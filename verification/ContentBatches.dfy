/** Batch updates: the atomic mode is all-or-nothing and equals writing the rows one after another. */
module ContentBatches {
  import opened Outcomes
  import opened ContentDb

  // ---------------------------------------------------------------- atomic mode

  /** Writing the rows in order, without any check: what an atomic batch means when it succeeds. */
  function WriteAll(db: Db, rows: seq<UpdateRow>, clock: nat -> int, n: nat): Db
    requires n <= |rows|
  {
    if n == 0 then db else
    var before := WriteAll(db, rows, clock, n - 1);
    var row := rows[n - 1];
    if row.id in before.items then WriteHead(before, row.id, Patched(before.items[row.id], row.patch, clock(n - 1)))
    else before
  }

  /** How often an id occurs among the first n rows. */
  function Occurrences(rows: seq<UpdateRow>, id: int, n: nat): nat
    requires n <= |rows|
  {
    if n == 0 then 0 else Occurrences(rows, id, n - 1) + (if rows[n - 1].id == id then 1 else 0)
  }

  /** The report of row k: the item's version, counted up once per occurrence so far. */
  predicate NumberedRow(db: Db, rows: seq<UpdateRow>, reported: BatchRow, k: nat)
    requires k < |rows|
  {
    && rows[k].id in db.items
    && reported == RowOk(k, rows[k].id, db.items[rows[k].id].version + Occurrences(rows, rows[k].id, k + 1))
  }

  /** Row `index` is the first that fails its checks on top of the rows written before it. */
  ghost predicate FirstFailure(
      db: Db, svc: Services, domain: nat, rows: seq<UpdateRow>, clock: nat -> int, index: nat, code: Code) {
    && index < |rows|
    && (forall m :: 0 <= m <= index ==> UpdateAtomicAfter(db, svc, domain, rows, clock, m).Ok?)
    && var before := UpdateAtomicAfter(db, svc, domain, rows, clock, index).value;
       && before.db == WriteAll(db, rows, clock, index)
       && CheckUpdate(before.db, db, svc, domain, rows[index].id, rows[index].patch, before.reserved, false)
           == Err(code)
  }

  /** An atomic batch that has come through its first n rows: they are written, counted and reported. */
  ghost predicate WrittenSoFar(db: Db, p: Progress, rows: seq<UpdateRow>, written: Db, n: nat)
    requires n <= |rows|
  {
    && p.db == written
    && |p.rows| == n
    && p.db.items.Keys == db.items.Keys
    && (forall id :: id in db.items ==> p.db.items[id].version == db.items[id].version + Occurrences(rows, id, n))
    && (forall k :: 0 <= k < n ==> NumberedRow(db, rows, p.rows[k], k))
  }

  lemma WrittenStep(
      db: Db, p: Progress, svc: Services, domain: nat, rows: seq<UpdateRow>, written: Db, n: nat, now: int)
    requires n < |rows| && WrittenSoFar(db, p, rows, written, n)
    requires AtomicStep(p, db, svc, domain, rows[n], n, now).Ok?
    ensures rows[n].id in written.items
    ensures WrittenSoFar(db, AtomicStep(p, db, svc, domain, rows[n], n, now).value, rows,
                         WriteHead(written, rows[n].id, Patched(written.items[rows[n].id], rows[n].patch, now)), n + 1)
  {
  }

  lemma {:induction false} AtomicPrefix(
      db: Db, svc: Services, domain: nat, rows: seq<UpdateRow>, clock: nat -> int, n: nat)
    requires n <= |rows| && UpdateAtomicAfter(db, svc, domain, rows, clock, n).Ok?
    ensures WrittenSoFar(db, UpdateAtomicAfter(db, svc, domain, rows, clock, n).value, rows,
        WriteAll(db, rows, clock, n), n)
  {
    if n > 0 {
      AtomicPrefix(db, svc, domain, rows, clock, n - 1);
      WrittenStep(db, UpdateAtomicAfter(db, svc, domain, rows, clock, n - 1).value, svc, domain, rows,
                  WriteAll(db, rows, clock, n - 1), n - 1, clock(n - 1));
    }
  }

  /** An aborted batch names the row whose checks failed. */
  lemma {:induction false} AbortNamesRow(
      db: Db, svc: Services, domain: nat, rows: seq<UpdateRow>, clock: nat -> int, n: nat)
    requires n <= |rows| && UpdateAtomicAfter(db, svc, domain, rows, clock, n).Err?
    ensures var a := UpdateAtomicAfter(db, svc, domain, rows, clock, n).error;
            && a.index < n
            && UpdateAtomicAfter(db, svc, domain, rows, clock, a.index).Ok?
            && var before := UpdateAtomicAfter(db, svc, domain, rows, clock, a.index).value;
               CheckUpdate(before.db, db, svc, domain, rows[a.index].id, rows[a.index].patch, before.reserved, false)
                   == Err(a.code)
  {
    if UpdateAtomicAfter(db, svc, domain, rows, clock, n - 1).Err? {
      AbortNamesRow(db, svc, domain, rows, clock, n - 1);
    }
  }

  lemma {:induction false} AtomicSuccessIsHereditary(
      db: Db, svc: Services, domain: nat, rows: seq<UpdateRow>, clock: nat -> int, m: nat, n: nat)
    requires m <= n <= |rows| && UpdateAtomicAfter(db, svc, domain, rows, clock, n).Ok?
    ensures UpdateAtomicAfter(db, svc, domain, rows, clock, m).Ok?
  {
    if m < n {
      AtomicSuccessIsHereditary(db, svc, domain, rows, clock, m, n - 1);
    }
  }

  /**
   An atomic batch update either changes nothing and names the first row that cannot be
   written on top of the rows before it, or leaves the tables as if the rows had simply been
   written in order, each head's version having grown by the number of its occurrences.
   */
  lemma AtomicIsAllOrNothing(db: Db, svc: Services, domain: nat, rows: seq<UpdateRow>, clock: nat -> int)
    requires |rows| > 0
    ensures var (after, reply) := UpdateBatch(db, svc, domain, rows, true, false, clock);
            && (reply.AtomicFailed? ==>
                  && after == db
                  && FirstFailure(db, svc, domain, rows, clock, reply.index, reply.code))
            && (reply.Rows? ==>
                  && after == WriteAll(db, rows, clock, |rows|)
                  && |reply.rows| == |rows|
                  && (forall id :: id in db.items ==>
                        id in after.items
                            && after.items[id].version == db.items[id].version + Occurrences(rows, id, |rows|))
                  && (forall k :: 0 <= k < |rows| ==> NumberedRow(db, rows, reply.rows[k], k)))
            && !reply.EmptyBatch?
  {
    match UpdateAtomicAfter(db, svc, domain, rows, clock, |rows|)
    case Ok(_) =>
      AtomicPrefix(db, svc, domain, rows, clock, |rows|);
    case Err(a) =>
      AbortNamesRow(db, svc, domain, rows, clock, |rows|);
      AtomicPrefix(db, svc, domain, rows, clock, a.index);
      forall m | 0 <= m <= a.index ensures UpdateAtomicAfter(db, svc, domain, rows, clock, m).Ok? {
        AtomicSuccessIsHereditary(db, svc, domain, rows, clock, m, a.index);
      }
  }

  // ---------------------------------------------------------------- rows and reports

  ghost predicate DistinctIds(rows: seq<UpdateRow>) {
    forall i, j :: 0 <= i < j < |rows| ==> rows[i].id != rows[j].id
  }

  predicate AllOk(rows: seq<BatchRow>) {
    forall k :: 0 <= k < |rows| ==> rows[k].RowOk?
  }

  lemma {:induction false} PartialRowCount(
      db: Db, svc: Services, domain: nat, rows: seq<UpdateRow>, clock: nat -> int, n: nat)
    requires n <= |rows|
    ensures |UpdatePartialAfter(db, svc, domain, rows, clock, n).rows| == n
  {
    if n > 0 {
      PartialRowCount(db, svc, domain, rows, clock, n - 1);
    }
  }

  /** The report of row k is final once the row is processed. */
  lemma {:induction false} ReportsStay(
      db: Db, svc: Services, domain: nat, rows: seq<UpdateRow>, clock: nat -> int, k: nat, n: nat)
    requires k < n <= |rows|
    ensures |UpdatePartialAfter(db, svc, domain, rows, clock, n).rows| == n
    ensures |UpdatePartialAfter(db, svc, domain, rows, clock, k + 1).rows| == k + 1
    ensures UpdatePartialAfter(db, svc, domain, rows, clock, n).rows[k]
         == UpdatePartialAfter(db, svc, domain, rows, clock, k + 1).rows[k]
  {
    PartialRowCount(db, svc, domain, rows, clock, k + 1);
    if n > k + 1 {
      ReportsStay(db, svc, domain, rows, clock, k, n - 1);
    }
  }

  // ---------------------------------------------------------------- row by row

  ghost predicate Steps(p: nat -> bool, k: nat) { p(k) ==> p(k + 1) }

  lemma {:induction false} Climb(p: nat -> bool, n: nat)
    requires p(0) && forall k :: 0 <= k < n ==> Steps(p, k)
    ensures p(n)
  {
    if n > 0 {
      Climb(p, n - 1);
      assert Steps(p, n - 1);
    }
  }

  // ---------------------------------------------------------------- schema verdicts

  type Validator = (string, string, nat, map<int, int>) -> Option<string>

  function AcceptAll(): Validator {
    (schema: string, data: string, domain: nat, types: map<int, int>) => None
  }

  /** The services with schemas that accept everything. */
  function Unchecked(svc: Services): Services { svc.(validate := AcceptAll()) }

  /** Accepts everything but one document that finds `moved` already of type `newType`. */
  function RejectMoved(doc: string, text: string, moved: int, newType: int): Validator {
    (schema: string, data: string, domain: nat, types: map<int, int>) =>
      if schema == doc && data == text && moved in types && types[moved] == newType then Some("stale") else None
  }

  /** While the item has another type, `RejectMoved` accepts everything. */
  lemma NothingRejected(now: Db, svc: Services, domain: nat, doc: string, text: string, moved: int, newType: int)
    requires moved in now.items ==> now.items[moved].contentTypeId != newType
    ensures forall schema, data ::
      SchemaFailure(now, svc.(validate := RejectMoved(doc, text, moved, newType)), domain, schema, data) == None
  {
  }

  /** What the schema service answers about a patch on top of `now`, reading the tables `seen`. */
  function PatchVerdict(seen: Db, now: Db, svc: Services, domain: nat, id: int, patch: Patch): Option<string> {
    if patch.Empty() then None else
    match FindItem(now, domain, id)
    case None => None
    case Some(existing) =>
      match FindType(now, domain, patch.contentTypeId.Or(existing.contentTypeId))
      case None => None
      case Some(ty) => SchemaFailure(seen, svc, domain, ty.schema, patch.data.Or(existing.data))
  }

  // ---------------------------------------------------------------- an instance

  /** Two items of type 1; type 2 is free. */
  function TwoPages(): Db {
    Db(map[1 := ContentType(0, "page", Collection, ""), 2 := ContentType(0, "note", Collection, "")],
       map[10 := Item(0, 1, "", "draft", 1, 0), 11 := Item(0, 1, "", "draft", 1, 0)], [], 3, 12)
  }

  /** The data `see 10` refers to item 10, which must not be of type 2. */
  function Particular(): Services {
    Services((s: string, d: string) => if d == "see 10" then {10} else {},
             (schema: string, data: string, domain: nat, types: map<int, int>) =>
               if 10 in types && types[10] == 2 then Some("mismatch") else None,
             (d, t) => false)
  }

  /** Item 10 becomes of type 2, and item 11 refers to it. */
  const MOVE_THEN_REFER: seq<UpdateRow> :=
    [UpdateRow(10, Patch(Some(2), None, None)), UpdateRow(11, Patch(None, Some("see 10"), None))]

  lemma PartialRefusesReference(clock: nat -> int)
    ensures UpdatePartialAfter(TwoPages(), Particular(), 0, MOVE_THEN_REFER, clock, 2).rows
         == [RowOk(0, 10, 2), RowErr(1, Invalid("mismatch"))]
  {
    var first := UpdatePartialAfter(TwoPages(), Particular(), 0, MOVE_THEN_REFER, clock, 1);
    assert first.rows == [RowOk(0, 10, 2)] && first.db.items[10].contentTypeId == 2;
    assert first.db.items[11] == TwoPages().items[11];
  }
}
