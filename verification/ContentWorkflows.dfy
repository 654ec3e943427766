/**
 Statuses and workflows in the partial mode of a batch update. A row is refused if it changes the
 status of an item whose type, as the row leaves it, has an active workflow. Rows get past that
 through a type without a workflow, and with an empty status.
 */
module ContentWorkflows {
  import opened Outcomes
  import opened ContentDb
  import opened ContentBatches

  /** The partial run reports row k ok. */
  predicate ReportedOk(db: Db, svc: Services, domain: nat, rows: seq<UpdateRow>, clock: nat -> int, k: nat)
    requires k < |rows|
  {
    var reports := UpdatePartialAfter(db, svc, domain, rows, clock, k + 1).rows;
    |reports| == k + 1 && reports[k].RowOk?
  }

  /** Row k sets a status that no workflow stops: it aims at a type without one, or the status is empty. */
  predicate SetsFreely(db: Db, svc: Services, domain: nat, rows: seq<UpdateRow>, clock: nat -> int, k: nat)
    requires k < |rows|
  {
    var now, row := UpdatePartialAfter(db, svc, domain, rows, clock, k).db, rows[k];
    && ReportedOk(db, svc, domain, rows, clock, k)
    && row.id in now.items && row.patch.status.Some?
    && (row.patch.status.value == ""
        || !svc.governed(domain, row.patch.contentTypeId.Or(now.items[row.id].contentTypeId)))
  }

  /** The status last set freely for an item, or else the one it had. */
  function LastFreeStatus(
      db: Db, svc: Services, domain: nat, rows: seq<UpdateRow>, clock: nat -> int, id: int, n: nat): string
    requires n <= |rows| && id in db.items
  {
    if n == 0 then db.items[id].status
    else if rows[n - 1].id == id && SetsFreely(db, svc, domain, rows, clock, n - 1) then rows[n - 1].patch.status.value
    else LastFreeStatus(db, svc, domain, rows, clock, id, n - 1)
  }

  /** A row the partial run takes changes the status of its item only freely. */
  lemma RowStatus(p: Progress, svc: Services, domain: nat, row: UpdateRow, k: nat, now: int, id: int)
    requires id in p.db.items && |p.rows| == k
    ensures var next := PartialStep(p, svc, domain, row, k, now);
            && |next.rows| == k + 1 && id in next.db.items
            && (next.rows[k].RowOk? ==> row.id in p.db.items)
            && next.db.items[id].status ==
                 if row.id == id && next.rows[k].RowOk? && row.patch.status.Some?
                    && (row.patch.status.value == ""
                        || !svc.governed(domain, row.patch.contentTypeId.Or(p.db.items[id].contentTypeId)))
                 then row.patch.status.value else p.db.items[id].status
  {
  }

  /** After any number of rows, an item's status is the one last set freely. */
  lemma {:induction false} StatusIsLastFree(
      db: Db, svc: Services, domain: nat, rows: seq<UpdateRow>, clock: nat -> int, id: int, n: nat)
    requires n <= |rows| && id in db.items
    ensures var after := UpdatePartialAfter(db, svc, domain, rows, clock, n).db;
            id in after.items && after.items[id].status == LastFreeStatus(db, svc, domain, rows, clock, id, n)
  {
    if n > 0 {
      StatusIsLastFree(db, svc, domain, rows, clock, id, n - 1);
      PartialRowCount(db, svc, domain, rows, clock, n - 1);
      RowStatus(UpdatePartialAfter(db, svc, domain, rows, clock, n - 1), svc, domain, rows[n - 1], n - 1,
          clock(n - 1), id);
    }
  }

  /** A status differs from the one before the batch only if some row for the item has set it freely. */
  lemma {:induction false} PartialKeepsGovernedStatus(
      db: Db, svc: Services, domain: nat, rows: seq<UpdateRow>, clock: nat -> int, id: int, n: nat)
    requires n <= |rows| && id in db.items
    requires forall k :: 0 <= k < n && rows[k].id == id ==> !SetsFreely(db, svc, domain, rows, clock, k)
    ensures var after := UpdatePartialAfter(db, svc, domain, rows, clock, n).db;
            id in after.items && after.items[id].status == db.items[id].status
  {
    StatusIsLastFree(db, svc, domain, rows, clock, id, n);
    if n > 0 {
      PartialKeepsGovernedStatus(db, svc, domain, rows, clock, id, n - 1);
      StatusIsLastFree(db, svc, domain, rows, clock, id, n - 1);
    }
  }

  /** The item's status is the same before and after each of the first n rows. */
  ghost predicate StatusStays(
      db: Db, svc: Services, domain: nat, rows: seq<UpdateRow>, clock: nat -> int, id: int, n: nat)
    requires n <= |rows| && id in db.items
  {
    forall m :: 0 <= m <= n ==> HasOldStatus(db, UpdatePartialAfter(db, svc, domain, rows, clock, m).db, id)
  }

  predicate HasOldStatus(db: Db, now: Db, id: int) {
    id in db.items && id in now.items && now.items[id].status == db.items[id].status
  }

  /** Row k does not freely set another status for the item than it had before the batch. */
  predicate Respects(db: Db, svc: Services, domain: nat, rows: seq<UpdateRow>, clock: nat -> int, id: int, k: nat)
    requires k < |rows| && id in db.items
  {
    rows[k].id == id && SetsFreely(db, svc, domain, rows, clock, k) ==>
        rows[k].patch.status.value == db.items[id].status
  }

  /** An item keeps its status throughout exactly if no row for it freely sets another. */
  lemma {:induction false} StatusStaysExactly(
      db: Db, svc: Services, domain: nat, rows: seq<UpdateRow>, clock: nat -> int, id: int, n: nat)
    requires n <= |rows| && id in db.items
    ensures StatusStays(db, svc, domain, rows, clock, id, n)
       <==> forall k :: 0 <= k < n ==> Respects(db, svc, domain, rows, clock, id, k)
  {
    if n > 0 {
      StatusStaysExactly(db, svc, domain, rows, clock, id, n - 1);
      StatusStaysStep(db, svc, domain, rows, clock, id, n - 1);
    }
  }

  lemma StatusStaysStep(
      db: Db, svc: Services, domain: nat, rows: seq<UpdateRow>, clock: nat -> int, id: int, n: nat)
    requires n < |rows| && id in db.items
    ensures StatusStays(db, svc, domain, rows, clock, id, n + 1)
       <==> StatusStays(db, svc, domain, rows, clock, id, n) && Respects(db, svc, domain, rows, clock, id, n)
  {
    StatusIsLastFree(db, svc, domain, rows, clock, id, n);
    StatusIsLastFree(db, svc, domain, rows, clock, id, n + 1);
    if StatusStays(db, svc, domain, rows, clock, id, n) {
      LastFreeRespects(db, svc, domain, rows, clock, id, n);
    }
  }

  lemma LastFreeRespects(
      db: Db, svc: Services, domain: nat, rows: seq<UpdateRow>, clock: nat -> int, id: int, n: nat)
    requires n < |rows| && id in db.items
    requires LastFreeStatus(db, svc, domain, rows, clock, id, n) == db.items[id].status
    ensures LastFreeStatus(db, svc, domain, rows, clock, id, n + 1) == db.items[id].status
       <==> Respects(db, svc, domain, rows, clock, id, n)
  {
  }

  // ---------------------------------------------------------------- batches that name each item once

  /** With distinct ids an item is written at most once, by its own row, on top of what it was. */
  lemma {:induction false} WrittenByOwnRow(
      db: Db, svc: Services, domain: nat, rows: seq<UpdateRow>, clock: nat -> int, id: int, n: nat)
    requires n <= |rows| && id in db.items && DistinctIds(rows)
    ensures var after := UpdatePartialAfter(db, svc, domain, rows, clock, n).db;
            && id in after.items
            && (forall k :: 0 <= k < n && rows[k].id == id ==>
                  after.items[id] == if ReportedOk(db, svc, domain, rows, clock, k)
                                     then Patched(db.items[id], rows[k].patch.DropEmptyData(), clock(k))
                                     else db.items[id])
            && ((forall k :: 0 <= k < n ==> rows[k].id != id) ==> after.items[id] == db.items[id])
  {
    if n > 0 {
      WrittenByOwnRow(db, svc, domain, rows, clock, id, n - 1);
      PartialRowCount(db, svc, domain, rows, clock, n - 1);
      RowHead(UpdatePartialAfter(db, svc, domain, rows, clock, n - 1), svc, domain, rows[n - 1], n - 1, clock(n - 1),
          id);
    }
  }

  lemma RowHead(p: Progress, svc: Services, domain: nat, row: UpdateRow, k: nat, now: int, id: int)
    requires id in p.db.items && |p.rows| == k
    ensures var next := PartialStep(p, svc, domain, row, k, now);
            && |next.rows| == k + 1 && id in next.db.items
            && next.db.items[id] == if row.id == id && next.rows[k].RowOk?
                                    then Patched(p.db.items[id], row.patch.DropEmptyData(), now)
                                    else p.db.items[id]
  {
  }

  /**
   In a batch that names each item once, an item that ends up in a type with a workflow changes
   its status exactly if its row is taken and empties the status.
   */
  lemma DistinctRowsKeepGovernedStatus(
      db: Db, svc: Services, domain: nat, rows: seq<UpdateRow>, clock: nat -> int, id: int)
    requires id in db.items && DistinctIds(rows)
    ensures var after := UpdatePartialAfter(db, svc, domain, rows, clock, |rows|).db;
            id in after.items
            && (svc.governed(domain, after.items[id].contentTypeId) ==>
                  (after.items[id].status != db.items[id].status <==>
                     db.items[id].status != ""
                     && exists k :: 0 <= k < |rows| && rows[k].id == id
                                    && ReportedOk(db, svc, domain, rows, clock, k) && rows[k].patch.status == Some("")))
  {
    WrittenByOwnRow(db, svc, domain, rows, clock, id, |rows|);
    var after := UpdatePartialAfter(db, svc, domain, rows, clock, |rows|).db;
    if k :| 0 <= k < |rows| && rows[k].id == id && ReportedOk(db, svc, domain, rows, clock, k) {
      OnlyRow(rows, id, k);
      WrittenByOwnRow(db, svc, domain, rows, clock, id, k);
      PartialRowCount(db, svc, domain, rows, clock, k);
      RowStatus(UpdatePartialAfter(db, svc, domain, rows, clock, k), svc, domain, rows[k], k, clock(k), id);
      assert UpdatePartialAfter(db, svc, domain, rows, clock, k).db.items[id] == db.items[id];
    }
  }

  lemma OnlyRow(rows: seq<UpdateRow>, id: int, k: nat)
    requires DistinctIds(rows) && k < |rows| && rows[k].id == id
    ensures forall j :: 0 <= j < |rows| && rows[j].id == id ==> j == k
  {
  }

  // ---------------------------------------------------------------- the two ways past a workflow

  /** One item, a draft of type 1, which has a workflow; type 2 has none, and schemas accept everything. */
  function OneDraft(): Db {
    Db(map[1 := ContentType(0, "page", Collection, ""), 2 := ContentType(0, "note", Collection, "")],
       map[10 := Item(0, 1, "a", "draft", 1, 0)], [], 3, 11)
  }

  function TypeOneGoverned(): Services {
    Services((s, d) => {}, AcceptAll(), (d, t) => t == 1)
  }

  /** Out of the governed type, published there, and back: both rows are taken and the item is published. */
  lemma DetourPublishes(clock: nat -> int)
    ensures var rows := [UpdateRow(10, Patch(Some(2), None, Some("published"))),
                         UpdateRow(10, Patch(Some(1), None, None))];
            var (after, reply) := UpdateBatch(OneDraft(), TypeOneGoverned(), 0, rows, false, false, clock);
            && reply == Rows(false, [RowOk(0, 10, 2), RowOk(1, 10, 3)])
            && after.items[10].contentTypeId == 1 && after.items[10].status == "published"
  {
    var rows := [UpdateRow(10, Patch(Some(2), None, Some("published"))), UpdateRow(10, Patch(Some(1), None, None))];
    var first := UpdatePartialAfter(OneDraft(), TypeOneGoverned(), 0, rows, clock, 1);
    assert first.rows == [RowOk(0, 10, 2)];
    assert first.db.items[10] == Item(0, 2, "a", "published", 2, clock(0));
    var second := UpdatePartialAfter(OneDraft(), TypeOneGoverned(), 0, rows, clock, 2);
    assert second.rows == [RowOk(0, 10, 2), RowOk(1, 10, 3)];
  }

  /** An empty status is not compared: the row is taken and the draft's status is empty afterwards. */
  lemma EmptyStatusPasses(clock: nat -> int)
    ensures var rows := [UpdateRow(10, Patch(None, None, Some("")))];
            var (after, reply) := UpdateBatch(OneDraft(), TypeOneGoverned(), 0, rows, false, false, clock);
            reply == Rows(false, [RowOk(0, 10, 2)]) && after.items[10].contentTypeId == 1
                && after.items[10].status == ""
  {
    var rows := [UpdateRow(10, Patch(None, None, Some("")))];
    var first := UpdatePartialAfter(OneDraft(), TypeOneGoverned(), 0, rows, clock, 1);
    assert first.rows == [RowOk(0, 10, 2)];
  }
}
