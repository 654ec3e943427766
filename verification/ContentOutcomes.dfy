/**
 What each content mutation promises its caller, told on the rows of the tables alone: when it is
 refused and with which code, and what it leaves in every column otherwise.
 */
module ContentOutcomes {
  import opened Outcomes
  import opened ContentDb
  import opened ContentInvariants
  import opened ContentBatches

  // ---------------------------------------------------------------- what the tables say

  ghost predicate TypeHere(db: Db, domain: nat, t: int) { t in db.types && db.types[t].domain == domain }

  ghost predicate ItemHere(db: Db, domain: nat, id: int) { id in db.items && db.items[id].domain == domain }

  /** The type is a singleton and the domain has an item of it, other than those excepted. */
  ghost predicate SeatTaken(db: Db, domain: nat, t: int, excepted: set<int>)
    requires t in db.types
  {
    db.types[t].kind == Singleton
    && exists x :: x in db.items && x !in excepted && db.items[x].domain == domain && db.items[x].contentTypeId == t
  }

  /** The schema service's answer, told the types of those referenced items that the domain has. */
  ghost function Answer(db: Db, svc: Services, domain: nat, t: int, data: string): Option<string>
    requires t in db.types
  {
    var schema := db.types[t].schema;
    svc.validate(schema, data, domain,
                 map x | x in svc.references(schema, data) && x in db.items && db.items[x].domain == domain
                   :: db.items[x].contentTypeId)
  }

  lemma AnswerIsAsked(db: Db, svc: Services, domain: nat, t: int, data: string)
    requires t in db.types
    ensures SchemaFailure(db, svc, domain, db.types[t].schema, data) == Answer(db, svc, domain, t, data)
  {
    var refs := svc.references(db.types[t].schema, data);
    assert ReferencedTypes(db, domain, refs)
        == map x | x in refs && x in db.items && db.items[x].domain == domain :: db.items[x].contentTypeId;
  }

  lemma SeatIsOccupied(db: Db, domain: nat, t: int, id: int)
    requires t in db.types
    ensures SeatTaken(db, domain, t, {}) <==> db.types[t].kind.Singleton? && Occupied(db, domain, t, None)
    ensures SeatTaken(db, domain, t, {id}) <==> db.types[t].kind.Singleton? && Occupied(db, domain, t, Some(id))
  {
    if SeatTaken(db, domain, t, {}) {
      var x :| x in db.items && db.items[x].domain == domain && db.items[x].contentTypeId == t;
      assert InType(db, domain, t, x);
    }
    if SeatTaken(db, domain, t, {id}) {
      var x :| x in db.items && x != id && db.items[x].domain == domain && db.items[x].contentTypeId == t;
      assert InType(db, domain, t, x);
    }
  }

  /** The history and the type table are as before. */
  ghost predicate OnlyItemsChanged(before: Db, after: Db) {
    after.types == before.types && after.nextTypeId == before.nextTypeId && after.versions == before.versions
  }

  // ---------------------------------------------------------------- creating items

  /** Why a new item is refused, in the order of the checks. */
  ghost function CreateRefusal(db: Db, svc: Services, domain: nat, t: int, data: string, status: string): Option<Code> {
    if !TypeHere(db, domain, t) then Some(TypeNotFound)
    else if SeatTaken(db, domain, t, {}) then Some(SingletonExists)
    else if Answer(db, svc, domain, t, data).Some? then Some(Invalid(Answer(db, svc, domain, t, data).value))
    else if svc.governed(domain, t) && status != "draft" then Some(WorkflowForbidden)
    else None
  }

  /** The status an item starts with: the one asked for, or else draft. */
  ghost predicate StartsAs(status: string, asked: Option<string>) {
    if asked == None || asked == Some("") then status == "draft" else Some(status) == asked
  }

  /**
   A create is refused exactly for the reasons above. Otherwise a dry run answers 0 and changes
   nothing, and a real one adds, under the sequence's next id, one item with the requested
   domain, type, data and status at version 1.
   */
  lemma CreateItemOutcome(db: Db, svc: Services, domain: nat, item: NewItem, dryRun: bool, now: int, status: string)
    requires StartsAs(status, item.status)
    ensures var (after, reply) := CreateItem(db, svc, domain, item, dryRun, now);
            var refusal := CreateRefusal(db, svc, domain, item.contentTypeId, item.data, status);
            && (forall code :: reply == Err(code) <==> refusal == Some(code))
            && (refusal.Some? || dryRun ==> after == db)
            && (refusal.None? && dryRun ==> reply == Ok(0))
            && (refusal.None? && !dryRun ==>
                  && reply == Ok(db.nextItemId) && after.nextItemId == db.nextItemId + 1 && OnlyItemsChanged(db, after)
                  && (forall x :: x in after.items <==> x in db.items || x == db.nextItemId)
                  && (forall x :: x in db.items && x != db.nextItemId ==> after.items[x] == db.items[x])
                  && var made := after.items[db.nextItemId];
                     && made.domain == domain && made.contentTypeId == item.contentTypeId && made.data == item.data
                     && made.status == status && made.version == 1 && made.updatedAt == now)
  {
    var t := item.contentTypeId;
    if TypeHere(db, domain, t) {
      AnswerIsAsked(db, svc, domain, t, item.data);
      SeatIsOccupied(db, domain, t, 0);
    }
  }

  /** The item a batch row has created: as requested, at version 1. */
  ghost predicate CreatedAs(head: Item, domain: nat, item: NewItem) {
    && head.domain == domain && head.contentTypeId == item.contentTypeId && head.data == item.data
    && StartsAs(head.status, item.status) && head.version == 1
  }

  /** What a row's report says of the items there are now. */
  ghost predicate RowLeft(db: Db, after: Db, row: BatchRow, domain: nat, item: NewItem, k: nat) {
    && row.index == k
    && (row.RowOk? ==>
          && row.version == 1 && db.nextItemId <= row.id < after.nextItemId
          && row.id in after.items && CreatedAs(after.items[row.id], domain, item))
  }

  ghost predicate Reported(rows: seq<BatchRow>, x: int) {
    exists k :: 0 <= k < |rows| && rows[k].RowOk? && rows[k].id == x
  }

  ghost predicate Ascending(rows: seq<BatchRow>) {
    forall j, k :: 0 <= j < k < |rows| && rows[j].RowOk? && rows[k].RowOk? ==> rows[j].id < rows[k].id
  }

  /** The reports of the rows so far and the items there are now belong together. */
  ghost predicate CreatedSoFar(db: Db, after: Db, rows: seq<BatchRow>, domain: nat, items: seq<NewItem>) {
    && |rows| <= |items| && OnlyItemsChanged(db, after) && db.nextItemId <= after.nextItemId
    && (forall x :: x in db.items ==> x in after.items && after.items[x] == db.items[x])
    && (forall k :: 0 <= k < |rows| ==> RowLeft(db, after, rows[k], domain, items[k], k))
    && (forall x :: x in after.items && x !in db.items ==> Reported(rows, x))
    && Ascending(rows)
  }

  ghost predicate BelowNext(db: Db) { forall x :: x in db.items ==> x < db.nextItemId }

  /** One more item, under the next id, and its report. */
  ghost predicate OneCreated(before: Progress, after: Progress, domain: nat, item: NewItem, k: nat, now: int) {
    && OnlyItemsChanged(before.db, after.db) && after.db.nextItemId == before.db.nextItemId + 1
    && after.rows == before.rows + [RowOk(k, before.db.nextItemId, 1)]
    && before.db.nextItemId in after.db.items
    && var made := after.db.items[before.db.nextItemId];
       && after.db.items == before.db.items[before.db.nextItemId := made]
       && CreatedAs(made, domain, item) && made.updatedAt == now
  }

  /**
   Each row of a batch create is refused and reported with its code, changing nothing, or leaves
   one item as requested; an atomic batch ends at the first row refused.
   */
  lemma NewRowOutcome(db: Db, svc: Services, domain: nat, items: seq<NewItem>, clock: nat -> int, n: nat)
    requires n < |items|
    ensures var p, next := CreatePartialAfter(db, svc, domain, items, clock, n),
                           CreatePartialAfter(db, svc, domain, items, clock, n + 1);
            var check := CheckCreate(p.db, p.db, svc, domain, items[n], p.reserved, n, true);
            if check.Err? then next == Progress(p.db, p.reserved, p.rows + [RowErr(n, check.error)])
            else OneCreated(p, next, domain, items[n], n, clock(n)) && next.reserved == check.value
    ensures CreateAtomicAfter(db, svc, domain, items, clock, n).Ok? ==>
            var p, next := CreateAtomicAfter(db, svc, domain, items, clock, n).value,
                           CreateAtomicAfter(db, svc, domain, items, clock, n + 1);
            var check := CheckCreate(p.db, db, svc, domain, items[n], p.reserved, n, true);
            if check.Err? then next == Err(Abort(n, check.error, p.db.nextItemId))
            else
              && next.Ok? && OneCreated(p, next.value, domain, items[n], n, clock(n))
              && next.value.reserved == check.value
    ensures var p := CreateAtomicAfter(db, svc, domain, items, clock, n);
            p.Err? ==> CreateAtomicAfter(db, svc, domain, items, clock, n + 1) == p
  {
  }

  lemma ReportsGrow(rows: seq<BatchRow>, row: BatchRow, x: int)
    ensures Reported(rows + [row], x) <==> Reported(rows, x) || (row.RowOk? && row.id == x)
  {
    var all := rows + [row];
    if Reported(rows, x) {
      var k :| 0 <= k < |rows| && rows[k].RowOk? && rows[k].id == x;
      assert all[k].id == x;
    }
    if row.RowOk? && row.id == x {
      assert all[|rows|].id == x;
    }
  }

  lemma CreateOneOutcome(db: Db, p: Progress, next: Progress, domain: nat, items: seq<NewItem>, n: nat, now: int)
    requires n < |items| && |p.rows| == n && CreatedSoFar(db, p.db, p.rows, domain, items)
    requires BelowNext(db) && BelowNext(p.db) && OneCreated(p, next, domain, items[n], n, now)
    ensures CreatedSoFar(db, next.db, next.rows, domain, items) && BelowNext(next.db)
  {
    var id := p.db.nextItemId;
    forall k | 0 <= k < n ensures RowLeft(db, next.db, next.rows[k], domain, items[k], k) {
      assert RowLeft(db, p.db, p.rows[k], domain, items[k], k) && next.rows[k] == p.rows[k];
    }
    assert RowLeft(db, next.db, next.rows[n], domain, items[n], n);
    forall x | x in next.db.items && x !in db.items ensures Reported(next.rows, x) {
      ReportsGrow(p.rows, RowOk(n, id, 1), x);
    }
    forall j, k | 0 <= j < k < n + 1 && next.rows[j].RowOk? && next.rows[k].RowOk?
      ensures next.rows[j].id < next.rows[k].id
    {
      assert RowLeft(db, p.db, p.rows[j], domain, items[j], j) && next.rows[j] == p.rows[j];
      assert k < n ==> next.rows[k] == p.rows[k];
    }
  }

  lemma RefusedRowOutcome(db: Db, p: Progress, code: Code, domain: nat, items: seq<NewItem>, n: nat)
    requires n < |items| && |p.rows| == n && CreatedSoFar(db, p.db, p.rows, domain, items)
    ensures CreatedSoFar(db, p.db, p.rows + [RowErr(n, code)], domain, items)
  {
    var rows := p.rows + [RowErr(n, code)];
    forall k | 0 <= k < n + 1 ensures RowLeft(db, p.db, rows[k], domain, items[k], k) {
      if k < n {
        assert RowLeft(db, p.db, p.rows[k], domain, items[k], k) && rows[k] == p.rows[k];
      }
    }
    forall x | x in p.db.items && x !in db.items ensures Reported(rows, x) {
      ReportsGrow(p.rows, RowErr(n, code), x);
    }
    forall j, k | 0 <= j < k < n + 1 && rows[j].RowOk? && rows[k].RowOk? ensures rows[j].id < rows[k].id {
      assert rows[j] == p.rows[j] && rows[k] == p.rows[k];
    }
  }

  lemma {:induction false} PartialCreateOutcome(
      db: Db, svc: Services, domain: nat, items: seq<NewItem>, clock: nat -> int, n: nat)
    requires n <= |items| && BelowNext(db)
    ensures var p := CreatePartialAfter(db, svc, domain, items, clock, n);
            |p.rows| == n && CreatedSoFar(db, p.db, p.rows, domain, items) && BelowNext(p.db)
  {
    if n > 0 {
      PartialCreateOutcome(db, svc, domain, items, clock, n - 1);
      var p := CreatePartialAfter(db, svc, domain, items, clock, n - 1);
      NewRowOutcome(db, svc, domain, items, clock, n - 1);
      match CheckCreate(p.db, p.db, svc, domain, items[n - 1], p.reserved, n - 1, true)
      case Ok(_) =>
        var next := CreatePartialAfter(db, svc, domain, items, clock, n);
        CreateOneOutcome(db, p, next, domain, items, n - 1, clock(n - 1));
      case Err(code) => RefusedRowOutcome(db, p, code, domain, items, n - 1);
    }
  }

  lemma {:induction false} AtomicCreateOutcome(
      db: Db, svc: Services, domain: nat, items: seq<NewItem>, clock: nat -> int, n: nat)
    requires n <= |items| && BelowNext(db) && CreateAtomicAfter(db, svc, domain, items, clock, n).Ok?
    ensures var p := CreateAtomicAfter(db, svc, domain, items, clock, n).value;
            && |p.rows| == n && CreatedSoFar(db, p.db, p.rows, domain, items) && BelowNext(p.db)
            && forall k :: 0 <= k < n ==> p.rows[k].RowOk?
  {
    if n > 0 {
      AtomicCreateOutcome(db, svc, domain, items, clock, n - 1);
      var p := CreateAtomicAfter(db, svc, domain, items, clock, n - 1).value;
      NewRowOutcome(db, svc, domain, items, clock, n - 1);
      var next := CreateAtomicAfter(db, svc, domain, items, clock, n).value;
      CreateOneOutcome(db, p, next, domain, items, n - 1, clock(n - 1));
    }
  }

  /** An abandoned atomic create leaves the tables as they were; only the id sequence may have moved on. */
  lemma {:induction false} AbortedCreateOutcome(
      db: Db, svc: Services, domain: nat, items: seq<NewItem>, clock: nat -> int, n: nat)
    requires n <= |items| && BelowNext(db) && CreateAtomicAfter(db, svc, domain, items, clock, n).Err?
    ensures var a := CreateAtomicAfter(db, svc, domain, items, clock, n).error;
            && a.index < n && CreateAtomicAfter(db, svc, domain, items, clock, a.index).Ok?
            && a.nextItemId == db.nextItemId + a.index
            && var p := CreateAtomicAfter(db, svc, domain, items, clock, a.index).value;
               CheckCreate(p.db, db, svc, domain, items[a.index], p.reserved, a.index, true) == Err(a.code)
  {
    NewRowOutcome(db, svc, domain, items, clock, n - 1);
    if CreateAtomicAfter(db, svc, domain, items, clock, n - 1).Err? {
      AbortedCreateOutcome(db, svc, domain, items, clock, n - 1);
    } else {
      IdsCounted(db, svc, domain, items, clock, n - 1);
    }
  }

  lemma {:induction false} IdsCounted(
      db: Db, svc: Services, domain: nat, items: seq<NewItem>, clock: nat -> int, n: nat)
    requires n <= |items| && CreateAtomicAfter(db, svc, domain, items, clock, n).Ok?
    ensures CreateAtomicAfter(db, svc, domain, items, clock, n).value.db.nextItemId == db.nextItemId + n
  {
    if n > 0 {
      NewRowOutcome(db, svc, domain, items, clock, n - 1);
      IdsCounted(db, svc, domain, items, clock, n - 1);
    }
  }

  /**
   Whatever a real batch create reports as created is there as requested, under ascending new
   ids, and nothing else is new; an atomic one creates all or nothing.
   */
  lemma CreateBatchOutcome(db: Db, svc: Services, domain: nat, items: seq<NewItem>, atomic: bool, clock: nat -> int)
    requires |items| > 0 && BelowNext(db)
    ensures var (after, reply) := CreateBatch(db, svc, domain, items, atomic, false, clock);
            && (reply.Rows? ==>
                  && reply.atomic == atomic && |reply.rows| == |items|
                  && CreatedSoFar(db, after, reply.rows, domain, items)
                  && (atomic ==> forall k :: 0 <= k < |items| ==> reply.rows[k].RowOk?))
            && (!reply.Rows? ==>
                  && atomic && reply.AtomicFailed? && reply.index < |items|
                  && after == db.(nextItemId := db.nextItemId + reply.index))
  {
    PartialCreateOutcome(db, svc, domain, items, clock, |items|);
    if CreateAtomicAfter(db, svc, domain, items, clock, |items|).Ok? {
      AtomicCreateOutcome(db, svc, domain, items, clock, |items|);
    } else {
      AbortedCreateOutcome(db, svc, domain, items, clock, |items|);
    }
  }

  /** Why a row of a batch create is refused; a singleton may also be claimed by an earlier row. */
  lemma NewRowRefusal(
      db: Db, seen: Db, svc: Services, domain: nat, item: NewItem, reserved: map<int, int>, k: nat, workflow: bool)
    requires seen.types == db.types
    ensures var check := CheckCreate(db, seen, svc, domain, item, reserved, k, workflow);
            var t := item.contentTypeId;
            && (check == Err(TypeNotFound) <==> !TypeHere(db, domain, t))
            && (TypeHere(db, domain, t) ==>
                  var answer := Answer(seen, svc, domain, t, item.data);
                  var forbidden := workflow && svc.governed(domain, t) && item.status.Some?
                                   && item.status.value !in {"", "draft"};
                  var taken := db.types[t].kind == Singleton && (SeatTaken(db, domain, t, {}) || t in reserved);
                  && (forall reason :: check == Err(Invalid(reason)) <==> answer == Some(reason))
                  && (check == Err(WorkflowForbidden) <==> answer == None && forbidden)
                  && (check == Err(SingletonExists) <==> answer == None && !forbidden && taken)
                  && (check.Ok? <==> answer == None && !forbidden && !taken)
                  && (check.Ok? ==>
                        check.value == if db.types[t].kind == Singleton then reserved[t := k] else reserved))
  {
    var t := item.contentTypeId;
    if TypeHere(db, domain, t) {
      AnswerIsAsked(seen, svc, domain, t, item.data);
      SeatIsOccupied(db, domain, t, 0);
    }
  }

  /** The dry run of a batch create: row by row, without the workflow check and without writing anything. */
  lemma {:induction false} DryCreateOutcome(db: Db, svc: Services, domain: nat, items: seq<NewItem>, n: nat, k: nat)
    requires k < n <= |items|
    ensures var p := CreateDryAfter(db, svc, domain, items, n);
            var before := CreateDryAfter(db, svc, domain, items, k);
            && p.db == before.db == db && |p.rows| == n
            && p.rows[k] == match CheckCreate(db, db, svc, domain, items[k], before.reserved, k, false)
                            case Err(code) => RowErr(k, code)
                            case Ok(_) => RowOk(k, 0, 1)
  {
    DryCreateCount(db, svc, domain, items, n);
    DryCreateCount(db, svc, domain, items, n - 1);
    DryCreateCount(db, svc, domain, items, k);
    if k < n - 1 {
      DryCreateOutcome(db, svc, domain, items, n - 1, k);
    }
  }

  lemma {:induction false} DryCreateCount(db: Db, svc: Services, domain: nat, items: seq<NewItem>, n: nat)
    requires n <= |items|
    ensures CreateDryAfter(db, svc, domain, items, n).db == db && |CreateDryAfter(db, svc, domain, items, n).rows| == n
  {
    if n > 0 {
      DryCreateCount(db, svc, domain, items, n - 1);
    }
  }

  // ---------------------------------------------------------------- updating items

  /** The row keeps this column or sets it. */
  predicate Column<T(==)>(after: T, before: T, asked: Option<T>) {
    match asked
    case None => after == before
    case Some(value) => after == value
  }

  /** The head after an update: each column as asked for or as before, one version on, at a new time. */
  ghost predicate UpdatedAs(
      after: Item, before: Item, t: Option<int>, data: Option<string>, status: Option<string>, now: int) {
    && after.domain == before.domain
    && Column(after.contentTypeId, before.contentTypeId, t)
    && Column(after.data, before.data, data)
    && Column(after.status, before.status, status)
    && after.version == before.version + 1 && after.updatedAt == now
  }

  /** One head is replaced, and what it was becomes the newest history row, dated when it was written. */
  ghost predicate HeadReplaced(before: Db, after: Db, id: int) {
    && id in before.items && id in after.items
    && after.types == before.types && after.nextTypeId == before.nextTypeId && after.nextItemId == before.nextItemId
    && (forall x :: x in after.items <==> x in before.items)
    && (forall x :: x in before.items && x != id ==> after.items[x] == before.items[x])
    && |after.versions| == |before.versions| + 1 && after.versions[..|before.versions|] == before.versions
    && var archived, head := after.versions[|before.versions|], before.items[id];
       && archived.itemId == id && archived.version == head.version && archived.data == head.data
       && archived.status == head.status && archived.createdAt == head.updatedAt
  }

  /** What an update asks for, with empty data counting as none where the mode says so. */
  ghost function AskedData(patch: Patch, dropEmpty: bool): Option<string> {
    if dropEmpty && patch.data == Some("") then None else patch.data
  }

  ghost predicate NothingAsked(patch: Patch, dropEmpty: bool) {
    patch.contentTypeId == None && AskedData(patch, dropEmpty) == None && patch.status == None
  }

  ghost predicate Forbidden(db: Db, svc: Services, domain: nat, id: int, t: int, status: Option<string>)
    requires id in db.items
  {
    svc.governed(domain, t) && status.Some? && status.value != "" && status.value != db.items[id].status
  }

  /** The type an update leads to, and the data it leaves. */
  ghost function Target(db: Db, id: int, asked: Option<int>): int
    requires id in db.items
  {
    if asked.Some? then asked.value else db.items[id].contentTypeId
  }

  ghost function DataLeft(db: Db, id: int, asked: Option<string>): string
    requires id in db.items
  {
    if asked.Some? then asked.value else db.items[id].data
  }

  /** Why a single update is refused, in the order of the checks. */
  ghost function UpdateRefusal(db: Db, svc: Services, domain: nat, id: int, patch: Patch): Option<Code> {
    if NothingAsked(patch, true) then Some(EmptyUpdateBody)
    else if !ItemHere(db, domain, id) then Some(ItemNotFound)
    else
      var t := Target(db, id, patch.contentTypeId);
      if !TypeHere(db, domain, t) then Some(TypeNotFound)
      else if SeatTaken(db, domain, t, {id}) then Some(SingletonExists)
      else
        var answer := Answer(db, svc, domain, t, DataLeft(db, id, AskedData(patch, true)));
        if answer.Some? then Some(Invalid(answer.value))
        else if Forbidden(db, svc, domain, id, t, patch.status) then Some(WorkflowForbidden)
        else None
  }

  /**
   An update is refused exactly for the reasons above. Otherwise a dry run shows the item as it
   would be without a new version and changes nothing, and a real one archives the head and
   replaces it by one with the columns asked for.
   */
  lemma UpdateItemOutcome(db: Db, svc: Services, domain: nat, id: int, patch: Patch, dryRun: bool, now: int)
    ensures var (after, reply) := UpdateItem(db, svc, domain, id, patch, dryRun, now);
            var refusal := UpdateRefusal(db, svc, domain, id, patch);
            && (forall code :: reply == Err(code) <==> refusal == Some(code))
            && (refusal.Some? || dryRun ==> after == db)
            && (refusal.None? ==> id in db.items && reply.Ok?)
            && (refusal.None? && dryRun ==>
                  UpdatedAs(reply.value.(version := reply.value.version + 1, updatedAt := now), db.items[id],
                            patch.contentTypeId, AskedData(patch, true), patch.status, now)
                  && reply.value.updatedAt == db.items[id].updatedAt)
            && (refusal.None? && !dryRun ==>
                  && HeadReplaced(db, after, id) && reply.value == after.items[id]
                  && UpdatedAs(after.items[id], db.items[id], patch.contentTypeId, AskedData(patch, true),
                               patch.status, now))
  {
    if ItemHere(db, domain, id) {
      var t := Target(db, id, patch.contentTypeId);
      if TypeHere(db, domain, t) {
        AnswerIsAsked(db, svc, domain, t, DataLeft(db, id, AskedData(patch, true)));
        SeatIsOccupied(db, domain, t, id);
      }
    }
  }

  /**
   A batch row is refused exactly for these reasons, in this order: nothing asked, no such item,
   no such type, the schema's answer on the tables it sees, a workflow, a seat taken or claimed.
   */
  lemma RowRefusal(
      db: Db, seen: Db, svc: Services, domain: nat, id: int, raw: Patch, reserved: map<int, int>, partial: bool)
    requires seen.types == db.types
    ensures var patch := if partial then raw.DropEmptyData() else raw;
            var check := CheckUpdate(db, seen, svc, domain, id, patch, reserved, partial);
            && (check == Err(EmptyUpdateBody) <==> NothingAsked(raw, partial))
            && (check == Err(ItemNotFound) <==> !NothingAsked(raw, partial) && !ItemHere(db, domain, id))
            && (!NothingAsked(raw, partial) && ItemHere(db, domain, id) ==>
                  var t := Target(db, id, raw.contentTypeId);
                  && (check == Err(TypeNotFound) <==> !TypeHere(db, domain, t))
                  && (TypeHere(db, domain, t) ==>
                        var answer := Answer(seen, svc, domain, t, DataLeft(db, id, AskedData(raw, partial)));
                        var forbidden := partial && Forbidden(db, svc, domain, id, t, raw.status);
                        var taken := db.types[t].kind == Singleton
                                     && (SeatTaken(db, domain, t, {id}) || (t in reserved && reserved[t] != id));
                        && (forall reason :: check == Err(Invalid(reason)) <==> answer == Some(reason))
                        && (check == Err(WorkflowForbidden) <==> answer == None && forbidden)
                        && (check == Err(SingletonExists) <==> answer == None && !forbidden && taken)
                        && (check.Ok? <==> answer == None && !forbidden && !taken)
                        && (check.Ok? ==>
                              check.value == if db.types[t].kind == Singleton then reserved[t := id] else reserved)))
  {
    if ItemHere(db, domain, id) {
      var t := Target(db, id, raw.contentTypeId);
      if TypeHere(db, domain, t) {
        AnswerIsAsked(seen, svc, domain, t, DataLeft(db, id, AskedData(raw, partial)));
        SeatIsOccupied(db, domain, t, id);
      }
    }
  }

  /** A row taken replaces its head as asked and is reported with the new version; one refused changes nothing. */
  lemma RowOutcome(p: Progress, seen: Db, svc: Services, domain: nat, row: UpdateRow, k: nat, now: int)
    ensures var check := CheckUpdate(p.db, p.db, svc, domain, row.id, row.patch.DropEmptyData(), p.reserved, true);
            var next := PartialStep(p, svc, domain, row, k, now);
            if check.Err? then next == Progress(p.db, p.reserved, p.rows + [RowErr(k, check.error)])
            else
              && HeadReplaced(p.db, next.db, row.id) && next.reserved == check.value
              && UpdatedAs(next.db.items[row.id], p.db.items[row.id], row.patch.contentTypeId,
                           AskedData(row.patch, true), row.patch.status, now)
              && next.rows == p.rows + [RowOk(k, row.id, next.db.items[row.id].version)]
    ensures var check := CheckUpdate(p.db, seen, svc, domain, row.id, row.patch, p.reserved, false);
            var next := AtomicStep(p, seen, svc, domain, row, k, now);
            if check.Err? then next.Err? && next.error.index == k && next.error.code == check.error
            else
              && next.Ok? && HeadReplaced(p.db, next.value.db, row.id) && next.value.reserved == check.value
              && UpdatedAs(next.value.db.items[row.id], p.db.items[row.id], row.patch.contentTypeId,
                           row.patch.data, row.patch.status, now)
              && next.value.rows == p.rows + [RowOk(k, row.id, next.value.db.items[row.id].version)]
  {
  }

  /** The dry run reports the version the row would have and writes nothing. */
  lemma DryRowOutcome(p: Progress, svc: Services, domain: nat, row: UpdateRow, k: nat)
    ensures var check := CheckUpdate(p.db, p.db, svc, domain, row.id, row.patch.DropEmptyData(), p.reserved, true);
            var next := DryStep(p, svc, domain, row, k);
            && next.db == p.db
            && (check.Err? ==> next.reserved == p.reserved && next.rows == p.rows + [RowErr(k, check.error)])
            && (check.Ok? ==>
                  && next.reserved == check.value && row.id in p.db.items
                  && next.rows == p.rows + [RowOk(k, row.id, p.db.items[row.id].version + 1)])
  {
  }

  // ---------------------------------------------------------------- globals

  /**
   Updating a global writes the one item of the singleton type with that slug, or creates it: with
   the data given, and the status given or else the one it has, or draft. The schema is asked
   about that data.
   */
  lemma UpdateGlobalOutcome(
      db: Db, svc: Services, domain: nat, slug: string, data: string, status: Option<string>, dryRun: bool, now: int)
    requires Sound(db)
    ensures var (after, reply) := UpdateGlobal(db, svc, domain, slug, data, status, dryRun, now);
            && (reply == Err(GlobalNotFound) <==>
                  forall t :: TypeHere(db, domain, t) ==> db.types[t].slug != slug || db.types[t].kind != Singleton)
            && (reply.Err? || dryRun ==> after == db)
            && forall t :: TypeHere(db, domain, t) && db.types[t].slug == slug && db.types[t].kind == Singleton ==>
                 && (forall id :: ItemHere(db, domain, id) && db.items[id].contentTypeId == t ==>
                       GlobalWritten(db, after, reply, svc, domain, t, id, data, status, dryRun, now))
                 && (!SeatTaken(db, domain, t, {}) ==>
                       GlobalCreated(db, after, reply, svc, domain, t, data, status, dryRun, now))
  {
    var (after, reply) := UpdateGlobal(db, svc, domain, slug, data, status, dryRun, now);
    forall t | TypeHere(db, domain, t) && db.types[t].slug == slug && db.types[t].kind == Singleton
      ensures && (forall id :: ItemHere(db, domain, id) && db.items[id].contentTypeId == t ==>
                    GlobalWritten(db, after, reply, svc, domain, t, id, data, status, dryRun, now))
              && (!SeatTaken(db, domain, t, {}) ==>
                    GlobalCreated(db, after, reply, svc, domain, t, data, status, dryRun, now))
    {
      forall id | ItemHere(db, domain, id) && db.items[id].contentTypeId == t
        ensures GlobalWritten(db, after, reply, svc, domain, t, id, data, status, dryRun, now)
      {
        WrittenGlobal(db, svc, domain, slug, t, id, data, status, dryRun, now);
      }
      if !SeatTaken(db, domain, t, {}) {
        CreatedGlobal(db, svc, domain, slug, t, data, status, dryRun, now);
      }
    }
    NoGlobal(db, svc, domain, slug, data, status, dryRun, now);
  }

  lemma WrittenGlobal(
      db: Db, svc: Services, domain: nat, slug: string, t: int, id: int,
      data: string, status: Option<string>, dryRun: bool, now: int)
    requires Sound(db) && IsGlobal(db, domain, slug, t) && ItemHere(db, domain, id) && db.items[id].contentTypeId == t
    ensures var (after, reply) := UpdateGlobal(db, svc, domain, slug, data, status, dryRun, now);
            GlobalWritten(db, after, reply, svc, domain, t, id, data, status, dryRun, now)
  {
    OnlyGlobal(db, domain, slug, t);
    OnlyItem(db, domain, t, id);
    AnswerIsAsked(db, svc, domain, t, data);
  }

  lemma CreatedGlobal(
      db: Db, svc: Services, domain: nat, slug: string, t: int,
      data: string, status: Option<string>, dryRun: bool, now: int)
    requires Sound(db) && IsGlobal(db, domain, slug, t) && !SeatTaken(db, domain, t, {})
    ensures var (after, reply) := UpdateGlobal(db, svc, domain, slug, data, status, dryRun, now);
            GlobalCreated(db, after, reply, svc, domain, t, data, status, dryRun, now)
  {
    OnlyGlobal(db, domain, slug, t);
    NoItem(db, domain, t);
    AnswerIsAsked(db, svc, domain, t, data);
  }

  lemma NoGlobal(
      db: Db, svc: Services, domain: nat, slug: string, data: string, status: Option<string>, dryRun: bool, now: int)
    ensures var (after, reply) := UpdateGlobal(db, svc, domain, slug, data, status, dryRun, now);
            && (reply == Err(GlobalNotFound) <==> forall t :: !IsGlobal(db, domain, slug, t))
            && (reply.Err? || dryRun ==> after == db)
  {
  }

  ghost predicate GlobalWritten(
      db: Db, after: Db, reply: Result<GlobalReply, Code>, svc: Services, domain: nat, t: int, id: int,
      data: string, status: Option<string>, dryRun: bool, now: int)
    requires t in db.types && id in db.items
  {
    var answer := Answer(db, svc, domain, t, data);
    && (forall reason :: reply == Err(Invalid(reason)) <==> answer == Some(reason))
    && (reply == Err(WorkflowForbidden) <==> answer == None && Forbidden(db, svc, domain, id, t, status))
    && (reply.Ok? <==> answer == None && !Forbidden(db, svc, domain, id, t, status))
    && (reply.Ok? ==>
          && reply.value.typeId == t && reply.value.itemId == id && reply.value.data == data
          && Column(reply.value.status, db.items[id].status, status)
          && reply.value.version == db.items[id].version + 1
          && (!dryRun ==> HeadReplaced(db, after, id)
                          && UpdatedAs(after.items[id], db.items[id], None, Some(data), status, now)))
  }

  ghost predicate GlobalCreated(
      db: Db, after: Db, reply: Result<GlobalReply, Code>, svc: Services, domain: nat, t: int,
      data: string, status: Option<string>, dryRun: bool, now: int)
    requires t in db.types
  {
    var answer := Answer(db, svc, domain, t, data);
    var forbidden := svc.governed(domain, t) && status.Some? && status.value !in {"", "draft"};
    && (forall reason :: reply == Err(Invalid(reason)) <==> answer == Some(reason))
    && (reply == Err(WorkflowForbidden) <==> answer == None && forbidden)
    && (reply.Ok? <==> answer == None && !forbidden)
    && (reply.Ok? ==>
          && reply.value.typeId == t && reply.value.data == data && reply.value.version == 1
          && Column(reply.value.status, "draft", status)
          && reply.value.itemId == (if dryRun then 0 else db.nextItemId)
          && (!dryRun ==>
                && OnlyItemsChanged(db, after) && after.nextItemId == db.nextItemId + 1
                && after.items == db.items[db.nextItemId := Item(domain, t, data, reply.value.status, 1, now)]))
  }

  lemma OnlyGlobal(db: Db, domain: nat, slug: string, t: int)
    requires Sound(db) && IsGlobal(db, domain, slug, t)
    ensures GlobalType(db, domain, slug) == Some(t)
  {
  }

  lemma OnlyItem(db: Db, domain: nat, t: int, id: int)
    requires Sound(db) && IsSingleton(db, t) && ItemHere(db, domain, id) && db.items[id].contentTypeId == t
    ensures SingletonItem(db, domain, t) == Some(id) && !Occupied(db, domain, t, Some(id))
  {
    assert InType(db, domain, t, id);
  }

  lemma NoItem(db: Db, domain: nat, t: int)
    requires IsSingleton(db, t) && !SeatTaken(db, domain, t, {})
    ensures SingletonItem(db, domain, t) == None && !Occupied(db, domain, t, None)
  {
    SeatIsOccupied(db, domain, t, 0);
  }

  // ---------------------------------------------------------------- rollback

  /**
   A rollback to an earlier version is refused exactly if there is no such item or version, or the
   schema of the item's type refuses that version's data; a real one leaves that data and status
   as a new version, and a dry one answers the same and changes nothing.
   */
  lemma RollbackOutcome(db: Db, svc: Services, domain: nat, id: int, version: int, dryRun: bool, now: int)
    requires Sound(db)
    ensures var (after, reply) := Rollback(db, svc, domain, id, version, dryRun, now);
            && (reply == Err(ItemNotFound) <==> !ItemHere(db, domain, id))
            && (reply.Err? || dryRun ==> after == db)
            && (ItemHere(db, domain, id) ==>
                  var head := db.items[id];
                  && (reply == Err(VersionNotFound) <==> !(1 <= version < head.version))
                  && (1 <= version < head.version ==>
                        && head.contentTypeId in db.types && |Timeline(db, id)| == head.version
                        && var entry := Timeline(db, id)[version - 1];
                           var answer := Answer(db, svc, domain, head.contentTypeId, entry.data);
                           && (forall reason :: reply == Err(Invalid(reason)) <==> answer == Some(reason))
                           && (reply == Ok(head.version + 1) <==> answer == None)
                           && (reply.Ok? && !dryRun ==>
                                 HeadReplaced(db, after, id)
                                 && UpdatedAs(after.items[id], head, None, Some(entry.data), Some(entry.status), now))))
  {
    if ItemHere(db, domain, id) {
      HistoryIsExact(db, id, version);
      assert Numbered(db, id);
      SeatIsOwn(db, id);
      if 1 <= version < db.items[id].version {
        var target := TargetRow(db.versions, id, version);
        RowIsTimelineEntry(db, id, target);
        AnswerIsAsked(db, svc, domain, db.items[id].contentTypeId, target.data);
      }
    }
  }

  // ---------------------------------------------------------------- deleting items

  /** A delete of the domain's item takes it and its history rows away, and nothing else. */
  lemma DeleteItemOutcome(db: Db, domain: nat, id: int, dryRun: bool)
    ensures var (after, reply) := DeleteItem(db, domain, id, dryRun);
            && (reply == Err(ItemNotFound) <==> !ItemHere(db, domain, id))
            && (ItemHere(db, domain, id) ==> reply == Ok(id))
            && (reply.Err? || dryRun ==> after == db)
            && (reply.Ok? && !dryRun ==>
                  && after.types == db.types && after.nextTypeId == db.nextTypeId && after.nextItemId == db.nextItemId
                  && (forall x :: x in after.items <==> x in db.items && x != id)
                  && (forall x :: x in after.items ==> after.items[x] == db.items[x])
                  && (forall row :: row in after.versions <==> row in db.versions && row.itemId != id))
  {
    HistoryWithout(db.versions, id);
  }

  lemma {:induction false} HistoryWithout(versions: seq<VersionRow>, id: int)
    ensures forall row :: row in WithoutRows(versions, id) <==> row in versions && row.itemId != id
  {
    if |versions| > 0 {
      HistoryWithout(versions[..|versions| - 1], id);
      assert versions == versions[..|versions| - 1] + [versions[|versions| - 1]];
    }
  }

  // ---------------------------------------------------------------- content types

  ghost predicate SlugUsed(db: Db, domain: nat, slug: string, excepted: set<int>) {
    exists t :: TypeHere(db, domain, t) && t !in excepted && db.types[t].slug == slug
  }

  lemma SlugIsTaken(db: Db, domain: nat, slug: string, id: int)
    ensures SlugTaken(db, domain, slug, None) <==> SlugUsed(db, domain, slug, {})
    ensures SlugTaken(db, domain, slug, Some(id)) <==> SlugUsed(db, domain, slug, {id})
  {
    if SlugUsed(db, domain, slug, {}) {
      var t :| TypeHere(db, domain, t) && db.types[t].slug == slug;
    }
    if SlugUsed(db, domain, slug, {id}) {
      var t :| TypeHere(db, domain, t) && t != id && db.types[t].slug == slug;
    }
  }

  /** The kinds a request can name. */
  ghost predicate Names(raw: string, kind: Kind) {
    (raw == "collection" && kind == Collection) || (raw == "singleton" && kind == Singleton)
  }

  /** A request brings one schema source, compiled. */
  ghost predicate Brings(source: SchemaSource, schema: string) {
    || (source.schema == Some(Ok(schema)) && source.manifest == None)
    || (source.manifest == Some(Ok(schema)) && source.schema == None)
  }

  ghost predicate BringsNone(source: SchemaSource) { source.schema == None && source.manifest == None }

  ghost predicate BringsBoth(source: SchemaSource) { source.schema != None && source.manifest != None }

  /** A text there is no such kind for. */
  ghost predicate UnknownKind(raw: Option<string>) { raw.Some? && raw.value !in {"collection", "singleton"} }

  /** What is wrong with a request's schema: two sources, none where one is needed, or one that does not compile. */
  ghost predicate SourceFault(source: SchemaSource, required: bool, code: Code) {
    || (code == SchemaSourceConflict && BringsBoth(source))
    || (code == SchemaSourceRequired && required && BringsNone(source))
    || (code.Invalid? && source.schema == Some(Err(code.reason)) && source.manifest == None)
    || (code.Invalid? && source.manifest == Some(Err(code.reason)) && source.schema == None)
  }

  ghost predicate SourceSound(source: SchemaSource, required: bool) {
    forall code :: !SourceFault(source, required, code)
  }

  lemma SourceIsSoundOrFaulty(source: SchemaSource, required: bool)
    ensures forall code :: ResolveSource(source, required) == Err(code) <==> SourceFault(source, required, code)
    ensures SourceSound(source, required) <==> ResolveSource(source, required).Ok?
    ensures forall text :: ResolveSource(source, required) == Ok(Some(text)) <==> Brings(source, text)
    ensures ResolveSource(source, required) == Ok(None) <==> BringsNone(source) && !required
  {
    var r := ResolveSource(source, required);
    if r.Err? {
      assert SourceFault(source, required, r.error);
    }
  }

  /** The type a create leaves under the next id. */
  ghost predicate TypeCreated(
      db: Db, after: Db, domain: nat, slug: string, rawKind: Option<string>, source: SchemaSource) {
    && after.items == db.items && after.versions == db.versions
    && after.nextItemId == db.nextItemId && after.nextTypeId == db.nextTypeId + 1
    && db.nextTypeId in after.types && after.types == db.types[db.nextTypeId := after.types[db.nextTypeId]]
    && var made := after.types[db.nextTypeId];
       && made.domain == domain && made.slug == slug && Brings(source, made.schema)
       && Names(if rawKind == None then "collection" else rawKind.value, made.kind)
  }

  /**
   A new type needs a known kind (collection if none is named), one schema source that compiles,
   and a slug the domain does not use yet; these are checked in this order.
   */
  lemma CreateTypeOutcome(
      db: Db, domain: nat, slug: string, rawKind: Option<string>, source: SchemaSource, dryRun: bool)
    ensures var (after, reply) := CreateType(db, domain, slug, rawKind, source, dryRun);
            && (reply.Err? || dryRun ==> after == db)
            && (UnknownKind(rawKind) ==> reply == Err(InvalidKind))
            && (forall code :: !UnknownKind(rawKind) && SourceFault(source, true, code) ==> reply == Err(code))
            && (!UnknownKind(rawKind) && SourceSound(source, true) ==>
                  if dryRun then reply == Ok(0)
                  else if SlugUsed(db, domain, slug, {}) then reply == Err(SlugConflict)
                  else reply == Ok(db.nextTypeId) && TypeCreated(db, after, domain, slug, rawKind, source))
  {
    SlugIsTaken(db, domain, slug, 0);
    SourceIsSoundOrFaulty(source, true);
  }

  /** Nothing a type update could write is named. */
  ghost predicate NoTypeColumn(patch: TypePatch) {
    patch.slug == None && patch.rawKind == None && BringsNone(patch.source) && !patch.other
  }

  ghost predicate SeveralItems(db: Db, domain: nat, t: int) {
    |set x | x in db.items && db.items[x].domain == domain && db.items[x].contentTypeId == t| > 1
  }

  /** Each column of the type is as asked for or as before. */
  ghost predicate TypeUpdatedAs(after: ContentType, before: ContentType, patch: TypePatch) {
    && after.domain == before.domain
    && Column(after.slug, before.slug, patch.slug)
    && (if patch.rawKind == None then after.kind == before.kind else Names(patch.rawKind.value, after.kind))
    && (if BringsNone(patch.source) then after.schema == before.schema else Brings(patch.source, after.schema))
  }

  /**
   A type update keeps or sets slug, kind and schema. A collection with several items cannot become
   a singleton, and no two types of a domain share a slug.
   */
  lemma UpdateTypeOutcome(db: Db, domain: nat, id: int, patch: TypePatch, dryRun: bool)
    ensures var (after, reply) := UpdateType(db, domain, id, patch, dryRun);
            && (reply.Err? || dryRun ==> after == db)
            && (UnknownKind(patch.rawKind) ==> reply == Err(InvalidKind))
            && (forall code :: !UnknownKind(patch.rawKind) && SourceFault(patch.source, false, code) ==>
                  reply == Err(code))
            && (!UnknownKind(patch.rawKind) && SourceSound(patch.source, false) ==>
                  if NoTypeColumn(patch) then reply == Err(EmptyUpdateBody)
                  else if !TypeHere(db, domain, id) then reply == Err(TypeNotFound)
                  else if patch.rawKind == Some("singleton") && db.types[id].kind == Collection
                          && SeveralItems(db, domain, id) then reply == Err(SingletonNeedsOneItem)
                  else if !dryRun && SlugUsed(db, domain, patch.slug.Or(db.types[id].slug), {id})
                  then reply == Err(SlugConflict)
                  else
                    && reply.Ok? && TypeUpdatedAs(reply.value, db.types[id], patch)
                    && (!dryRun ==> after == db.(types := db.types[id := reply.value])))
  {
    SlugIsTaken(db, domain, if id in db.types then patch.slug.Or(db.types[id].slug) else "", id);
    SourceIsSoundOrFaulty(patch.source, false);
    assert MembersOf(db, domain, id)
        == set x | x in db.items && db.items[x].domain == domain && db.items[x].contentTypeId == id;
  }

  /** A type is deleted exactly if the domain has it and no item is of it. */
  lemma DeleteTypeOutcome(db: Db, domain: nat, id: int, dryRun: bool)
    ensures var (after, reply) := DeleteType(db, domain, id, dryRun);
            && (reply == Err(TypeNotFound) <==> !TypeHere(db, domain, id))
            && (reply == Err(TypeInUse) <==>
                  TypeHere(db, domain, id) && !dryRun && exists x :: x in db.items && db.items[x].contentTypeId == id)
            && (TypeHere(db, domain, id) && reply.Err? ==> reply == Err(TypeInUse))
            && (reply.Ok? ==> reply == Ok(id))
            && (reply.Err? || dryRun ==> after == db)
            && (reply.Ok? && !dryRun ==> after == db.(types := db.types - {id}))
  {
  }
}
