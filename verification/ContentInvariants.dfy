/**
 What every mutation keeps: singleton types hold at most one item, every item's type
 exists in the item's own domain, and each item's history rows are exactly its earlier
 versions. History is append-only: an item's timeline only ever grows at its end.
 */
module ContentInvariants {
  import opened Outcomes
  import opened ContentDb

  /** All versions of an item in order: its history rows and then its head. */
  function Timeline(db: Db, id: int): seq<VersionRow>
    requires id in db.items
  {
    RowsOf(db.versions, id) + [Snapshot(id, db.items[id])]
  }

  /** The timeline's entries are numbered 1, 2, ..., and the head carries the last number. */
  ghost predicate Numbered(db: Db, id: int)
    requires id in db.items
  {
    var line := Timeline(db, id);
    && db.items[id].version == |line|
    && forall k :: 0 <= k < |line| ==> line[k].version == k + 1
  }

  ghost predicate TypesSound(db: Db) {
    && (forall t :: t in db.types ==> t < db.nextTypeId)
    && (forall t, u | t in db.types && u in db.types ::
          db.types[t].domain == db.types[u].domain && db.types[t].slug == db.types[u].slug ==> t == u)
  }

  ghost predicate ItemsTyped(db: Db) {
    forall id :: id in db.items ==>
      id < db.nextItemId && FindType(db, db.items[id].domain, db.items[id].contentTypeId).Some?
  }

  predicate IsSingleton(db: Db, t: int) {
    t in db.types && db.types[t].kind.Singleton?
  }

  ghost predicate SingletonsSingle(db: Db) {
    forall a, b | a in db.items && b in db.items ::
      db.items[a].contentTypeId == db.items[b].contentTypeId && IsSingleton(db, db.items[a].contentTypeId) ==> a == b
  }

  ghost predicate HistorySound(db: Db) {
    && (forall id :: id in db.items ==> Numbered(db, id))
    && (forall k :: 0 <= k < |db.versions| ==> db.versions[k].itemId in db.items)
  }

  ghost predicate Sound(db: Db) {
    TypesSound(db) && ItemsTyped(db) && SingletonsSingle(db) && HistorySound(db)
  }

  /** No timeline is rewritten: those of surviving items are extended, and deleted ids do not come back. */
  ghost predicate Grows(before: Db, after: Db) {
    && before.nextItemId <= after.nextItemId
    && forall id :: id in after.items && id < before.nextItemId ==>
         id in before.items && Timeline(before, id) <= Timeline(after, id)
  }

  lemma GrowsTransitive(a: Db, b: Db, c: Db)
    requires Grows(a, b) && Grows(b, c)
    ensures Grows(a, c)
  {
  }

  // ---------------------------------------------------------------- history rows

  lemma RowsOfAppend(versions: seq<VersionRow>, row: VersionRow, id: int)
    ensures RowsOf(versions + [row], id)
         == if row.itemId == id then RowsOf(versions, id) + [row] else RowsOf(versions, id)
  {
  }

  lemma {:induction false} NoRows(versions: seq<VersionRow>, id: int)
    requires forall k :: 0 <= k < |versions| ==> versions[k].itemId != id
    ensures RowsOf(versions, id) == []
  {
    if |versions| > 0 {
      NoRows(versions[..|versions| - 1], id);
    }
  }

  lemma {:induction false} WithoutRowsKeepsOthers(versions: seq<VersionRow>, gone: int, id: int)
    requires id != gone
    ensures RowsOf(WithoutRows(versions, gone), id) == RowsOf(versions, id)
  {
    if |versions| > 0 {
      var init := versions[..|versions| - 1];
      var last := versions[|versions| - 1];
      WithoutRowsKeepsOthers(init, gone, id);
      if last.itemId != gone {
        RowsOfAppend(WithoutRows(init, gone), last, id);
      }
    }
  }

  lemma {:induction false} WithoutRowsSound(versions: seq<VersionRow>, gone: int)
    ensures forall r :: r in WithoutRows(versions, gone) <==> r in versions && r.itemId != gone
  {
    if |versions| > 0 {
      WithoutRowsSound(versions[..|versions| - 1], gone);
      assert versions == versions[..|versions| - 1] + [versions[|versions| - 1]];
    }
  }

  lemma {:induction false} RowsOfMembers(versions: seq<VersionRow>, id: int)
    ensures forall r :: r in RowsOf(versions, id) <==> r in versions && r.itemId == id
  {
    if |versions| > 0 {
      RowsOfMembers(versions[..|versions| - 1], id);
      assert versions == versions[..|versions| - 1] + [versions[|versions| - 1]];
    }
  }

  /** How many history rows an item has for one version number. */
  function CountRows(versions: seq<VersionRow>, id: int, version: int): nat {
    if |versions| == 0 then 0 else
    var last := versions[|versions| - 1];
    CountRows(versions[..|versions| - 1], id, version) + (if last.itemId == id && last.version == version then 1 else 0)
  }

  lemma {:induction false} CountRowsOfOne(versions: seq<VersionRow>, id: int, version: int)
    ensures CountRows(versions, id, version) == CountRows(RowsOf(versions, id), id, version)
  {
    if |versions| > 0 {
      var init := versions[..|versions| - 1];
      var last := versions[|versions| - 1];
      CountRowsOfOne(init, id, version);
      if last.itemId == id {
        var rows := RowsOf(init, id) + [last];
        assert rows[..|rows| - 1] == RowsOf(init, id);
      }
    }
  }

  lemma {:induction false} CountNumbered(rows: seq<VersionRow>, id: int, version: int)
    requires forall k :: 0 <= k < |rows| ==> rows[k].itemId == id && rows[k].version == k + 1
    ensures CountRows(rows, id, version) == if 1 <= version <= |rows| then 1 else 0
  {
    if |rows| > 0 {
      CountNumbered(rows[..|rows| - 1], id, version);
    }
  }

  /** An item at version v has exactly one history row for each of 1..v-1 and no other. */
  lemma HistoryIsExact(db: Db, id: int, version: int)
    requires Sound(db) && id in db.items
    ensures CountRows(db.versions, id, version) == if 1 <= version < db.items[id].version then 1 else 0
    ensures HasVersion(db.versions, id, version) <==> 1 <= version < db.items[id].version
  {
    var rows := RowsOf(db.versions, id);
    var line := Timeline(db, id);
    RowsOfMembers(db.versions, id);
    CountRowsOfOne(db.versions, id, version);
    assert Numbered(db, id);
    forall k | 0 <= k < |rows| ensures rows[k].itemId == id && rows[k].version == k + 1 {
      assert rows[k] == line[k] && rows[k] in rows;
    }
    CountNumbered(rows, id, version);
    if 1 <= version < db.items[id].version {
      assert rows[version - 1] in rows;
      var k :| 0 <= k < |db.versions| && db.versions[k] == rows[version - 1];
    }
    if HasVersion(db.versions, id, version) {
      var k :| 0 <= k < |db.versions| && db.versions[k].itemId == id && db.versions[k].version == version;
      assert db.versions[k] in db.versions;
      var j :| 0 <= j < |rows| && rows[j] == db.versions[k];
    }
  }

  /** Any history row is the timeline entry of its version; so there is one row to find per version. */
  lemma RowIsTimelineEntry(db: Db, id: int, row: VersionRow)
    requires Sound(db) && id in db.items && row in db.versions && row.itemId == id
    ensures 1 <= row.version < db.items[id].version
    ensures row == Timeline(db, id)[row.version - 1]
  {
    RowsOfMembers(db.versions, id);
    var rows := RowsOf(db.versions, id);
    assert row in rows;
    var j :| 0 <= j < |rows| && rows[j] == row;
    assert Numbered(db, id);
    assert Timeline(db, id)[j] == row;
  }

  // ---------------------------------------------------------------- elementary writes keep soundness

  lemma WriteHeadExtends(db: Db, id: int, head: Item, other: int)
    requires id in db.items && other in db.items
    ensures Timeline(WriteHead(db, id, head), other)
         == Timeline(db, other) + (if other == id then [Snapshot(id, head)] else [])
  {
    RowsOfAppend(db.versions, Snapshot(id, db.items[id]), other);
  }

  /** The head may take a seat that nobody else has. */
  lemma WriteHeadKeepsSingletons(db: Db, id: int, head: Item)
    requires ItemsTyped(db) && SingletonsSingle(db) && id in db.items
    requires FindType(db, head.domain, head.contentTypeId).Some?
    requires db.types[head.contentTypeId].kind.Singleton? ==> !Occupied(db, head.domain, head.contentTypeId, Some(id))
    ensures SingletonsSingle(WriteHead(db, id, head))
  {
    forall other | other in db.items && other != id && db.items[other].contentTypeId == head.contentTypeId
      ensures !IsSingleton(db, head.contentTypeId)
    {
      assert FindType(db, db.items[other].domain, db.items[other].contentTypeId).Some?;
      assert InType(db, head.domain, head.contentTypeId, other);
    }
  }

  lemma WriteHeadKeeps(db: Db, id: int, head: Item)
    requires Sound(db) && id in db.items
    requires head.domain == db.items[id].domain && head.version == db.items[id].version + 1
    requires FindType(db, head.domain, head.contentTypeId).Some?
    requires db.types[head.contentTypeId].kind.Singleton? ==> !Occupied(db, head.domain, head.contentTypeId, Some(id))
    ensures Sound(WriteHead(db, id, head)) && Grows(db, WriteHead(db, id, head))
    ensures Timeline(WriteHead(db, id, head), id) == Timeline(db, id) + [Snapshot(id, head)]
  {
    var after := WriteHead(db, id, head);
    WriteHeadKeepsSingletons(db, id, head);
    WriteHeadExtends(db, id, head, id);
    forall other | other in after.items
      ensures Numbered(after, other) && Timeline(db, other) <= Timeline(after, other)
    {
      WriteHeadExtends(db, id, head, other);
      assert Numbered(db, other);
    }
  }

  lemma InsertKeeps(db: Db, item: Item)
    requires Sound(db) && item.version == 1
    requires FindType(db, item.domain, item.contentTypeId).Some?
    requires db.types[item.contentTypeId].kind.Singleton? ==> !Occupied(db, item.domain, item.contentTypeId, None)
    ensures Sound(Insert(db, item)) && Grows(db, Insert(db, item))
    ensures Timeline(Insert(db, item), db.nextItemId) == [Snapshot(db.nextItemId, item)]
  {
    var after := Insert(db, item);
    var id := db.nextItemId;
    NoRows(db.versions, id);
    forall other | other in after.items
      ensures Numbered(after, other)
      ensures other != id ==> Timeline(after, other) == Timeline(db, other)
    {
      if other != id { assert Numbered(db, other); }
    }
    forall a, b | a in after.items && b in after.items && after.items[a].contentTypeId == after.items[b].contentTypeId
                  && IsSingleton(after, after.items[a].contentTypeId)
      ensures a == b
    {
      if a == id && b != id {
        assert FindType(db, db.items[b].domain, db.items[b].contentTypeId).Some?;
        assert InType(db, item.domain, item.contentTypeId, b);
      } else if b == id && a != id {
        assert FindType(db, db.items[a].domain, db.items[a].contentTypeId).Some?;
        assert InType(db, item.domain, item.contentTypeId, a);
      }
    }
  }

  lemma RemoveKeeps(db: Db, id: int)
    requires Sound(db)
    ensures Sound(Remove(db, id)) && Grows(db, Remove(db, id))
  {
    var after := Remove(db, id);
    WithoutRowsSound(db.versions, id);
    forall other | other in after.items
      ensures Numbered(after, other) && Timeline(after, other) == Timeline(db, other)
    {
      WithoutRowsKeepsOthers(db.versions, id, other);
      assert Numbered(db, other);
    }
    forall k | 0 <= k < |after.versions| ensures after.versions[k].itemId in after.items {
      assert after.versions[k] in after.versions;
    }
  }

  lemma SameItemsGrow(before: Db, after: Db)
    requires ItemsTyped(before)
    requires before.items == after.items && before.versions == after.versions && before.nextItemId <= after.nextItemId
    ensures Grows(before, after)
  {
  }

  /** The id sequence may run ahead of the rows, as it does after an aborted batch. */
  lemma SequenceGapKeeps(db: Db, next: int)
    requires Sound(db) && db.nextItemId <= next
    ensures Sound(db.(nextItemId := next)) && Grows(db, db.(nextItemId := next))
  {
  }

  // ---------------------------------------------------------------- content types keep soundness

  lemma TypesChangeKeeps(db: Db, after: Db)
    requires Sound(db)
    requires after.items == db.items && after.versions == db.versions && after.nextItemId == db.nextItemId
    requires TypesSound(after) && ItemsTyped(after) && SingletonsSingle(after)
    ensures Sound(after) && Grows(db, after)
  {
  }

  lemma CreateTypeKeeps(db: Db, domain: nat, slug: string, rawKind: Option<string>, source: SchemaSource, dryRun: bool)
    requires Sound(db)
    ensures var after := CreateType(db, domain, slug, rawKind, source, dryRun).0;
            Sound(after) && Grows(db, after)
  {
    TypesChangeKeeps(db, CreateType(db, domain, slug, rawKind, source, dryRun).0);
  }

  lemma TwoMembers(db: Db, domain: nat, t: int, a: int, b: int)
    requires InType(db, domain, t, a) && InType(db, domain, t, b) && a != b
    ensures |MembersOf(db, domain, t)| > 1
  {
    var members := MembersOf(db, domain, t);
    assert a in members && b in members;
    assert |members - {a}| == |members| - 1;
    assert b in members - {a};
  }

  lemma UpdateTypeKeeps(db: Db, domain: nat, id: int, patch: TypePatch, dryRun: bool)
    requires Sound(db)
    ensures var after := UpdateType(db, domain, id, patch, dryRun).0;
            Sound(after) && Grows(db, after)
  {
    var after := UpdateType(db, domain, id, patch, dryRun).0;
    if after.types != db.types {
      forall a, b | a in after.items && b in after.items && after.items[a].contentTypeId == after.items[b].contentTypeId
                    && IsSingleton(after, after.items[a].contentTypeId)
        ensures a == b
      {
        assert FindType(db, db.items[a].domain, db.items[a].contentTypeId).Some?;
        assert FindType(db, db.items[b].domain, db.items[b].contentTypeId).Some?;
        if a != b && after.items[a].contentTypeId == id {
          TwoMembers(db, domain, id, a, b);
        }
      }
      forall i | i in after.items ensures FindType(after, after.items[i].domain, after.items[i].contentTypeId).Some? {
        assert FindType(db, db.items[i].domain, db.items[i].contentTypeId).Some?;
      }
    }
    TypesChangeKeeps(db, after);
  }

  lemma DeleteTypeKeeps(db: Db, domain: nat, id: int, dryRun: bool)
    requires Sound(db)
    ensures var after := DeleteType(db, domain, id, dryRun).0;
            Sound(after) && Grows(db, after)
  {
  }

  // ---------------------------------------------------------------- item mutations keep soundness

  lemma CreateItemKeeps(db: Db, svc: Services, domain: nat, item: NewItem, dryRun: bool, now: int)
    requires Sound(db)
    ensures var after := CreateItem(db, svc, domain, item, dryRun, now).0;
            Sound(after) && Grows(db, after)
  {
    if CreateItem(db, svc, domain, item, dryRun, now).0 != db {
      InsertKeeps(db, FreshItem(domain, item, now));
    }
    SameItemsGrow(db, db);
  }

  lemma {:induction false} CreatePartialKeeps(
      db: Db, svc: Services, domain: nat, items: seq<NewItem>, clock: nat -> int, n: nat)
    requires Sound(db) && n <= |items|
    ensures var p := CreatePartialAfter(db, svc, domain, items, clock, n);
            Sound(p.db) && Grows(db, p.db)
  {
    SameItemsGrow(db, db);
    if n > 0 {
      CreatePartialKeeps(db, svc, domain, items, clock, n - 1);
      var p := CreatePartialAfter(db, svc, domain, items, clock, n - 1);
      var check := CheckCreate(p.db, p.db, svc, domain, items[n - 1], p.reserved, n - 1, true);
      if check.Ok? {
        var row := FreshItem(domain, items[n - 1], clock(n - 1));
        InsertKeeps(p.db, row);
        GrowsTransitive(db, p.db, Insert(p.db, row));
      }
    }
  }

  lemma {:induction false} CreateAtomicKeeps(
      db: Db, svc: Services, domain: nat, items: seq<NewItem>, clock: nat -> int, n: nat)
    requires Sound(db) && n <= |items|
    ensures match CreateAtomicAfter(db, svc, domain, items, clock, n)
            case Ok(p) => Sound(p.db) && Grows(db, p.db)
            case Err(a) => db.nextItemId <= a.nextItemId
  {
    SameItemsGrow(db, db);
    if n > 0 {
      CreateAtomicKeeps(db, svc, domain, items, clock, n - 1);
      match CreateAtomicAfter(db, svc, domain, items, clock, n - 1)
      case Err(_) =>
      case Ok(p) =>
        var check := CheckCreate(p.db, db, svc, domain, items[n - 1], p.reserved, n - 1, true);
        if check.Ok? {
          var row := FreshItem(domain, items[n - 1], clock(n - 1));
          InsertKeeps(p.db, row);
          GrowsTransitive(db, p.db, Insert(p.db, row));
        }
    }
  }

  lemma CreateBatchKeeps(
      db: Db, svc: Services, domain: nat, items: seq<NewItem>, atomic: bool, dryRun: bool, clock: nat -> int)
    requires Sound(db)
    ensures var after := CreateBatch(db, svc, domain, items, atomic, dryRun, clock).0;
            Sound(after) && Grows(db, after)
  {
    SameItemsGrow(db, db);
    CreatePartialKeeps(db, svc, domain, items, clock, |items|);
    CreateAtomicKeeps(db, svc, domain, items, clock, |items|);
    match CreateAtomicAfter(db, svc, domain, items, clock, |items|)
    case Ok(_) =>
    case Err(a) => SequenceGapKeeps(db, a.nextItemId);
  }

  lemma UpdateItemKeeps(db: Db, svc: Services, domain: nat, id: int, raw: Patch, dryRun: bool, now: int)
    requires Sound(db)
    ensures var after := UpdateItem(db, svc, domain, id, raw, dryRun, now).0;
            Sound(after) && Grows(db, after)
  {
    SameItemsGrow(db, db);
    if UpdateItem(db, svc, domain, id, raw, dryRun, now).0 != db {
      WriteHeadKeeps(db, id, Patched(db.items[id], raw.DropEmptyData(), now));
    }
  }

  /** A row that passes the checks may be written. */
  lemma UpdateOneKeeps(
      p: Progress, seen: Db, svc: Services, domain: nat, id: int, patch: Patch, workflow: bool, index: nat, now: int)
    requires Sound(p.db) && CheckUpdate(p.db, seen, svc, domain, id, patch, p.reserved, workflow).Ok?
    ensures var reserved := CheckUpdate(p.db, seen, svc, domain, id, patch, p.reserved, workflow).value;
            var after := UpdateOne(p, id, patch, reserved, index, now);
            Sound(after.db) && Grows(p.db, after.db)
  {
    WriteHeadKeeps(p.db, id, Patched(p.db.items[id], patch, now));
  }

  lemma {:induction false} UpdatePartialKeeps(
      db: Db, svc: Services, domain: nat, rows: seq<UpdateRow>, clock: nat -> int, n: nat)
    requires Sound(db) && n <= |rows|
    ensures var p := UpdatePartialAfter(db, svc, domain, rows, clock, n);
            Sound(p.db) && Grows(db, p.db)
  {
    SameItemsGrow(db, db);
    if n > 0 {
      UpdatePartialKeeps(db, svc, domain, rows, clock, n - 1);
      var p := UpdatePartialAfter(db, svc, domain, rows, clock, n - 1);
      var patch := rows[n - 1].patch.DropEmptyData();
      var check := CheckUpdate(p.db, p.db, svc, domain, rows[n - 1].id, patch, p.reserved, true);
      if check.Ok? {
        UpdateOneKeeps(p, p.db, svc, domain, rows[n - 1].id, patch, true, n - 1, clock(n - 1));
        GrowsTransitive(db, p.db, UpdateOne(p, rows[n - 1].id, patch, check.value, n - 1, clock(n - 1)).db);
      }
    }
  }

  lemma {:induction false} UpdateAtomicKeeps(
      db: Db, svc: Services, domain: nat, rows: seq<UpdateRow>, clock: nat -> int, n: nat)
    requires Sound(db) && n <= |rows|
    ensures var r := UpdateAtomicAfter(db, svc, domain, rows, clock, n);
            r.Ok? ==> Sound(r.value.db) && Grows(db, r.value.db)
  {
    SameItemsGrow(db, db);
    if n > 0 {
      UpdateAtomicKeeps(db, svc, domain, rows, clock, n - 1);
      match UpdateAtomicAfter(db, svc, domain, rows, clock, n - 1)
      case Err(_) =>
      case Ok(p) =>
        var check := CheckUpdate(p.db, db, svc, domain, rows[n - 1].id, rows[n - 1].patch, p.reserved, false);
        if check.Ok? {
          UpdateOneKeeps(p, db, svc, domain, rows[n - 1].id, rows[n - 1].patch, false, n - 1, clock(n - 1));
          GrowsTransitive(db, p.db,
              UpdateOne(p, rows[n - 1].id, rows[n - 1].patch, check.value, n - 1, clock(n - 1)).db);
        }
    }
  }

  lemma UpdateBatchKeeps(
      db: Db, svc: Services, domain: nat, rows: seq<UpdateRow>, atomic: bool, dryRun: bool, clock: nat -> int)
    requires Sound(db)
    ensures var after := UpdateBatch(db, svc, domain, rows, atomic, dryRun, clock).0;
            Sound(after) && Grows(db, after)
  {
    SameItemsGrow(db, db);
    UpdatePartialKeeps(db, svc, domain, rows, clock, |rows|);
    UpdateAtomicKeeps(db, svc, domain, rows, clock, |rows|);
  }

  /** A global that exists may be written: its type is a singleton nobody else occupies. */
  lemma WriteGlobalKeeps(db: Db, domain: nat, t: int, id: int, data: string, status: string, now: int)
    requires Sound(db) && InType(db, domain, t, id) && FindType(db, domain, t).Some?
        && !Occupied(db, domain, t, Some(id))
    ensures var after := WriteHead(db, id, db.items[id].(data := data, status := status,
                                                         version := db.items[id].version + 1, updatedAt := now));
            Sound(after) && Grows(db, after)
  {
    var head := db.items[id];
    WriteHeadKeeps(db, id, head.(data := data, status := status, version := head.version + 1, updatedAt := now));
  }

  lemma CreateGlobalKeeps(db: Db, domain: nat, t: int, data: string, status: string, now: int)
    requires Sound(db) && FindType(db, domain, t).Some? && !Occupied(db, domain, t, None)
    ensures var after := Insert(db, Item(domain, t, data, status, 1, now));
            Sound(after) && Grows(db, after)
  {
    InsertKeeps(db, Item(domain, t, data, status, 1, now));
  }

  /** What an update of a global leaves: the tables as they were, or with one write. */
  lemma GlobalWrites(
      db: Db, svc: Services, domain: nat, slug: string, data: string, status: Option<string>, dryRun: bool, now: int)
    ensures var after := UpdateGlobal(db, svc, domain, slug, data, status, dryRun, now).0;
            after != db ==>
              var global := GlobalType(db, domain, slug);
              && global.Some?
              && var t, existing := global.value, SingletonItem(db, domain, global.value);
                 && !Occupied(db, domain, t, existing)
                 && after == if existing.None? then Insert(db, Item(domain, t, data, status.Or("draft"), 1, now))
                             else var head := db.items[existing.value];
                               WriteHead(db, existing.value, head.(data := data, status := status.Or(head.status),
                                                                   version := head.version + 1, updatedAt := now))
  {
  }

  lemma UpdateGlobalKeeps(
      db: Db, svc: Services, domain: nat, slug: string, data: string, status: Option<string>, dryRun: bool, now: int)
    requires Sound(db)
    ensures var after := UpdateGlobal(db, svc, domain, slug, data, status, dryRun, now).0;
            Sound(after) && Grows(db, after)
  {
    var after := UpdateGlobal(db, svc, domain, slug, data, status, dryRun, now).0;
    GlobalWrites(db, svc, domain, slug, data, status, dryRun, now);
    if after == db {
      SameItemsGrow(db, db);
    } else {
      var t := GlobalType(db, domain, slug).value;
      var existing := SingletonItem(db, domain, t);
      if existing.None? {
        CreateGlobalKeeps(db, domain, t, data, status.Or("draft"), now);
      } else {
        WriteGlobalKeeps(db, domain, t, existing.value, data, status.Or(db.items[existing.value].status), now);
      }
    }
  }

  lemma {:induction false} DeleteRowsKeep(db: Db, domain: nat, ids: seq<int>, dryRun: bool, n: nat)
    requires Sound(db) && n <= |ids|
    ensures var after := DeleteRowsAfter(db, domain, ids, dryRun, n).0;
            Sound(after) && Grows(db, after)
  {
    SameItemsGrow(db, db);
    if n > 0 {
      DeleteRowsKeep(db, domain, ids, dryRun, n - 1);
      var before := DeleteRowsAfter(db, domain, ids, dryRun, n - 1).0;
      RemoveKeeps(before, ids[n - 1]);
      GrowsTransitive(db, before, Remove(before, ids[n - 1]));
    }
  }

  lemma {:induction false} DeleteAtomicKeeps(db: Db, domain: nat, ids: seq<int>, n: nat)
    requires Sound(db) && n <= |ids|
    ensures var r := DeleteAtomicAfter(db, domain, ids, n);
            r.Ok? ==> Sound(r.value.0) && Grows(db, r.value.0)
  {
    SameItemsGrow(db, db);
    if n > 0 {
      DeleteAtomicKeeps(db, domain, ids, n - 1);
      match DeleteAtomicAfter(db, domain, ids, n - 1)
      case Err(_) =>
      case Ok((before, _)) =>
        RemoveKeeps(before, ids[n - 1]);
        GrowsTransitive(db, before, Remove(before, ids[n - 1]));
    }
  }

  lemma DeleteKeeps(db: Db, domain: nat, ids: seq<int>, atomic: bool, dryRun: bool)
    requires Sound(db)
    ensures var after := DeleteBatch(db, domain, ids, atomic, dryRun).0;
            Sound(after) && Grows(db, after)
  {
    SameItemsGrow(db, db);
    DeleteRowsKeep(db, domain, ids, dryRun, |ids|);
    DeleteAtomicKeeps(db, domain, ids, |ids|);
  }

  /** In sound tables no other item sits in an item's singleton type. */
  lemma SeatIsOwn(db: Db, id: int)
    requires Sound(db) && id in db.items
    ensures var head := db.items[id];
            && FindType(db, head.domain, head.contentTypeId).Some?
            && (IsSingleton(db, head.contentTypeId) ==> !Occupied(db, head.domain, head.contentTypeId, Some(id)))
  {
  }

  /** What a rollback leaves: the tables as they were, or with the target's data and status on top. */
  lemma RollbackWrites(db: Db, svc: Services, domain: nat, id: int, version: int, now: int)
    ensures var (after, reply) := Rollback(db, svc, domain, id, version, false, now);
            && (FindItem(db, domain, id).Some? ==>
                  (reply == Err(VersionNotFound) <==> !HasVersion(db.versions, id, version)))
            && (reply.Err? ==> after == db)
            && (reply.Ok? ==>
                  && FindItem(db, domain, id).Some? && HasVersion(db.versions, id, version)
                  && reply.value == db.items[id].version + 1
                  && var target := TargetRow(db.versions, id, version);
                     after == WriteHead(db, id, db.items[id].(data := target.data, status := target.status,
                                                              version := db.items[id].version + 1, updatedAt := now)))
  {
  }

  /**
   Rollback to `version` gets past the version lookup exactly for 1 <= version < head version,
   and then appends the old data and status as a new version; nothing is taken back.
   */
  lemma RollbackRestores(db: Db, svc: Services, domain: nat, id: int, version: int, now: int)
    requires Sound(db)
    ensures var (after, reply) := Rollback(db, svc, domain, id, version, false, now);
            && Sound(after) && Grows(db, after)
            && (FindItem(db, domain, id).Some? ==>
                  (reply == Err(VersionNotFound) <==> !(1 <= version < db.items[id].version)))
            && (reply.Ok? ==>
                  && id in db.items && 1 <= version < db.items[id].version
                  && reply.value == db.items[id].version + 1 && id in after.items
                  && after.items[id] == db.items[id].(data := Timeline(db, id)[version - 1].data,
                                                      status := Timeline(db, id)[version - 1].status,
                                                      version := db.items[id].version + 1,
                                                      updatedAt := now)
                  && Timeline(after, id) == Timeline(db, id) + [Snapshot(id, after.items[id])])
            && (reply.Err? ==> after == db)
  {
    SameItemsGrow(db, db);
    RollbackWrites(db, svc, domain, id, version, now);
    var (after, reply) := Rollback(db, svc, domain, id, version, false, now);
    if FindItem(db, domain, id).Some? {
      HistoryIsExact(db, id, version);
      if reply.Ok? {
        RowIsTimelineEntry(db, id, TargetRow(db.versions, id, version));
        SeatIsOwn(db, id);
        WriteHeadKeeps(db, id, after.items[id]);
      }
    }
  }

  // ---------------------------------------------------------------- runs

  /** One mutation request, with the domain, services and clock it ran under. */
  datatype Command =
    | CmdCreateType(domain: nat, slug: string, rawKind: Option<string>, source: SchemaSource, dryRun: bool)
    | CmdUpdateType(domain: nat, typeId: int, typePatch: TypePatch, dryRun: bool)
    | CmdDeleteType(domain: nat, typeId: int, dryRun: bool)
    | CmdCreateItem(domain: nat, svc: Services, item: NewItem, dryRun: bool, now: int)
    | CmdCreateBatch(domain: nat, svc: Services, items: seq<NewItem>, atomic: bool, dryRun: bool, clock: nat -> int)
    | CmdUpdateItem(domain: nat, svc: Services, id: int, patch: Patch, dryRun: bool, now: int)
    | CmdUpdateBatch(domain: nat, svc: Services, rows: seq<UpdateRow>, atomic: bool, dryRun: bool, clock: nat -> int)
    | CmdUpdateGlobal(domain: nat, svc: Services, slug: string, data: string, status: Option<string>, dryRun: bool,
        now: int)
    | CmdDeleteItem(domain: nat, id: int, dryRun: bool)
    | CmdDeleteBatch(domain: nat, ids: seq<int>, atomic: bool, dryRun: bool)
    | CmdRollback(domain: nat, svc: Services, id: int, version: int, dryRun: bool, now: int)

  ghost function Execute(db: Db, c: Command): Db {
    match c
    case CmdCreateType(d, slug, kind, source, dry) => CreateType(db, d, slug, kind, source, dry).0
    case CmdUpdateType(d, t, patch, dry) => UpdateType(db, d, t, patch, dry).0
    case CmdDeleteType(d, t, dry) => DeleteType(db, d, t, dry).0
    case CmdCreateItem(d, svc, item, dry, now) => CreateItem(db, svc, d, item, dry, now).0
    case CmdCreateBatch(d, svc, items, atomic, dry, clock) => CreateBatch(db, svc, d, items, atomic, dry, clock).0
    case CmdUpdateItem(d, svc, id, patch, dry, now) => UpdateItem(db, svc, d, id, patch, dry, now).0
    case CmdUpdateBatch(d, svc, rows, atomic, dry, clock) => UpdateBatch(db, svc, d, rows, atomic, dry, clock).0
    case CmdUpdateGlobal(d, svc, slug, data, status, dry, now) =>
      UpdateGlobal(db, svc, d, slug, data, status, dry, now).0
    case CmdDeleteItem(d, id, dry) => DeleteItem(db, d, id, dry).0
    case CmdDeleteBatch(d, ids, atomic, dry) => DeleteBatch(db, d, ids, atomic, dry).0
    case CmdRollback(d, svc, id, version, dry, now) => Rollback(db, svc, d, id, version, dry, now).0
  }

  ghost function Run(db: Db, commands: seq<Command>): Db {
    if |commands| == 0 then db
    else Execute(Run(db, commands[..|commands| - 1]), commands[|commands| - 1])
  }

  lemma ExecuteTypeKeeps(db: Db, c: Command)
    requires Sound(db) && (c.CmdCreateType? || c.CmdUpdateType? || c.CmdDeleteType?)
    ensures Sound(Execute(db, c)) && Grows(db, Execute(db, c))
  {
    match c
    case CmdCreateType(d, slug, kind, source, dry) => CreateTypeKeeps(db, d, slug, kind, source, dry);
    case CmdUpdateType(d, t, patch, dry) => UpdateTypeKeeps(db, d, t, patch, dry);
    case CmdDeleteType(d, t, dry) => DeleteTypeKeeps(db, d, t, dry);
  }

  lemma ExecuteDeleteKeeps(db: Db, d: nat, id: int, dry: bool)
    requires Sound(db)
    ensures Sound(DeleteItem(db, d, id, dry).0) && Grows(db, DeleteItem(db, d, id, dry).0)
  {
    SameItemsGrow(db, db);
    RemoveKeeps(db, id);
  }

  lemma ExecuteRollbackKeeps(db: Db, svc: Services, d: nat, id: int, version: int, dry: bool, now: int)
    requires Sound(db)
    ensures var after := Rollback(db, svc, d, id, version, dry, now).0;
            Sound(after) && Grows(db, after)
  {
    SameItemsGrow(db, db);
    if !dry {
      RollbackRestores(db, svc, d, id, version, now);
    }
  }

  lemma ExecuteKeeps(db: Db, c: Command)
    requires Sound(db)
    ensures Sound(Execute(db, c)) && Grows(db, Execute(db, c))
  {
    match c
    case CmdCreateType(_, _, _, _, _) => ExecuteTypeKeeps(db, c);
    case CmdUpdateType(_, _, _, _) => ExecuteTypeKeeps(db, c);
    case CmdDeleteType(_, _, _) => ExecuteTypeKeeps(db, c);
    case CmdCreateItem(d, svc, item, dry, now) => CreateItemKeeps(db, svc, d, item, dry, now);
    case CmdCreateBatch(d, svc, items, atomic, dry, clock) => CreateBatchKeeps(db, svc, d, items, atomic, dry, clock);
    case CmdUpdateItem(d, svc, id, patch, dry, now) => UpdateItemKeeps(db, svc, d, id, patch, dry, now);
    case CmdUpdateBatch(d, svc, rows, atomic, dry, clock) => UpdateBatchKeeps(db, svc, d, rows, atomic, dry, clock);
    case CmdUpdateGlobal(d, svc, slug, data, status, dry, now) =>
      UpdateGlobalKeeps(db, svc, d, slug, data, status, dry, now);
    case CmdDeleteItem(d, id, dry) => ExecuteDeleteKeeps(db, d, id, dry);
    case CmdDeleteBatch(d, ids, atomic, dry) => DeleteKeeps(db, d, ids, atomic, dry);
    case CmdRollback(d, svc, id, version, dry, now) => ExecuteRollbackKeeps(db, svc, d, id, version, dry, now);
  }

  lemma {:induction false} RunKeeps(db: Db, commands: seq<Command>)
    requires Sound(db)
    ensures Sound(Run(db, commands)) && Grows(db, Run(db, commands))
  {
    if |commands| == 0 {
      SameItemsGrow(db, db);
    } else {
      var before := Run(db, commands[..|commands| - 1]);
      RunKeeps(db, commands[..|commands| - 1]);
      ExecuteKeeps(before, commands[|commands| - 1]);
      GrowsTransitive(db, before, Run(db, commands));
    }
  }

  /** In every reachable store: singletons hold one item at most, and an item's type lives in its domain. */
  lemma ReachableSingletonsAndTypes(commands: seq<Command>, domain: nat, t: int)
    ensures var db := Run(EMPTY_DB, commands);
            && (t in db.types && db.types[t].kind.Singleton? ==> |MembersOf(db, domain, t)| <= 1)
            && (forall id :: id in db.items ==>
                  db.items[id].contentTypeId in db.types
                      && db.types[db.items[id].contentTypeId].domain == db.items[id].domain)
  {
    RunKeeps(EMPTY_DB, commands);
    var db := Run(EMPTY_DB, commands);
    forall id | id in db.items
      ensures db.items[id].contentTypeId in db.types
          && db.types[db.items[id].contentTypeId].domain == db.items[id].domain
    {
      assert FindType(db, db.items[id].domain, db.items[id].contentTypeId).Some?;
    }
    if t in db.types && db.types[t].kind.Singleton? {
      var members := MembersOf(db, domain, t);
      if members != {} {
        var a :| a in members;
        assert members == {a};
      }
    }
  }

  /** In every reachable store an item at version v has exactly one history row for each of 1..v-1 and no other. */
  lemma ReachableHistoryIsExact(commands: seq<Command>, id: int, version: int)
    requires id in Run(EMPTY_DB, commands).items
    ensures var db := Run(EMPTY_DB, commands);
            CountRows(db.versions, id, version) == if 1 <= version < db.items[id].version then 1 else 0
  {
    RunKeeps(EMPTY_DB, commands);
    HistoryIsExact(Run(EMPTY_DB, commands), id, version);
  }

  /**
   Whatever (version, data, status) an item ever showed as its head stays on record until the
   item is deleted: later on it is either still the head or the one history row of that version.
   */
  lemma ShownHeadsStayRecoverable(db: Db, commands: seq<Command>, id: int)
    requires Sound(db) && id in db.items && id in Run(db, commands).items
    ensures var later := Run(db, commands);
            var shown := Snapshot(id, db.items[id]);
            || Snapshot(id, later.items[id]) == shown
            || (HasVersion(later.versions, id, shown.version) && TargetRow(later.versions, id, shown.version) == shown)
  {
    RunKeeps(db, commands);
    var later := Run(db, commands);
    var shown := Snapshot(id, db.items[id]);
    assert Numbered(db, id) && Numbered(later, id);
    assert Timeline(db, id) <= Timeline(later, id);
    assert Timeline(later, id)[shown.version - 1] == Timeline(db, id)[shown.version - 1] == shown;
    if shown.version < later.items[id].version {
      HistoryIsExact(later, id, shown.version);
      RowIsTimelineEntry(later, id, TargetRow(later.versions, id, shown.version));
    }
  }
}
