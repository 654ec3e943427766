/**
 The content mutations as the resolvers perform them: query, check, write, row by row, with
 batches that push reports, claim singleton types and roll back. Every mutation is proved to
 leave the tables that `ContentDb` prescribes and to keep the tables sound.
 */
module ContentStore {
  import opened Outcomes
  import opened ContentDb
  import opened ContentInvariants

  class Store {
    var types: map<int, ContentType>
    var items: map<int, Item>
    var versions: seq<VersionRow>
    var nextTypeId: int
    var nextItemId: int

    function Tables(): Db
      reads this
    {
      Db(types, items, versions, nextTypeId, nextItemId)
    }

    ghost predicate Valid()
      reads this
    {
      Sound(Tables())
    }

    constructor ()
      ensures Valid() && Tables() == EMPTY_DB
    {
      types, items, versions := map[], map[], [];
      nextTypeId, nextItemId := 1, 1;
    }

    // ------------------------------------------------------------ elementary writes

    method InsertItem(item: Item) returns (id: int)
      modifies this
      ensures Tables() == Insert(old(Tables()), item) && id == old(nextItemId)
    {
      id := nextItemId;
      nextItemId := nextItemId + 1;
      items := items[id := item];
    }

    /** Copies the current head into the history and replaces it. */
    method ReplaceHead(id: int, head: Item)
      requires id in items
      modifies this
      ensures Tables() == WriteHead(old(Tables()), id, head)
    {
      var current := items[id];
      versions := versions + [VersionRow(id, current.version, current.data, current.status, current.updatedAt)];
      items := items[id := head];
    }

    // ------------------------------------------------------------ content types

    method CreateContentType(domain: nat, slug: string, rawKind: Option<string>, source: SchemaSource, dryRun: bool)
      returns (r: Result<int, Code>)
      requires Valid()
      modifies this
      ensures Valid() && (Tables(), r) == CreateType(old(Tables()), domain, slug, rawKind, source, dryRun)
    {
      CreateTypeKeeps(Tables(), domain, slug, rawKind, source, dryRun);
      var kind := NormalizeKind(rawKind.Or("collection"));
      if kind.None? {
        return Err(InvalidKind);
      }
      var schema := ResolveSource(source, true);
      if schema.Err? {
        return Err(schema.error);
      }
      if dryRun {
        return Ok(0);
      }
      if SlugTaken(Tables(), domain, slug, None) {
        return Err(SlugConflict);
      }
      r := Ok(nextTypeId);
      types := types[nextTypeId := ContentType(domain, slug, kind.value, schema.value.value)];
      nextTypeId := nextTypeId + 1;
    }

    method UpdateContentType(
        domain: nat, id: int, patch: TypePatch, dryRun: bool)
      returns (r: Result<ContentType, Code>)
      requires Valid()
      modifies this
      ensures Valid() && (Tables(), r) == UpdateType(old(Tables()), domain, id, patch, dryRun)
    {
      UpdateTypeKeeps(Tables(), domain, id, patch, dryRun);
      var kind: Option<Kind> := None;
      if patch.rawKind.Some? {
        kind := NormalizeKind(patch.rawKind.value);
        if kind.None? {
          return Err(InvalidKind);
        }
      }
      var schema := ResolveSource(patch.source, false);
      if schema.Err? {
        return Err(schema.error);
      }
      if patch.slug.None? && kind.None? && schema.value.None? && !patch.other {
        return Err(EmptyUpdateBody);
      }
      var found := FindType(Tables(), domain, id);
      if found.None? {
        return Err(TypeNotFound);
      }
      var existing := found.value;
      var targetKind := kind.Or(existing.kind);
      if targetKind.Singleton? && !existing.kind.Singleton? {
        if |MembersOf(Tables(), domain, id)| > 1 {
          return Err(SingletonNeedsOneItem);
        }
      }
      var updated := existing.(slug := patch.slug.Or(existing.slug), kind := targetKind,
                               schema := schema.value.Or(existing.schema));
      if dryRun {
        return Ok(updated);
      }
      if SlugTaken(Tables(), domain, updated.slug, Some(id)) {
        return Err(SlugConflict);
      }
      types := types[id := updated];
      r := Ok(updated);
    }

    method DeleteContentType(domain: nat, id: int, dryRun: bool) returns (r: Result<int, Code>)
      requires Valid()
      modifies this
      ensures Valid() && (Tables(), r) == DeleteType(old(Tables()), domain, id, dryRun)
    {
      DeleteTypeKeeps(Tables(), domain, id, dryRun);
      if FindType(Tables(), domain, id).None? {
        return Err(TypeNotFound);
      }
      if dryRun {
        return Ok(id);
      }
      if exists i :: i in items && items[i].contentTypeId == id {
        return Err(TypeInUse);
      }
      types := types - {id};
      r := Ok(id);
    }

    // ------------------------------------------------------------ creating items

    method CreateContentItem(
        svc: Services, domain: nat, item: NewItem, dryRun: bool, now: int)
      returns (r: Result<int, Code>)
      requires Valid()
      modifies this
      ensures Valid() && (Tables(), r) == CreateItem(old(Tables()), svc, domain, item, dryRun, now)
    {
      CreateItemKeeps(Tables(), svc, domain, item, dryRun, now);
      var ty := FindType(Tables(), domain, item.contentTypeId);
      if ty.None? {
        return Err(TypeNotFound);
      }
      if ty.value.kind.Singleton? && Occupied(Tables(), domain, item.contentTypeId, None) {
        return Err(SingletonExists);
      }
      var failure := SchemaFailure(Tables(), svc, domain, ty.value.schema, item.data);
      if failure.Some? {
        return Err(Invalid(failure.value));
      }
      if svc.governed(domain, item.contentTypeId) && item.InitialStatus() != "draft" {
        return Err(WorkflowForbidden);
      }
      if dryRun {
        return Ok(0);
      }
      var id := InsertItem(FreshItem(domain, item, now));
      r := Ok(id);
    }

    /** The checks on one row of a batch create; a success claims the singleton type it fills. */
    method ValidateNewItem(
        seen: Db, svc: Services, domain: nat, item: NewItem, index: nat, workflow: bool, reserved: map<int, int>)
      returns (code: Option<Code>, claimed: map<int, int>)
      ensures CheckCreate(Tables(), seen, svc, domain, item, reserved, index, workflow)
           == if code.Some? then Err(code.value) else Ok(claimed)
    {
      claimed := reserved;
      var ty := FindType(Tables(), domain, item.contentTypeId);
      if ty.None? {
        return Some(TypeNotFound), claimed;
      }
      var failure := SchemaFailure(seen, svc, domain, ty.value.schema, item.data);
      if failure.Some? {
        return Some(Invalid(failure.value)), claimed;
      }
      if workflow && svc.governed(domain, item.contentTypeId) && item.InitialStatus() != "draft" {
        return Some(WorkflowForbidden), claimed;
      }
      if ty.value.kind.Singleton? {
        if Occupied(Tables(), domain, item.contentTypeId, None) {
          return Some(SingletonExists), claimed;
        }
        if item.contentTypeId in claimed {
          return Some(SingletonExists), claimed;
        }
        claimed := claimed[item.contentTypeId := index];
      }
      code := None;
    }

    method CreateItemsDry(svc: Services, domain: nat, batch: seq<NewItem>) returns (results: seq<BatchRow>)
      ensures results == CreateDryAfter(Tables(), svc, domain, batch, |batch|).rows
    {
      results := [];
      var assignments: map<int, int> := map[];
      for index := 0 to |batch|
        invariant Progress(Tables(), assignments, results) == CreateDryAfter(Tables(), svc, domain, batch, index)
      {
        var code, claimed := ValidateNewItem(Tables(), svc, domain, batch[index], index, false, assignments);
        if code.Some? {
          results := results + [RowErr(index, code.value)];
        } else {
          assignments := claimed;
          results := results + [RowOk(index, 0, 1)];
        }
      }
    }

    /**
     A transaction, which the schema service does not see into: at the first failing row the item table
     is put back, the id sequence is not.
     */
    method CreateItemsAtomic(svc: Services, domain: nat, batch: seq<NewItem>, clock: nat -> int) returns (r: BatchReply)
      modifies this
      ensures match CreateAtomicAfter(old(Tables()), svc, domain, batch, clock, |batch|)
              case Ok(p) => Tables() == p.db && r == Rows(true, p.rows)
              case Err(a) =>
                && Tables() == old(Tables()).(nextItemId := a.nextItemId)
                && r == AtomicFailed(a.index, a.code)
    {
      var start := Tables();
      var results: seq<BatchRow> := [];
      var assignments: map<int, int> := map[];
      var savedItems := items;
      var index := 0;
      while index < |batch|
        invariant index <= |batch|
        invariant types == old(types) && versions == old(versions) && nextTypeId == old(nextTypeId)
        invariant CreateAtomicAfter(start, svc, domain, batch, clock, index)
            == Ok(Progress(Tables(), assignments, results))
      {
        var code, claimed := ValidateNewItem(start, svc, domain, batch[index], index, true, assignments);
        if code.Some? {
          CreateAbortPersists(start, svc, domain, batch, clock, index + 1, |batch|);
          items := savedItems;
          return AtomicFailed(index, code.value);
        }
        assignments := claimed;
        var id := InsertItem(FreshItem(domain, batch[index], clock(index)));
        results := results + [RowOk(index, id, 1)];
        index := index + 1;
      }
      r := Rows(true, results);
    }

    method CreateItemsPartial(
        svc: Services, domain: nat, batch: seq<NewItem>, clock: nat -> int)
      returns (results: seq<BatchRow>)
      modifies this
      ensures var p := CreatePartialAfter(old(Tables()), svc, domain, batch, clock, |batch|);
              Tables() == p.db && results == p.rows
    {
      results := [];
      var assignments: map<int, int> := map[];
      for index := 0 to |batch|
        invariant Progress(Tables(), assignments, results)
            == CreatePartialAfter(old(Tables()), svc, domain, batch, clock, index)
      {
        var code, claimed := ValidateNewItem(Tables(), svc, domain, batch[index], index, true, assignments);
        if code.Some? {
          results := results + [RowErr(index, code.value)];
        } else {
          assignments := claimed;
          var id := InsertItem(FreshItem(domain, batch[index], clock(index)));
          results := results + [RowOk(index, id, 1)];
        }
      }
    }

    method CreateContentItemsBatch(
        svc: Services, domain: nat, batch: seq<NewItem>, atomic: bool, dryRun: bool, clock: nat -> int)
      returns (r: BatchReply)
      requires Valid()
      modifies this
      ensures Valid() && (Tables(), r) == CreateBatch(old(Tables()), svc, domain, batch, atomic, dryRun, clock)
    {
      CreateBatchKeeps(Tables(), svc, domain, batch, atomic, dryRun, clock);
      if |batch| == 0 {
        r := EmptyBatch;
      } else if dryRun {
        var results := CreateItemsDry(svc, domain, batch);
        r := Rows(atomic, results);
      } else if atomic {
        r := CreateItemsAtomic(svc, domain, batch, clock);
      } else {
        var results := CreateItemsPartial(svc, domain, batch, clock);
        r := Rows(false, results);
      }
    }

    // ------------------------------------------------------------ updating items

    method UpdateContentItem(
        svc: Services, domain: nat, id: int, raw: Patch, dryRun: bool, now: int)
      returns (r: Result<Item, Code>)
      requires Valid()
      modifies this
      ensures Valid() && (Tables(), r) == UpdateItem(old(Tables()), svc, domain, id, raw, dryRun, now)
    {
      UpdateItemKeeps(Tables(), svc, domain, id, raw, dryRun, now);
      var patch := raw.DropEmptyData();
      if patch.Empty() {
        return Err(EmptyUpdateBody);
      }
      var found := FindItem(Tables(), domain, id);
      if found.None? {
        return Err(ItemNotFound);
      }
      var existing := found.value;
      var target := patch.contentTypeId.Or(existing.contentTypeId);
      var ty := FindType(Tables(), domain, target);
      if ty.None? {
        return Err(TypeNotFound);
      }
      if ty.value.kind.Singleton? && Occupied(Tables(), domain, target, Some(id)) {
        return Err(SingletonExists);
      }
      var failure := SchemaFailure(Tables(), svc, domain, ty.value.schema, patch.data.Or(existing.data));
      if failure.Some? {
        return Err(Invalid(failure.value));
      }
      if svc.governed(domain, target) && patch.ChangesStatusOf(existing) {
        return Err(WorkflowForbidden);
      }
      if dryRun {
        return Ok(Patched(existing, patch, existing.updatedAt).(version := existing.version));
      }
      ReplaceHead(id, Patched(existing, patch, now));
      r := Ok(items[id]);
    }

    /** The checks on one row of a batch update; a success claims the singleton type it aims at. */
    method ValidateUpdate(
        seen: Db, svc: Services, domain: nat, id: int, patch: Patch, workflow: bool, reserved: map<int, int>)
      returns (code: Option<Code>, claimed: map<int, int>)
      ensures CheckUpdate(Tables(), seen, svc, domain, id, patch, reserved, workflow)
           == if code.Some? then Err(code.value) else Ok(claimed)
    {
      claimed := reserved;
      if patch.Empty() {
        return Some(EmptyUpdateBody), claimed;
      }
      var existing := FindItem(Tables(), domain, id);
      if existing.None? {
        return Some(ItemNotFound), claimed;
      }
      var target := patch.contentTypeId.Or(existing.value.contentTypeId);
      var ty := FindType(Tables(), domain, target);
      if ty.None? {
        return Some(TypeNotFound), claimed;
      }
      var failure := SchemaFailure(seen, svc, domain, ty.value.schema, patch.data.Or(existing.value.data));
      if failure.Some? {
        return Some(Invalid(failure.value)), claimed;
      }
      if workflow && svc.governed(domain, target) && patch.ChangesStatusOf(existing.value) {
        return Some(WorkflowForbidden), claimed;
      }
      if ty.value.kind.Singleton? {
        if Occupied(Tables(), domain, target, Some(id)) {
          return Some(SingletonExists), claimed;
        }
        if target in claimed && claimed[target] != id {
          return Some(SingletonExists), claimed;
        }
        claimed := claimed[target := id];
      }
      code := None;
    }

    method UpdateItemsDry(svc: Services, domain: nat, batch: seq<UpdateRow>) returns (results: seq<BatchRow>)
      ensures results == UpdateDryAfter(Tables(), svc, domain, batch, |batch|).rows
    {
      results := [];
      var assignments: map<int, int> := map[];
      for index := 0 to |batch|
        invariant Progress(Tables(), assignments, results) == UpdateDryAfter(Tables(), svc, domain, batch, index)
      {
        var row := batch[index];
        var code, claimed :=
            ValidateUpdate(Tables(), svc, domain, row.id, row.patch.DropEmptyData(), true, assignments);
        if code.Some? {
          results := results + [RowErr(index, code.value)];
        } else {
          assignments := claimed;
          results := results + [RowOk(index, row.id, items[row.id].version + 1)];
        }
      }
    }

    /**
     A transaction, which the schema service does not see into: at the first failing row the item and
     history tables are put back.
     */
    method UpdateItemsAtomic(
        svc: Services, domain: nat, batch: seq<UpdateRow>, clock: nat -> int)
      returns (r: BatchReply)
      modifies this
      ensures match UpdateAtomicAfter(old(Tables()), svc, domain, batch, clock, |batch|)
              case Ok(p) => Tables() == p.db && r == Rows(true, p.rows)
              case Err(a) => Tables() == old(Tables()) && r == AtomicFailed(a.index, a.code)
    {
      var start := Tables();
      var results: seq<BatchRow> := [];
      var assignments: map<int, int> := map[];
      var savedItems, savedVersions := items, versions;
      var index := 0;
      while index < |batch|
        invariant index <= |batch|
        invariant types == old(types) && nextTypeId == old(nextTypeId) && nextItemId == old(nextItemId)
        invariant UpdateAtomicAfter(start, svc, domain, batch, clock, index)
            == Ok(Progress(Tables(), assignments, results))
      {
        var row := batch[index];
        ghost var step :=
            AtomicStep(Progress(Tables(), assignments, results), start, svc, domain, row, index, clock(index));
        var code, claimed := ValidateUpdate(start, svc, domain, row.id, row.patch, false, assignments);
        if code.Some? {
          assert step == Err(Abort(index, code.value, nextItemId));
          UpdateAborts(start, Progress(Tables(), assignments, results), svc, domain, batch, clock, index);
          items, versions := savedItems, savedVersions;
          return AtomicFailed(index, code.value);
        }
        assignments := claimed;
        ReplaceHead(row.id, Patched(items[row.id], row.patch, clock(index)));
        results := results + [RowOk(index, row.id, items[row.id].version)];
        assert step == Ok(Progress(Tables(), assignments, results));
        index := index + 1;
      }
      r := Rows(true, results);
    }

    method UpdateItemsPartial(
        svc: Services, domain: nat, batch: seq<UpdateRow>, clock: nat -> int)
      returns (results: seq<BatchRow>)
      modifies this
      ensures var p := UpdatePartialAfter(old(Tables()), svc, domain, batch, clock, |batch|);
              Tables() == p.db && results == p.rows
    {
      results := [];
      var assignments: map<int, int> := map[];
      for index := 0 to |batch|
        invariant Progress(Tables(), assignments, results)
            == UpdatePartialAfter(old(Tables()), svc, domain, batch, clock, index)
      {
        var row := batch[index];
        var patch := row.patch.DropEmptyData();
        var code, claimed := ValidateUpdate(Tables(), svc, domain, row.id, patch, true, assignments);
        if code.Some? {
          results := results + [RowErr(index, code.value)];
        } else {
          assignments := claimed;
          ReplaceHead(row.id, Patched(items[row.id], patch, clock(index)));
          results := results + [RowOk(index, row.id, items[row.id].version)];
        }
      }
    }

    method UpdateContentItemsBatch(
        svc: Services, domain: nat, batch: seq<UpdateRow>, atomic: bool, dryRun: bool, clock: nat -> int)
      returns (r: BatchReply)
      requires Valid()
      modifies this
      ensures Valid() && (Tables(), r) == UpdateBatch(old(Tables()), svc, domain, batch, atomic, dryRun, clock)
    {
      UpdateBatchKeeps(Tables(), svc, domain, batch, atomic, dryRun, clock);
      if |batch| == 0 {
        r := EmptyBatch;
      } else if dryRun {
        var results := UpdateItemsDry(svc, domain, batch);
        r := Rows(atomic, results);
      } else if atomic {
        r := UpdateItemsAtomic(svc, domain, batch, clock);
      } else {
        var results := UpdateItemsPartial(svc, domain, batch, clock);
        r := Rows(false, results);
      }
    }

    // ------------------------------------------------------------ globals

    /** The singleton type of that slug and the one item it holds, as far as they exist. */
    method FindGlobal(domain: nat, slug: string) returns (typeId: Option<int>, itemId: Option<int>)
      requires Valid()
      ensures typeId == GlobalType(Tables(), domain, slug)
      ensures typeId.Some? ==> itemId == SingletonItem(Tables(), domain, typeId.value)
    {
      if !exists t :: t in types && IsGlobal(Tables(), domain, slug, t) {
        return None, None;
      }
      var t :| t in types && IsGlobal(Tables(), domain, slug, t);
      typeId, itemId := Some(t), None;
      var members := MembersOf(Tables(), domain, t);
      if members == {} {
        assert forall u :: InType(Tables(), domain, t, u) ==> u in members;
      } else {
        var id :| id in members;
        itemId := Some(id);
      }
    }

    method UpdateGlobalItem(
        svc: Services, domain: nat, slug: string, data: string, status: Option<string>, dryRun: bool, now: int)
      returns (r: Result<GlobalReply, Code>)
      requires Valid()
      modifies this
      ensures Valid() && (Tables(), r) == UpdateGlobal(old(Tables()), svc, domain, slug, data, status, dryRun, now)
    {
      UpdateGlobalKeeps(Tables(), svc, domain, slug, data, status, dryRun, now);
      var typeId, existing := FindGlobal(domain, slug);
      if typeId.None? {
        return Err(GlobalNotFound);
      }
      var t := typeId.value;
      if Occupied(Tables(), domain, t, existing) {
        return Err(SingletonExists);
      }
      var failure := SchemaFailure(Tables(), svc, domain, types[t].schema, data);
      if failure.Some? {
        return Err(Invalid(failure.value));
      }
      var governed := svc.governed(domain, t);
      if existing.None? && governed && status.Some? && status.value != "" && status.value != "draft" {
        return Err(WorkflowForbidden);
      }
      if existing.Some? && governed && status.Some? && status.value != ""
          && status.value != items[existing.value].status {
        return Err(WorkflowForbidden);
      }
      if existing.None? {
        var targetStatus := status.Or("draft");
        if dryRun {
          return Ok(GlobalReply(t, 0, data, targetStatus, 1));
        }
        var created := InsertItem(Item(domain, t, data, targetStatus, 1, now));
        return Ok(GlobalReply(t, created, data, targetStatus, 1));
      }
      var id, head := existing.value, items[existing.value];
      var targetStatus := status.Or(head.status);
      if !dryRun {
        ReplaceHead(id, head.(data := data, status := targetStatus, version := head.version + 1, updatedAt := now));
      }
      r := Ok(GlobalReply(t, id, data, targetStatus, head.version + 1));
    }

    // ------------------------------------------------------------ deleting items

    method DeleteContentItem(domain: nat, id: int, dryRun: bool) returns (r: Result<int, Code>)
      requires Valid()
      modifies this
      ensures Valid() && (Tables(), r) == DeleteItem(old(Tables()), domain, id, dryRun)
    {
      RemoveKeeps(Tables(), id);
      if FindItem(Tables(), domain, id).None? {
        return Err(ItemNotFound);
      }
      if !dryRun {
        items := items - {id};
        versions := WithoutRows(versions, id);
      }
      r := Ok(id);
    }

    method DeleteContentItemsBatch(domain: nat, ids: seq<int>, atomic: bool, dryRun: bool) returns (r: DeleteReply)
      requires Valid()
      modifies this
      ensures Valid() && (Tables(), r) == DeleteBatch(old(Tables()), domain, ids, atomic, dryRun)
    {
      ghost var start := Tables();
      DeleteKeeps(start, domain, ids, atomic, dryRun);
      if |ids| == 0 {
        return EmptyDelete;
      }
      var results: seq<DeleteRow> := [];
      if atomic && !dryRun {
        var savedItems, savedVersions := items, versions;
        var index := 0;
        while index < |ids|
          invariant index <= |ids| && Valid()
          invariant types == old(types) && nextTypeId == old(nextTypeId) && nextItemId == old(nextItemId)
          invariant DeleteAtomicAfter(start, domain, ids, index) == Ok((Tables(), results))
        {
          var deleted := DeleteContentItem(domain, ids[index], false);
          if deleted.Err? {
            DeleteAbortPersists(start, domain, ids, index + 1, |ids|);
            items, versions := savedItems, savedVersions;
            return DeleteFailed(index, ItemNotFound);
          }
          results := results + [Deleted(index, ids[index])];
          index := index + 1;
        }
        return DeleteRows(true, results);
      }
      for index := 0 to |ids|
        invariant Valid()
        invariant DeleteRowsAfter(start, domain, ids, dryRun, index) == (Tables(), results)
      {
        var deleted := DeleteContentItem(domain, ids[index], dryRun);
        if deleted.Err? {
          results := results + [NotDeleted(index, deleted.error)];
        } else {
          results := results + [Deleted(index, ids[index])];
        }
      }
      r := DeleteRows(atomic, results);
    }

    // ------------------------------------------------------------ rollback

    /** The history row of a version, found by scanning the table. */
    method FindVersion(id: int, version: int) returns (row: Option<VersionRow>)
      requires Valid() && id in items
      ensures row == if HasVersion(versions, id, version) then Some(TargetRow(versions, id, version)) else None
    {
      var k := 0;
      while k < |versions| && !(versions[k].itemId == id && versions[k].version == version)
        invariant k <= |versions|
        invariant forall j :: 0 <= j < k ==> !(versions[j].itemId == id && versions[j].version == version)
      {
        k := k + 1;
      }
      if k == |versions| {
        return None;
      }
      RowIsTimelineEntry(Tables(), id, versions[k]);
      RowIsTimelineEntry(Tables(), id, TargetRow(versions, id, version));
      row := Some(versions[k]);
    }

    method RollbackContentItem(
        svc: Services, domain: nat, id: int, version: int, dryRun: bool, now: int)
      returns (r: Result<nat, Code>)
      requires Valid()
      modifies this
      ensures Valid() && (Tables(), r) == Rollback(old(Tables()), svc, domain, id, version, dryRun, now)
    {
      RollbackRestores(Tables(), svc, domain, id, version, now);
      var found := FindItem(Tables(), domain, id);
      if found.None? {
        return Err(ItemNotFound);
      }
      var head := found.value;
      var row := FindVersion(id, version);
      if row.None? {
        return Err(VersionNotFound);
      }
      var target := row.value;
      var ty := FindType(Tables(), domain, head.contentTypeId);
      if ty.None? {
        return Err(TypeNotFound);
      }
      var failure := SchemaFailure(Tables(), svc, domain, ty.value.schema, target.data);
      if failure.Some? {
        return Err(Invalid(failure.value));
      }
      if !dryRun {
        ReplaceHead(id, head.(data := target.data, status := target.status,
                              version := head.version + 1, updatedAt := now));
      }
      r := Ok(head.version + 1);
    }
  }

  lemma {:induction false} CreateAbortPersists(
      db: Db, svc: Services, domain: nat, items: seq<NewItem>, clock: nat -> int, m: nat, n: nat)
    requires m <= n <= |items| && CreateAtomicAfter(db, svc, domain, items, clock, m).Err?
    ensures CreateAtomicAfter(db, svc, domain, items, clock, n) == CreateAtomicAfter(db, svc, domain, items, clock, m)
  {
    if m < n {
      CreateAbortPersists(db, svc, domain, items, clock, m, n - 1);
    }
  }

  lemma UpdateAborts(
      db: Db, p: Progress, svc: Services, domain: nat, rows: seq<UpdateRow>, clock: nat -> int, index: nat)
    requires index < |rows| && UpdateAtomicAfter(db, svc, domain, rows, clock, index) == Ok(p)
    requires AtomicStep(p, db, svc, domain, rows[index], index, clock(index)).Err?
    ensures UpdateAtomicAfter(db, svc, domain, rows, clock, |rows|)
        == AtomicStep(p, db, svc, domain, rows[index], index, clock(index))
  {
    UpdateAbortPersists(db, svc, domain, rows, clock, index + 1, |rows|);
  }

  lemma {:induction false} UpdateAbortPersists(
      db: Db, svc: Services, domain: nat, rows: seq<UpdateRow>, clock: nat -> int, m: nat, n: nat)
    requires m <= n <= |rows| && UpdateAtomicAfter(db, svc, domain, rows, clock, m).Err?
    ensures UpdateAtomicAfter(db, svc, domain, rows, clock, n) == UpdateAtomicAfter(db, svc, domain, rows, clock, m)
  {
    if m < n {
      UpdateAbortPersists(db, svc, domain, rows, clock, m, n - 1);
    }
  }

  lemma {:induction false} DeleteAbortPersists(db: Db, domain: nat, ids: seq<int>, m: nat, n: nat)
    requires m <= n <= |ids| && DeleteAtomicAfter(db, domain, ids, m).Err?
    ensures DeleteAtomicAfter(db, domain, ids, n) == DeleteAtomicAfter(db, domain, ids, m)
  {
    if m < n {
      DeleteAbortPersists(db, domain, ids, m, n - 1);
    }
  }
}
