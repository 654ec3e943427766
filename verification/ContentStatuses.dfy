/**
 Statuses over runs of mutations: which commands can change the status of an item past its
 workflow. With workflows on every type and no empty statuses, these are rollbacks and atomic
 batch updates, and no others.
 */
module ContentStatuses {
  import opened Outcomes
  import opened ContentDb
  import opened ContentInvariants
  import opened ContentBatches
  import opened ContentWorkflows

  predicate SameStatus(before: Db, after: Db, id: int) {
    id in before.items && id in after.items && after.items[id].status == before.items[id].status
  }

  /** A status of a request that no workflow stops at the given type. */
  predicate Free(svc: Services, domain: nat, target: int, status: Option<string>) {
    status.Some? && (status.value == "" || !svc.governed(domain, target))
  }

  /** The command can change the item's status although a workflow forbids it, or where none does. */
  ghost predicate Bypasses(db: Db, c: Command, id: int) {
    id in db.items &&
    match c
    case CmdUpdateItem(d, svc, i, patch, dry, _) =>
      !dry && i == id && Free(svc, d, patch.contentTypeId.Or(db.items[id].contentTypeId), patch.status)
    case CmdUpdateBatch(d, svc, rows, atomic, dry, clock) =>
      !dry && exists k :: 0 <= k < |rows| && rows[k].id == id
                          && if atomic then rows[k].patch.status.Some? else SetsFreely(db, svc, d, rows, clock, k)
    case CmdUpdateGlobal(d, svc, slug, _, status, dry, _) =>
      !dry && GlobalType(db, d, slug) == Some(db.items[id].contentTypeId)
      && Free(svc, d, db.items[id].contentTypeId, status)
    case CmdRollback(_, _, i, _, dry, _) => !dry && i == id
    case _ => false
  }

  // ---------------------------------------------------------------- one command

  lemma UpdateItemStatus(db: Db, svc: Services, domain: nat, i: int, patch: Patch, now: int, id: int)
    requires id in db.items
    requires i == id ==> !Free(svc, domain, patch.contentTypeId.Or(db.items[id].contentTypeId), patch.status)
    ensures SameStatus(db, UpdateItem(db, svc, domain, i, patch, false, now).0, id)
  {
  }

  lemma {:induction false} WritingStatus(db: Db, rows: seq<UpdateRow>, clock: nat -> int, n: nat, id: int)
    requires n <= |rows| && id in db.items
    requires forall k :: 0 <= k < n && rows[k].id == id ==> rows[k].patch.status.None?
    ensures SameStatus(db, WriteAll(db, rows, clock, n), id)
  {
    if n > 0 {
      WritingStatus(db, rows, clock, n - 1, id);
    }
  }

  lemma UpdateBatchStatus(
      db: Db, svc: Services, domain: nat, rows: seq<UpdateRow>, atomic: bool, clock: nat -> int, id: int)
    requires id in db.items
    requires forall k :: 0 <= k < |rows| && rows[k].id == id ==>
      if atomic then rows[k].patch.status.None? else !SetsFreely(db, svc, domain, rows, clock, k)
    ensures SameStatus(db, UpdateBatch(db, svc, domain, rows, atomic, false, clock).0, id)
  {
    if atomic {
      if UpdateAtomicAfter(db, svc, domain, rows, clock, |rows|).Ok? {
        AtomicPrefix(db, svc, domain, rows, clock, |rows|);
        WritingStatus(db, rows, clock, |rows|, id);
      }
    } else {
      PartialKeepsGovernedStatus(db, svc, domain, rows, clock, id, |rows|);
    }
  }

  lemma UpdateGlobalStatus(
      db: Db, svc: Services, domain: nat, slug: string, data: string, status: Option<string>, now: int, id: int)
    requires Sound(db) && id in db.items
    requires GlobalType(db, domain, slug) == Some(db.items[id].contentTypeId) ==>
      !Free(svc, domain, db.items[id].contentTypeId, status)
    ensures SameStatus(db, UpdateGlobal(db, svc, domain, slug, data, status, false, now).0, id)
  {
    GlobalWrites(db, svc, domain, slug, data, status, false, now);
  }

  lemma {:induction false} CreatingKeepsItems(
      db: Db, svc: Services, domain: nat, items: seq<NewItem>, clock: nat -> int, n: nat, id: int)
    requires n <= |items| && id in db.items && id < db.nextItemId
    ensures var p := CreatePartialAfter(db, svc, domain, items, clock, n);
            db.nextItemId <= p.db.nextItemId && SameStatus(db, p.db, id)
    ensures CreateAtomicAfter(db, svc, domain, items, clock, n).Ok? ==>
            var p := CreateAtomicAfter(db, svc, domain, items, clock, n).value;
            db.nextItemId <= p.db.nextItemId && SameStatus(db, p.db, id)
  {
    if n > 0 {
      CreatingKeepsItems(db, svc, domain, items, clock, n - 1, id);
    }
  }

  lemma {:induction false} DeletingKeepsOthers(db: Db, domain: nat, ids: seq<int>, dry: bool, n: nat, id: int)
    requires n <= |ids| && id in db.items
    ensures var after := DeleteRowsAfter(db, domain, ids, dry, n).0;
            id in after.items ==> SameStatus(db, after, id)
    ensures DeleteAtomicAfter(db, domain, ids, n).Ok? ==>
            var after := DeleteAtomicAfter(db, domain, ids, n).value.0;
            id in after.items ==> SameStatus(db, after, id)
  {
    if n > 0 {
      DeletingKeepsOthers(db, domain, ids, dry, n - 1, id);
    }
  }

  /** Commands that write no head. */
  lemma OtherCommandStatus(db: Db, c: Command, id: int)
    requires Sound(db) && id in db.items && id in Execute(db, c).items
    requires !c.CmdUpdateItem? && !c.CmdUpdateBatch? && !c.CmdUpdateGlobal? && !c.CmdRollback?
    ensures SameStatus(db, Execute(db, c), id)
  {
    match c
    case CmdCreateBatch(d, svc, items, _, _, clock) => CreatingKeepsItems(db, svc, d, items, clock, |items|, id);
    case CmdDeleteBatch(d, ids, _, dry) => DeletingKeepsOthers(db, d, ids, dry, |ids|, id);
    case _ =>
  }

  lemma StatusNeedsBypass(db: Db, c: Command, id: int)
    requires Sound(db) && id in db.items && id in Execute(db, c).items && !Bypasses(db, c, id)
    ensures SameStatus(db, Execute(db, c), id)
  {
    match c
    case CmdCreateType(_, _, _, _, _) => OtherCommandStatus(db, c, id);
    case CmdUpdateType(_, _, _, _) => OtherCommandStatus(db, c, id);
    case CmdDeleteType(_, _, _) => OtherCommandStatus(db, c, id);
    case CmdCreateItem(_, _, _, _, _) => OtherCommandStatus(db, c, id);
    case CmdCreateBatch(_, _, _, _, _, _) => OtherCommandStatus(db, c, id);
    case CmdUpdateItem(d, svc, i, patch, dry, now) =>
      if !dry { UpdateItemStatus(db, svc, d, i, patch, now, id); }
    case CmdUpdateBatch(d, svc, rows, atomic, dry, clock) =>
      if !dry { UpdateBatchStatus(db, svc, d, rows, atomic, clock, id); }
    case CmdUpdateGlobal(d, svc, slug, data, status, dry, now) =>
      if !dry { UpdateGlobalStatus(db, svc, d, slug, data, status, now, id); }
    case CmdDeleteItem(_, _, _) => OtherCommandStatus(db, c, id);
    case CmdDeleteBatch(_, _, _, _) => OtherCommandStatus(db, c, id);
    case CmdRollback(d, svc, i, version, dry, now) =>
      if !dry { RollbackWrites(db, svc, d, i, version, now); }
  }

  // ---------------------------------------------------------------- runs

  /** While an item exists, its status changes only through commands that can bypass a workflow. */
  lemma {:induction false} StatusOverRuns(db: Db, commands: seq<Command>, id: int)
    requires Sound(db) && id in db.items && id in Run(db, commands).items
    requires forall n :: 0 <= n < |commands| ==> !Bypasses(Run(db, commands[..n]), commands[n], id)
    ensures SameStatus(db, Run(db, commands), id)
  {
    if |commands| > 0 {
      var init, c := commands[..|commands| - 1], commands[|commands| - 1];
      var before := Run(db, init);
      RunKeeps(db, init);
      ExecuteKeeps(before, c);
      assert id in before.items;
      forall n | 0 <= n < |init| ensures !Bypasses(Run(db, init[..n]), init[n], id) {
        assert init[..n] == commands[..n];
      }
      StatusOverRuns(db, init, id);
      StatusNeedsBypass(before, c, id);
    }
  }

  /** Every type the command meets has a workflow, and it sets no empty status. */
  ghost predicate UnderWorkflows(c: Command) {
    match c
    case CmdUpdateItem(d, svc, _, patch, _, _) => (forall t :: svc.governed(d, t)) && patch.status != Some("")
    case CmdUpdateBatch(d, svc, rows, _, _, _) =>
      (forall t :: svc.governed(d, t)) && forall k :: 0 <= k < |rows| ==> rows[k].patch.status != Some("")
    case CmdUpdateGlobal(d, svc, _, _, status, _, _) => (forall t :: svc.governed(d, t)) && status != Some("")
    case _ => true
  }

  /** A rollback of the item, or an atomic batch update that sets its status. */
  predicate IgnoresWorkflow(c: Command, id: int) {
    match c
    case CmdUpdateBatch(_, _, rows, atomic, dry, _) =>
      !dry && atomic && exists k :: 0 <= k < |rows| && rows[k].id == id && rows[k].patch.status.Some?
    case CmdRollback(_, _, i, _, dry, _) => !dry && i == id
    case _ => false
  }

  /**
   With workflows on every type and no empty statuses, only rollbacks and atomic batch updates
   change the status of an item, over every run and as long as the item exists.
   */
  lemma OnlyRollbacksAndAtomicBatches(db: Db, commands: seq<Command>, id: int)
    requires Sound(db) && id in db.items && id in Run(db, commands).items
    requires forall n :: 0 <= n < |commands| ==> UnderWorkflows(commands[n]) && !IgnoresWorkflow(commands[n], id)
    ensures SameStatus(db, Run(db, commands), id)
  {
    forall n | 0 <= n < |commands| ensures !Bypasses(Run(db, commands[..n]), commands[n], id) {
      NoBypass(Run(db, commands[..n]), commands[n], id);
    }
    StatusOverRuns(db, commands, id);
  }

  lemma NoBypass(db: Db, c: Command, id: int)
    requires UnderWorkflows(c) && !IgnoresWorkflow(c, id)
    ensures !Bypasses(db, c, id)
  {
  }

  /** A draft whose first version was published. */
  function Withdrawn(): Db {
    Db(map[1 := ContentType(0, "page", Collection, "")], map[10 := Item(0, 1, "b", "draft", 2, 7)],
       [VersionRow(10, 1, "a", "published", 3)], 2, 11)
  }

  lemma WithdrawnIsSound()
    ensures Sound(Withdrawn())
  {
    var db := Withdrawn();
    assert RowsOf(db.versions[..0], 10) == [];
    assert RowsOf(db.versions, 10) == [db.versions[0]];
    assert Timeline(db, 10) == [VersionRow(10, 1, "a", "published", 3), VersionRow(10, 2, "b", "draft", 7)];
    assert Numbered(db, 10);
  }

  /** An instance: under a workflow, rolling the draft back to its first version publishes it. */
  lemma RollbackPublishes()
    ensures var svc := Services((s, d) => {}, AcceptAll(), (d, t) => true);
            && Sound(Withdrawn())
            && Execute(Withdrawn(), CmdRollback(0, svc, 10, 1, false, 9)).items[10].status == "published"
  {
    WithdrawnIsSound();
    var db := Withdrawn();
    assert db.versions[0].itemId == 10 && HasVersion(db.versions, 10, 1);
  }
}
