/**
 The atomic mode of a batch update against the partial mode. They differ in three points: the
 atomic mode does not look at workflows, it submits empty data that the partial mode drops, and
 its transaction hides what it writes from the schema service. The modes agree exactly where
 none of the three matters.
 */
module ContentModes {
  import opened Outcomes
  import opened ContentDb
  import opened ContentBatches

  // ---------------------------------------------------------------- the three differences

  /** Row k, on top of the rows before it, changes a status under a workflow. */
  predicate Trespasses(db: Db, svc: Services, domain: nat, rows: seq<UpdateRow>, clock: nat -> int, k: nat)
    requires k < |rows|
  {
    var now, row := WriteAll(db, rows, clock, k), rows[k];
    && row.id in now.items
    && svc.governed(domain, row.patch.contentTypeId.Or(now.items[row.id].contentTypeId))
    && row.patch.ChangesStatusOf(now.items[row.id])
  }

  /** Row k sets no empty data, unless the item's data is empty already and the row sets something else too. */
  predicate Plain(db: Db, rows: seq<UpdateRow>, clock: nat -> int, k: nat)
    requires k < |rows|
  {
    var now, row := WriteAll(db, rows, clock, k), rows[k];
    row.patch.data == Some("") ==>
      !row.patch.DropEmptyData().Empty() && (row.id in now.items ==> now.items[row.id].data == "")
  }

  /** The items referred to by what row k leaves behind when the rows are simply written in order. */
  function LeftReferences(db: Db, svc: Services, rows: seq<UpdateRow>, clock: nat -> int, k: nat): set<int>
    requires k < |rows|
  {
    var after := WriteAll(db, rows, clock, k + 1);
    if rows[k].id in after.items && after.items[rows[k].id].contentTypeId in db.types then
      svc.references(db.types[after.items[rows[k].id].contentTypeId].schema, after.items[rows[k].id].data)
    else {}
  }

  /** What row k leaves behind refers to no item that has another type by then than before the batch. */
  ghost predicate Current(
      db: Db, svc: Services, domain: nat, rows: seq<UpdateRow>, clock: nat -> int, k: nat)
    requires k < |rows|
  {
    var now := WriteAll(db, rows, clock, k);
    forall x :: x in LeftReferences(db, svc, rows, clock, k) && x in now.items ==>
      x in db.items && (db.items[x].domain == domain ==> now.items[x].contentTypeId == db.items[x].contentTypeId)
  }

  /** None of the differences matters for row k. */
  ghost predicate Parallel(
      db: Db, svc: Services, domain: nat, rows: seq<UpdateRow>, clock: nat -> int, k: nat)
    requires k < |rows|
  {
    && !Trespasses(db, svc, domain, rows, clock, k)
    && Plain(db, rows, clock, k)
    && Current(db, svc, domain, rows, clock, k)
  }

  // ---------------------------------------------------------------- agreement

  ghost predicate FirstBadRow(rows: seq<BatchRow>, index: nat, code: Code) {
    && index < |rows|
    && rows[index] == RowErr(index, code)
    && AllOk(rows[..index])
  }

  /**
   The atomic mode succeeds exactly when the partial mode reports every row ok, with the same
   rows and the same tables; otherwise it fails at the partial mode's first failing row, with its code.
   */
  ghost predicate ModesAgree(db: Db, svc: Services, domain: nat, rows: seq<UpdateRow>, clock: nat -> int) {
    var (atomicDb, atomic) := UpdateBatch(db, svc, domain, rows, true, false, clock);
    var (partialDb, partial) := UpdateBatch(db, svc, domain, rows, false, false, clock);
    && partial.Rows?
    && (AllOk(partial.rows) ==> atomic == Rows(true, partial.rows) && atomicDb == partialDb)
    && (!AllOk(partial.rows) ==>
          atomic.AtomicFailed? && atomicDb == db && FirstBadRow(partial.rows, atomic.index, atomic.code))
  }

  /** The atomic outcome read off the partial reports. */
  ghost predicate Mirrors(atomic: Result<Progress, Abort>, partial: Progress) {
    match atomic
    case Ok(p) => AllOk(partial.rows) && p == partial
    case Err(a) => FirstBadRow(partial.rows, a.index, a.code)
  }

  ghost predicate MirroredAt(db: Db, svc: Services, domain: nat, rows: seq<UpdateRow>, clock: nat -> int, n: nat)
    requires n <= |rows|
  {
    Mirrors(UpdateAtomicAfter(db, svc, domain, rows, clock, n), UpdatePartialAfter(db, svc, domain, rows, clock, n))
  }

  /** The atomic mode gets to row k and finds nothing wrong with it but for the singleton rule. */
  ghost predicate Admitted(db: Db, svc: Services, domain: nat, rows: seq<UpdateRow>, clock: nat -> int, k: nat)
    requires k < |rows|
  {
    && UpdateAtomicAfter(db, svc, domain, rows, clock, k).Ok?
    && Admit(WriteAll(db, rows, clock, k), db, svc, domain, rows[k].id, rows[k].patch, false).Ok?
  }

  /** The atomic mode admits row k although it trespasses. */
  ghost predicate Barred(db: Db, svc: Services, domain: nat, rows: seq<UpdateRow>, clock: nat -> int, k: nat)
    requires k < |rows|
  {
    Admitted(db, svc, domain, rows, clock, k) && Trespasses(db, svc, domain, rows, clock, k)
  }

  // ---------------------------------------------------------------- one row

  lemma {:induction false} WritingKeepsFrame(db: Db, rows: seq<UpdateRow>, clock: nat -> int, n: nat)
    requires n <= |rows|
    ensures var now := WriteAll(db, rows, clock, n);
            && now.types == db.types && now.items.Keys == db.items.Keys
            && (forall id :: id in db.items ==> now.items[id].domain == db.items[id].domain)
  {
    if n > 0 {
      WritingKeepsFrame(db, rows, clock, n - 1);
    }
  }

  /** The schema service gives the same answer on row k whether or not it sees the rows written before. */
  lemma CurrentVerdict(db: Db, svc: Services, domain: nat, rows: seq<UpdateRow>, clock: nat -> int, k: nat)
    requires k < |rows| && Current(db, svc, domain, rows, clock, k)
    ensures var now := WriteAll(db, rows, clock, k);
            (PatchVerdict(now, now, svc, domain, rows[k].id, rows[k].patch)
             == PatchVerdict(db, now, svc, domain, rows[k].id, rows[k].patch))
  {
    var now := WriteAll(db, rows, clock, k);
    WritingKeepsFrame(db, rows, clock, k);
    var refs := LeftReferences(db, svc, rows, clock, k);
    var left, right := ReferencedTypes(now, domain, refs), ReferencedTypes(db, domain, refs);
    forall x ensures x in left <==> x in right {
      assert x in now.items.Keys <==> x in db.items.Keys;
    }
    forall x | x in right ensures left[x] == right[x] {
      assert x in left;
    }
    assert left == right;
  }

  /** A row on which the modes do not differ passes or fails alike. */
  lemma CheckIgnoresMode(
      now: Db, db: Db, svc: Services, domain: nat, id: int, patch: Patch, reserved: map<int, int>)
    requires PatchVerdict(now, now, svc, domain, id, patch) == PatchVerdict(db, now, svc, domain, id, patch)
    requires patch.data == Some("") ==>
      !patch.DropEmptyData().Empty() && (id in now.items ==> now.items[id].data == "")
    requires Admit(now, db, svc, domain, id, patch, false).Ok? ==>
      !(svc.governed(domain, patch.contentTypeId.Or(now.items[id].contentTypeId))
          && patch.ChangesStatusOf(now.items[id]))
    ensures CheckUpdate(now, now, svc, domain, id, patch.DropEmptyData(), reserved, true)
         == CheckUpdate(now, db, svc, domain, id, patch, reserved, false)
  {
    assert Admit(now, now, svc, domain, id, patch.DropEmptyData(), true)
        == Admit(now, db, svc, domain, id, patch, false);
  }

  lemma RowMirrored(
      db: Db, p: Progress, svc: Services, domain: nat, rows: seq<UpdateRow>, clock: nat -> int, k: nat)
    requires k < |rows| && p.db == WriteAll(db, rows, clock, k) && |p.rows| == k && AllOk(p.rows)
    requires Plain(db, rows, clock, k) && Current(db, svc, domain, rows, clock, k)
    requires Admit(p.db, db, svc, domain, rows[k].id, rows[k].patch, false).Ok? ==>
      !Trespasses(db, svc, domain, rows, clock, k)
    ensures Mirrors(AtomicStep(p, db, svc, domain, rows[k], k, clock(k)),
                    PartialStep(p, svc, domain, rows[k], k, clock(k)))
  {
    CurrentVerdict(db, svc, domain, rows, clock, k);
    CheckIgnoresMode(p.db, db, svc, domain, rows[k].id, rows[k].patch, p.reserved);
    var next := PartialStep(p, svc, domain, rows[k], k, clock(k));
    assert next.rows[..k] == p.rows;
  }

  // ---------------------------------------------------------------- whole batches

  lemma FirstBadRowExtends(rows: seq<BatchRow>, row: BatchRow, index: nat, code: Code)
    requires FirstBadRow(rows, index, code)
    ensures FirstBadRow(rows + [row], index, code)
  {
    assert (rows + [row])[..index] == rows[..index];
  }

  /** An abort is mirrored by every longer partial run. */
  lemma AbortStaysMirrored(a: Abort, p: Progress, svc: Services, domain: nat, row: UpdateRow, k: nat, now: int)
    requires FirstBadRow(p.rows, a.index, a.code)
    ensures FirstBadRow(PartialStep(p, svc, domain, row, k, now).rows, a.index, a.code)
  {
    var next := PartialStep(p, svc, domain, row, k, now);
    FirstBadRowExtends(p.rows, next.rows[|p.rows|], a.index, a.code);
  }

  /** Row k makes no difference between the modes, given how far the atomic mode gets. */
  ghost predicate Harmless(db: Db, svc: Services, domain: nat, rows: seq<UpdateRow>, clock: nat -> int, k: nat)
    requires k < |rows|
  {
    && Plain(db, rows, clock, k) && Current(db, svc, domain, rows, clock, k)
    && !Barred(db, svc, domain, rows, clock, k)
  }

  lemma MirroredStep(db: Db, svc: Services, domain: nat, rows: seq<UpdateRow>, clock: nat -> int, k: nat)
    requires k < |rows| && MirroredAt(db, svc, domain, rows, clock, k) && Harmless(db, svc, domain, rows, clock, k)
    ensures MirroredAt(db, svc, domain, rows, clock, k + 1)
  {
    var p := UpdatePartialAfter(db, svc, domain, rows, clock, k);
    PartialRowCount(db, svc, domain, rows, clock, k);
    match UpdateAtomicAfter(db, svc, domain, rows, clock, k)
    case Ok(_) =>
      AtomicPrefix(db, svc, domain, rows, clock, k);
      RowMirrored(db, p, svc, domain, rows, clock, k);
    case Err(a) =>
      AbortStaysMirrored(a, p, svc, domain, rows[k], k, clock(k));
  }

  lemma MirroredUpTo(db: Db, svc: Services, domain: nat, rows: seq<UpdateRow>, clock: nat -> int, n: nat)
    requires n <= |rows| && forall k :: 0 <= k < n ==> Harmless(db, svc, domain, rows, clock, k)
    ensures MirroredAt(db, svc, domain, rows, clock, n)
  {
    var mirrored := (k: nat) => k <= |rows| && MirroredAt(db, svc, domain, rows, clock, k);
    forall k: nat | k < n ensures Steps(mirrored, k) {
      if mirrored(k) {
        MirroredStep(db, svc, domain, rows, clock, k);
      }
    }
    Climb(mirrored, n);
  }

  /** Where none of the differences matters, the modes agree. */
  lemma AtomicAgreesWithPartial(db: Db, svc: Services, domain: nat, rows: seq<UpdateRow>, clock: nat -> int)
    requires |rows| > 0 && forall k :: 0 <= k < |rows| ==> Parallel(db, svc, domain, rows, clock, k)
    ensures ModesAgree(db, svc, domain, rows, clock)
  {
    forall k | 0 <= k < |rows| ensures Harmless(db, svc, domain, rows, clock, k) {
      assert Parallel(db, svc, domain, rows, clock, k);
    }
    MirroredUpTo(db, svc, domain, rows, clock, |rows|);
  }

  // ---------------------------------------------------------------- workflows decide

  /** A row the partial run cannot take makes it fail, whatever comes later. */
  lemma BadRowStays(
      db: Db, svc: Services, domain: nat, rows: seq<UpdateRow>, clock: nat -> int, k: nat, code: Code)
    requires k < |rows|
    requires var p := UpdatePartialAfter(db, svc, domain, rows, clock, k);
             CheckUpdate(p.db, p.db, svc, domain, rows[k].id, rows[k].patch.DropEmptyData(), p.reserved, true)
                 == Err(code)
    ensures |UpdatePartialAfter(db, svc, domain, rows, clock, |rows|).rows| == |rows|
    ensures UpdatePartialAfter(db, svc, domain, rows, clock, |rows|).rows[k] == RowErr(k, code)
  {
    PartialRowCount(db, svc, domain, rows, clock, k);
    ReportsStay(db, svc, domain, rows, clock, k, |rows|);
  }

  /** A row the atomic run gets to and admits can fail for the singleton rule only. */
  lemma AdmittedFailsForSingleton(
      db: Db, svc: Services, domain: nat, rows: seq<UpdateRow>, clock: nat -> int, k: nat)
    requires k < |rows| && Admitted(db, svc, domain, rows, clock, k)
    requires UpdateAtomicAfter(db, svc, domain, rows, clock, |rows|).Err?
    ensures var a := UpdateAtomicAfter(db, svc, domain, rows, clock, |rows|).error;
            k < a.index < |rows| || (a.index == k && a.code == SingletonExists)
  {
    AbortNamesRow(db, svc, domain, rows, clock, |rows|);
    AbortIsLater(db, svc, domain, rows, clock, k);
    AtomicPrefix(db, svc, domain, rows, clock, k);
  }

  /** An abort does not come before a row the run has got to. */
  lemma AbortIsLater(db: Db, svc: Services, domain: nat, rows: seq<UpdateRow>, clock: nat -> int, k: nat)
    requires k <= |rows| && UpdateAtomicAfter(db, svc, domain, rows, clock, k).Ok?
    requires UpdateAtomicAfter(db, svc, domain, rows, clock, |rows|).Err?
    ensures k <= UpdateAtomicAfter(db, svc, domain, rows, clock, |rows|).error.index
  {
    AbortNamesRow(db, svc, domain, rows, clock, |rows|);
    var i := UpdateAtomicAfter(db, svc, domain, rows, clock, |rows|).error.index;
    if i < k {
      AtomicSuccessIsHereditary(db, svc, domain, rows, clock, i + 1, k);
      AtomicUnfolds(db, svc, domain, rows, clock, i);
      assert false;
    }
  }

  /** What the partial run makes of the first admitted row that trespasses. */
  lemma TrespassRefused(db: Db, svc: Services, domain: nat, rows: seq<UpdateRow>, clock: nat -> int, k: nat)
    requires k < |rows| && MirroredAt(db, svc, domain, rows, clock, k)
    requires Plain(db, rows, clock, k) && Current(db, svc, domain, rows, clock, k)
    requires Barred(db, svc, domain, rows, clock, k)
    ensures var p := UpdatePartialAfter(db, svc, domain, rows, clock, k);
            (CheckUpdate(p.db, p.db, svc, domain, rows[k].id, rows[k].patch.DropEmptyData(), p.reserved, true)
             == Err(WorkflowForbidden))
  {
    AtomicPrefix(db, svc, domain, rows, clock, k);
    CurrentVerdict(db, svc, domain, rows, clock, k);
  }

  /** The first row that trespasses, once admitted, sets the modes apart. */
  lemma TrespassDivides(db: Db, svc: Services, domain: nat, rows: seq<UpdateRow>, clock: nat -> int, k: nat)
    requires k < |rows| && MirroredAt(db, svc, domain, rows, clock, k)
    requires Plain(db, rows, clock, k) && Current(db, svc, domain, rows, clock, k)
    requires Barred(db, svc, domain, rows, clock, k)
    ensures !ModesAgree(db, svc, domain, rows, clock)
    ensures !AllOk(UpdatePartialAfter(db, svc, domain, rows, clock, |rows|).rows)
  {
    TrespassRefused(db, svc, domain, rows, clock, k);
    BadRowStays(db, svc, domain, rows, clock, k, WorkflowForbidden);
    if UpdateAtomicAfter(db, svc, domain, rows, clock, |rows|).Err? {
      AdmittedFailsForSingleton(db, svc, domain, rows, clock, k);
      var a := UpdateAtomicAfter(db, svc, domain, rows, clock, |rows|).error;
      if k < a.index {
        assert UpdatePartialAfter(db, svc, domain, rows, clock, |rows|).rows[..a.index][k].RowErr?;
      }
    }
  }

  lemma {:induction false} TrespassIsFound(
      db: Db, svc: Services, domain: nat, rows: seq<UpdateRow>, clock: nat -> int, k: nat)
    requires k < |rows|
    requires forall j :: 0 <= j < |rows| ==> Plain(db, rows, clock, j) && Current(db, svc, domain, rows, clock, j)
    requires Barred(db, svc, domain, rows, clock, k)
    ensures !ModesAgree(db, svc, domain, rows, clock)
    ensures !AllOk(UpdatePartialAfter(db, svc, domain, rows, clock, |rows|).rows)
    decreases k
  {
    if j: nat :| j < k && Barred(db, svc, domain, rows, clock, j) {
      TrespassIsFound(db, svc, domain, rows, clock, j);
    } else {
      forall i | 0 <= i < k ensures Harmless(db, svc, domain, rows, clock, i) {
      }
      MirroredUpTo(db, svc, domain, rows, clock, k);
      TrespassDivides(db, svc, domain, rows, clock, k);
    }
  }

  /**
   Where empty data and references make no difference, workflows alone decide: the modes agree if
   and only if no row that the atomic mode gets to and admits trespasses.
   */
  lemma WorkflowsDecideAgreement(db: Db, svc: Services, domain: nat, rows: seq<UpdateRow>, clock: nat -> int)
    requires |rows| > 0
    requires forall k :: 0 <= k < |rows| ==> Plain(db, rows, clock, k) && Current(db, svc, domain, rows, clock, k)
    ensures ModesAgree(db, svc, domain, rows, clock)
       <==> forall k :: 0 <= k < |rows| ==> !Barred(db, svc, domain, rows, clock, k)
  {
    if k: nat :| k < |rows| && Barred(db, svc, domain, rows, clock, k) {
      TrespassIsFound(db, svc, domain, rows, clock, k);
    } else {
      forall i | 0 <= i < |rows| ensures Harmless(db, svc, domain, rows, clock, i) {
      }
      MirroredUpTo(db, svc, domain, rows, clock, |rows|);
    }
  }

  /** Of such batches that the atomic mode accepts, the partial mode takes every row exactly if none trespasses. */
  lemma AcceptedBatchesDifferByWorkflow(
      db: Db, svc: Services, domain: nat, rows: seq<UpdateRow>, clock: nat -> int)
    requires |rows| > 0 && UpdateBatch(db, svc, domain, rows, true, false, clock).1.Rows?
    requires forall k :: 0 <= k < |rows| ==> Plain(db, rows, clock, k) && Current(db, svc, domain, rows, clock, k)
    ensures AllOk(UpdatePartialAfter(db, svc, domain, rows, clock, |rows|).rows)
       <==> forall k :: 0 <= k < |rows| ==> !Trespasses(db, svc, domain, rows, clock, k)
  {
    forall k | 0 <= k < |rows| ensures Admitted(db, svc, domain, rows, clock, k) {
      AcceptedIsAdmitted(db, svc, domain, rows, clock, k);
    }
    WorkflowsDecideAgreement(db, svc, domain, rows, clock);
    if k: nat :| k < |rows| && Trespasses(db, svc, domain, rows, clock, k) {
      TrespassIsFound(db, svc, domain, rows, clock, k);
    }
  }

  lemma AcceptedIsAdmitted(db: Db, svc: Services, domain: nat, rows: seq<UpdateRow>, clock: nat -> int, k: nat)
    requires k < |rows| && UpdateAtomicAfter(db, svc, domain, rows, clock, |rows|).Ok?
    ensures Admitted(db, svc, domain, rows, clock, k)
  {
    AcceptedStep(db, svc, domain, rows, clock, k);
    TakenIsAdmitted(UpdateAtomicAfter(db, svc, domain, rows, clock, k).value, db, svc, domain, rows[k], k, clock(k));
  }

  lemma TakenIsAdmitted(p: Progress, seen: Db, svc: Services, domain: nat, row: UpdateRow, k: nat, now: int)
    requires AtomicStep(p, seen, svc, domain, row, k, now).Ok?
    ensures Admit(p.db, seen, svc, domain, row.id, row.patch, false).Ok?
  {
  }

  /** An accepted batch takes each of its rows on top of what the rows before it have written. */
  lemma AcceptedStep(db: Db, svc: Services, domain: nat, rows: seq<UpdateRow>, clock: nat -> int, k: nat)
    requires k < |rows| && UpdateAtomicAfter(db, svc, domain, rows, clock, |rows|).Ok?
    ensures UpdateAtomicAfter(db, svc, domain, rows, clock, k).Ok?
    ensures var p := UpdateAtomicAfter(db, svc, domain, rows, clock, k).value;
            p.db == WriteAll(db, rows, clock, k) && AtomicStep(p, db, svc, domain, rows[k], k, clock(k)).Ok?
  {
    AtomicSuccessIsHereditary(db, svc, domain, rows, clock, k + 1, |rows|);
    AtomicUnfolds(db, svc, domain, rows, clock, k);
    AtomicPrefix(db, svc, domain, rows, clock, k);
  }

  lemma AtomicUnfolds(db: Db, svc: Services, domain: nat, rows: seq<UpdateRow>, clock: nat -> int, k: nat)
    requires k < |rows| && UpdateAtomicAfter(db, svc, domain, rows, clock, k + 1).Ok?
    ensures UpdateAtomicAfter(db, svc, domain, rows, clock, k).Ok?
    ensures UpdateAtomicAfter(db, svc, domain, rows, clock, k + 1)
         == AtomicStep(UpdateAtomicAfter(db, svc, domain, rows, clock, k).value, db, svc, domain, rows[k], k, clock(k))
  {
  }

  // ---------------------------------------------------------------- all three, whatever the schemas demand

  lemma AtomicStepsAlike(
      p: Progress, seen: Db, a: Services, b: Services, domain: nat, row: UpdateRow, k: nat, now: int)
    requires forall schema, data :: SchemaFailure(seen, a, domain, schema, data) == None
    requires forall schema, data :: SchemaFailure(seen, b, domain, schema, data) == None
    ensures AtomicStep(p, seen, a, domain, row, k, now) == AtomicStep(p, seen, b, domain, row, k, now)
  {
    assert Admit(p.db, seen, a, domain, row.id, row.patch, false)
        == Admit(p.db, seen, b, domain, row.id, row.patch, false);
  }

  /** The atomic outcome does not depend on schemas that find nothing wrong in the stored tables. */
  lemma {:induction false} AtomicRunsAlike(
      db: Db, a: Services, b: Services, domain: nat, rows: seq<UpdateRow>, clock: nat -> int, n: nat)
    requires n <= |rows|
    requires forall schema, data :: SchemaFailure(db, a, domain, schema, data) == None
    requires forall schema, data :: SchemaFailure(db, b, domain, schema, data) == None
    ensures UpdateAtomicAfter(db, a, domain, rows, clock, n) == UpdateAtomicAfter(db, b, domain, rows, clock, n)
  {
    if n > 0 {
      AtomicRunsAlike(db, a, b, domain, rows, clock, n - 1);
      var before := UpdateAtomicAfter(db, a, domain, rows, clock, n - 1);
      if before.Ok? {
        AtomicStepsAlike(before.value, db, a, b, domain, rows[n - 1], n - 1, clock(n - 1));
      }
    }
  }

  /** Writing different data under one id leaves different tables for good: in the heads or in the history. */
  ghost predicate Apart(a: Db, b: Db) {
    && |a.versions| == |b.versions|
    && ((exists m :: 0 <= m < |a.versions| && a.versions[m] != b.versions[m])
        || (exists x :: x in a.items && x in b.items && a.items[x].data != b.items[x].data))
  }

  lemma WritingStaysApart(a: Db, b: Db, id: int, headA: Item, headB: Item)
    requires Apart(a, b) && id in a.items && id in b.items
    ensures Apart(WriteHead(a, id, headA), WriteHead(b, id, headB))
  {
    var a', b' := WriteHead(a, id, headA), WriteHead(b, id, headB);
    if m :| 0 <= m < |a.versions| && a.versions[m] != b.versions[m] {
      assert a'.versions[m] != b'.versions[m];
    } else {
      var x :| x in a.items && x in b.items && a.items[x].data != b.items[x].data;
      if x == id {
        assert a'.versions[|a.versions|] != b'.versions[|a.versions|];
      } else {
        assert x in a'.items && x in b'.items;
      }
    }
  }

  lemma RowStaysApart(
      atomic: Progress, partial: Progress, seen: Db, svc: Services, domain: nat, row: UpdateRow, k: nat, now: int)
    requires Apart(atomic.db, partial.db) && |partial.rows| == k
    requires AtomicStep(atomic, seen, svc, domain, row, k, now).Ok?
    requires PartialStep(partial, svc, domain, row, k, now).rows[k].RowOk?
    ensures Apart(AtomicStep(atomic, seen, svc, domain, row, k, now).value.db,
                  PartialStep(partial, svc, domain, row, k, now).db)
  {
    WritingStaysApart(atomic.db, partial.db, row.id, Patched(atomic.db.items[row.id], row.patch, now),
                      Patched(partial.db.items[row.id], row.patch.DropEmptyData(), now));
  }

  ghost predicate BothTake(db: Db, svc: Services, domain: nat, rows: seq<UpdateRow>, clock: nat -> int, k: nat)
    requires k < |rows|
  {
    var p := UpdatePartialAfter(db, svc, domain, rows, clock, k);
    var next := PartialStep(p, svc, domain, rows[k], k, clock(k));
    UpdateAtomicAfter(db, svc, domain, rows, clock, k + 1).Ok? && |next.rows| == k + 1 && next.rows[k].RowOk?
  }

  lemma AllOkTakesAll(db: Db, svc: Services, domain: nat, rows: seq<UpdateRow>, clock: nat -> int, k: nat)
    requires k < |rows| && UpdateAtomicAfter(db, svc, domain, rows, clock, |rows|).Ok?
    requires AllOk(UpdatePartialAfter(db, svc, domain, rows, clock, |rows|).rows)
    ensures BothTake(db, svc, domain, rows, clock, k)
  {
    ReportsStay(db, svc, domain, rows, clock, k, |rows|);
    AtomicSuccessIsHereditary(db, svc, domain, rows, clock, k + 1, |rows|);
  }

  ghost predicate RunsApart(db: Db, svc: Services, domain: nat, rows: seq<UpdateRow>, clock: nat -> int, n: nat)
    requires n <= |rows|
  {
    var atomic := UpdateAtomicAfter(db, svc, domain, rows, clock, n);
    atomic.Ok? && Apart(atomic.value.db, UpdatePartialAfter(db, svc, domain, rows, clock, n).db)
  }

  lemma RunsApartStep(db: Db, svc: Services, domain: nat, rows: seq<UpdateRow>, clock: nat -> int, k: nat)
    requires k < |rows| && RunsApart(db, svc, domain, rows, clock, k) && BothTake(db, svc, domain, rows, clock, k)
    ensures RunsApart(db, svc, domain, rows, clock, k + 1)
  {
    AtomicUnfolds(db, svc, domain, rows, clock, k);
    PartialRowCount(db, svc, domain, rows, clock, k);
    RowStaysApart(UpdateAtomicAfter(db, svc, domain, rows, clock, k).value,
                  UpdatePartialAfter(db, svc, domain, rows, clock, k), db, svc, domain, rows[k], k, clock(k));
  }

  lemma {:induction false} RunsStayApart(
      db: Db, svc: Services, domain: nat, rows: seq<UpdateRow>, clock: nat -> int, m: nat, n: nat)
    requires m <= n <= |rows| && RunsApart(db, svc, domain, rows, clock, m)
    requires forall k :: m <= k < n ==> BothTake(db, svc, domain, rows, clock, k)
    ensures RunsApart(db, svc, domain, rows, clock, n)
    decreases n - m
  {
    if m < n {
      RunsApartStep(db, svc, domain, rows, clock, m);
      RunsStayApart(db, svc, domain, rows, clock, m + 1, n);
    }
  }

  /**
   A batch the atomic mode accepts and the partial mode does not take whole, or with other tables, sets
   them apart.
   */
  lemma RefusalDivides(db: Db, svc: Services, domain: nat, rows: seq<UpdateRow>, clock: nat -> int, k: nat, code: Code)
    requires k < |rows| && UpdateAtomicAfter(db, svc, domain, rows, clock, |rows|).Ok?
    requires var p := UpdatePartialAfter(db, svc, domain, rows, clock, k);
             CheckUpdate(p.db, p.db, svc, domain, rows[k].id, rows[k].patch.DropEmptyData(), p.reserved, true)
                 == Err(code)
    ensures !ModesAgree(db, svc, domain, rows, clock)
  {
    BadRowStays(db, svc, domain, rows, clock, k, code);
  }

  /** Empty data that does make a difference sets the modes apart. */
  lemma EmptyDataDivides(db: Db, svc: Services, domain: nat, rows: seq<UpdateRow>, clock: nat -> int, k: nat)
    requires k < |rows| && UpdateAtomicAfter(db, svc, domain, rows, clock, |rows|).Ok?
    requires MirroredAt(db, svc, domain, rows, clock, k) && !Plain(db, rows, clock, k)
    ensures !ModesAgree(db, svc, domain, rows, clock)
  {
    var p := UpdatePartialAfter(db, svc, domain, rows, clock, k);
    var patch := rows[k].patch.DropEmptyData();
    AcceptedStep(db, svc, domain, rows, clock, k);
    var check := CheckUpdate(p.db, p.db, svc, domain, rows[k].id, patch, p.reserved, true);
    if check.Err? {
      RefusalDivides(db, svc, domain, rows, clock, k, check.error);
    } else if AllOk(UpdatePartialAfter(db, svc, domain, rows, clock, |rows|).rows) {
      assert !patch.Empty();
      EmptyDataParts(p, db, svc, domain, rows[k], k, clock(k));
      AllOkTakesAll(db, svc, domain, rows, clock, k);
      assert RunsApart(db, svc, domain, rows, clock, k + 1);
      ApartDivides(db, svc, domain, rows, clock, k);
    }
  }

  /** Once the runs' tables differ in the data under some id, they never meet again. */
  lemma ApartDivides(db: Db, svc: Services, domain: nat, rows: seq<UpdateRow>, clock: nat -> int, k: nat)
    requires k < |rows| && UpdateAtomicAfter(db, svc, domain, rows, clock, |rows|).Ok?
    requires AllOk(UpdatePartialAfter(db, svc, domain, rows, clock, |rows|).rows)
    requires RunsApart(db, svc, domain, rows, clock, k + 1)
    ensures !ModesAgree(db, svc, domain, rows, clock)
  {
    forall j | k + 1 <= j < |rows| ensures BothTake(db, svc, domain, rows, clock, j) {
      AllOkTakesAll(db, svc, domain, rows, clock, j);
    }
    RunsStayApart(db, svc, domain, rows, clock, k + 1, |rows|);
    OtherTablesDisagree(db, svc, domain, rows, clock);
  }

  lemma OtherTablesDisagree(db: Db, svc: Services, domain: nat, rows: seq<UpdateRow>, clock: nat -> int)
    requires |rows| > 0 && RunsApart(db, svc, domain, rows, clock, |rows|)
    ensures !ModesAgree(db, svc, domain, rows, clock)
  {
  }

  /** Both modes take the row, and leave different data. */
  lemma EmptyDataParts(p: Progress, seen: Db, svc: Services, domain: nat, row: UpdateRow, k: nat, now: int)
    requires AtomicStep(p, seen, svc, domain, row, k, now).Ok?
    requires CheckUpdate(p.db, p.db, svc, domain, row.id, row.patch.DropEmptyData(), p.reserved, true).Ok?
    requires row.patch.data == Some("") && (row.id in p.db.items ==> p.db.items[row.id].data != "")
    ensures Apart(AtomicStep(p, seen, svc, domain, row, k, now).value.db, PartialStep(p, svc, domain, row, k, now).db)
  {
    var atomic := AtomicStep(p, seen, svc, domain, row, k, now).value;
    var partial := PartialStep(p, svc, domain, row, k, now);
    assert row.id in atomic.db.items && atomic.db.items[row.id].data == "";
    assert row.id in partial.db.items && partial.db.items[row.id].data == p.db.items[row.id].data;
  }

  /** A reference that is no longer current sets the modes apart, should the schemas mind. */
  lemma OldReferenceDivides(db: Db, svc: Services, domain: nat, rows: seq<UpdateRow>, clock: nat -> int, k: nat)
      returns (v: Validator)
    requires k < |rows| && UpdateAtomicAfter(db, Unchecked(svc), domain, rows, clock, |rows|).Ok?
    requires forall j :: 0 <= j < k ==> Parallel(db, svc, domain, rows, clock, j)
    requires !Trespasses(db, svc, domain, rows, clock, k) && Plain(db, rows, clock, k)
    requires !Current(db, svc, domain, rows, clock, k)
    ensures !ModesAgree(db, svc.(validate := v), domain, rows, clock)
  {
    var now := WriteAll(db, rows, clock, k);
    WritingKeepsFrame(db, rows, clock, k);
    var x :| x in LeftReferences(db, svc, rows, clock, k) && x in now.items && x in db.items.Keys
             && now.items[x].contentTypeId != db.items[x].contentTypeId && db.items[x].domain == domain;
    var left := WriteAll(db, rows, clock, k + 1).items[rows[k].id];
    var doc := db.types[left.contentTypeId].schema;
    v := RejectMoved(doc, left.data, x, now.items[x].contentTypeId);
    var strict := svc.(validate := v);
    NothingRejected(db, svc, domain, doc, left.data, x, now.items[x].contentTypeId);
    AtomicRunsAlike(db, Unchecked(svc), strict, domain, rows, clock, |rows|);
    AcceptedIsAdmitted(db, strict, domain, rows, clock, k);
    AllMirrored(db, svc, v, domain, rows, clock, k);
    AtomicPrefix(db, strict, domain, rows, clock, k);
    OldReferenceRefused(now, db, svc, domain, rows[k], x);
    RefusalDivides(db, strict, domain, rows, clock, k, Invalid("stale"));
  }

  /** The partial run sees the new type of an item the row refers to, and the schema minds. */
  lemma OldReferenceRefused(now: Db, seen: Db, svc: Services, domain: nat, row: UpdateRow, x: int)
    requires x in now.items && now.items[x].domain == domain
    requires Admit(now, seen, Unchecked(svc), domain, row.id, row.patch, false).Ok?
    requires row.patch.data == Some("") ==>
      !row.patch.DropEmptyData().Empty() && now.items[row.id].data == ""
    requires var left := Patched(now.items[row.id], row.patch, 0);
             x in svc.references(now.types[left.contentTypeId].schema, left.data)
    ensures var left := Patched(now.items[row.id], row.patch, 0);
            var v := RejectMoved(now.types[left.contentTypeId].schema, left.data, x, now.items[x].contentTypeId);
            (Admit(now, now, svc.(validate := v), domain, row.id, row.patch.DropEmptyData(), true)
                == Err(Invalid("stale")))
  {
  }

  /** Rows on which the modes do not differ are mirrored whatever the schemas demand. */
  lemma AllMirrored(
      db: Db, svc: Services, v: Validator, domain: nat, rows: seq<UpdateRow>, clock: nat -> int, n: nat)
    requires n <= |rows| && forall k :: 0 <= k < n ==> Parallel(db, svc, domain, rows, clock, k)
    ensures MirroredAt(db, svc.(validate := v), domain, rows, clock, n)
  {
    var other := svc.(validate := v);
    forall k | 0 <= k < n ensures Harmless(db, other, domain, rows, clock, k) {
      assert Parallel(db, svc, domain, rows, clock, k);
      assert LeftReferences(db, other, rows, clock, k) == LeftReferences(db, svc, rows, clock, k);
    }
    MirroredUpTo(db, other, domain, rows, clock, n);
  }

  lemma {:induction false} DifferenceDivides(
      db: Db, svc: Services, domain: nat, rows: seq<UpdateRow>, clock: nat -> int, k: nat) returns (v: Validator)
    requires k < |rows| && UpdateAtomicAfter(db, Unchecked(svc), domain, rows, clock, |rows|).Ok?
    requires !Parallel(db, svc, domain, rows, clock, k)
    ensures !ModesAgree(db, svc.(validate := v), domain, rows, clock)
    decreases k
  {
    if j: nat :| j < k && !Parallel(db, svc, domain, rows, clock, j) {
      v := DifferenceDivides(db, svc, domain, rows, clock, j);
    } else {
      AllMirrored(db, svc, AcceptAll(), domain, rows, clock, k);
      if Trespasses(db, svc, domain, rows, clock, k) {
        v := AcceptAll();
        LaxTrespassDivides(db, svc, domain, rows, clock, k);
      } else if !Plain(db, rows, clock, k) {
        v := AcceptAll();
        EmptyDataDivides(db, Unchecked(svc), domain, rows, clock, k);
      } else {
        v := OldReferenceDivides(db, svc, domain, rows, clock, k);
      }
    }
  }

  lemma LaxTrespassDivides(db: Db, svc: Services, domain: nat, rows: seq<UpdateRow>, clock: nat -> int, k: nat)
    requires k < |rows| && UpdateAtomicAfter(db, Unchecked(svc), domain, rows, clock, |rows|).Ok?
    requires MirroredAt(db, Unchecked(svc), domain, rows, clock, k) && Trespasses(db, svc, domain, rows, clock, k)
    ensures !ModesAgree(db, Unchecked(svc), domain, rows, clock)
  {
    AcceptedStep(db, Unchecked(svc), domain, rows, clock, k);
    var now, patch := WriteAll(db, rows, clock, k), rows[k].patch.DropEmptyData();
    TrespassNotAdmitted(now, Unchecked(svc), domain, rows[k]);
    var reason := Admit(now, now, Unchecked(svc), domain, rows[k].id, patch, true).error;
    RefusalDivides(db, Unchecked(svc), domain, rows, clock, k, reason);
  }

  lemma TrespassNotAdmitted(now: Db, svc: Services, domain: nat, row: UpdateRow)
    requires row.id in now.items && row.patch.ChangesStatusOf(now.items[row.id])
    requires svc.governed(domain, row.patch.contentTypeId.Or(now.items[row.id].contentTypeId))
    ensures Admit(now, now, svc, domain, row.id, row.patch.DropEmptyData(), true).Err?
  {
  }

  /**
   For a batch that the atomic mode accepts when the schemas accept everything, the condition is
   exact: the modes agree whatever the schemas demand if and only if no row changes a status under
   a workflow, sets empty data to any effect, or leaves a reference to an item whose type the rows
   before it have changed.
   */
  lemma AtomicAgreesExactly(db: Db, svc: Services, domain: nat, rows: seq<UpdateRow>, clock: nat -> int)
    requires |rows| > 0 && UpdateBatch(db, Unchecked(svc), domain, rows, true, false, clock).1.Rows?
    ensures (forall v: Validator :: ModesAgree(db, svc.(validate := v), domain, rows, clock))
       <==> forall k :: 0 <= k < |rows| ==> Parallel(db, svc, domain, rows, clock, k)
  {
    if k: nat :| k < |rows| && !Parallel(db, svc, domain, rows, clock, k) {
      var v := DifferenceDivides(db, svc, domain, rows, clock, k);
    } else {
      forall v: Validator ensures ModesAgree(db, svc.(validate := v), domain, rows, clock) {
        AllMirrored(db, svc, v, domain, rows, clock, |rows|);
      }
    }
  }

  // ---------------------------------------------------------------- each difference shows

  /** The atomic mode has no workflow check: the same row that the partial mode forbids goes through. */
  lemma AtomicIgnoresWorkflows(clock: nat -> int)
    ensures var svc := Services((s, d) => {}, AcceptAll(), (d, t) => true);
            var rows := [UpdateRow(10, Patch(None, None, Some("published")))];
            var (after, reply) := UpdateBatch(TwoPages(), svc, 0, rows, true, false, clock);
            && reply == Rows(true, [RowOk(0, 10, 2)])
            && after.items[10].status == "published"
            && UpdateBatch(TwoPages(), svc, 0, rows, false, false, clock).1
                == Rows(false, [RowErr(0, WorkflowForbidden)])
  {
  }

  /**
   The transaction hides its writes from the schema service: a reference to an item that the same
   batch has just given a forbidden type passes in atomic mode and fails in partial mode.
   */
  lemma AtomicTrustsOldReferences(clock: nat -> int)
    ensures UpdateBatch(TwoPages(), Particular(), 0, MOVE_THEN_REFER, true, false, clock).1
         == Rows(true, [RowOk(0, 10, 2), RowOk(1, 11, 2)])
    ensures UpdateBatch(TwoPages(), Particular(), 0, MOVE_THEN_REFER, false, false, clock).1
         == Rows(false, [RowOk(0, 10, 2), RowErr(1, Invalid("mismatch"))])
  {
    PartialRefusesReference(clock);
    var first := UpdateAtomicAfter(TwoPages(), Particular(), 0, MOVE_THEN_REFER, clock, 1);
    assert first.Ok? && first.value.rows == [RowOk(0, 10, 2)] && first.value.db.items[11] == TwoPages().items[11];
  }

  /** Empty data is no JSON text: the schema service refuses it whatever the schema. */
  ghost predicate RefusesEmpty(svc: Services) {
    forall schema, domain, types :: svc.validate(schema, "", domain, types).Some?
  }

  /** So no batch that the atomic mode accepts sets empty data. */
  lemma {:induction false} AtomicRefusesEmptyData(
      db: Db, svc: Services, domain: nat, rows: seq<UpdateRow>, clock: nat -> int, n: nat)
    requires n <= |rows| && RefusesEmpty(svc) && UpdateAtomicAfter(db, svc, domain, rows, clock, n).Ok?
    ensures forall k :: 0 <= k < n ==> rows[k].patch.data != Some("")
  {
    if n > 0 {
      AtomicRefusesEmptyData(db, svc, domain, rows, clock, n - 1);
    }
  }

  /** An instance: the atomic mode refuses a row for its empty data that the partial mode takes without it. */
  lemma EmptyDataRefusedOrDropped(clock: nat -> int)
    ensures var rows := [UpdateRow(10, Patch(None, Some(""), Some("published")))];
            var db := Db(map[1 := ContentType(0, "page", Collection, "")], map[10 := Item(0, 1, "a", "draft", 1, 0)],
                         [], 2, 11);
            var svc := Services((s, d) => {}, (schema: string, data: string, domain: nat, types: map<int, int>) =>
                                  if data == "" then Some("not JSON") else None, (d, t) => false);
            && RefusesEmpty(svc)
            && UpdateBatch(db, svc, 0, rows, true, false, clock).1 == AtomicFailed(0, Invalid("not JSON"))
            && UpdateBatch(db, svc, 0, rows, false, false, clock).1 == Rows(false, [RowOk(0, 10, 2)])
            && UpdateBatch(db, svc, 0, rows, false, false, clock).0.items[10].data == "a"
  {
  }
}
