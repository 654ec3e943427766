/**
 The dry run of a batch update against the partial run it stands for. Schemas may look at the
 content types of referenced items, which a batch can change under way; singleton types may be
 vacated under way. The first can make the dry run wrong, the second only too pessimistic.
 */
module ContentDryRun {
  import opened Outcomes
  import opened ContentDb
  import opened ContentBatches

  /** The stored tables and the workflows let the row through; only schemas and singletons may object. */
  predicate Writable(db: Db, svc: Services, domain: nat, row: UpdateRow) {
    Admit(db, db, Unchecked(svc), domain, row.id, row.patch.DropEmptyData(), true).Ok?
  }

  /** The row would give its item another content type. */
  predicate Retypes(db: Db, svc: Services, domain: nat, row: UpdateRow) {
    && Writable(db, svc, domain, row)
    && row.patch.contentTypeId.Some? && row.patch.contentTypeId.value != db.items[row.id].contentTypeId
  }

  /** Row j may retype its item: nobody sits in the seat it aims at, or whoever does may be moved out before. */
  ghost predicate Moves(db: Db, svc: Services, domain: nat, rows: seq<UpdateRow>, j: nat)
    requires j < |rows|
    decreases j
  {
    && Retypes(db, svc, domain, rows[j])
    && (IsSingletonHere(db, domain, rows[j].patch.contentTypeId.value) ==>
          forall y :: InType(db, domain, rows[j].patch.contentTypeId.value, y) && y != rows[j].id ==>
            exists i :: 0 <= i < j && rows[i].id == y && Moves(db, svc, domain, rows, i))
  }

  /** The items referred to by the data the row would leave behind; a row that sets nothing is not looked at. */
  function ReferencedBy(db: Db, svc: Services, domain: nat, row: UpdateRow): set<int> {
    var patch := row.patch.DropEmptyData();
    if patch.Empty() then {} else
    match FindItem(db, domain, row.id)
    case None => {}
    case Some(existing) =>
      match FindType(db, domain, patch.contentTypeId.Or(existing.contentTypeId))
      case None => {}
      case Some(ty) => svc.references(ty.schema, patch.data.Or(existing.data))
  }

  /** No row's data refers to an item that an earlier row of the batch may give another content type. */
  ghost predicate NoStaleReferences(db: Db, svc: Services, domain: nat, rows: seq<UpdateRow>) {
    forall i, j :: 0 <= j < i < |rows| && Moves(db, svc, domain, rows, j) ==>
      rows[j].id !in ReferencedBy(db, svc, domain, rows[i])
  }

  ghost predicate Processed(rows: seq<UpdateRow>, n: nat, id: int)
    requires n <= |rows|
  {
    exists j :: 0 <= j < n && rows[j].id == id
  }

  /** What a partial run has changed after n rows: only processed items, and types only as the rows say. */
  ghost predicate Drift(db: Db, now: Db, svc: Services, domain: nat, rows: seq<UpdateRow>, n: nat)
    requires n <= |rows|
  {
    && now.types == db.types
    && now.items.Keys == db.items.Keys
    && (forall id :: id in db.items ==> now.items[id].domain == db.items[id].domain)
    && (forall id :: id in db.items && !Processed(rows, n, id) ==> now.items[id] == db.items[id])
    && (forall id :: id in db.items && now.items[id].contentTypeId != db.items[id].contentTypeId ==>
          exists j :: 0 <= j < n && rows[j].id == id && Moves(db, svc, domain, rows, j))
  }

  /** Singleton claims of the two runs, and why a singleton type may have gained a member. */
  ghost predicate Claims(db: Db, actual: Progress, dry: Progress, domain: nat, rows: seq<UpdateRow>, n: nat)
    requires n <= |rows|
  {
    ClaimsPlaced(actual, dry, domain, rows, n) && GainsExplained(db, actual, dry, domain, rows, n)
  }

  predicate IsSingletonHere(db: Db, domain: nat, t: int) {
    FindType(db, domain, t).Some? && FindType(db, domain, t).value.kind.Singleton?
  }

  /** The reports of the two runs: equal, except where the dry run complains of a singleton. */
  ghost predicate Foretold(dry: seq<BatchRow>, actual: seq<BatchRow>) {
    && |dry| == |actual|
    && forall k :: 0 <= k < |dry| ==> dry[k] == actual[k] || dry[k] == RowErr(k, SingletonExists)
  }

  /** The schema verdict on row k, should the row be written on top of `now`. */
  function Verdict(now: Db, svc: Services, domain: nat, row: UpdateRow): Option<string> {
    PatchVerdict(now, now, svc, domain, row.id, row.patch.DropEmptyData())
  }

  /** The partial run meets the same schema verdict on row k as the dry run. */
  ghost predicate SteadyVerdict(db: Db, svc: Services, domain: nat, rows: seq<UpdateRow>, clock: nat -> int, k: nat)
    requires k < |rows|
  {
    Verdict(UpdatePartialAfter(db, svc, domain, rows, clock, k).db, svc, domain, rows[k])
        == Verdict(db, svc, domain, rows[k])
  }

  lemma AdmitUnmoved(db: Db, now: Db, svc: Services, domain: nat, rows: seq<UpdateRow>, n: nat)
    requires n < |rows| && DistinctIds(rows)
    requires Drift(db, now, svc, domain, rows, n)
    requires Verdict(now, svc, domain, rows[n]) == Verdict(db, svc, domain, rows[n])
    ensures var patch := rows[n].patch.DropEmptyData();
            Admit(now, now, svc, domain, rows[n].id, patch, true) == Admit(db, db, svc, domain, rows[n].id, patch, true)
    ensures FindItem(now, domain, rows[n].id) == FindItem(db, domain, rows[n].id)
  {
  }

  /** Untouched references mean the same verdict. */
  lemma SameReferencedTypes(db: Db, now: Db, svc: Services, domain: nat, rows: seq<UpdateRow>, n: nat, refs: set<int>)
    requires n <= |rows| && Drift(db, now, svc, domain, rows, n)
    requires forall j :: 0 <= j < n && Moves(db, svc, domain, rows, j) ==> rows[j].id !in refs
    ensures ReferencedTypes(now, domain, refs) == ReferencedTypes(db, domain, refs)
  {
    var left, right := ReferencedTypes(now, domain, refs), ReferencedTypes(db, domain, refs);
    forall x ensures x in left <==> x in right {
      assert x in now.items <==> x in db.items;
      if x in db.items {
        assert now.items[x].domain == db.items[x].domain;
      }
    }
    forall x | x in right ensures left[x] == right[x] {
      assert forall j :: 0 <= j < n && rows[j].id == x ==> !Moves(db, svc, domain, rows, j);
    }
  }

  lemma VerdictUnmoved(db: Db, now: Db, svc: Services, domain: nat, rows: seq<UpdateRow>, n: nat)
    requires n < |rows| && DistinctIds(rows) && NoStaleReferences(db, svc, domain, rows)
    requires Drift(db, now, svc, domain, rows, n)
    ensures Verdict(now, svc, domain, rows[n]) == Verdict(db, svc, domain, rows[n])
  {
    assert !Processed(rows, n, rows[n].id);
    assert rows[n].id in now.items <==> rows[n].id in db.items;
    forall j | 0 <= j < n && Moves(db, svc, domain, rows, j)
      ensures rows[j].id !in ReferencedBy(db, svc, domain, rows[n])
    {
    }
    SameReferencedTypes(db, now, svc, domain, rows, n, ReferencedBy(db, svc, domain, rows[n]));
  }

  /** If the dry run lets row n claim its type, so does the partial run. */
  lemma ClaimStaysGood(
      db: Db, actual: Progress, dry: Progress, svc: Services, domain: nat, rows: seq<UpdateRow>, n: nat, target: int)
    requires n < |rows| && DistinctIds(rows)
    requires Drift(db, actual.db, svc, domain, rows, n) && Claims(db, actual, dry, domain, rows, n)
    requires FindType(db, domain, target).Some?
    requires Claim(db, domain, target, rows[n].id, dry.reserved).Ok?
    ensures Claim(actual.db, domain, target, rows[n].id, actual.reserved).Ok?
  {
  }

  /** A claim names a processed row's item; in the partial run, one now of the claimed type. */
  ghost predicate ClaimsPlaced(actual: Progress, dry: Progress, domain: nat, rows: seq<UpdateRow>, n: nat)
    requires n <= |rows|
  {
    && (forall t :: t in dry.reserved ==> Processed(rows, n, dry.reserved[t]))
    && (forall t :: t in actual.reserved ==>
          Processed(rows, n, actual.reserved[t]) && InType(actual.db, domain, t, actual.reserved[t]))
  }

  /** A singleton type gained a member only if the dry run claimed it or a former member was processed. */
  ghost predicate GainsExplained(db: Db, actual: Progress, dry: Progress, domain: nat, rows: seq<UpdateRow>, n: nat)
    requires n <= |rows|
  {
    forall t, x :: IsSingletonHere(db, domain, t) && InType(actual.db, domain, t, x) && !InType(db, domain, t, x) ==>
      t in dry.reserved || exists y :: Processed(rows, n, y) && InType(db, domain, t, y)
  }

  lemma ClaimsPlacedStep(
      actual: Progress, dry: Progress, svc: Services, domain: nat, rows: seq<UpdateRow>, n: nat, now: int,
      target: int)
    requires n < |rows| && DistinctIds(rows) && ClaimsPlaced(actual, dry, domain, rows, n)
    requires FindItem(actual.db, domain, rows[n].id).Some? && FindType(actual.db, domain, target).Some?
    requires FindType(dry.db, domain, target).Some?
    requires Admit(actual.db, actual.db, svc, domain, rows[n].id, rows[n].patch.DropEmptyData(), true) == Ok(target)
    requires Admit(dry.db, dry.db, svc, domain, rows[n].id, rows[n].patch.DropEmptyData(), true) == Ok(target)
    ensures ClaimsPlaced(PartialStep(actual, svc, domain, rows[n], n, now), DryStep(dry, svc, domain, rows[n], n),
        domain, rows, n + 1)
  {
  }

  lemma GainsStep(
      db: Db, actual: Progress, dry: Progress, svc: Services, domain: nat, rows: seq<UpdateRow>, n: nat, now: int,
      target: int)
    requires n < |rows| && DistinctIds(rows) && dry.db == db
    requires Drift(db, actual.db, svc, domain, rows, n) && GainsExplained(db, actual, dry, domain, rows, n)
    requires FindItem(db, domain, rows[n].id).Some? && FindItem(actual.db, domain, rows[n].id).Some?
    requires FindType(db, domain, target).Some?
    requires Admit(actual.db, actual.db, svc, domain, rows[n].id, rows[n].patch.DropEmptyData(), true) == Ok(target)
    requires Admit(db, db, svc, domain, rows[n].id, rows[n].patch.DropEmptyData(), true) == Ok(target)
    ensures GainsExplained(db, PartialStep(actual, svc, domain, rows[n], n, now),
        DryStep(dry, svc, domain, rows[n], n), domain, rows, n + 1)
  {
  }

  /** What one more row does to the claims. */
  lemma ClaimsStep(
      db: Db, actual: Progress, dry: Progress, svc: Services, domain: nat, rows: seq<UpdateRow>, n: nat, now: int)
    requires n < |rows| && DistinctIds(rows) && dry.db == db
    requires Drift(db, actual.db, svc, domain, rows, n) && Claims(db, actual, dry, domain, rows, n)
    requires Verdict(actual.db, svc, domain, rows[n]) == Verdict(db, svc, domain, rows[n])
    ensures Claims(db, PartialStep(actual, svc, domain, rows[n], n, now), DryStep(dry, svc, domain, rows[n], n),
        domain, rows, n + 1)
  {
    AdmitUnmoved(db, actual.db, svc, domain, rows, n);
    match Admit(db, db, svc, domain, rows[n].id, rows[n].patch.DropEmptyData(), true)
    case Err(_) =>
      assert forall x :: Processed(rows, n, x) ==> Processed(rows, n + 1, x);
    case Ok(target) =>
      ClaimsPlacedStep(actual, dry, svc, domain, rows, n, now, target);
      GainsStep(db, actual, dry, svc, domain, rows, n, now, target);
  }

  /** One more row: the tables drift only as the row says. */
  lemma DriftStep(db: Db, p: Progress, svc: Services, domain: nat, rows: seq<UpdateRow>, n: nat, now: int)
    requires n < |rows| && DistinctIds(rows) && Drift(db, p.db, svc, domain, rows, n)
    ensures Drift(db, PartialStep(p, svc, domain, rows[n], n, now).db, svc, domain, rows, n + 1)
  {
    var id := rows[n].id;
    assert !Processed(rows, n, id);
    assert forall x :: Processed(rows, n + 1, x) <==> Processed(rows, n, x) || x == id;
    var after := PartialStep(p, svc, domain, rows[n], n, now).db;
    if id in db.items && after.items[id].contentTypeId != db.items[id].contentTypeId {
      TakenRowMoves(db, p, svc, domain, rows, n);
    }
    forall x | x in db.items && after.items[x].contentTypeId != db.items[x].contentTypeId
      ensures exists j :: 0 <= j < n + 1 && rows[j].id == x && Moves(db, svc, domain, rows, j)
    {
      if x != id {
        var j :| 0 <= j < n && rows[j].id == x && Moves(db, svc, domain, rows, j);
      }
    }
  }

  /** A row the partial run takes and that retypes its item is one that may: a seat that was taken has been vacated. */
  lemma TakenRowMoves(db: Db, p: Progress, svc: Services, domain: nat, rows: seq<UpdateRow>, n: nat)
    requires n < |rows| && DistinctIds(rows) && Drift(db, p.db, svc, domain, rows, n)
    requires var patch := rows[n].patch.DropEmptyData();
             CheckUpdate(p.db, p.db, svc, domain, rows[n].id, patch, p.reserved, true).Ok?
    requires rows[n].patch.contentTypeId.Some?
    requires rows[n].id in db.items && rows[n].patch.contentTypeId.value != db.items[rows[n].id].contentTypeId
    ensures Moves(db, svc, domain, rows, n)
  {
    assert !Processed(rows, n, rows[n].id);
    var target := rows[n].patch.contentTypeId.value;
    if IsSingletonHere(db, domain, target) {
      forall y | InType(db, domain, target, y) && y != rows[n].id
        ensures exists i :: 0 <= i < n && rows[i].id == y && Moves(db, svc, domain, rows, i)
      {
        assert y in p.db.items.Keys && !InType(p.db, domain, target, y);
      }
    }
  }

  ghost predicate Agreeing(
      db: Db, actual: Progress, dry: Progress, svc: Services, domain: nat, rows: seq<UpdateRow>, n: nat)
    requires n <= |rows|
  {
    && dry.db == db && Foretold(dry.rows, actual.rows) && |dry.rows| == n
    && Drift(db, actual.db, svc, domain, rows, n)
    && Claims(db, actual, dry, domain, rows, n)
  }

  /** The report of row n, given that the runs agreed so far. */
  lemma RowForetold(
      db: Db, actual: Progress, dry: Progress, svc: Services, domain: nat, rows: seq<UpdateRow>, n: nat, now: int)
    requires n < |rows| && DistinctIds(rows) && Agreeing(db, actual, dry, svc, domain, rows, n)
    requires Verdict(actual.db, svc, domain, rows[n]) == Verdict(db, svc, domain, rows[n])
    ensures Foretold(DryStep(dry, svc, domain, rows[n], n).rows, PartialStep(actual, svc, domain, rows[n], n, now).rows)
    ensures |DryStep(dry, svc, domain, rows[n], n).rows| == n + 1
  {
    var row := rows[n];
    AdmitUnmoved(db, actual.db, svc, domain, rows, n);
    match Admit(db, db, svc, domain, row.id, row.patch.DropEmptyData(), true)
    case Err(_) =>
    case Ok(target) =>
      if Claim(db, domain, target, row.id, dry.reserved).Ok? {
        ClaimStaysGood(db, actual, dry, svc, domain, rows, n, target);
      }
  }

  lemma AgreeingStep(
      db: Db, actual: Progress, dry: Progress, svc: Services, domain: nat, rows: seq<UpdateRow>, n: nat, now: int)
    requires n < |rows| && DistinctIds(rows) && Agreeing(db, actual, dry, svc, domain, rows, n)
    requires Verdict(actual.db, svc, domain, rows[n]) == Verdict(db, svc, domain, rows[n])
    ensures Agreeing(db, PartialStep(actual, svc, domain, rows[n], n, now), DryStep(dry, svc, domain, rows[n], n),
                     svc, domain, rows, n + 1)
  {
    RowForetold(db, actual, dry, svc, domain, rows, n, now);
    DriftStep(db, actual, svc, domain, rows, n, now);
    ClaimsStep(db, actual, dry, svc, domain, rows, n, now);
  }

  lemma DryRunForetells(
      db: Db, svc: Services, domain: nat, rows: seq<UpdateRow>, clock: nat -> int, n: nat)
    requires n <= |rows| && DistinctIds(rows)
    requires forall k :: 0 <= k < n ==> SteadyVerdict(db, svc, domain, rows, clock, k)
    ensures AgreeingAt(db, svc, domain, rows, clock, n)
  {
    var agreeing := (k: nat) => k <= |rows| && AgreeingAt(db, svc, domain, rows, clock, k);
    forall k: nat | k < n ensures Steps(agreeing, k) {
      if agreeing(k) {
        assert SteadyVerdict(db, svc, domain, rows, clock, k);
        AgreeingStep(db, UpdatePartialAfter(db, svc, domain, rows, clock, k),
                     UpdateDryAfter(db, svc, domain, rows, k), svc, domain, rows, k, clock(k));
      }
    }
    Climb(agreeing, n);
  }

  ghost predicate AgreeingAt(db: Db, svc: Services, domain: nat, rows: seq<UpdateRow>, clock: nat -> int, n: nat)
    requires n <= |rows|
  {
    Agreeing(db, UpdatePartialAfter(db, svc, domain, rows, clock, n), UpdateDryAfter(db, svc, domain, rows, n),
             svc, domain, rows, n)
  }

  ghost predicate Drifted(db: Db, svc: Services, domain: nat, rows: seq<UpdateRow>, clock: nat -> int, n: nat)
    requires n <= |rows|
  {
    Drift(db, UpdatePartialAfter(db, svc, domain, rows, clock, n).db, svc, domain, rows, n)
  }

  lemma DriftedStep(db: Db, svc: Services, domain: nat, rows: seq<UpdateRow>, clock: nat -> int, n: nat)
    requires n < |rows| && DistinctIds(rows) && Drifted(db, svc, domain, rows, clock, n)
    ensures Drifted(db, svc, domain, rows, clock, n + 1)
  {
    DriftStep(db, UpdatePartialAfter(db, svc, domain, rows, clock, n), svc, domain, rows, n, clock(n));
  }

  lemma DriftAlways(db: Db, svc: Services, domain: nat, rows: seq<UpdateRow>, clock: nat -> int, n: nat)
    requires n <= |rows| && DistinctIds(rows)
    ensures Drifted(db, svc, domain, rows, clock, n)
  {
    var drifted := (k: nat) => k <= |rows| && Drifted(db, svc, domain, rows, clock, k);
    forall k: nat | k < n ensures Steps(drifted, k) {
      if drifted(k) {
        DriftedStep(db, svc, domain, rows, clock, k);
      }
    }
    Climb(drifted, n);
  }

  /**
   A batch of which the dry run foretells the partial run: ok rows are kept to, and only singleton
   complaints may be withdrawn.
   */
  ghost predicate DryRunSound(db: Db, svc: Services, domain: nat, rows: seq<UpdateRow>, clock: nat -> int) {
    var (same, dry) := UpdateBatch(db, svc, domain, rows, false, true, clock);
    var (after, actual) := UpdateBatch(db, svc, domain, rows, false, false, clock);
    && same == db && dry.Rows? && actual.Rows?
    && |dry.rows| == |actual.rows| == |rows|
    && forall k :: 0 <= k < |rows| ==>
         && (dry.rows[k].RowOk? ==> actual.rows[k] == dry.rows[k])
         && (dry.rows[k] != actual.rows[k] ==> dry.rows[k] == RowErr(k, SingletonExists))
  }

  /**
   Dry-run soundness of a batch update with distinct ids whose rows do not refer to items the
   batch may retype before them: a row the dry run reports ok is ok in the partial run with the
   same id and version, and the runs differ only in rows the dry run rejects for a singleton.
   */
  lemma DryRunSoundness(db: Db, svc: Services, domain: nat, rows: seq<UpdateRow>, clock: nat -> int)
    requires |rows| > 0 && DistinctIds(rows) && NoStaleReferences(db, svc, domain, rows)
    ensures DryRunSound(db, svc, domain, rows, clock)
  {
    forall k | 0 <= k < |rows| ensures SteadyVerdict(db, svc, domain, rows, clock, k) {
      DriftAlways(db, svc, domain, rows, clock, k);
      VerdictUnmoved(db, UpdatePartialAfter(db, svc, domain, rows, clock, k).db, svc, domain, rows, k);
    }
    DryRunForetells(db, svc, domain, rows, clock, |rows|);
  }

  // ---------------------------------------------------------------- the condition is exact

  /** The dry run finds no singleton type taken when the schemas accept everything. */
  ghost predicate NoSingletonConflict(db: Db, svc: Services, domain: nat, rows: seq<UpdateRow>) {
    var dry := UpdateDryAfter(db, Unchecked(svc), domain, rows, |rows|).rows;
    |dry| == |rows| && forall k :: 0 <= k < |rows| ==> dry[k] != RowErr(k, SingletonExists)
  }

  /** The schemas reject only a document that finds the item of row j already of its new type. */
  function Strict(svc: Services, row: UpdateRow, doc: string, text: string): Services
    requires row.patch.contentTypeId.Some?
  {
    svc.(validate := RejectMoved(doc, text, row.id, row.patch.contentTypeId.value))
  }

  lemma {:induction false} DryRunsEqual(db: Db, a: Services, b: Services, domain: nat, rows: seq<UpdateRow>, n: nat)
    requires n <= |rows| && a.governed == b.governed
    requires forall schema, data :: SchemaFailure(db, a, domain, schema, data) == None
    requires forall schema, data :: SchemaFailure(db, b, domain, schema, data) == None
    ensures UpdateDryAfter(db, a, domain, rows, n) == UpdateDryAfter(db, b, domain, rows, n)
  {
    if n > 0 {
      DryRunsEqual(db, a, b, domain, rows, n - 1);
      var row := rows[n - 1];
      assert Admit(db, db, a, domain, row.id, row.patch.DropEmptyData(), true)
          == Admit(db, db, b, domain, row.id, row.patch.DropEmptyData(), true);
    }
  }

  /** With distinct ids, an item is written by its own row only. */
  lemma {:induction false} WrittenOnce(
      db: Db, svc: Services, domain: nat, rows: seq<UpdateRow>, clock: nat -> int, k: nat, n: nat)
    requires k < n <= |rows| && DistinctIds(rows)
    requires rows[k].id in UpdatePartialAfter(db, svc, domain, rows, clock, k + 1).db.items
    ensures rows[k].id in UpdatePartialAfter(db, svc, domain, rows, clock, n).db.items
    ensures UpdatePartialAfter(db, svc, domain, rows, clock, n).db.items[rows[k].id]
         == UpdatePartialAfter(db, svc, domain, rows, clock, k + 1).db.items[rows[k].id]
  {
    if n > k + 1 {
      WrittenOnce(db, svc, domain, rows, clock, k, n - 1);
    }
  }

  lemma PartialStepsAlike(
      p: Progress, a: Services, b: Services, domain: nat, row: UpdateRow, k: nat, now: int)
    requires a.governed == b.governed
    requires forall schema, data :: SchemaFailure(p.db, a, domain, schema, data) == None
    requires forall schema, data :: SchemaFailure(p.db, b, domain, schema, data) == None
    ensures PartialStep(p, a, domain, row, k, now) == PartialStep(p, b, domain, row, k, now)
  {
    assert Admit(p.db, p.db, a, domain, row.id, row.patch.DropEmptyData(), true)
        == Admit(p.db, p.db, b, domain, row.id, row.patch.DropEmptyData(), true);
  }

  /** Up to row j nothing has moved its item, so the strict schemas reject nothing. */
  lemma {:induction false} SameBeforeMove(
      db: Db, svc: Services, domain: nat, rows: seq<UpdateRow>, clock: nat -> int, j: nat, doc: string, text: string,
          n: nat)
    requires n <= j + 1 <= |rows| && DistinctIds(rows) && Retypes(db, svc, domain, rows[j])
    ensures UpdatePartialAfter(db, Strict(svc, rows[j], doc, text), domain, rows, clock, n)
         == UpdatePartialAfter(db, Unchecked(svc), domain, rows, clock, n)
  {
    if n > 0 {
      SameBeforeMove(db, svc, domain, rows, clock, j, doc, text, n - 1);
      var p := UpdatePartialAfter(db, Unchecked(svc), domain, rows, clock, n - 1);
      DriftAlways(db, Unchecked(svc), domain, rows, clock, n - 1);
      assert !Processed(rows, n - 1, rows[j].id);
      NothingRejected(p.db, svc, domain, doc, text, rows[j].id, rows[j].patch.contentTypeId.value);
      PartialStepsAlike(p, Strict(svc, rows[j], doc, text), Unchecked(svc), domain, rows[n - 1], n - 1, clock(n - 1));
    }
  }

  /** When the schemas accept everything and no singleton is taken, a row that may be written is. */
  lemma WritableIsWritten(
      db: Db, svc: Services, domain: nat, rows: seq<UpdateRow>, clock: nat -> int, j: nat)
    requires j < |rows| && DistinctIds(rows) && NoSingletonConflict(db, svc, domain, rows)
    requires Writable(db, svc, domain, rows[j])
    ensures var before := UpdatePartialAfter(db, Unchecked(svc), domain, rows, clock, j).db;
            var after := UpdatePartialAfter(db, Unchecked(svc), domain, rows, clock, j + 1).db;
            && rows[j].id in before.items && rows[j].id in after.items
            && after.items[rows[j].id] == Patched(before.items[rows[j].id], rows[j].patch.DropEmptyData(), clock(j))
  {
    var lax := Unchecked(svc);
    forall k | 0 <= k < |rows| ensures SteadyVerdict(db, lax, domain, rows, clock, k) {
    }
    DryRunForetells(db, lax, domain, rows, clock, |rows|);
    ReportsStay(db, lax, domain, rows, clock, j, |rows|);
    DryReportsStay(db, lax, domain, rows, j, |rows|);
    DryRowCount(db, lax, domain, rows, j);
    PartialRowCount(db, lax, domain, rows, clock, j);
    assert UpdateDryAfter(db, lax, domain, rows, j + 1).rows[j].RowOk?;
    assert UpdatePartialAfter(db, lax, domain, rows, clock, j + 1).rows[j].RowOk?;
  }

  lemma BadVerdictFailsRow(
      db: Db, svc: Services, domain: nat, rows: seq<UpdateRow>, clock: nat -> int, n: nat, reason: string)
    requires n < |rows|
    requires Verdict(UpdatePartialAfter(db, svc, domain, rows, clock, n).db, svc, domain, rows[n]) == Some(reason)
    ensures |UpdatePartialAfter(db, svc, domain, rows, clock, |rows|).rows| == |rows|
    ensures UpdatePartialAfter(db, svc, domain, rows, clock, |rows|).rows[n] == RowErr(n, Invalid(reason))
  {
    PartialRowCount(db, svc, domain, rows, clock, n);
    ReportsStay(db, svc, domain, rows, clock, n, |rows|);
  }

  /** The dry run's report on a row without a schema complaint. */
  lemma GoodVerdictIsNoComplaint(db: Db, svc: Services, domain: nat, rows: seq<UpdateRow>, n: nat)
    requires n < |rows| && Verdict(db, svc, domain, rows[n]) == None
    ensures |UpdateDryAfter(db, svc, domain, rows, |rows|).rows| == |rows|
    ensures var report := UpdateDryAfter(db, svc, domain, rows, |rows|).rows[n];
            report.RowErr? ==> !report.code.Invalid?
  {
    DryRowCount(db, svc, domain, rows, n);
    DryReportsStay(db, svc, domain, rows, n, |rows|);
  }

  /** When row i is reached, the item of row j has its new type, and the strict schemas mind. */
  lemma StaleVerdict(
      db: Db, svc: Services, domain: nat, rows: seq<UpdateRow>, clock: nat -> int, j: nat, i: nat, doc: string,
          text: string)
    requires DistinctIds(rows) && NoSingletonConflict(db, svc, domain, rows)
    requires j < i < |rows| && Retypes(db, svc, domain, rows[j]) && rows[j].id in ReferencedBy(db, svc, domain, rows[i])
    requires var patch := rows[i].patch.DropEmptyData();
             var existing := db.items[rows[i].id];
             doc == db.types[patch.contentTypeId.Or(existing.contentTypeId)].schema
                 && text == patch.data.Or(existing.data)
    ensures var strict := Strict(svc, rows[j], doc, text);
            (Verdict(UpdatePartialAfter(db, strict, domain, rows, clock, i).db, strict, domain, rows[i])
                == Some("stale"))
  {
    var moved := rows[j].id;
    var strict := Strict(svc, rows[j], doc, text);
    SameBeforeMove(db, svc, domain, rows, clock, j, doc, text, j + 1);
    WritableIsWritten(db, svc, domain, rows, clock, j);
    WrittenOnce(db, strict, domain, rows, clock, j, i);
    DriftAlways(db, strict, domain, rows, clock, i);
    var now := UpdatePartialAfter(db, strict, domain, rows, clock, i).db;
    assert !Processed(rows, i, rows[i].id);
    assert rows[i].id in now.items.Keys && now.items[rows[i].id] == db.items[rows[i].id];
    assert now.items[moved].domain == db.items[moved].domain;
  }

  /** A row that refers to an item retyped before it can be judged wrongly by the dry run. */
  lemma StaleReferenceMisleads(
      db: Db, svc: Services, domain: nat, rows: seq<UpdateRow>, clock: nat -> int, j: nat, i: nat)
    requires DistinctIds(rows) && NoSingletonConflict(db, svc, domain, rows)
    requires j < i < |rows| && Retypes(db, svc, domain, rows[j]) && rows[j].id in ReferencedBy(db, svc, domain, rows[i])
    ensures exists v: Validator :: !DryRunSound(db, svc.(validate := v), domain, rows, clock)
  {
    var patch := rows[i].patch.DropEmptyData();
    var existing := db.items[rows[i].id];
    var doc := db.types[patch.contentTypeId.Or(existing.contentTypeId)].schema;
    var text := patch.data.Or(existing.data);
    var strict := Strict(svc, rows[j], doc, text);
    StaleVerdict(db, svc, domain, rows, clock, j, i, doc, text);
    BadVerdictFailsRow(db, strict, domain, rows, clock, i, "stale");
    NothingRejected(db, svc, domain, doc, text, rows[j].id, rows[j].patch.contentTypeId.value);
    GoodVerdictIsNoComplaint(db, strict, domain, rows, i);
    DryRunsEqual(db, strict, Unchecked(svc), domain, rows, |rows|);
    assert !DryRunSound(db, svc.(validate := RejectMoved(doc, text, rows[j].id, rows[j].patch.contentTypeId.value)),
                        domain, rows, clock);
  }

  lemma {:induction false} DryReportsStay(db: Db, svc: Services, domain: nat, rows: seq<UpdateRow>, k: nat, n: nat)
    requires k < n <= |rows|
    ensures |UpdateDryAfter(db, svc, domain, rows, n).rows| == n
    ensures |UpdateDryAfter(db, svc, domain, rows, k + 1).rows| == k + 1
    ensures UpdateDryAfter(db, svc, domain, rows, n).rows[k] == UpdateDryAfter(db, svc, domain, rows, k + 1).rows[k]
  {
    DryRowCount(db, svc, domain, rows, k + 1);
    if n > k + 1 {
      DryReportsStay(db, svc, domain, rows, k, n - 1);
    }
  }

  lemma {:induction false} DryRowCount(db: Db, svc: Services, domain: nat, rows: seq<UpdateRow>, n: nat)
    requires n <= |rows|
    ensures |UpdateDryAfter(db, svc, domain, rows, n).rows| == n
  {
    if n > 0 {
      DryRowCount(db, svc, domain, rows, n - 1);
    }
  }

  /** The condition does not depend on what the schemas demand. */
  lemma ConditionIgnoresSchemas(db: Db, svc: Services, v: Validator, domain: nat, rows: seq<UpdateRow>)
    requires NoStaleReferences(db, svc, domain, rows)
    ensures NoStaleReferences(db, svc.(validate := v), domain, rows)
  {
    var other := svc.(validate := v);
    assert forall row :: ReferencedBy(db, other, domain, row) == ReferencedBy(db, svc, domain, row);
    forall j: nat | j < |rows| ensures Moves(db, other, domain, rows, j) == Moves(db, svc, domain, rows, j) {
      MovesIgnoresSchemas(db, svc, v, domain, rows, j);
    }
  }

  lemma {:induction false} MovesIgnoresSchemas(
      db: Db, svc: Services, v: Validator, domain: nat, rows: seq<UpdateRow>, j: nat)
    requires j < |rows|
    ensures Moves(db, svc.(validate := v), domain, rows, j) == Moves(db, svc, domain, rows, j)
    decreases j
  {
    forall i: nat | i < j
      ensures Moves(db, svc.(validate := v), domain, rows, i) == Moves(db, svc, domain, rows, i)
    {
      MovesIgnoresSchemas(db, svc, v, domain, rows, i);
    }
  }

  /**
   For a batch with distinct ids and no conflict over singletons, the condition is exact: the dry
   run foretells the partial run whatever the schemas demand if and only if no row that sets
   anything refers to an item that an earlier row, free to be written and to take its seat, retypes.
   */
  lemma StaleReferencesDecideSoundness(db: Db, svc: Services, domain: nat, rows: seq<UpdateRow>, clock: nat -> int)
    requires |rows| > 0 && DistinctIds(rows) && NoSingletonConflict(db, svc, domain, rows)
    ensures NoStaleReferences(db, svc, domain, rows)
       <==> forall v: Validator :: DryRunSound(db, svc.(validate := v), domain, rows, clock)
  {
    if NoStaleReferences(db, svc, domain, rows) {
      forall v: Validator ensures DryRunSound(db, svc.(validate := v), domain, rows, clock) {
        ConditionIgnoresSchemas(db, svc, v, domain, rows);
        DryRunSoundness(db, svc.(validate := v), domain, rows, clock);
      }
    } else {
      var i, j :| 0 <= j < i < |rows| && Moves(db, svc, domain, rows, j)
                  && rows[j].id in ReferencedBy(db, svc, domain, rows[i]);
      StaleReferenceMisleads(db, svc, domain, rows, clock, j, i);
    }
  }

  /** An instance: the dry run accepts a reference to an item that the batch itself gives a forbidden type. */
  lemma DryRunTrustsOldReferences(clock: nat -> int)
    ensures UpdateBatch(TwoPages(), Particular(), 0, MOVE_THEN_REFER, false, true, clock).1
         == Rows(false, [RowOk(0, 10, 2), RowOk(1, 11, 2)])
    ensures UpdateBatch(TwoPages(), Particular(), 0, MOVE_THEN_REFER, false, false, clock).1
         == Rows(false, [RowOk(0, 10, 2), RowErr(1, Invalid("mismatch"))])
  {
    PartialRefusesReference(clock);
    assert UpdateDryAfter(TwoPages(), Particular(), 0, MOVE_THEN_REFER, 1).rows == [RowOk(0, 10, 2)];
  }

  /**
   The pessimism is real: one item leaves a singleton type and then another enters it. The dry
   run, which looks at the stored tables only, rejects the second row; the partial run accepts it.
   */
  lemma SingletonVacatedUnderWay(clock: nat -> int)
    ensures var svc := Services((s, d) => {}, AcceptAll(), (d, t) => false);
            var db := Db(map[1 := ContentType(0, "home", Singleton, ""), 2 := ContentType(0, "page", Collection, "")],
                         map[10 := Item(0, 1, "a", "draft", 1, 0), 11 := Item(0, 2, "b", "draft", 1, 0)], [], 3, 12);
            var rows := [UpdateRow(10, Patch(Some(2), None, None)), UpdateRow(11, Patch(Some(1), None, None))];
            && UpdateBatch(db, svc, 0, rows, false, true, clock).1
                == Rows(false, [RowOk(0, 10, 2), RowErr(1, SingletonExists)])
            && UpdateBatch(db, svc, 0, rows, false, false, clock).1 == Rows(false, [RowOk(0, 10, 2), RowOk(1, 11, 2)])
  {
    var svc := Services((s, d) => {}, AcceptAll(), (d, t) => false);
    var db := Db(map[1 := ContentType(0, "home", Singleton, ""), 2 := ContentType(0, "page", Collection, "")],
                 map[10 := Item(0, 1, "a", "draft", 1, 0), 11 := Item(0, 2, "b", "draft", 1, 0)], [], 3, 12);
    var rows := [UpdateRow(10, Patch(Some(2), None, None)), UpdateRow(11, Patch(Some(1), None, None))];
    assert UpdateDryAfter(db, svc, 0, rows, 1).rows == [RowOk(0, 10, 2)];
    assert InType(db, 0, 1, 10);
    assert Occupied(db, 0, 1, Some(11));
    assert UpdateDryAfter(db, svc, 0, rows, 2).rows == [RowOk(0, 10, 2), RowErr(1, SingletonExists)];
    var moved := UpdatePartialAfter(db, svc, 0, rows, clock, 1);
    assert moved.rows == [RowOk(0, 10, 2)];
    assert moved.db.items[10].contentTypeId == 2;
    assert !Occupied(moved.db, 0, 1, Some(11));
    assert UpdatePartialAfter(db, svc, 0, rows, clock, 2).rows == [RowOk(0, 10, 2), RowOk(1, 11, 2)];
  }
}
