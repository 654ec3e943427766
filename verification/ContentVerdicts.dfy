/**
 Which partial batch updates leave an item's status alone, as far as the batch and the stored
 tables tell before the call: whatever the schema service answers, a status stays exactly if no
 row can change it.
 */
module ContentVerdicts {
  import opened Outcomes
  import opened ContentDb
  import opened ContentBatches
  import opened ContentDryRun
  import opened ContentWorkflows

  /** The row sets another status for the item than it has. */
  predicate SetsOther(db: Db, row: UpdateRow, id: int)
    requires id in db.items
  {
    row.id == id && row.patch.status.Some? && row.patch.status.value != db.items[id].status
  }

  // ---------------------------------------------------------------- batches that name each item once

  lemma TakenIsWritable(
      db: Db, svc: Services, v: Validator, domain: nat, rows: seq<UpdateRow>, clock: nat -> int, k: nat)
    requires k < |rows| && DistinctIds(rows) && ReportedOk(db, svc.(validate := v), domain, rows, clock, k)
    ensures Writable(db, svc, domain, rows[k])
  {
    var other := svc.(validate := v);
    DriftAlways(db, other, domain, rows, clock, k);
    PartialRowCount(db, other, domain, rows, clock, k);
    AdmittedThere(db, UpdatePartialAfter(db, other, domain, rows, clock, k), svc, v, domain, rows, k, clock(k));
  }

  lemma AdmittedThere(
      db: Db, p: Progress, svc: Services, v: Validator, domain: nat, rows: seq<UpdateRow>, k: nat, now: int)
    requires k < |rows| && DistinctIds(rows) && Drift(db, p.db, svc.(validate := v), domain, rows, k) && |p.rows| == k
    requires PartialStep(p, svc.(validate := v), domain, rows[k], k, now).rows[k].RowOk?
    ensures Writable(db, svc, domain, rows[k])
  {
    assert !Processed(rows, k, rows[k].id);
    assert rows[k].id in p.db.items <==> rows[k].id in db.items;
  }

  /**
   With distinct ids and no singleton taken: an item keeps its status, whatever the schemas
   demand, if and only if no row that the tables and workflows let through sets another.
   */
  lemma DistinctStatusExactly(
      db: Db, svc: Services, domain: nat, rows: seq<UpdateRow>, clock: nat -> int, id: int)
    requires id in db.items && DistinctIds(rows) && NoSingletonConflict(db, svc, domain, rows)
    ensures (forall v: Validator ::
               HasOldStatus(db, UpdatePartialAfter(db, svc.(validate := v), domain, rows, clock, |rows|).db, id))
       <==> forall k :: 0 <= k < |rows| ==> !(Writable(db, svc, domain, rows[k]) && SetsOther(db, rows[k], id))
  {
    if k: nat :| k < |rows| && Writable(db, svc, domain, rows[k]) && SetsOther(db, rows[k], id) {
      WritableIsWritten(db, svc, domain, rows, clock, k);
      WrittenOnce(db, Unchecked(svc), domain, rows, clock, k, |rows|);
      var after := UpdatePartialAfter(db, svc.(validate := AcceptAll()), domain, rows, clock, |rows|).db;
      assert !HasOldStatus(db, after, id);
    } else {
      forall v: Validator
        ensures HasOldStatus(db, UpdatePartialAfter(db, svc.(validate := v), domain, rows, clock, |rows|).db, id)
      {
        DistinctStatusStays(db, svc, v, domain, rows, clock, id);
      }
    }
  }

  lemma DistinctStatusStays(
      db: Db, svc: Services, v: Validator, domain: nat, rows: seq<UpdateRow>, clock: nat -> int, id: int)
    requires id in db.items && DistinctIds(rows)
    requires forall k :: 0 <= k < |rows| ==> !(Writable(db, svc, domain, rows[k]) && SetsOther(db, rows[k], id))
    ensures HasOldStatus(db, UpdatePartialAfter(db, svc.(validate := v), domain, rows, clock, |rows|).db, id)
  {
    var other := svc.(validate := v);
    WrittenByOwnRow(db, other, domain, rows, clock, id, |rows|);
    forall k | 0 <= k < |rows| && rows[k].id == id && ReportedOk(db, other, domain, rows, clock, k)
      ensures !SetsOther(db, rows[k], id)
    {
      TakenIsWritable(db, svc, v, domain, rows, clock, k);
    }
  }

  // ---------------------------------------------------------------- batches that name items repeatedly

  /** A partial run during which the schema service may change its mind from row to row. */
  function RunUnder(
      db: Db, svc: Services, verdicts: nat -> Validator, domain: nat, rows: seq<UpdateRow>, clock: nat -> int, n: nat)
    : Progress
    requires n <= |rows|
  {
    if n == 0 then Progress(db, map[], []) else
    PartialStep(RunUnder(db, svc, verdicts, domain, rows, clock, n - 1),
                svc.(validate := verdicts(n - 1)), domain, rows[n - 1], n - 1, clock(n - 1))
  }

  lemma {:induction false} SteadyRun(
      db: Db, svc: Services, v: Validator, domain: nat, rows: seq<UpdateRow>, clock: nat -> int, n: nat)
    requires n <= |rows|
    ensures RunUnder(db, svc, k => v, domain, rows, clock, n)
         == UpdatePartialAfter(db, svc.(validate := v), domain, rows, clock, n)
  {
    if n > 0 {
      SteadyRun(db, svc, v, domain, rows, clock, n - 1);
    }
  }

  lemma {:induction false} SameUntil(
      db: Db, svc: Services, a: nat -> Validator, b: nat -> Validator, domain: nat, rows: seq<UpdateRow>,
      clock: nat -> int, n: nat)
    requires n <= |rows| && forall k: nat :: k < n ==> a(k) == b(k)
    ensures RunUnder(db, svc, a, domain, rows, clock, n) == RunUnder(db, svc, b, domain, rows, clock, n)
  {
    if n > 0 {
      SameUntil(db, svc, a, b, domain, rows, clock, n - 1);
    }
  }

  /** Tables and workflows let the row through for the item at type t, as long as it has its old status. */
  predicate MayPass(db: Db, svc: Services, domain: nat, row: UpdateRow, id: int, t: int)
    requires id in db.items
  {
    var patch := row.patch.DropEmptyData();
    var target := patch.contentTypeId.Or(t);
    && row.id == id && db.items[id].domain == domain && !patch.Empty()
    && FindType(db, domain, target).Some?
    && !(svc.governed(domain, target) && patch.ChangesStatusOf(db.items[id]))
  }

  /** The types the item may have got to before row k. */
  function TypesBefore(db: Db, svc: Services, domain: nat, rows: seq<UpdateRow>, id: int, k: nat): set<int>
    requires k <= |rows| && id in db.items
  {
    if k == 0 then {db.items[id].contentTypeId} else
    var before, row := TypesBefore(db, svc, domain, rows, id, k - 1), rows[k - 1];
    before + set t | t in before && MayPass(db, svc, domain, row, id, t) :: row.patch.contentTypeId.Or(t)
  }

  /** Row k sets another status and may pass at one of these types. */
  predicate Endangers(db: Db, svc: Services, domain: nat, rows: seq<UpdateRow>, id: int, k: nat)
    requires k < |rows| && id in db.items
  {
    SetsOther(db, rows[k], id)
    && exists t :: t in TypesBefore(db, svc, domain, rows, id, k) && MayPass(db, svc, domain, rows[k], id, t)
  }

  /** No row for the item aims at a singleton type that another item occupies. */
  ghost predicate SeatsFree(db: Db, svc: Services, domain: nat, rows: seq<UpdateRow>, id: int)
    requires id in db.items
  {
    forall k, t :: 0 <= k < |rows| && rows[k].id == id && t in TypesBefore(db, svc, domain, rows, id, k) ==>
      var target := rows[k].patch.contentTypeId.Or(t);
      !(IsSingletonHere(db, domain, target) && Occupied(db, domain, target, Some(id)))
  }

  /** What every such run keeps for an item that no row endangers. */
  ghost predicate Unharmed(db: Db, p: Progress, svc: Services, domain: nat, rows: seq<UpdateRow>, id: int, k: nat)
    requires k <= |rows| && id in db.items
  {
    && p.db.types == db.types && HasOldStatus(db, p.db, id)
    && p.db.items[id].domain == db.items[id].domain
    && p.db.items[id].contentTypeId in TypesBefore(db, svc, domain, rows, id, k)
  }

  lemma UnharmedStep(
      db: Db, p: Progress, svc: Services, v: Validator, domain: nat, rows: seq<UpdateRow>, id: int, k: nat, now: int)
    requires k < |rows| && id in db.items && Unharmed(db, p, svc, domain, rows, id, k)
    requires !Endangers(db, svc, domain, rows, id, k)
    ensures Unharmed(db, PartialStep(p, svc.(validate := v), domain, rows[k], k, now), svc, domain, rows, id, k + 1)
  {
    var t := p.db.items[id].contentTypeId;
    if rows[k].id == id && MayPass(db, svc, domain, rows[k], id, t) {
      assert rows[k].patch.contentTypeId.Or(t) in TypesBefore(db, svc, domain, rows, id, k + 1);
    }
  }

  lemma {:induction false} UnharmedRun(
      db: Db, svc: Services, verdicts: nat -> Validator, domain: nat, rows: seq<UpdateRow>, clock: nat -> int,
      id: int, n: nat)
    requires n <= |rows| && id in db.items && forall k :: 0 <= k < n ==> !Endangers(db, svc, domain, rows, id, k)
    ensures Unharmed(db, RunUnder(db, svc, verdicts, domain, rows, clock, n), svc, domain, rows, id, n)
  {
    if n > 0 {
      UnharmedRun(db, svc, verdicts, domain, rows, clock, id, n - 1);
      UnharmedStep(db, RunUnder(db, svc, verdicts, domain, rows, clock, n - 1), svc, verdicts(n - 1),
                   domain, rows, id, n - 1, clock(n - 1));
    }
  }

  function RejectAll(): Validator {
    (schema: string, data: string, domain: nat, types: map<int, int>) => Some("rejected")
  }

  /** Only the item has been touched: it is at type t with its old status. */
  ghost predicate GotTo(db: Db, p: Progress, id: int, t: int, k: nat)
    requires id in db.items
  {
    && p.db.types == db.types && HasOldStatus(db, p.db, id) && |p.rows| == k
    && p.db.items == db.items[id := p.db.items[id]]
    && p.db.items[id].domain == db.items[id].domain && p.db.items[id].contentTypeId == t
    && forall s :: s in p.reserved ==> p.reserved[s] == id
  }

  lemma RejectedStep(db: Db, p: Progress, svc: Services, domain: nat, row: UpdateRow, id: int, t: int, k: nat, now: int)
    requires id in db.items && GotTo(db, p, id, t, k)
    ensures GotTo(db, PartialStep(p, svc.(validate := RejectAll()), domain, row, k, now), id, t, k + 1)
  {
  }

  /** A row that may pass does when the schemas accept it. */
  lemma AcceptedRow(db: Db, p: Progress, svc: Services, domain: nat, row: UpdateRow, id: int, t: int, k: nat, now: int)
    requires id in db.items && GotTo(db, p, id, t, k) && MayPass(db, svc, domain, row, id, t)
    requires var target := row.patch.contentTypeId.Or(t);
             !(IsSingletonHere(db, domain, target) && Occupied(db, domain, target, Some(id)))
    ensures CheckUpdate(p.db, p.db, Unchecked(svc), domain, id, row.patch.DropEmptyData(), p.reserved, true).Ok?
  {
    var target := row.patch.contentTypeId.Or(t);
    assert Admit(p.db, p.db, Unchecked(svc), domain, id, row.patch.DropEmptyData(), true) == Ok(target);
    if Occupied(p.db, domain, target, Some(id)) {
      var y :| y in p.db.items && InType(p.db, domain, target, y) && Some(id) != Some(y);
      assert InType(db, domain, target, y);
    }
  }

  lemma AcceptedStep(db: Db, p: Progress, svc: Services, domain: nat, row: UpdateRow, id: int, t: int, k: nat, now: int)
    requires id in db.items && GotTo(db, p, id, t, k) && MayPass(db, svc, domain, row, id, t)
    requires !SetsOther(db, row, id)
    requires var target := row.patch.contentTypeId.Or(t);
             !(IsSingletonHere(db, domain, target) && Occupied(db, domain, target, Some(id)))
    ensures GotTo(db, PartialStep(p, Unchecked(svc), domain, row, k, now), id, row.patch.contentTypeId.Or(t), k + 1)
  {
    AcceptedRow(db, p, svc, domain, row, id, t, k, now);
  }

  function Then(verdicts: nat -> Validator, k: nat, v: Validator): nat -> Validator {
    (i: nat) => if i < k then verdicts(i) else v
  }

  /** Every type the item may have got to, it does get to under suitable verdicts. */
  lemma {:induction false} TypesAreReached(
      db: Db, svc: Services, domain: nat, rows: seq<UpdateRow>, clock: nat -> int, id: int, k: nat, t: int)
      returns (verdicts: nat -> Validator)
    requires k <= |rows| && id in db.items && SeatsFree(db, svc, domain, rows, id)
    requires forall j :: 0 <= j < k ==> !Endangers(db, svc, domain, rows, id, j)
    requires t in TypesBefore(db, svc, domain, rows, id, k)
    ensures GotTo(db, RunUnder(db, svc, verdicts, domain, rows, clock, k), id, t, k)
  {
    if k == 0 {
      verdicts := i => AcceptAll();
      assert db.items == db.items[id := db.items[id]];
    } else {
      var before, row := TypesBefore(db, svc, domain, rows, id, k - 1), rows[k - 1];
      if t in before {
        var earlier := TypesAreReached(db, svc, domain, rows, clock, id, k - 1, t);
        verdicts := Then(earlier, k - 1, RejectAll());
        SameUntil(db, svc, verdicts, earlier, domain, rows, clock, k - 1);
        RejectedStep(db, RunUnder(db, svc, earlier, domain, rows, clock, k - 1),
                     svc, domain, row, id, t, k - 1, clock(k - 1));
      } else {
        var from :| from in before && MayPass(db, svc, domain, row, id, from) && row.patch.contentTypeId.Or(from) == t;
        var earlier := TypesAreReached(db, svc, domain, rows, clock, id, k - 1, from);
        verdicts := Then(earlier, k - 1, AcceptAll());
        SameUntil(db, svc, verdicts, earlier, domain, rows, clock, k - 1);
        assert !Endangers(db, svc, domain, rows, id, k - 1);
        AcceptedStep(db, RunUnder(db, svc, earlier, domain, rows, clock, k - 1),
                     svc, domain, row, id, from, k - 1, clock(k - 1));
      }
    }
  }

  /** The first row that endangers the status changes it under suitable verdicts. */
  lemma {:induction false} DangerIsReal(
      db: Db, svc: Services, domain: nat, rows: seq<UpdateRow>, clock: nat -> int, id: int, k: nat)
      returns (verdicts: nat -> Validator, m: nat)
    requires k < |rows| && id in db.items && SeatsFree(db, svc, domain, rows, id)
    requires Endangers(db, svc, domain, rows, id, k)
    ensures m <= |rows| && !HasOldStatus(db, RunUnder(db, svc, verdicts, domain, rows, clock, m).db, id)
    decreases k
  {
    if j: nat :| j < k && Endangers(db, svc, domain, rows, id, j) {
      verdicts, m := DangerIsReal(db, svc, domain, rows, clock, id, j);
    } else {
      var t :| t in TypesBefore(db, svc, domain, rows, id, k) && MayPass(db, svc, domain, rows[k], id, t);
      var earlier := TypesAreReached(db, svc, domain, rows, clock, id, k, t);
      verdicts, m := Then(earlier, k, AcceptAll()), k + 1;
      SameUntil(db, svc, verdicts, earlier, domain, rows, clock, k);
      AcceptedRow(db, RunUnder(db, svc, earlier, domain, rows, clock, k), svc, domain, rows[k], id, t, k, clock(k));
    }
  }

  /** The item has its old status after every row of every such run. */
  ghost predicate SafeStatus(db: Db, svc: Services, domain: nat, rows: seq<UpdateRow>, clock: nat -> int, id: int) {
    forall verdicts: nat -> Validator, m: nat :: m <= |rows| ==>
      HasOldStatus(db, RunUnder(db, svc, verdicts, domain, rows, clock, m).db, id)
  }

  /**
   Repeated ids included, and no seat the item is sent to taken: its status stays throughout,
   whatever the schema service answers to each row, if and only if no row endangers it.
   */
  lemma StatusSafeExactly(db: Db, svc: Services, domain: nat, rows: seq<UpdateRow>, clock: nat -> int, id: int)
    requires id in db.items && SeatsFree(db, svc, domain, rows, id)
    ensures SafeStatus(db, svc, domain, rows, clock, id)
       <==> forall k :: 0 <= k < |rows| ==> !Endangers(db, svc, domain, rows, id, k)
  {
    if k: nat :| k < |rows| && Endangers(db, svc, domain, rows, id, k) {
      var verdicts, m := DangerIsReal(db, svc, domain, rows, clock, id, k);
    } else {
      forall verdicts: nat -> Validator, m: nat | m <= |rows|
        ensures HasOldStatus(db, RunUnder(db, svc, verdicts, domain, rows, clock, m).db, id)
      {
        UnharmedRun(db, svc, verdicts, domain, rows, clock, id, m);
      }
    }
  }

  // ---------------------------------------------------------------- a condition on sight

  /** The stored type, and the types that earlier rows set for the item. */
  function AimedTypes(db: Db, rows: seq<UpdateRow>, id: int, k: nat): set<int>
    requires k <= |rows| && id in db.items
  {
    {db.items[id].contentTypeId}
    + set j | 0 <= j < k && rows[j].id == id && rows[j].patch.contentTypeId.Some? :: rows[j].patch.contentTypeId.value
  }

  lemma {:induction false} TypesAreAimedAt(db: Db, svc: Services, domain: nat, rows: seq<UpdateRow>, id: int, k: nat)
    requires k <= |rows| && id in db.items
    ensures TypesBefore(db, svc, domain, rows, id, k) <= AimedTypes(db, rows, id, k)
  {
    if k > 0 {
      TypesAreAimedAt(db, svc, domain, rows, id, k - 1);
    }
  }

  /** A row that sets another status sets a non-empty one, and aims only at types with a workflow. */
  predicate Cautious(db: Db, svc: Services, domain: nat, rows: seq<UpdateRow>, id: int, k: nat)
    requires k < |rows| && id in db.items
  {
    SetsOther(db, rows[k], id) ==>
      && rows[k].patch.status.value != ""
      && forall t :: t in AimedTypes(db, rows, id, k) ==> svc.governed(domain, rows[k].patch.contentTypeId.Or(t))
  }

  /** Cautious batches leave the status alone, whatever the schemas demand and whoever takes which seat. */
  lemma CautiousBatchKeepsStatus(
      db: Db, svc: Services, v: Validator, domain: nat, rows: seq<UpdateRow>, clock: nat -> int, id: int, n: nat)
    requires n <= |rows| && id in db.items && forall k :: 0 <= k < n ==> Cautious(db, svc, domain, rows, id, k)
    ensures HasOldStatus(db, UpdatePartialAfter(db, svc.(validate := v), domain, rows, clock, n).db, id)
  {
    forall k | 0 <= k < n ensures !Endangers(db, svc, domain, rows, id, k) {
      assert Cautious(db, svc, domain, rows, id, k);
      TypesAreAimedAt(db, svc, domain, rows, id, k);
    }
    UnharmedRun(db, svc, k => v, domain, rows, clock, id, n);
    SteadyRun(db, svc, v, domain, rows, clock, n);
  }
}
