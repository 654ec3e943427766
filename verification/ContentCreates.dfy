/**
 Batch creates: the atomic mode against the partial mode. Both check the same, but the transaction
 of the atomic mode hides the items it has created from the schema service.
 */
module ContentCreates {
  import opened Outcomes
  import opened ContentDb
  import opened ContentBatches
  import opened ContentModes

  /** Item ids come from the sequence. */
  ghost predicate IdsSound(db: Db) {
    forall id :: id in db.items ==> id < db.nextItemId
  }

  /** The items that a new item's data refers to. */
  function NewReferences(db: Db, svc: Services, domain: nat, item: NewItem): set<int> {
    match FindType(db, domain, item.contentTypeId)
    case None => {}
    case Some(ty) => svc.references(ty.schema, item.data)
  }

  /** Row k does not refer to an id that the sequence would give to the rows before it. */
  predicate LooksBack(db: Db, svc: Services, domain: nat, items: seq<NewItem>, k: nat)
    requires k < |items|
  {
    forall x :: x in NewReferences(db, svc, domain, items[k]) ==> !(db.nextItemId <= x < db.nextItemId + k)
  }

  /**
   The atomic mode succeeds exactly when the partial mode reports every row ok, with the same
   reports and tables; otherwise it fails at the partial mode's first failing row, with its code,
   and leaves nothing but a gap in the id sequence.
   */
  ghost predicate CreatesAgree(db: Db, svc: Services, domain: nat, items: seq<NewItem>, clock: nat -> int) {
    var (atomicDb, atomic) := CreateBatch(db, svc, domain, items, true, false, clock);
    var (partialDb, partial) := CreateBatch(db, svc, domain, items, false, false, clock);
    && partial.Rows?
    && (AllOk(partial.rows) ==> atomic == Rows(true, partial.rows) && atomicDb == partialDb)
    && (!AllOk(partial.rows) ==>
          && atomic.AtomicFailed? && FirstBadRow(partial.rows, atomic.index, atomic.code)
          && atomicDb == db.(nextItemId := db.nextItemId + atomic.index))
  }

  /** After k rows, all created: the new items carry the next k ids of the sequence. */
  ghost predicate Created(db: Db, p: Progress, domain: nat, k: nat) {
    && p.db.types == db.types && p.db.nextItemId == db.nextItemId + k && |p.rows| == k && AllOk(p.rows)
    && (forall x :: x in p.db.items <==> x in db.items || db.nextItemId <= x < db.nextItemId + k)
    && (forall x :: x in db.items ==> p.db.items[x] == db.items[x])
    && (forall x :: db.nextItemId <= x < db.nextItemId + k ==> p.db.items[x].domain == domain)
  }

  ghost predicate CreateMirrored(
      db: Db, atomic: Result<Progress, Abort>, partial: Progress, domain: nat, n: nat)
  {
    match atomic
    case Ok(p) => p == partial && Created(db, p, domain, n)
    case Err(a) => FirstBadRow(partial.rows, a.index, a.code) && a.nextItemId == db.nextItemId + a.index
  }

  ghost predicate CreateMirroredAt(
      db: Db, svc: Services, domain: nat, items: seq<NewItem>, clock: nat -> int, n: nat)
    requires n <= |items|
  {
    CreateMirrored(db, CreateAtomicAfter(db, svc, domain, items, clock, n),
                   CreatePartialAfter(db, svc, domain, items, clock, n), domain, n)
  }

  // ---------------------------------------------------------------- one row

  /** The schema service answers the same whether or not it sees the rows created before. */
  lemma SameVerdict(db: Db, p: Progress, svc: Services, domain: nat, items: seq<NewItem>, k: nat, schema: string)
    requires k < |items| && IdsSound(db) && Created(db, p, domain, k) && LooksBack(db, svc, domain, items, k)
    requires FindType(db, domain, items[k].contentTypeId).Some?
    requires schema == FindType(db, domain, items[k].contentTypeId).value.schema
    ensures SchemaFailure(p.db, svc, domain, schema, items[k].data)
         == SchemaFailure(db, svc, domain, schema, items[k].data)
  {
    var refs := svc.references(schema, items[k].data);
    var left, right := ReferencedTypes(p.db, domain, refs), ReferencedTypes(db, domain, refs);
    assert refs == NewReferences(db, svc, domain, items[k]);
    forall x ensures x in left <==> x in right {
      assert x in refs ==> !(db.nextItemId <= x < db.nextItemId + k);
    }
    forall x | x in right ensures left[x] == right[x] {
      assert x in db.items;
    }
    assert left == right;
  }

  lemma SameCheck(db: Db, p: Progress, svc: Services, domain: nat, items: seq<NewItem>, k: nat)
    requires k < |items| && IdsSound(db) && Created(db, p, domain, k) && LooksBack(db, svc, domain, items, k)
    ensures CheckCreate(p.db, p.db, svc, domain, items[k], p.reserved, k, true)
         == CheckCreate(p.db, db, svc, domain, items[k], p.reserved, k, true)
  {
    var ty := FindType(db, domain, items[k].contentTypeId);
    if ty.Some? {
      SameVerdict(db, p, svc, domain, items, k, ty.value.schema);
    }
  }

  lemma CreatedOne(db: Db, p: Progress, domain: nat, item: NewItem, reserved: map<int, int>, k: nat, now: int)
    requires IdsSound(db) && Created(db, p, domain, k)
    ensures Created(db, CreateOne(p, domain, item, reserved, k, now), domain, k + 1)
  {
  }

  lemma BadRowFollows(p: Progress, k: nat, code: Code)
    requires |p.rows| == k && AllOk(p.rows)
    ensures FirstBadRow(p.rows + [RowErr(k, code)], k, code)
  {
    assert (p.rows + [RowErr(k, code)])[..k] == p.rows;
  }

  lemma CreateMirroredStep(
      db: Db, svc: Services, domain: nat, items: seq<NewItem>, clock: nat -> int, k: nat)
    requires k < |items| && IdsSound(db) && LooksBack(db, svc, domain, items, k)
    requires CreateMirroredAt(db, svc, domain, items, clock, k)
    ensures CreateMirroredAt(db, svc, domain, items, clock, k + 1)
  {
    var p := CreatePartialAfter(db, svc, domain, items, clock, k);
    match CreateAtomicAfter(db, svc, domain, items, clock, k)
    case Ok(_) =>
      SameCheck(db, p, svc, domain, items, k);
      match CheckCreate(p.db, db, svc, domain, items[k], p.reserved, k, true) {
        case Err(code) => BadRowFollows(p, k, code);
        case Ok(reserved) => CreatedOne(db, p, domain, items[k], reserved, k, clock(k));
      }
    case Err(a) =>
      var next := CreatePartialAfter(db, svc, domain, items, clock, k + 1);
      FirstBadRowExtends(p.rows, next.rows[|p.rows|], a.index, a.code);
  }

  lemma CreateMirroredUpTo(
      db: Db, svc: Services, domain: nat, items: seq<NewItem>, clock: nat -> int, n: nat)
    requires n <= |items| && IdsSound(db) && forall k :: 0 <= k < n ==> LooksBack(db, svc, domain, items, k)
    ensures CreateMirroredAt(db, svc, domain, items, clock, n)
  {
    var mirrored := (k: nat) => k <= |items| && CreateMirroredAt(db, svc, domain, items, clock, k);
    forall k: nat | k < n ensures Steps(mirrored, k) {
      if mirrored(k) {
        CreateMirroredStep(db, svc, domain, items, clock, k);
      }
    }
    Climb(mirrored, n);
  }

  /** Where no row refers to an id its batch is about to create, the modes agree. */
  lemma AtomicCreateAgreesWithPartial(db: Db, svc: Services, domain: nat, items: seq<NewItem>, clock: nat -> int)
    requires |items| > 0 && IdsSound(db) && forall k :: 0 <= k < |items| ==> LooksBack(db, svc, domain, items, k)
    ensures CreatesAgree(db, svc, domain, items, clock)
  {
    CreateMirroredUpTo(db, svc, domain, items, clock, |items|);
  }

  // ---------------------------------------------------------------- the condition is exact

  /** Accepts everything but one document that finds the item `x` there. */
  function RejectPresent(doc: string, text: string, x: int): Validator {
    (schema: string, data: string, domain: nat, types: map<int, int>) =>
      if schema == doc && data == text && x in types then Some("present") else None
  }

  lemma AtomicChecksAlike(
      p: Progress, seen: Db, a: Services, b: Services, domain: nat, item: NewItem, k: nat)
    requires a.governed == b.governed
    requires forall schema, data :: SchemaFailure(seen, a, domain, schema, data) == None
    requires forall schema, data :: SchemaFailure(seen, b, domain, schema, data) == None
    ensures CheckCreate(p.db, seen, a, domain, item, p.reserved, k, true)
         == CheckCreate(p.db, seen, b, domain, item, p.reserved, k, true)
  {
  }

  lemma {:induction false} AtomicCreatesAlike(
      db: Db, a: Services, b: Services, domain: nat, items: seq<NewItem>, clock: nat -> int, n: nat)
    requires n <= |items| && a.governed == b.governed
    requires forall schema, data :: SchemaFailure(db, a, domain, schema, data) == None
    requires forall schema, data :: SchemaFailure(db, b, domain, schema, data) == None
    ensures CreateAtomicAfter(db, a, domain, items, clock, n) == CreateAtomicAfter(db, b, domain, items, clock, n)
  {
    if n > 0 {
      AtomicCreatesAlike(db, a, b, domain, items, clock, n - 1);
      var before := CreateAtomicAfter(db, a, domain, items, clock, n - 1);
      if before.Ok? {
        AtomicChecksAlike(before.value, db, a, b, domain, items[n - 1], n - 1);
      }
    }
  }

  lemma {:induction false} CreateIsHereditary(
      db: Db, svc: Services, domain: nat, items: seq<NewItem>, clock: nat -> int, m: nat, n: nat)
    requires m <= n <= |items| && CreateAtomicAfter(db, svc, domain, items, clock, n).Ok?
    ensures CreateAtomicAfter(db, svc, domain, items, clock, m).Ok?
  {
    if m < n {
      CreateIsHereditary(db, svc, domain, items, clock, m, n - 1);
    }
  }

  lemma {:induction false} CreateReportsStay(
      db: Db, svc: Services, domain: nat, items: seq<NewItem>, clock: nat -> int, k: nat, n: nat)
    requires k < n <= |items|
    requires |CreatePartialAfter(db, svc, domain, items, clock, k).rows| == k
    ensures |CreatePartialAfter(db, svc, domain, items, clock, n).rows| == n
    ensures CreatePartialAfter(db, svc, domain, items, clock, n).rows[k]
         == CreatePartialAfter(db, svc, domain, items, clock, k + 1).rows[k]
  {
    if n > k + 1 {
      CreateReportsStay(db, svc, domain, items, clock, k, n - 1);
    }
  }

  /** The partial run sees the new item that the row refers to, and the schema minds. */
  lemma PresentIsRejected(db: Db, p: Progress, svc: Services, domain: nat, item: NewItem, k: nat, x: int)
    requires Created(db, p, domain, k) && FindType(db, domain, item.contentTypeId).Some?
    requires x in NewReferences(db, svc, domain, item) && db.nextItemId <= x < db.nextItemId + k
    ensures var doc := FindType(db, domain, item.contentTypeId).value.schema;
            var strict := svc.(validate := RejectPresent(doc, item.data, x));
            (CheckCreate(p.db, p.db, strict, domain, item, p.reserved, k, true) == Err(Invalid("present")))
  {
    assert x in p.db.items;
  }

  /** The first row that refers to an id its batch is about to create sets the modes apart, should the schemas mind. */
  lemma ForwardReferenceDivides(
      db: Db, svc: Services, domain: nat, items: seq<NewItem>, clock: nat -> int, k: nat) returns (v: Validator)
    requires k < |items| && IdsSound(db) && !LooksBack(db, svc, domain, items, k)
    requires forall j :: 0 <= j < k ==> LooksBack(db, svc, domain, items, j)
    requires CreateAtomicAfter(db, Unchecked(svc), domain, items, clock, |items|).Ok?
    ensures !CreatesAgree(db, svc.(validate := v), domain, items, clock)
  {
    var x :| x in NewReferences(db, svc, domain, items[k]) && db.nextItemId <= x < db.nextItemId + k;
    v := RejectPresent(FindType(db, domain, items[k].contentTypeId).value.schema, items[k].data, x);
    var strict := svc.(validate := v);
    assert x !in db.items;
    AtomicCreatesAlike(db, Unchecked(svc), strict, domain, items, clock, |items|);
    CreateIsHereditary(db, strict, domain, items, clock, k, |items|);
    forall j | 0 <= j < k ensures LooksBack(db, strict, domain, items, j) {
      assert LooksBack(db, svc, domain, items, j);
      assert NewReferences(db, strict, domain, items[j]) == NewReferences(db, svc, domain, items[j]);
    }
    CreateMirroredUpTo(db, strict, domain, items, clock, k);
    var p := CreatePartialAfter(db, strict, domain, items, clock, k);
    PresentIsRejected(db, p, svc, domain, items[k], k, x);
    CreateReportsStay(db, strict, domain, items, clock, k, |items|);
  }

  lemma {:induction false} ForwardReferenceIsFound(
      db: Db, svc: Services, domain: nat, items: seq<NewItem>, clock: nat -> int, k: nat) returns (v: Validator)
    requires k < |items| && IdsSound(db) && !LooksBack(db, svc, domain, items, k)
    requires CreateAtomicAfter(db, Unchecked(svc), domain, items, clock, |items|).Ok?
    ensures !CreatesAgree(db, svc.(validate := v), domain, items, clock)
    decreases k
  {
    if j: nat :| j < k && !LooksBack(db, svc, domain, items, j) {
      v := ForwardReferenceIsFound(db, svc, domain, items, clock, j);
    } else {
      v := ForwardReferenceDivides(db, svc, domain, items, clock, k);
    }
  }

  /**
   For a batch that the atomic mode accepts when the schemas accept everything, the condition is
   exact: the modes agree whatever the schemas demand if and only if no row refers to an id that
   the rows before it are about to get.
   */
  lemma AtomicCreateAgreesExactly(db: Db, svc: Services, domain: nat, items: seq<NewItem>, clock: nat -> int)
    requires |items| > 0 && IdsSound(db)
    requires CreateBatch(db, Unchecked(svc), domain, items, true, false, clock).1.Rows?
    ensures (forall v: Validator :: CreatesAgree(db, svc.(validate := v), domain, items, clock))
       <==> forall k :: 0 <= k < |items| ==> LooksBack(db, svc, domain, items, k)
  {
    if k: nat :| k < |items| && !LooksBack(db, svc, domain, items, k) {
      var v := ForwardReferenceIsFound(db, svc, domain, items, clock, k);
    } else {
      forall v: Validator ensures CreatesAgree(db, svc.(validate := v), domain, items, clock) {
        var other := svc.(validate := v);
        forall k | 0 <= k < |items| ensures LooksBack(db, other, domain, items, k) {
          assert LooksBack(db, svc, domain, items, k);
          assert NewReferences(db, other, domain, items[k]) == NewReferences(db, svc, domain, items[k]);
        }
        AtomicCreateAgreesWithPartial(db, other, domain, items, clock);
      }
    }
  }

  /** The data `see 1` refers to item 1, which must be there. */
  function Demanding(): Services {
    Services((s: string, d: string) => if d == "see 1" then {1} else {},
             (schema: string, data: string, domain: nat, types: map<int, int>) =>
               if data == "see 1" && 1 !in types then Some("missing") else None,
             (d, t) => false)
  }

  /** An instance: the second row refers to the item the first creates, which only the partial mode sees. */
  lemma AtomicMissesNewItem(clock: nat -> int)
    ensures var db := Db(map[1 := ContentType(0, "page", Collection, "")], map[], [], 2, 1);
            var items := [NewItem(1, "first", None), NewItem(1, "see 1", None)];
            && CreateBatch(db, Demanding(), 0, items, true, false, clock).1 == AtomicFailed(1, Invalid("missing"))
            && CreateBatch(db, Demanding(), 0, items, false, false, clock).1
               == Rows(false, [RowOk(0, 1, 1), RowOk(1, 2, 1)])
  {
    var db := Db(map[1 := ContentType(0, "page", Collection, "")], map[], [], 2, 1);
    var items := [NewItem(1, "first", None), NewItem(1, "see 1", None)];
    var first := CreatePartialAfter(db, Demanding(), 0, items, clock, 1);
    assert first.rows == [RowOk(0, 1, 1)] && first.db.items[1].domain == 0;
    assert CreateAtomicAfter(db, Demanding(), 0, items, clock, 1) == Ok(first);
  }
}
