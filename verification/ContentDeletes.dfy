/** Batch deletes: the atomic mode against the partial mode, and the dry run against the partial run. */
module ContentDeletes {
  import opened Outcomes
  import opened ContentDb

  predicate AllDeleted(rows: seq<DeleteRow>) {
    forall k :: 0 <= k < |rows| ==> rows[k].Deleted?
  }

  ghost predicate FirstMissing(rows: seq<DeleteRow>, index: nat, code: Code) {
    index < |rows| && rows[index] == NotDeleted(index, code) && AllDeleted(rows[..index])
  }

  /** The atomic outcome read off the partial reports. */
  ghost predicate Mirrors(atomic: Result<(Db, seq<DeleteRow>), (nat, Code)>, partial: (Db, seq<DeleteRow>)) {
    match atomic
    case Ok(done) => done == partial && AllDeleted(partial.1)
    case Err((index, code)) => FirstMissing(partial.1, index, code)
  }

  lemma FirstMissingExtends(rows: seq<DeleteRow>, row: DeleteRow, index: nat, code: Code)
    requires FirstMissing(rows, index, code)
    ensures FirstMissing(rows + [row], index, code)
  {
    assert (rows + [row])[..index] == rows[..index];
  }

  lemma {:induction false} MirroredUpTo(db: Db, domain: nat, ids: seq<int>, n: nat)
    requires n <= |ids|
    ensures Mirrors(DeleteAtomicAfter(db, domain, ids, n), DeleteRowsAfter(db, domain, ids, false, n))
    ensures |DeleteRowsAfter(db, domain, ids, false, n).1| == n
  {
    if n > 0 {
      MirroredUpTo(db, domain, ids, n - 1);
      var rows, next := DeleteRowsAfter(db, domain, ids, false, n - 1).1, DeleteRowsAfter(db, domain, ids, false, n).1;
      assert next == rows + [next[n - 1]] && next[..n - 1] == rows;
      match DeleteAtomicAfter(db, domain, ids, n - 1)
      case Ok(_) =>
      case Err((index, code)) => FirstMissingExtends(rows, next[n - 1], index, code);
    }
  }

  /**
   The atomic mode succeeds exactly when the partial mode deletes every row, with the same reports
   and tables; otherwise it changes nothing and names the first row the partial mode does not find.
   */
  lemma AtomicDeleteAgreesWithPartial(db: Db, domain: nat, ids: seq<int>)
    requires |ids| > 0
    ensures var (atomicDb, atomic) := DeleteBatch(db, domain, ids, true, false);
            var (partialDb, partial) := DeleteBatch(db, domain, ids, false, false);
            && partial.DeleteRows?
            && (AllDeleted(partial.rows) ==> atomic == DeleteRows(true, partial.rows) && atomicDb == partialDb)
            && (!AllDeleted(partial.rows) ==>
                  atomic.DeleteFailed? && atomicDb == db && FirstMissing(partial.rows, atomic.index, atomic.code))
  {
    MirroredUpTo(db, domain, ids, |ids|);
  }

  /** An item is found after n rows if it was there and none of them has deleted it. */
  lemma {:induction false} FoundAfter(db: Db, domain: nat, ids: seq<int>, n: nat, id: int)
    requires n <= |ids|
    ensures FindItem(DeleteRowsAfter(db, domain, ids, false, n).0, domain, id).Some?
       <==> FindItem(db, domain, id).Some? && id !in ids[..n]
  {
    if n > 0 {
      FoundAfter(db, domain, ids, n - 1, id);
      FoundAfter(db, domain, ids, n - 1, ids[n - 1]);
      assert ids[..n] == ids[..n - 1] + [ids[n - 1]];
    }
  }

  /** What the two runs report about row k. */
  lemma {:induction false} ReportsOfRow(db: Db, domain: nat, ids: seq<int>, k: nat, n: nat)
    requires k < n <= |ids|
    ensures var actual := DeleteRowsAfter(db, domain, ids, false, n).1;
            var dry := DeleteRowsAfter(db, domain, ids, true, n).1;
            && |actual| == |dry| == n
            && actual[k] == (if FindItem(db, domain, ids[k]).Some? && ids[k] !in ids[..k] then Deleted(k, ids[k])
                             else NotDeleted(k, ItemNotFound))
            && dry[k] == (if FindItem(db, domain, ids[k]).Some? then Deleted(k, ids[k])
                          else NotDeleted(k, ItemNotFound))
  {
    RowCounts(db, domain, ids, n - 1);
    if k < n - 1 {
      ReportsOfRow(db, domain, ids, k, n - 1);
    } else {
      FoundAfter(db, domain, ids, k, ids[k]);
    }
  }

  lemma {:induction false} RowCounts(db: Db, domain: nat, ids: seq<int>, n: nat)
    requires n <= |ids|
    ensures |DeleteRowsAfter(db, domain, ids, false, n).1| == n && |DeleteRowsAfter(db, domain, ids, true, n).1| == n
    ensures DeleteRowsAfter(db, domain, ids, true, n).0 == db
  {
    if n > 0 {
      RowCounts(db, domain, ids, n - 1);
    }
  }

  /** The dry run reports what the partial run does if and only if no item that exists is named twice. */
  lemma DeleteDryRunAgreesExactly(db: Db, domain: nat, ids: seq<int>)
    requires |ids| > 0
    ensures DeleteBatch(db, domain, ids, false, true).0 == db
    ensures DeleteBatch(db, domain, ids, false, true).1 == DeleteBatch(db, domain, ids, false, false).1
       <==> forall i, j :: 0 <= i < j < |ids| && ids[i] == ids[j] ==> FindItem(db, domain, ids[i]).None?
  {
    RowCounts(db, domain, ids, |ids|);
    var actual := DeleteRowsAfter(db, domain, ids, false, |ids|).1;
    var dry := DeleteRowsAfter(db, domain, ids, true, |ids|).1;
    if i, j :| 0 <= i < j < |ids| && ids[i] == ids[j] && FindItem(db, domain, ids[i]).Some? {
      ReportsOfRow(db, domain, ids, j, |ids|);
      assert ids[..j][i] == ids[j];
      assert actual[j] != dry[j];
    } else {
      forall k | 0 <= k < |ids| ensures actual[k] == dry[k] {
        ReportsOfRow(db, domain, ids, k, |ids|);
      }
    }
  }

  /** An instance: the second of two equal ids is found in the dry run only. */
  lemma RepeatedDeleteMisleads()
    ensures var db := Db(map[1 := ContentType(0, "page", Collection, "")], map[5 := Item(0, 1, "", "draft", 1, 0)],
                         [], 2, 6);
            && DeleteBatch(db, 0, [5, 5], false, true).1 == DeleteRows(false, [Deleted(0, 5), Deleted(1, 5)])
            && DeleteBatch(db, 0, [5, 5], false, false).1
               == DeleteRows(false, [Deleted(0, 5), NotDeleted(1, ItemNotFound)])
  {
    var db := Db(map[1 := ContentType(0, "page", Collection, "")], map[5 := Item(0, 1, "", "draft", 1, 0)], [], 2, 6);
    ReportsOfRow(db, 0, [5, 5], 0, 2);
    ReportsOfRow(db, 0, [5, 5], 1, 2);
  }
}
