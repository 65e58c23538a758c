/**
 * The external record store as the system sees it: the error table
 * (`function_errors`, or the table named by `ERROR_LOG_TABLE`) keyed by
 * the id the store assigns, and the append-only `function_runs` table.
 * Each method is one REST call of the store's surface: insert returning
 * the new id, patch of `status` by id list, delete by id list, delete by
 * predicate, and the two filtered reads. A resolved error is a deleted row:
 * there is no stored "resolved" status.
 */
module Store {
  import opened Wrappers
  import opened Text

  datatype Status = Pending | Notified | Retrying

  /** One row of the error table (`id` is the map key). */
  datatype ErrorRow = ErrorRow(
    projectName: string,
    functionName: string,
    errorMessage: string,
    errorStack: Option<string>,
    occurredAt: int,
    businessDay: Option<string>,
    status: Status,
    retriedAt: Option<int>)

  /** A row as a read returns it, together with its id. */
  datatype Entry = Entry(id: int, row: ErrorRow)

  /** One row of `function_runs`. */
  datatype RunRow = RunRow(
    projectName: string,
    functionName: string,
    businessDay: string,
    recordCount: int,
    ranAt: int)

  /** `business_day=eq.day&status=in.(pending,notified)`: a row still awaiting the operator's decision. */
  predicate AwaitingAction(r: ErrorRow, day: string) {
    r.businessDay == Some(day) && (r.status == Pending || r.status == Notified)
  }

  function Ids(r: seq<Entry>): (ids: seq<int>)
    ensures |ids| == |r|
    ensures forall i :: 0 <= i < |r| ==> ids[i] == r[i].id
  {
    if r == [] then [] else [r[0].id] + Ids(r[1..])
  }

  lemma {:induction false} IdsAppend(r: seq<Entry>, e: Entry)
    ensures Ids(r + [e]) == Ids(r) + [e.id]
  {
    if r != [] {
      assert (r + [e])[1..] == r[1..] + [e];
      IdsAppend(r[1..], e);
    }
  }

  predicate DistinctIds(r: seq<Entry>) {
    forall i, j :: 0 <= i < j < |r| ==> r[i].id != r[j].id
  }

  /**
   * `order=business_day.asc,occurred_at.asc`: `a` comes strictly before `b`.
   * A null business day sorts last, as it does in ascending order in the store.
   */
  predicate RowBefore(a: ErrorRow, b: ErrorRow) {
    match (a.businessDay, b.businessDay)
    case (Some(x), Some(y)) => LexLess(x, y) || (x == y && a.occurredAt < b.occurredAt)
    case (Some(_), None) => true
    case (None, Some(_)) => false
    case (None, None) => a.occurredAt < b.occurredAt
  }

  lemma RowBeforeIrreflexive(a: ErrorRow)
    ensures !RowBefore(a, a)
  {
    if a.businessDay.Some? {
      LexLessIrreflexive(a.businessDay.value);
    }
  }

  lemma RowBeforeTransitive(a: ErrorRow, b: ErrorRow, c: ErrorRow)
    ensures RowBefore(a, b) && RowBefore(b, c) ==> RowBefore(a, c)
  {
    if RowBefore(a, b) && RowBefore(b, c) && a.businessDay.Some? && b.businessDay.Some? && c.businessDay.Some? {
      var x, y, z := a.businessDay.value, b.businessDay.value, c.businessDay.value;
      if LexLess(x, y) && LexLess(y, z) {
        LexLessTransitive(x, y, z);
      }
    }
  }

  /** No row is listed after a row it should precede. */
  predicate SortedByDay(r: seq<Entry>) {
    forall i, j :: 0 <= i < j < |r| ==> !RowBefore(r[j].row, r[i].row)
  }

  /** Places `e` in a sorted list, after every row it does not precede. */
  function InsertSorted(e: Entry, r: seq<Entry>): (res: seq<Entry>)
    ensures |res| == |r| + 1
    ensures forall x :: x in res <==> x == e || x in r
  {
    if r == [] then [e]
    else if RowBefore(e.row, r[0].row) then [e] + r
    else [r[0]] + InsertSorted(e, r[1..])
  }

  /** Inserting into a sorted list keeps it sorted. */
  lemma {:induction false} InsertSortedKeepsOrder(e: Entry, r: seq<Entry>)
    requires SortedByDay(r)
    ensures SortedByDay(InsertSorted(e, r))
  {
    var res := InsertSorted(e, r);
    if r == [] {
    } else if RowBefore(e.row, r[0].row) {
      forall j | 1 <= j < |res| ensures !RowBefore(res[j].row, e.row) {
        assert res[j] == r[j - 1];
        RowBeforeTransitive(res[j].row, e.row, r[0].row);
        RowBeforeIrreflexive(r[0].row);
      }
    } else {
      var tail := InsertSorted(e, r[1..]);
      InsertSortedKeepsOrder(e, r[1..]);
      forall j | 0 < j < |res| ensures !RowBefore(res[j].row, r[0].row) {
        assert res[j] == tail[j - 1];
        assert tail[j - 1] in tail;
        if tail[j - 1] != e {
          var k :| 0 <= k < |r[1..]| && r[1..][k] == tail[j - 1];
          assert r[k + 1] == tail[j - 1];
        }
      }
      forall i, j | 0 < i < j < |res| ensures !RowBefore(res[j].row, res[i].row) {
        assert res[i] == tail[i - 1] && res[j] == tail[j - 1];
      }
    }
  }

  /** A row whose id is not listed can go in front of distinct rows. */
  lemma ConsDistinct(x: Entry, r: seq<Entry>)
    requires DistinctIds(r) && x.id !in Ids(r)
    ensures DistinctIds([x] + r)
  {
    forall j | 0 <= j < |r| ensures r[j].id != x.id {
      assert Ids(r)[j] == r[j].id;
    }
  }

  /** Inserting a row whose id is not listed keeps the ids distinct. */
  lemma {:induction false} InsertSortedKeepsIdsDistinct(e: Entry, r: seq<Entry>)
    requires DistinctIds(r) && e.id !in Ids(r)
    ensures DistinctIds(InsertSorted(e, r))
  {
    if r == [] {
    } else if RowBefore(e.row, r[0].row) {
      ConsDistinct(e, r);
    } else {
      assert Ids(r) == [r[0].id] + Ids(r[1..]);
      assert DistinctIds(r[1..]);
      InsertSortedKeepsIdsDistinct(e, r[1..]);
      InsertSortedIds(e, r[1..]);
      assert r[0].id !in Ids(r[1..]) by {
        forall k | 0 <= k < |r[1..]| ensures Ids(r[1..])[k] != r[0].id {
          assert r[1..][k] == r[k + 1];
        }
      }
      ConsDistinct(r[0], InsertSorted(e, r[1..]));
    }
  }

  class Database {
    var errors: map<int, ErrorRow>
    var runs: seq<RunRow>
    var nextId: int

    /** Every stored id was handed out by the store's id sequence. */
    ghost predicate Valid()
      reads this
    {
      1 <= nextId && forall id :: id in errors ==> 1 <= id < nextId
    }

    constructor ()
      ensures Valid() && errors == map[] && runs == []
    {
      errors := map[];
      runs := [];
      nextId := 1;
    }

    /** POST with `Prefer: return=representation`: stores the row under a fresh id and returns it. */
    method InsertError(row: ErrorRow) returns (id: int)
      requires Valid()
      modifies this
      ensures Valid()
      ensures id !in old(errors) && errors == old(errors)[id := row]
      ensures runs == old(runs)
    {
      id := nextId;
      errors := errors[id := row];
      nextId := nextId + 1;
    }

    /** POST to `function_runs`. */
    method AppendRun(row: RunRow)
      requires Valid()
      modifies this
      ensures Valid()
      ensures runs == old(runs) + [row] && errors == old(errors)
    {
      runs := runs + [row];
    }

    /** PATCH `?id=in.(ids)` with a new status: the listed rows that exist change status, nothing else changes. */
    method SetStatus(ids: seq<int>, s: Status)
      requires Valid()
      modifies this
      ensures Valid() && runs == old(runs) && nextId == old(nextId)
      ensures errors.Keys == old(errors).Keys
      ensures forall id :: id in errors && id in ids ==> errors[id] == old(errors)[id].(status := s)
      ensures forall id :: id in errors && id !in ids ==> errors[id] == old(errors)[id]
    {
      errors := map id | id in errors :: if id in ids then errors[id].(status := s) else errors[id];
    }

    /**
     * PATCH `?id=in.(ids)` with a new status and `retried_at`: the listed
     * rows that exist change status and take the stamp `at`, nothing else
     * changes.
     */
    method SetStatusStamped(ids: seq<int>, s: Status, at: int)
      requires Valid()
      modifies this
      ensures Valid() && runs == old(runs) && nextId == old(nextId)
      ensures errors.Keys == old(errors).Keys
      ensures forall id :: id in errors && id in ids ==> errors[id] == old(errors)[id].(status := s, retriedAt := Some(at))
      ensures forall id :: id in errors && id !in ids ==> errors[id] == old(errors)[id]
    {
      errors := map id | id in errors :: if id in ids then errors[id].(status := s, retriedAt := Some(at)) else errors[id];
    }

    /** DELETE `?id=in.(ids)`. */
    method DeleteIds(ids: seq<int>)
      requires Valid()
      modifies this
      ensures Valid() && runs == old(runs) && nextId == old(nextId)
      ensures forall id :: id in errors <==> id in old(errors) && id !in ids
      ensures forall id :: id in errors ==> errors[id] == old(errors)[id]
    {
      errors := map id | id in errors && id !in ids :: errors[id];
    }

    /** DELETE `?business_day=eq.day&status=in.(pending,notified)`. */
    method DeleteAwaiting(day: string)
      requires Valid()
      modifies this
      ensures Valid() && runs == old(runs) && nextId == old(nextId)
      ensures forall id :: id in errors <==> id in old(errors) && !AwaitingAction(old(errors)[id], day)
      ensures forall id :: id in errors ==> errors[id] == old(errors)[id]
    {
      errors := map id | id in errors && !AwaitingAction(errors[id], day) :: errors[id];
    }

    /** GET `?business_day=eq.day&status=in.(pending,notified)`: every such row once, in no promised order. */
    method SelectAwaiting(day: string) returns (r: seq<Entry>)
      requires Valid()
      ensures DistinctIds(r)
      ensures forall e :: e in r ==> e.id in errors && errors[e.id] == e.row && AwaitingAction(e.row, day)
      ensures forall id :: id in errors && AwaitingAction(errors[id], day) ==> id in Ids(r)
    {
      r := [];
      for id := 1 to nextId
        invariant DistinctIds(r)
        invariant forall e :: e in r ==> e.id in errors && e.id < id && errors[e.id] == e.row && AwaitingAction(e.row, day)
        invariant forall k :: k in errors && k < id && AwaitingAction(errors[k], day) ==> k in Ids(r)
      {
        if id in errors && AwaitingAction(errors[id], day) {
          AppendFresh(r, Entry(id, errors[id]));
          r := r + [Entry(id, errors[id])];
        }
      }
    }

    /** GET `?status=eq.pending&order=business_day.asc,occurred_at.asc`. */
    method SelectPending() returns (r: seq<Entry>)
      requires Valid()
      ensures DistinctIds(r) && SortedByDay(r)
      ensures forall e :: e in r ==> e.id in errors && errors[e.id] == e.row && e.row.status == Pending
      ensures forall id :: id in errors && errors[id].status == Pending ==> id in Ids(r)
    {
      r := [];
      for id := 1 to nextId
        invariant DistinctIds(r) && SortedByDay(r)
        invariant forall e :: e in r ==> e.id in errors && e.id < id && errors[e.id] == e.row && e.row.status == Pending
        invariant forall k :: k in errors && k < id && errors[k].status == Pending ==> k in Ids(r)
      {
        if id in errors && errors[id].status == Pending {
          var e := Entry(id, errors[id]);
          assert e.id !in Ids(r);
          var r' := InsertSorted(e, r);
          InsertSortedKeepsOrder(e, r);
          InsertSortedKeepsIdsDistinct(e, r);
          InsertSortedIds(e, r);
          r := r';
        }
      }
    }
  }

  /** Appending a row whose id is above every listed id keeps the ids distinct and lists its id. */
  lemma AppendFresh(r: seq<Entry>, e: Entry)
    requires DistinctIds(r) && forall x :: x in r ==> x.id < e.id
    ensures DistinctIds(r + [e])
    ensures forall id :: id in Ids(r + [e]) <==> id in Ids(r) || id == e.id
  {
    IdsAppend(r, e);
    forall i, j | 0 <= i < j < |r| + 1 ensures (r + [e])[i].id != (r + [e])[j].id {
      if j == |r| {
        assert (r + [e])[i] == r[i] && r[i] in r;
      }
    }
  }

  /** Inserting a row lists its id besides the ids already listed. */
  lemma InsertSortedIds(e: Entry, r: seq<Entry>)
    ensures forall x :: x in Ids(InsertSorted(e, r)) <==> x == e.id || x in Ids(r)
  {
    var r' := InsertSorted(e, r);
    forall x | x in Ids(r') ensures x == e.id || x in Ids(r) {
      var i :| 0 <= i < |r'| && Ids(r')[i] == x;
      if r'[i] != e {
        var k := IndexIn(r'[i], r);
        assert Ids(r)[k] == x;
      }
    }
    forall x | x in Ids(r) ensures x in Ids(r') {
      var i :| 0 <= i < |r| && Ids(r)[i] == x;
      var k := IndexIn(r[i], r');
      assert Ids(r')[k] == x;
    }
    assert Ids(r')[IndexIn(e, r')] == e.id;
  }

  function IndexIn(e: Entry, r: seq<Entry>): (k: nat)
    requires e in r
    ensures k < |r| && r[k] == e
  {
    if r[0] == e then 0 else 1 + IndexIn(e, r[1..])
  }
}
