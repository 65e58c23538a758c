/**
 * The interaction endpoint's calls on the error table: the read of the rows
 * still awaiting a decision for one day, the status patch and the delete by
 * id list, and the delete by day. Each call is skipped when `SUPABASE_URL`
 * is unset, and the id-list calls are also skipped for an empty list.
 */
module InteractionStore {
  import opened Wrappers
  import opened Edge
  import opened Store

  /** Every fetched entry is the stored row under its id. */
  ghost predicate RowsOf(fetched: seq<Entry>, rows: map<int, ErrorRow>) {
    forall e :: e in fetched ==> e.id in rows && rows[e.id] == e.row
  }

  /**
   * `fetchErrorsByDate`: the rows of `date` that are pending or notified,
   * each once; the empty list when the store is unset or does not answer.
   */
  method FetchErrorsByDate(db: Database, env: Env, storeResponds: bool, date: string) returns (r: seq<Entry>)
    requires db.Valid()
    ensures DistinctIds(r) && RowsOf(r, db.errors)
    ensures forall e :: e in r ==> AwaitingAction(e.row, date)
    ensures IsSet(env, "SUPABASE_URL") && storeResponds ==>
              forall id :: id in db.errors && AwaitingAction(db.errors[id], date) ==> id in Ids(r)
    ensures !(IsSet(env, "SUPABASE_URL") && storeResponds) ==> r == []
  {
    if !IsSet(env, "SUPABASE_URL") || !storeResponds {
      return [];
    }
    r := db.SelectAwaiting(date);
  }

  /**
   * `updateStatusByIds`: the listed rows take status `s` and the retry stamp
   * `now`, the clock's reading at the call; no call for an unset store or an
   * empty list.
   */
  method UpdateStatusByIds(db: Database, env: Env, ids: seq<int>, s: Status, now: int)
    requires db.Valid()
    modifies db
    ensures db.Valid() && db.runs == old(db.runs)
    ensures db.errors.Keys == old(db.errors).Keys
    ensures !IsSet(env, "SUPABASE_URL") || ids == [] ==> db.errors == old(db.errors)
    ensures IsSet(env, "SUPABASE_URL") ==>
              forall id :: id in db.errors ==>
                db.errors[id] == if id in ids then old(db.errors)[id].(status := s, retriedAt := Some(now)) else old(db.errors)[id]
  {
    if !IsSet(env, "SUPABASE_URL") || |ids| == 0 {
      return;
    }
    db.SetStatusStamped(ids, s, now);
  }

  /** `deleteByIds`: the listed rows are resolved; no call for an unset store or an empty list. */
  method DeleteByIds(db: Database, env: Env, ids: seq<int>)
    requires db.Valid()
    modifies db
    ensures db.Valid() && db.runs == old(db.runs)
    ensures forall id :: id in db.errors ==> id in old(db.errors) && db.errors[id] == old(db.errors)[id]
    ensures forall id :: id in old(db.errors) ==>
              (id in db.errors <==> !IsSet(env, "SUPABASE_URL") || id !in ids)
  {
    if !IsSet(env, "SUPABASE_URL") || |ids| == 0 {
      return;
    }
    db.DeleteIds(ids);
  }

  /** `deleteByDate`: every pending or notified row of `date` is resolved; no call for an unset store. */
  method DeleteByDate(db: Database, env: Env, date: string)
    requires db.Valid()
    modifies db
    ensures db.Valid() && db.runs == old(db.runs)
    ensures forall id :: id in db.errors ==> id in old(db.errors) && db.errors[id] == old(db.errors)[id]
    ensures forall id :: id in old(db.errors) ==>
              (id in db.errors <==> !IsSet(env, "SUPABASE_URL") || !AwaitingAction(old(db.errors)[id], date))
  {
    if !IsSet(env, "SUPABASE_URL") {
      return;
    }
    db.DeleteAwaiting(date);
  }
}
