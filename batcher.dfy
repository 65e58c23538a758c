/**
 * The notification batcher (`monitor-errors`): it reads every pending row
 * of the error table, partitions the rows by business day, posts one report
 * per day to the operators' channel with a "retry all" and a "reject all"
 * button for that day, and marks each day's rows as notified.
 */
module Batcher {
  import opened Wrappers
  import opened Edge
  import opened Store
  import JsMap

  /** The group key of rows without a business day. */
  const NO_DATE_KEY := "sin-fecha"

  /** `err.business_day ?? "sin-fecha"`. */
  function DayKey(r: ErrorRow): string {
    if r.businessDay.Some? then r.businessDay.value else NO_DATE_KEY
  }

  // ---------------------------------------------------------------------------
  // The partition, as a specification
  // ---------------------------------------------------------------------------

  /** The rows of `p` whose key is `k`, in the order of `p`. */
  function GroupOf(p: seq<Entry>, k: string): (g: seq<Entry>)
    ensures |g| <= |p|
  {
    if p == [] then []
    else
      var last := p[|p| - 1];
      GroupOf(p[..|p| - 1], k) + (if DayKey(last.row) == k then [last] else [])
  }

  /** The distinct keys of `p`, each where it first appears. */
  function DayKeys(p: seq<Entry>): seq<string> {
    if p == [] then []
    else
      var last := p[|p| - 1];
      var init := p[..|p| - 1];
      if DayKey(last.row) in DayKeys(init) then DayKeys(init) else DayKeys(init) + [DayKey(last.row)]
  }

  /** A group holds exactly the rows with its key. */
  lemma {:induction false} GroupOfMembers(p: seq<Entry>, k: string)
    ensures forall e :: e in GroupOf(p, k) <==> e in p && DayKey(e.row) == k
  {
    if p != [] {
      var init, last := p[..|p| - 1], p[|p| - 1];
      assert p == init + [last];
      GroupOfMembers(init, k);
    }
  }

  /** The key list names each key of `p` once, and nothing else. */
  lemma {:induction false} DayKeysMembers(p: seq<Entry>)
    ensures JsMap.Distinct(DayKeys(p))
    ensures forall k :: k in DayKeys(p) <==> exists e :: e in p && DayKey(e.row) == k
  {
    if p != [] {
      var init, last := p[..|p| - 1], p[|p| - 1];
      assert p == init + [last];
      DayKeysMembers(init);
    }
  }

  /** Extending a list by one row extends the key list only if the row's key is new. */
  lemma DayKeysSnoc(p: seq<Entry>, e: Entry)
    ensures DayKey(e.row) in DayKeys(p) ==> DayKeys(p + [e]) == DayKeys(p)
    ensures DayKey(e.row) !in DayKeys(p) ==> DayKeys(p + [e]) == DayKeys(p) + [DayKey(e.row)]
  {
    assert (p + [e])[..|p|] == p;
  }

  /** Extending a list by one row extends the group of its key by that row, and no other group. */
  lemma GroupOfSnoc(p: seq<Entry>, e: Entry, k: string)
    ensures GroupOf(p + [e], k) == GroupOf(p, k) + (if DayKey(e.row) == k then [e] else [])
  {
    assert (p + [e])[..|p|] == p;
  }

  /** Every row lands in exactly one group: the one of its own key, which is listed; listed groups are not empty. */
  lemma GroupsPartition(p: seq<Entry>)
    ensures forall e :: e in p ==> DayKey(e.row) in DayKeys(p) && e in GroupOf(p, DayKey(e.row))
    ensures forall e, k :: e in p && k != DayKey(e.row) ==> e !in GroupOf(p, k)
    ensures forall k :: k in DayKeys(p) ==> GroupOf(p, k) != []
    ensures forall k :: k !in DayKeys(p) ==> GroupOf(p, k) == []
  {
    DayKeysMembers(p);
    forall k ensures forall e :: e in GroupOf(p, k) <==> e in p && DayKey(e.row) == k {
      GroupOfMembers(p, k);
    }
    forall k | k in DayKeys(p) ensures GroupOf(p, k) != [] {
      var e :| e in p && DayKey(e.row) == k;
      assert e in GroupOf(p, k);
    }
    forall k | GroupOf(p, k) != [] ensures k in DayKeys(p) {
      assert GroupOf(p, k)[0] in p;
    }
  }

  /** The total size of the groups listed in `ks`. */
  function GroupSizes(p: seq<Entry>, ks: seq<string>): nat {
    if ks == [] then 0 else GroupSizes(p, ks[..|ks| - 1]) + |GroupOf(p, ks[|ks| - 1])|
  }

  /** How many times `k` is listed. */
  function Count(ks: seq<string>, k: string): nat {
    if ks == [] then 0 else Count(ks[..|ks| - 1], k) + (if ks[|ks| - 1] == k then 1 else 0)
  }

  /** One more row adds to the listed groups' total once for each time its key is listed. */
  lemma {:induction false} GroupSizesSnoc(p: seq<Entry>, e: Entry, ks: seq<string>)
    ensures GroupSizes(p + [e], ks) == GroupSizes(p, ks) + Count(ks, DayKey(e.row))
  {
    if ks != [] {
      GroupSizesSnoc(p, e, ks[..|ks| - 1]);
      GroupOfSnoc(p, e, ks[|ks| - 1]);
    }
  }

  lemma {:induction false} CountDistinct(ks: seq<string>, k: string)
    requires JsMap.Distinct(ks)
    ensures Count(ks, k) == if k in ks then 1 else 0
  {
    if ks != [] {
      var init := ks[..|ks| - 1];
      assert ks == init + [ks[|ks| - 1]];
      assert JsMap.Distinct(init);
      CountDistinct(init, k);
      assert ks[|ks| - 1] !in init;
    }
  }

  /** The groups together hold every row: their sizes add up to the length of the list. */
  lemma {:induction false} GroupSizesCover(p: seq<Entry>)
    ensures GroupSizes(p, DayKeys(p)) == |p|
  {
    if p != [] {
      var init, e := p[..|p| - 1], p[|p| - 1];
      assert p == init + [e];
      GroupSizesCover(init);
      DayKeysSnoc(init, e);
      DayKeysMembers(p);
      DayKeysMembers(init);
      GroupSizesSnoc(init, e, DayKeys(p));
      CountDistinct(DayKeys(p), DayKey(e.row));
      if DayKey(e.row) !in DayKeys(init) {
        var ks := DayKeys(p);
        assert ks[..|ks| - 1] == DayKeys(init);
        GroupsPartition(init);
        GroupSizesSnoc(init, e, DayKeys(init));
        CountDistinct(DayKeys(init), DayKey(e.row));
      }
    }
  }

  // ---------------------------------------------------------------------------
  // Reports
  // ---------------------------------------------------------------------------

  /** `retry_all:<date>`, the custom id of a report's first button. */
  function RetryId(date: string): string { "retry_all:" + date }

  /** `reject_all:<date>`, the custom id of a report's second button. */
  function RejectId(date: string): string { "reject_all:" + date }

  /** One bullet of a report: the function name in code style. */
  function Bullet(functionName: string): string { "• `" + functionName + "`" }

  /** What `sendDiscordReport` posts: the date, the failure count, one bullet per row and the two buttons. */
  datatype Report = Report(date: string, count: nat, bullets: seq<string>, retryId: string, rejectId: string)

  function BuildReport(date: string, errors: seq<Entry>): (r: Report)
    ensures r.date == date && r.count == |errors| && |r.bullets| == |errors|
    ensures forall i :: 0 <= i < |errors| ==> r.bullets[i] == Bullet(errors[i].row.functionName)
    ensures r.retryId == RetryId(date) && r.rejectId == RejectId(date)
  {
    Report(date, |errors|, seq(|errors|, i requires 0 <= i < |errors| => Bullet(errors[i].row.functionName)),
           RetryId(date), RejectId(date))
  }

  /** One entry of the `reported` list. */
  datatype GroupResult = GroupResult(date: string, count: nat)

  datatype Outcome = NothingPending | Reported(results: seq<GroupResult>)

  function Total(results: seq<GroupResult>): nat {
    if results == [] then 0 else Total(results[..|results| - 1]) + results[|results| - 1].count
  }

  /** The results the batcher reports for a fetched list: one per group, in key order, with the group's size. */
  function ResultsFor(p: seq<Entry>, ks: seq<string>): (r: seq<GroupResult>)
    ensures |r| == |ks|
    ensures forall j :: 0 <= j < |ks| ==> r[j] == GroupResult(ks[j], |GroupOf(p, ks[j])|)
    ensures Total(r) == GroupSizes(p, ks)
  {
    if ks == [] then []
    else
      var r := ResultsFor(p, ks[..|ks| - 1]) + [GroupResult(ks[|ks| - 1], |GroupOf(p, ks[|ks| - 1])|)];
      assert r[..|r| - 1] == ResultsFor(p, ks[..|ks| - 1]);
      r
  }

  /** The counts of the reported groups add up to the number of pending rows. */
  lemma ResultsCoverPending(p: seq<Entry>)
    ensures Total(ResultsFor(p, DayKeys(p))) == |p|
  {
    GroupSizesCover(p);
  }

  // ---------------------------------------------------------------------------
  // The run
  // ---------------------------------------------------------------------------

  /** `fetchPendingErrors`: the pending rows in day order, or none when the store is unset or fails. */
  method FetchPendingErrors(db: Database, env: Env, storeResponds: bool) returns (pending: seq<Entry>)
    requires db.Valid()
    ensures DistinctIds(pending) && SortedByDay(pending)
    ensures forall e :: e in pending ==> e.id in db.errors && db.errors[e.id] == e.row && e.row.status == Pending
    ensures IsSet(env, "SUPABASE_URL") && storeResponds ==>
              forall id :: id in db.errors && db.errors[id].status == Pending ==> id in Ids(pending)
    ensures !(IsSet(env, "SUPABASE_URL") && storeResponds) ==> pending == []
  {
    if !IsSet(env, "SUPABASE_URL") || !storeResponds {
      return [];
    }
    pending := db.SelectPending();
  }

  /** `markAsNotified`: one status update of the listed ids, or no call at all for an empty list. */
  method MarkAsNotified(db: Database, env: Env, ids: seq<int>)
    requires db.Valid()
    modifies db
    ensures db.Valid() && db.runs == old(db.runs)
    ensures db.errors.Keys == old(db.errors).Keys
    ensures !IsSet(env, "SUPABASE_URL") || ids == [] ==> db.errors == old(db.errors)
    ensures IsSet(env, "SUPABASE_URL") ==>
              forall id :: id in db.errors ==>
                db.errors[id] == if id in ids then old(db.errors)[id].(status := Notified) else old(db.errors)[id]
  {
    if !IsSet(env, "SUPABASE_URL") || |ids| == 0 {
      return;
    }
    db.SetStatus(ids, Notified);
  }

  /** The ids of a group are the ids of the fetched rows with that key. */
  lemma IdsOfGroup(p: seq<Entry>, k: string, rows: map<int, ErrorRow>, id: int)
    requires RowsMatch(p, rows)
    ensures id in Ids(GroupOf(p, k)) <==> id in Ids(p) && DayKey(rows[id]) == k
  {
    var g := GroupOf(p, k);
    GroupOfMembers(p, k);
    if id in Ids(g) {
      var i :| 0 <= i < |g| && Ids(g)[i] == id;
      assert g[i] in p;
      var j := IndexIn(g[i], p);
      assert Ids(p)[j] == id;
    }
    if id in Ids(p) && DayKey(rows[id]) == k {
      var j :| 0 <= j < |p| && Ids(p)[j] == id;
      assert p[j] in p;
      assert p[j] in g;
      var i := IndexIn(p[j], g);
      assert Ids(g)[i] == id;
    }
  }

  /** Whether the bot can post to the channel: `DISCORD_BOT_TOKEN` and `DISCORD_CHANNEL_ID` are set. */
  predicate BotConfigured(env: Env) {
    IsSet(env, "DISCORD_BOT_TOKEN") && IsSet(env, "DISCORD_CHANNEL_ID")
  }

  /** Groups the fetched rows by key, in a JavaScript `Map` filled in one pass. */
  method GroupByDate(pending: seq<Entry>) returns (byDate: JsMap.OrderedMap<seq<Entry>>)
    ensures JsMap.Valid(byDate)
    ensures byDate.keys == DayKeys(pending)
    ensures forall k :: k in byDate.entries ==> byDate.entries[k] == GroupOf(pending, k)
  {
    byDate := JsMap.Empty();
    for i := 0 to |pending|
      invariant Grouped(byDate, pending[..i])
    {
      var err := pending[i];
      var date := DayKey(err.row);
      assert pending[..i + 1] == pending[..i] + [err];
      GroupStep(byDate, pending[..i], err);
      var group := match JsMap.Get(byDate, date) case Some(g) => g case None => [];
      group := group + [err];
      byDate := JsMap.Set(byDate, date, group);
    }
    assert pending[..|pending|] == pending;
  }

  /** `byDate` is the grouping of `p`: its keys in first-appearance order, each with its group. */
  ghost predicate Grouped(byDate: JsMap.OrderedMap<seq<Entry>>, p: seq<Entry>) {
    && JsMap.Valid(byDate)
    && byDate.keys == DayKeys(p)
    && forall k :: k in byDate.entries ==> byDate.entries[k] == GroupOf(p, k)
  }

  /** Pushing one more row onto its day's group groups the longer list. */
  lemma GroupStep(byDate: JsMap.OrderedMap<seq<Entry>>, p: seq<Entry>, err: Entry)
    requires Grouped(byDate, p)
    ensures var date := DayKey(err.row);
            Grouped(JsMap.Set(byDate, date, (match JsMap.Get(byDate, date) case Some(g) => g case None => []) + [err]),
                    p + [err])
  {
    DayKeysSnoc(p, err);
    GroupsPartition(p);
    forall k ensures GroupOf(p + [err], k) == GroupOf(p, k) + (if DayKey(err.row) == k then [err] else []) {
      GroupOfSnoc(p, err, k);
    }
  }

  /** Every fetched row is the stored row under its id. */
  ghost predicate RowsMatch(p: seq<Entry>, rows: map<int, ErrorRow>) {
    forall e :: e in p ==> e.id in rows && rows[e.id] == e.row
  }

  /** The reports posted for the groups listed in `ks`, in that order. */
  function Reports(p: seq<Entry>, ks: seq<string>): (r: seq<Report>)
    ensures |r| == |ks|
    ensures forall j :: 0 <= j < |ks| ==> r[j] == BuildReport(ks[j], GroupOf(p, ks[j]))
  {
    if ks == [] then []
    else Reports(p, ks[..|ks| - 1]) + [BuildReport(ks[|ks| - 1], GroupOf(p, ks[|ks| - 1]))]
  }

  /** Going from the first `j` groups to the first `j + 1`. */
  lemma NextPrefix(p: seq<Entry>, ks: seq<string>, j: nat)
    requires j < |ks|
    ensures ks[..j + 1] == ks[..j] + [ks[j]]
    ensures ResultsFor(p, ks[..j + 1]) == ResultsFor(p, ks[..j]) + [GroupResult(ks[j], |GroupOf(p, ks[j])|)]
    ensures Reports(p, ks[..j + 1]) == Reports(p, ks[..j]) + [BuildReport(ks[j], GroupOf(p, ks[j]))]
  {
    assert ks[..j + 1][..j] == ks[..j];
  }

  /** The rows of the first `j` groups are notified; every other row is as it was `before`. */
  ghost predicate NotifiedUpTo(p: seq<Entry>, ks: seq<string>, j: nat, before: map<int, ErrorRow>, cur: map<int, ErrorRow>)
    requires j <= |ks|
  {
    cur.Keys == before.Keys
    && forall id :: id in cur ==>
         cur[id] == if id in Ids(p) && DayKey(before[id]) in ks[..j] then before[id].(status := Notified) else before[id]
  }

  /** Marking group `j` after the first `j` groups have been marked. */
  lemma NotifyStep(p: seq<Entry>, ks: seq<string>, j: nat, before: map<int, ErrorRow>,
                   mid: map<int, ErrorRow>, after: map<int, ErrorRow>)
    requires j < |ks| && JsMap.Distinct(ks) && RowsMatch(p, before)
    requires NotifiedUpTo(p, ks, j, before, mid)
    requires after.Keys == mid.Keys
    requires forall id :: id in after ==>
               after[id] == if id in Ids(GroupOf(p, ks[j])) then mid[id].(status := Notified) else mid[id]
    ensures NotifiedUpTo(p, ks, j + 1, before, after)
  {
    assert ks[..j + 1] == ks[..j] + [ks[j]];
    forall id | id in after
      ensures after[id] == if id in Ids(p) && DayKey(before[id]) in ks[..j + 1]
                           then before[id].(status := Notified) else before[id]
    {
      IdsOfGroup(p, ks[j], before, id);
      if id in Ids(p) && DayKey(before[id]) == ks[j] {
        assert forall i :: 0 <= i < j ==> ks[..j][i] == ks[i];
      }
    }
  }

  /** Once every group is marked, exactly the fetched rows (all the pending ones) are notified. */
  lemma NotifiedAll(p: seq<Entry>, before: map<int, ErrorRow>, cur: map<int, ErrorRow>)
    requires RowsMatch(p, before)
    requires forall e :: e in p ==> e.row.status == Pending
    requires forall id :: id in before && before[id].status == Pending ==> id in Ids(p)
    requires NotifiedUpTo(p, DayKeys(p), |DayKeys(p)|, before, cur)
    ensures cur.Keys == before.Keys
    ensures forall id :: id in cur ==>
              cur[id] == if before[id].status == Pending then before[id].(status := Notified) else before[id]
  {
    var ks := DayKeys(p);
    assert ks[..|ks|] == ks;
    GroupsPartition(p);
    forall id | id in cur && id in Ids(p) ensures DayKey(before[id]) in ks && before[id].status == Pending {
      var i :| 0 <= i < |p| && Ids(p)[i] == id;
      assert p[i] in p;
    }
  }

  /**
   * One run of `monitor-errors`. With no pending rows (or no answer from
   * the store) it reports that and changes nothing. Otherwise each day's
   * group is reported (posted only when the bot is configured) and then
   * marked notified whatever became of the post: afterwards every row that
   * was pending is notified and no other row has changed. The results list
   * one entry per day in first-appearance order, with counts that add up to
   * the number of pending rows.
   */
  method Run(db: Database, env: Env, storeResponds: bool)
    returns (outcome: Outcome, sent: seq<Report>, ghost pending: seq<Entry>)
    requires db.Valid()
    modifies db
    ensures db.Valid() && db.runs == old(db.runs)
    ensures RowsMatch(pending, old(db.errors)) && forall e :: e in pending ==> e.row.status == Pending
    ensures IsSet(env, "SUPABASE_URL") && storeResponds ==>
              forall id :: id in old(db.errors) && old(db.errors)[id].status == Pending ==> id in Ids(pending)
    ensures !(IsSet(env, "SUPABASE_URL") && storeResponds) ==> pending == []
    ensures pending == [] ==> outcome == NothingPending && sent == [] && db.errors == old(db.errors)
    ensures pending != [] ==> outcome == Reported(ResultsFor(pending, DayKeys(pending)))
    ensures outcome.Reported? ==> Total(outcome.results) == |pending|
    ensures pending != [] && BotConfigured(env) ==> sent == Reports(pending, DayKeys(pending))
    ensures !BotConfigured(env) ==> sent == []
    ensures db.errors.Keys == old(db.errors).Keys
    ensures pending != [] ==>
              forall id :: id in db.errors ==>
                db.errors[id] == if old(db.errors)[id].status == Pending then old(db.errors)[id].(status := Notified)
                                 else old(db.errors)[id]
  {
    var fetched := FetchPendingErrors(db, env, storeResponds);
    pending := fetched;
    sent := [];
    if |fetched| == 0 {
      return NothingPending, sent, pending;
    }
    var byDate := GroupByDate(fetched);
    DayKeysMembers(fetched);
    ghost var before := db.errors;
    var results: seq<GroupResult> := [];
    var keys := byDate.keys;
    for j := 0 to |keys|
      invariant db.Valid() && db.runs == old(db.runs)
      invariant results == ResultsFor(fetched, keys[..j])
      invariant sent == if BotConfigured(env) then Reports(fetched, keys[..j]) else []
      invariant NotifiedUpTo(fetched, keys, j, before, db.errors)
    {
      var date := keys[j];
      var errors := byDate.entries[date];
      NextPrefix(fetched, keys, j);
      if BotConfigured(env) {
        sent := sent + [BuildReport(date, errors)];
      }
      ghost var mid := db.errors;
      MarkAsNotified(db, env, Ids(errors));
      NotifyStep(fetched, keys, j, before, mid, db.errors);
      results := results + [GroupResult(date, |errors|)];
    }
    assert keys[..|keys|] == keys;
    ResultsCoverPending(fetched);
    NotifiedAll(fetched, before, db.errors);
    outcome := Reported(results);
  }
}
