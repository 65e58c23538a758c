/**
 * The `/audit` command of the interaction endpoint: for yesterday's date
 * it counts the rows each active audit configuration points at, sets them
 * against the error table's rows awaiting action that day, and builds one
 * line per configuration, one line per failing function no configuration
 * claims, the totals and the embed colour.
 */
module Audit {
  import opened Wrappers
  import opened Text
  import opened Calendar
  import opened Edge
  import opened Store
  import JsMap

  /** One active row of `audit_config`. */
  datatype AuditConfig = AuditConfig(
    id: int,
    displayName: string,
    functionName: Option<string>,
    targetTable: string,
    dateColumn: string,
    dateColumnType: string,
    sortOrder: int)

  // ---------------------------------------------------------------------------
  // countTableRecords
  // ---------------------------------------------------------------------------

  /** The row filter of a count: a half-open day range on a timestamp column, equality otherwise. */
  datatype Filter =
    | Between(column: string, from: string, until: string)   // column >= from and column < until
    | Equal(column: string, value: string)

  const MIDNIGHT_UTC := "T00:00:00Z"

  function CountFilter(dateColumn: string, dateColumnType: string, date: string): (f: Filter)
    ensures f.Between? <==> dateColumnType == "timestamp"
    ensures f.column == dateColumn
    ensures f.Between? ==> f.from == date + MIDNIGHT_UTC
    ensures f.Equal? ==> f.value == date
  {
    if dateColumnType == "timestamp" then
      Between(dateColumn, date + MIDNIGHT_UTC, NextDayText(date) + MIDNIGHT_UTC)
    else
      Equal(dateColumn, date)
  }

  /** For a rendered date, the timestamp range runs from its midnight to the next day's midnight. */
  lemma TimestampRangeIsOneDay(column: string, d: CalendarDate)
    requires 1000 <= d.year <= 9999
    ensures CountFilter(column, "timestamp", Format(d))
            == Between(column, Format(d) + MIDNIGHT_UTC, Format(NextDay(d)) + MIDNIGHT_UTC)
  {
    ParseFormat(d);
  }

  /** The length of the run of decimal digits that ends `s`. */
  function TrailingDigits(s: string): (k: nat)
    ensures k <= |s| && AllDigits(s[|s| - k..])
    ensures k < |s| ==> !IsDigit(s[|s| - k - 1])
  {
    if s == [] || !IsDigit(s[|s| - 1]) then 0
    else
      var k := TrailingDigits(s[..|s| - 1]);
      DigitsSnoc(s, k);
      k + 1
  }

  /** A digit after a run of `k` digits makes a run of `k + 1`, bounded by the same non-digit. */
  lemma DigitsSnoc(s: string, k: nat)
    requires s != [] && IsDigit(s[|s| - 1]) && k <= |s| - 1
    requires AllDigits(s[..|s| - 1][|s| - 1 - k..])
    requires k < |s| - 1 ==> !IsDigit(s[..|s| - 1][|s| - 1 - k - 1])
    ensures AllDigits(s[|s| - (k + 1)..])
    ensures k + 1 < |s| ==> !IsDigit(s[|s| - (k + 1) - 1])
  {
    var t := s[..|s| - 1];
    forall i | |s| - (k + 1) <= i < |s| ensures IsDigit(s[i]) {
      if i < |s| - 1 {
        assert s[i] == t[|t| - k..][i - (|t| - k)];
      }
    }
    if k + 1 < |s| {
      assert t[|t| - k - 1] == s[|s| - (k + 1) - 1];
    }
  }

  /** The total that `/\/(\d+)$/` captures from a `Content-Range` header, if it matches. */
  function ContentRangeTotal(h: string): Option<nat> {
    var k := TrailingDigits(h);
    if 0 < k < |h| && h[|h| - k - 1] == '/' then Some(DigitsValue(h[|h| - k..])) else None
  }

  /** The regular expression's own reading: a slash followed by one or more digits up to the end. */
  predicate MatchesTotal(h: string, i: int) {
    0 <= i < |h| - 1 && h[i] == '/' && AllDigits(h[i + 1..])
  }

  /** A non-digit followed only by digits fixes the length of the trailing run. */
  lemma {:induction false} TrailingDigitsExact(s: string, j: int)
    requires 0 <= j < |s| && !IsDigit(s[j]) && AllDigits(s[j + 1..])
    ensures TrailingDigits(s) == |s| - j - 1
  {
    if j < |s| - 1 {
      var init := s[..|s| - 1];
      assert IsDigit(s[j + 1..][|s| - j - 2]);
      assert init[j + 1..] == s[j + 1..][..|s| - j - 2];
      TrailingDigitsExact(init, j);
    }
  }

  /** Any match of the pattern is the one the capture reads. */
  lemma MatchGivesTotal(h: string, i: int)
    requires MatchesTotal(h, i)
    ensures ContentRangeTotal(h) == Some(DigitsValue(h[i + 1..]))
  {
    TrailingDigitsExact(h, i);
    assert |h| - TrailingDigits(h) == i + 1;
  }

  /** The capture exists exactly when the pattern matches, and it is the digits after the slash. */
  lemma ContentRangeTotalMatches(h: string)
    ensures ContentRangeTotal(h).Some? <==> exists i :: MatchesTotal(h, i)
    ensures forall i :: MatchesTotal(h, i) ==> ContentRangeTotal(h) == Some(DigitsValue(h[i + 1..]))
  {
    forall i | MatchesTotal(h, i) ensures ContentRangeTotal(h) == Some(DigitsValue(h[i + 1..])) {
      MatchGivesTotal(h, i);
    }
    if ContentRangeTotal(h).Some? {
      var k := TrailingDigits(h);
      assert MatchesTotal(h, |h| - k - 1);
    }
  }

  /** A header `.../<n>` yields `n`. */
  lemma ContentRangeOfTotal(prefix: string, n: nat)
    ensures ContentRangeTotal(prefix + "/" + NatToString(n)) == Some(n)
  {
    var h := prefix + "/" + NatToString(n);
    var i := |prefix|;
    assert h[i + 1..] == NatToString(n);
    assert MatchesTotal(h, i);
    ContentRangeTotalMatches(h);
    DigitsValueOfNatToString(n);
  }

  /**
   * `countTableRecords`: None when the store is unset or the count request
   * fails; otherwise the total the `Content-Range` header carries, and 0
   * when the header is missing or does not end in `/<digits>`. The store's
   * answer to a HEAD count request is the input `head`.
   */
  function CountRecords(env: Env, cfg: AuditConfig, date: string,
                        head: (string, Filter) -> Option<Option<string>>): (r: Option<nat>)
    ensures !IsSet(env, "SUPABASE_URL") ==> r == None
    ensures IsSet(env, "SUPABASE_URL") ==>
              (r.None? <==> head(cfg.targetTable, CountFilter(cfg.dateColumn, cfg.dateColumnType, date)).None?)
    ensures IsSet(env, "SUPABASE_URL") && head(cfg.targetTable, CountFilter(cfg.dateColumn, cfg.dateColumnType, date)) == Some(None) ==>
              r == Some(0)
    ensures IsSet(env, "SUPABASE_URL") && head(cfg.targetTable, CountFilter(cfg.dateColumn, cfg.dateColumnType, date)).Some?
            && head(cfg.targetTable, CountFilter(cfg.dateColumn, cfg.dateColumnType, date)).value.Some? ==>
              var h := head(cfg.targetTable, CountFilter(cfg.dateColumn, cfg.dateColumnType, date)).value.value;
              r == Some(if ContentRangeTotal(h).Some? then ContentRangeTotal(h).value else 0)
  {
    if !IsSet(env, "SUPABASE_URL") then None
    else
      match head(cfg.targetTable, CountFilter(cfg.dateColumn, cfg.dateColumnType, date))
      case None => None
      case Some(None) => Some(0)
      case Some(Some(h)) => Some(match ContentRangeTotal(h) case Some(n) => n case None => 0)
  }

  // ---------------------------------------------------------------------------
  // Error counts per function
  // ---------------------------------------------------------------------------

  /** The function names of the rows, in order. */
  function Names(errors: seq<Entry>): (names: seq<string>)
    ensures |names| == |errors|
    ensures forall i :: 0 <= i < |errors| ==> names[i] == errors[i].row.functionName
  {
    if errors == [] then [] else Names(errors[..|errors| - 1]) + [errors[|errors| - 1].row.functionName]
  }

  /** How many rows carry the name `fn`. */
  function Occurrences(names: seq<string>, fn: string): nat {
    if names == [] then 0 else Occurrences(names[..|names| - 1], fn) + (if names[|names| - 1] == fn then 1 else 0)
  }

  /** The distinct names, each where it first appears: the visiting order of `errorsByFn`. */
  function FirstAppearances(names: seq<string>): seq<string> {
    if names == [] then []
    else
      var init := FirstAppearances(names[..|names| - 1]);
      if names[|names| - 1] in init then init else init + [names[|names| - 1]]
  }

  lemma {:induction false} FirstAppearancesMembers(names: seq<string>)
    ensures JsMap.Distinct(FirstAppearances(names))
    ensures forall k :: k in FirstAppearances(names) <==> k in names
  {
    if names != [] {
      var init := names[..|names| - 1];
      assert names == init + [names[|names| - 1]];
      FirstAppearancesMembers(init);
    }
  }

  lemma {:induction false} OccurrencesPositive(names: seq<string>, fn: string)
    ensures Occurrences(names, fn) > 0 <==> fn in names
  {
    if names != [] {
      var init := names[..|names| - 1];
      assert names == init + [names[|names| - 1]];
      OccurrencesPositive(init, fn);
    }
  }

  /** Counting one more name: a new name goes last with count 1, a known one counts one more. */
  lemma CountStep(pre: seq<string>, fn: string, m: JsMap.OrderedMap<nat>)
    requires JsMap.Valid(m) && m.keys == FirstAppearances(pre)
    requires forall k :: k in m.entries ==> m.entries[k] == Occurrences(pre, k)
    ensures var m' := JsMap.Set(m, fn, (match JsMap.Get(m, fn) case Some(n) => n case None => 0) + 1);
            && m'.keys == FirstAppearances(pre + [fn])
            && forall k :: k in m'.entries ==> m'.entries[k] == Occurrences(pre + [fn], k)
  {
    assert (pre + [fn])[..|pre|] == pre;
    FirstAppearancesMembers(pre);
    OccurrencesPositive(pre, fn);
  }

  /** The `errorsByFn` map built from the rows: each name with its number of rows, in first-appearance order. */
  method CountByFunction(errors: seq<Entry>) returns (m: JsMap.OrderedMap<nat>)
    ensures JsMap.Valid(m)
    ensures m.keys == FirstAppearances(Names(errors))
    ensures forall k :: k in m.entries ==> m.entries[k] == Occurrences(Names(errors), k)
  {
    m := JsMap.Empty();
    var names := Names(errors);
    for i := 0 to |errors|
      invariant JsMap.Valid(m)
      invariant m.keys == FirstAppearances(names[..i])
      invariant forall k :: k in m.entries ==> m.entries[k] == Occurrences(names[..i], k)
    {
      var fn := errors[i].row.functionName;
      assert names[..i + 1] == names[..i] + [fn];
      CountStep(names[..i], fn, m);
      var previous := match JsMap.Get(m, fn) case Some(n) => n case None => 0;
      m := JsMap.Set(m, fn, previous + 1);
    }
    assert names[..|errors|] == names;
  }

  // ---------------------------------------------------------------------------
  // Lines, totals and colour, as a specification
  // ---------------------------------------------------------------------------

  /** One line of the audit report. */
  datatype Line =
    | QueryFailed(displayName: string)
    | WithErrors(displayName: string, records: nat, errors: nat)
    | Clean(displayName: string, records: nat)
    | Orphan(functionName: string, errors: nat)

  /** A line that counts towards "OK": the table could be counted. */
  predicate IsOk(l: Line) { l.WithErrors? || l.Clean? }

  /** `cfg.function_name` is truthy: present and not empty. */
  predicate Linked(cfg: AuditConfig) {
    cfg.functionName.Some? && cfg.functionName.value != ""
  }

  /** The function names the first `i` configurations claim. */
  function ClaimedBy(configs: seq<AuditConfig>, i: nat): set<string>
    requires i <= |configs|
  {
    if i == 0 then {}
    else ClaimedBy(configs, i - 1) + (if Linked(configs[i - 1]) then {configs[i - 1].functionName.value} else {})
  }

  /**
   * The error count line `i` shows: the rows of its function, unless an
   * earlier configuration with the same function already took them out of
   * the map.
   */
  function ErrorsFor(configs: seq<AuditConfig>, i: nat, names: seq<string>): nat
    requires i < |configs|
  {
    if Linked(configs[i]) && configs[i].functionName.value !in ClaimedBy(configs, i)
    then Occurrences(names, configs[i].functionName.value)
    else 0
  }

  function ConfigLine(cfg: AuditConfig, count: Option<nat>, errCount: nat): (l: Line)
    ensures count.None? <==> l.QueryFailed?
    ensures l.WithErrors? <==> count.Some? && errCount > 0
    ensures l.Clean? <==> count.Some? && errCount == 0
    ensures IsOk(l) ==> l.records == count.value
    ensures l.WithErrors? ==> l.errors == errCount
    ensures !l.Orphan? && l.displayName == cfg.displayName
  {
    match count
    case None => QueryFailed(cfg.displayName)
    case Some(n) => if errCount > 0 then WithErrors(cfg.displayName, n, errCount) else Clean(cfg.displayName, n)
  }

  /** The lines for the first `i` configurations. */
  function ConfigLines(configs: seq<AuditConfig>, counts: seq<Option<nat>>, names: seq<string>, i: nat): (ls: seq<Line>)
    requires i <= |configs| == |counts|
    ensures |ls| == i
  {
    if i == 0 then [] else ConfigLines(configs, counts, names, i - 1) + [ConfigLine(configs[i - 1], counts[i - 1], ErrorsFor(configs, i - 1, names))]
  }

  /** The names in `ks` that no configuration claims, in order. */
  function Unclaimed(ks: seq<string>, claimed: set<string>): seq<string> {
    if ks == [] then []
    else
      var init := Unclaimed(ks[..|ks| - 1], claimed);
      if ks[|ks| - 1] in claimed then init else init + [ks[|ks| - 1]]
  }

  lemma {:induction false} UnclaimedMembers(ks: seq<string>, claimed: set<string>)
    ensures forall k :: k in Unclaimed(ks, claimed) <==> k in ks && k !in claimed
  {
    if ks != [] {
      assert ks == ks[..|ks| - 1] + [ks[|ks| - 1]];
      UnclaimedMembers(ks[..|ks| - 1], claimed);
    }
  }

  lemma {:induction false} UnclaimedNothing(ks: seq<string>)
    ensures Unclaimed(ks, {}) == ks
  {
    if ks != [] {
      UnclaimedNothing(ks[..|ks| - 1]);
      assert ks == ks[..|ks| - 1] + [ks[|ks| - 1]];
    }
  }

  /** The "failed" lines for the names left in the map, in its order. */
  function OrphanLines(ks: seq<string>, names: seq<string>): (ls: seq<Line>)
    ensures |ls| == |ks|
  {
    if ks == [] then [] else OrphanLines(ks[..|ks| - 1], names) + [Orphan(ks[|ks| - 1], Occurrences(names, ks[|ks| - 1]))]
  }

  /** All lines of the report: one per configuration, then one per unclaimed failing function. */
  function AuditLines(configs: seq<AuditConfig>, counts: seq<Option<nat>>, errors: seq<Entry>): seq<Line>
    requires |configs| == |counts|
  {
    var names := Names(errors);
    ConfigLines(configs, counts, names, |configs|)
      + OrphanLines(Unclaimed(FirstAppearances(names), ClaimedBy(configs, |configs|)), names)
  }

  /** The report has no line at all exactly when there is no active configuration and no error row that day. */
  lemma NoLinesIff(configs: seq<AuditConfig>, counts: seq<Option<nat>>, errors: seq<Entry>)
    requires |configs| == |counts|
    ensures AuditLines(configs, counts, errors) == [] <==> configs == [] && errors == []
  {
    var names := Names(errors);
    FirstAppearancesMembers(names);
    UnclaimedNothing(FirstAppearances(names));
    if errors != [] {
      assert names[0] in FirstAppearances(names);
    }
  }

  function OkCount(ls: seq<Line>): nat {
    if ls == [] then 0 else OkCount(ls[..|ls| - 1]) + (if IsOk(ls[|ls| - 1]) then 1 else 0)
  }

  function ErrCount(ls: seq<Line>): nat {
    if ls == [] then 0 else ErrCount(ls[..|ls| - 1]) + (if IsOk(ls[|ls| - 1]) then 0 else 1)
  }

  function RecordCount(ls: seq<Line>): nat {
    if ls == [] then 0 else RecordCount(ls[..|ls| - 1]) + (if IsOk(ls[|ls| - 1]) then ls[|ls| - 1].records else 0)
  }

  /** Every line is counted once, as OK or as an error. */
  lemma {:induction false} OkPlusErr(ls: seq<Line>)
    ensures OkCount(ls) + ErrCount(ls) == |ls|
  {
    if ls != [] {
      OkPlusErr(ls[..|ls| - 1]);
    }
  }

  /** No error is counted exactly when every line is OK. */
  lemma {:induction false} ErrCountZero(ls: seq<Line>)
    ensures ErrCount(ls) == 0 <==> forall j :: 0 <= j < |ls| ==> IsOk(ls[j])
  {
    if ls != [] {
      ErrCountZero(ls[..|ls| - 1]);
      assert forall j :: 0 <= j < |ls| - 1 ==> ls[..|ls| - 1][j] == ls[j];
    }
  }

  /** Nothing is counted OK exactly when no line is OK. */
  lemma {:induction false} OkCountZero(ls: seq<Line>)
    ensures OkCount(ls) == 0 <==> forall j :: 0 <= j < |ls| ==> !IsOk(ls[j])
  {
    if ls != [] {
      OkCountZero(ls[..|ls| - 1]);
      assert forall j :: 0 <= j < |ls| - 1 ==> ls[..|ls| - 1][j] == ls[j];
    }
  }

  const GREEN := 0x2ECC71
  const RED := 0xE74C3C
  const ORANGE := 0xF39C12
  const GREY := 0x95A5A6

  /** The embed colour of a report with lines: green without errors, red without successes, orange otherwise. */
  function ReportColor(totalOk: nat, totalErr: nat): (c: int)
    ensures c == GREEN <==> totalErr == 0
    ensures c == RED <==> totalErr > 0 && totalOk == 0
    ensures c == ORANGE <==> totalErr > 0 && totalOk > 0
  {
    if totalErr == 0 then GREEN else if totalOk == 0 then RED else ORANGE
  }

  /** The report: "no active configuration" when there are no lines, else the lines, totals and colour. */
  datatype Summary =
    | NoConfiguration
    | Report(lines: seq<Line>, totalRecords: nat, totalOk: nat, totalErr: nat, color: int)

  /** For a report with lines, green means every line is OK and red means none is. */
  lemma ColorMeaning(ls: seq<Line>)
    requires ls != []
    ensures ReportColor(OkCount(ls), ErrCount(ls)) == GREEN <==> forall j :: 0 <= j < |ls| ==> IsOk(ls[j])
    ensures ReportColor(OkCount(ls), ErrCount(ls)) == RED <==> forall j :: 0 <= j < |ls| ==> !IsOk(ls[j])
  {
    ErrCountZero(ls);
    OkCountZero(ls);
    OkPlusErr(ls);
    assert ls[0] in ls;
  }

  // ---------------------------------------------------------------------------
  // The aggregation loop
  // ---------------------------------------------------------------------------

  /** Taking one more configuration's function out of the map. */
  lemma {:induction false} UnclaimedOrder(ks: seq<string>, claimed: set<string>, fn: string)
    ensures Unclaimed(ks, claimed + {fn}) == JsMap.Without(Unclaimed(ks, claimed), fn)
  {
    if ks != [] {
      var init, last := ks[..|ks| - 1], ks[|ks| - 1];
      UnclaimedOrder(init, claimed, fn);
      WithoutSnoc(Unclaimed(init, claimed), last, fn);
    }
  }

  lemma {:induction false} WithoutSnoc(s: seq<string>, x: string, k: string)
    ensures JsMap.Without(s + [x], k) == JsMap.Without(s, k) + (if x == k then [] else [x])
  {
    if s != [] {
      assert (s + [x])[1..] == s[1..] + [x];
      WithoutSnoc(s[1..], x, k);
    }
  }

  /** The counters after one more line: an OK line adds its records and one OK, any other line one error. */
  lemma TalliedSnoc(ls: seq<Line>, l: Line, totalRecords: nat, totalOk: nat, totalErr: nat)
    requires Tallied(ls, totalRecords, totalOk, totalErr)
    ensures IsOk(l) ==> Tallied(ls + [l], totalRecords + l.records, totalOk + 1, totalErr)
    ensures !IsOk(l) ==> Tallied(ls + [l], totalRecords, totalOk, totalErr + 1)
  {
    assert (ls + [l])[..|ls|] == ls;
  }

  /** `cfg.function_name ? (errorsByFn.get(cfg.function_name) ?? 0) : 0`. */
  function Lookup(m: JsMap.OrderedMap<nat>, cfg: AuditConfig): nat {
    if Linked(cfg) then (match JsMap.Get(m, cfg.functionName.value) case Some(n) => n case None => 0) else 0
  }

  /** What line `i` reads from the map is its error count, and taking its function out leaves the names still unclaimed. */
  lemma ConfigStep(configs: seq<AuditConfig>, names: seq<string>, i: nat, m: JsMap.OrderedMap<nat>)
    requires i < |configs| && JsMap.Valid(m)
    requires m.keys == Unclaimed(FirstAppearances(names), ClaimedBy(configs, i))
    requires forall k :: k in m.entries ==> m.entries[k] == Occurrences(names, k)
    ensures Lookup(m, configs[i]) == ErrorsFor(configs, i, names)
    ensures Linked(configs[i]) ==>
              JsMap.Delete(m, configs[i].functionName.value).keys == Unclaimed(FirstAppearances(names), ClaimedBy(configs, i + 1))
    ensures !Linked(configs[i]) ==> m.keys == Unclaimed(FirstAppearances(names), ClaimedBy(configs, i + 1))
  {
    FirstAppearancesMembers(names);
    UnclaimedMembers(FirstAppearances(names), ClaimedBy(configs, i));
    if !Linked(configs[i]) {
      assert ClaimedBy(configs, i + 1) == ClaimedBy(configs, i);
    } else {
      var fn := configs[i].functionName.value;
      OccurrencesPositive(names, fn);
      UnclaimedOrder(FirstAppearances(names), ClaimedBy(configs, i), fn);
    }
  }

  /** The three counters agree with the lines. */
  predicate Tallied(lines: seq<Line>, totalRecords: nat, totalOk: nat, totalErr: nat) {
    totalRecords == RecordCount(lines) && totalOk == OkCount(lines) && totalErr == ErrCount(lines)
  }

  /** `m` holds the error count of every name not in `claimed`, in first-appearance order. */
  ghost predicate CountsLeft(m: JsMap.OrderedMap<nat>, names: seq<string>, claimed: set<string>) {
    && JsMap.Valid(m)
    && m.keys == Unclaimed(FirstAppearances(names), claimed)
    && forall k :: k in m.entries ==> m.entries[k] == Occurrences(names, k)
  }

  /** One configuration's turn: its line, and the map with its function taken out. */
  lemma ConfigPassStep(configs: seq<AuditConfig>, counts: seq<Option<nat>>, names: seq<string>, i: nat,
                       m: JsMap.OrderedMap<nat>)
    requires i < |configs| == |counts| && CountsLeft(m, names, ClaimedBy(configs, i))
    ensures CountsLeft(if Linked(configs[i]) then JsMap.Delete(m, configs[i].functionName.value) else m,
                       names, ClaimedBy(configs, i + 1))
    ensures ConfigLines(configs, counts, names, i + 1)
              == ConfigLines(configs, counts, names, i) + [ConfigLine(configs[i], counts[i], Lookup(m, configs[i]))]
  {
    ConfigStep(configs, names, i, m);
  }

  lemma OrphanStep(ks: seq<string>, names: seq<string>, j: nat)
    requires j < |ks|
    ensures OrphanLines(ks[..j + 1], names) == OrphanLines(ks[..j], names) + [Orphan(ks[j], Occurrences(names, ks[j]))]
  {
    assert ks[..j + 1][..j] == ks[..j];
  }

  /**
   * The first pass: one line per configuration, in order, each taking its
   * function's error count out of the map.
   */
  method ConfigPass(configs: seq<AuditConfig>, counts: seq<Option<nat>>, names: seq<string>, m0: JsMap.OrderedMap<nat>)
    returns (m: JsMap.OrderedMap<nat>, lines: seq<Line>, totalRecords: nat, totalOk: nat, totalErr: nat)
    requires |configs| == |counts| && JsMap.Valid(m0)
    requires m0.keys == FirstAppearances(names)
    requires forall k :: k in m0.entries ==> m0.entries[k] == Occurrences(names, k)
    ensures JsMap.Valid(m) && m.keys == Unclaimed(FirstAppearances(names), ClaimedBy(configs, |configs|))
    ensures forall k :: k in m.entries ==> m.entries[k] == Occurrences(names, k)
    ensures lines == ConfigLines(configs, counts, names, |configs|)
    ensures totalRecords == RecordCount(lines) && totalOk == OkCount(lines) && totalErr == ErrCount(lines)
  {
    m := m0;
    UnclaimedNothing(FirstAppearances(names));
    lines, totalRecords, totalOk, totalErr := [], 0, 0, 0;
    for i := 0 to |configs|
      invariant CountsLeft(m, names, ClaimedBy(configs, i))
      invariant lines == ConfigLines(configs, counts, names, i)
      invariant Tallied(lines, totalRecords, totalOk, totalErr)
    {
      var cfg := configs[i];
      var count := counts[i];
      ConfigPassStep(configs, counts, names, i, m);
      var errCount := Lookup(m, cfg);
      if Linked(cfg) {
        m := JsMap.Delete(m, cfg.functionName.value);
      }
      var line := ConfigLine(cfg, count, errCount);
      TalliedSnoc(lines, line, totalRecords, totalOk, totalErr);
      lines := lines + [line];
      if count.None? {
        totalErr := totalErr + 1;
      } else {
        totalRecords := totalRecords + count.value;
        totalOk := totalOk + 1;
      }
    }
  }

  /** The second pass: one "failed" line per function left in the map, in the map's order. */
  method OrphanPass(m: JsMap.OrderedMap<nat>, names: seq<string>, lines0: seq<Line>, records0: nat, ok0: nat, err0: nat)
    returns (lines: seq<Line>, totalRecords: nat, totalOk: nat, totalErr: nat)
    requires JsMap.Valid(m)
    requires forall k :: k in m.entries ==> m.entries[k] == Occurrences(names, k)
    requires records0 == RecordCount(lines0) && ok0 == OkCount(lines0) && err0 == ErrCount(lines0)
    ensures lines == lines0 + OrphanLines(m.keys, names)
    ensures totalRecords == RecordCount(lines) && totalOk == OkCount(lines) && totalErr == ErrCount(lines)
  {
    var orphans := m.keys;
    lines, totalRecords, totalOk, totalErr := lines0, records0, ok0, err0;
    for j := 0 to |orphans|
      invariant lines == lines0 + OrphanLines(orphans[..j], names)
      invariant Tallied(lines, totalRecords, totalOk, totalErr)
    {
      var fn := orphans[j];
      var line := Orphan(fn, m.entries[fn]);
      OrphanStep(orphans, names, j);
      TalliedSnoc(lines, line, totalRecords, totalOk, totalErr);
      lines := lines + [line];
      totalErr := totalErr + 1;
    }
    assert orphans[..|orphans|] == orphans;
  }

  /** The line-building part of the audit: lines and counters for the configurations, then for the unclaimed functions. */
  method BuildLines(configs: seq<AuditConfig>, counts: seq<Option<nat>>, errors: seq<Entry>)
    returns (lines: seq<Line>, totalRecords: nat, totalOk: nat, totalErr: nat)
    requires |configs| == |counts|
    ensures lines == AuditLines(configs, counts, errors)
    ensures totalRecords == RecordCount(lines) && totalOk == OkCount(lines) && totalErr == ErrCount(lines)
  {
    var names := Names(errors);
    var errorsByFn := CountByFunction(errors);
    var left, configLines, records, ok, err := ConfigPass(configs, counts, names, errorsByFn);
    lines, totalRecords, totalOk, totalErr := OrphanPass(left, names, configLines, records, ok, err);
  }

  /** The report for the given lines and counters. */
  function Summarize(lines: seq<Line>, totalRecords: nat, totalOk: nat, totalErr: nat): (s: Summary)
    ensures lines == [] <==> s == NoConfiguration
    ensures s.Report? ==> s.lines == lines && s.color == ReportColor(totalOk, totalErr)
  {
    if lines == [] then NoConfiguration else Report(lines, totalRecords, totalOk, totalErr, ReportColor(totalOk, totalErr))
  }
}
