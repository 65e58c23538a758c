/**
 * The Discord interaction endpoint: request gating (method, configured
 * public key, signature) before the body is read as JSON, dispatch on the
 * interaction type, the `action:param` split of a button's custom id, and
 * the three handlers behind it: `retry_all` (mark the day's rows retrying,
 * re-invoke their jobs one after another, delete the successes and reset
 * the failures to pending), `reject_all` (delete the day's rows) and the
 * `/audit` command. Work the source runs after answering Discord is run
 * here after the answer is computed.
 */
module Interactions {
  import opened Wrappers
  import opened Text
  import opened Calendar
  import opened Edge
  import opened Store
  import opened InteractionStore
  import opened Signature
  import Audit
  import Batcher

  const INTERACTION_PING := 1
  const INTERACTION_APPLICATION_COMMAND := 2
  const INTERACTION_MESSAGE_COMPONENT := 3

  /** The colour of the "invalid button" and "unknown action" updates. */
  const WARNING_COLOR := 0xFFA500

  // ---------------------------------------------------------------------------
  // Button custom ids
  // ---------------------------------------------------------------------------

  /** `action = customId.slice(0, colonIdx)` and `param = customId.slice(colonIdx + 1)`, with `colonIdx = customId.indexOf(":")`. */
  function ParseCustomId(customId: string): (string, string) {
    var colonIdx := IndexOf(customId, ":");
    (Slice(customId, 0, colonIdx), SliceFrom(customId, colonIdx + 1))
  }

  /** An id with a colon splits at its first colon. */
  lemma CustomIdSplitsAtFirstColon(id: string, i: nat)
    requires i < |id| && id[i] == ':' && forall j :: 0 <= j < i ==> id[j] != ':'
    ensures ParseCustomId(id) == (id[..i], id[i + 1..])
  {
    IndexOfFirstChar(id, ':', i);
  }

  /**
   * An id without a colon: `indexOf` gives -1, so the action is the id
   * without its last character and the parameter is the whole id.
   */
  lemma CustomIdWithoutColon(id: string)
    requires forall j :: 0 <= j < |id| ==> id[j] != ':'
    ensures ParseCustomId(id) == (if id == [] then [] else id[..|id| - 1], id)
  {
    IndexOfAbsentChar(id, ':');
    assert SliceFrom(id, 0) == id;
    if id != [] {
      assert RelativeIndex(-1, |id|) == |id| - 1;
    }
  }

  /** What a button press asks for. */
  datatype ButtonAction = Malformed | Retry(date: string) | Reject(date: string) | Unrecognised

  /** The decision on `customId`: an empty action or parameter is malformed, then the two known actions. */
  function ButtonOf(customId: string): ButtonAction {
    var (action, param) := ParseCustomId(customId);
    if action == "" || param == "" then Malformed
    else if action == "retry_all" then Retry(param)
    else if action == "reject_all" then Reject(param)
    else Unrecognised
  }

  /** The ids the notification reports put on their buttons come back as the action and date they name. */
  lemma ReportButtonsRoundTrip(date: string)
    requires date != ""
    ensures ButtonOf(Batcher.RetryId(date)) == Retry(date)
    ensures ButtonOf(Batcher.RejectId(date)) == Reject(date)
  {
    var retry, reject := Batcher.RetryId(date), Batcher.RejectId(date);
    CustomIdSplitsAtFirstColon(retry, 9);
    assert retry[..9] == "retry_all" && retry[10..] == date;
    CustomIdSplitsAtFirstColon(reject, 10);
    assert reject[..10] == "reject_all" && reject[11..] == date;
  }

  /** With a first colon at `i`, the press is malformed exactly when the colon opens or ends the id. */
  lemma ButtonWithColon(id: string, i: nat)
    requires i < |id| && id[i] == ':' && forall j :: 0 <= j < i ==> id[j] != ':'
    ensures ButtonOf(id) == Malformed <==> i == 0 || i == |id| - 1
    ensures 0 < i < |id| - 1 && id[..i] == "retry_all" ==> ButtonOf(id) == Retry(id[i + 1..])
    ensures 0 < i < |id| - 1 && id[..i] == "reject_all" ==> ButtonOf(id) == Reject(id[i + 1..])
  {
    CustomIdSplitsAtFirstColon(id, i);
  }

  /**
   * Without a colon the press is malformed only for ids of at most one
   * character; `retry_all` followed by any one character is a retry whose
   * date is the whole id.
   */
  lemma ButtonWithoutColon(id: string)
    requires forall j :: 0 <= j < |id| ==> id[j] != ':'
    ensures ButtonOf(id) == Malformed <==> |id| <= 1
    ensures |id| >= 2 && id[..|id| - 1] == "retry_all" ==> ButtonOf(id) == Retry(id)
    ensures |id| >= 2 && id[..|id| - 1] == "reject_all" ==> ButtonOf(id) == Reject(id)
  {
    CustomIdWithoutColon(id);
  }

  // ---------------------------------------------------------------------------
  // Answers
  // ---------------------------------------------------------------------------

  /** The informational updates a button press can show. */
  datatype Notice = NothingToRetry(date: string) | Ignored(date: string) | InvalidButtonFormat | UnknownAction

  /** An interaction response. */
  datatype Reply = Pong | DeferredChannelMessage | DeferredUpdate | UpdateMessage(notice: Notice, color: int)

  /** The response types of the interaction protocol. */
  const RESPONSE_PONG := 1
  const RESPONSE_DEFERRED_CHANNEL_MESSAGE := 5
  const RESPONSE_DEFERRED_UPDATE := 6
  const RESPONSE_UPDATE_MESSAGE := 7

  /** The `type` field of a reply: each kind of reply has its own response type. */
  function ReplyType(r: Reply): (t: int)
    ensures t == RESPONSE_PONG <==> r.Pong?
    ensures t == RESPONSE_DEFERRED_CHANNEL_MESSAGE <==> r.DeferredChannelMessage?
    ensures t == RESPONSE_DEFERRED_UPDATE <==> r.DeferredUpdate?
    ensures t == RESPONSE_UPDATE_MESSAGE <==> r.UpdateMessage?
  {
    match r
    case Pong => RESPONSE_PONG
    case DeferredChannelMessage => RESPONSE_DEFERRED_CHANNEL_MESSAGE
    case DeferredUpdate => RESPONSE_DEFERRED_UPDATE
    case UpdateMessage(_, _) => RESPONSE_UPDATE_MESSAGE
  }

  /** What the endpoint answers: a plain-text status, a JSON reply with status 200, or an exception out of the handler. */
  datatype Answer = Plain(status: int, text: string) | Discord(reply: Reply) | Uncaught

  // ---------------------------------------------------------------------------
  // Gating and dispatch
  // ---------------------------------------------------------------------------

  /** The fields of the parsed body the endpoint reads; an absent `data.custom_id` or `data.name` is None. */
  datatype Interaction = Interaction(kind: int, token: string, customId: Option<string>, commandName: Option<string>)

  /** `x ?? ""`. */
  function OrEmpty(o: Option<string>): string {
    match o case Some(s) => s case None => ""
  }

  /** `req.headers.get(name) ?? ""`. */
  function HeaderOrEmpty(req: Request, name: string): string {
    OrEmpty(Header(req, name))
  }

  /** Where a request goes. */
  datatype Route =
    | MethodNotAllowed
    | NoPublicKey
    | BadSignature
    | Unparsable
    | Ping
    | AuditCommand(token: string)
    | UnknownCommand
    | Component(token: string, action: ButtonAction)
    | UnhandledType

  /**
   * The routing of the main handler. `parse` is `JSON.parse` on the raw
   * body followed by the field reads: None when that throws.
   */
  function RouteOf(req: Request, env: Env, crypto: Crypto, parse: string -> Option<Interaction>): (r: Route)
    ensures r == MethodNotAllowed <==> req.httpMethod != "POST"
    ensures r == NoPublicKey <==> req.httpMethod == "POST" && !IsSet(env, "DISCORD_PUBLIC_KEY")
    ensures r == BadSignature <==>
              req.httpMethod == "POST" && IsSet(env, "DISCORD_PUBLIC_KEY")
              && !SignatureAccepted(env["DISCORD_PUBLIC_KEY"], HeaderOrEmpty(req, "x-signature-ed25519"),
                                    HeaderOrEmpty(req, "x-signature-timestamp"), req.body, crypto)
    ensures r == Unparsable ==> parse(req.body).None?
    ensures r.AuditCommand? <==>
              r !in {MethodNotAllowed, NoPublicKey, BadSignature} && parse(req.body).Some?
              && parse(req.body).value.kind == INTERACTION_APPLICATION_COMMAND
              && OrEmpty(parse(req.body).value.commandName) == "audit"
  {
    if req.httpMethod != "POST" then MethodNotAllowed
    else if !IsSet(env, "DISCORD_PUBLIC_KEY") then NoPublicKey
    else if !SignatureAccepted(env["DISCORD_PUBLIC_KEY"], HeaderOrEmpty(req, "x-signature-ed25519"),
                               HeaderOrEmpty(req, "x-signature-timestamp"), req.body, crypto) then BadSignature
    else
      match parse(req.body)
      case None => Unparsable
      case Some(body) => DispatchRoute(body)
  }

  /** Where a parsed interaction past the gate goes, by its type. */
  function DispatchRoute(body: Interaction): (r: Route)
    ensures !Gated(r) && r != Unparsable
  {
    if body.kind == INTERACTION_PING then Ping
    else if body.kind == INTERACTION_APPLICATION_COMMAND then
      (if OrEmpty(body.commandName) == "audit" then AuditCommand(body.token) else UnknownCommand)
    else if body.kind == INTERACTION_MESSAGE_COMPONENT then Component(body.token, ButtonOf(OrEmpty(body.customId)))
    else UnhandledType
  }

  /** A request turned away by the gate. */
  predicate Gated(r: Route) {
    r == MethodNotAllowed || r == NoPublicKey || r == BadSignature
  }

  /**
   * The gate is decided before the body is parsed: whatever the parser
   * would make of the body, a gated request is gated the same way, and a
   * request past the gate is a signed POST.
   */
  lemma GateIgnoresBody(req: Request, env: Env, crypto: Crypto, parse1: string -> Option<Interaction>,
                        parse2: string -> Option<Interaction>)
    ensures Gated(RouteOf(req, env, crypto, parse1)) ==> RouteOf(req, env, crypto, parse2) == RouteOf(req, env, crypto, parse1)
    ensures !Gated(RouteOf(req, env, crypto, parse1)) ==>
              req.httpMethod == "POST" && IsSet(env, "DISCORD_PUBLIC_KEY")
              && SignatureAccepted(env["DISCORD_PUBLIC_KEY"], HeaderOrEmpty(req, "x-signature-ed25519"),
                                   HeaderOrEmpty(req, "x-signature-timestamp"), req.body, crypto)
  {
  }

  /** After the gate: a ping is answered with a pong, any command but `audit` and any other interaction type with 400. */
  lemma DispatchAfterGate(req: Request, env: Env, crypto: Crypto, parse: string -> Option<Interaction>)
    requires !Gated(RouteOf(req, env, crypto, parse)) && parse(req.body).Some?
    ensures parse(req.body).value.kind == INTERACTION_PING ==> RouteOf(req, env, crypto, parse) == Ping
    ensures (parse(req.body).value.kind == INTERACTION_APPLICATION_COMMAND
             && OrEmpty(parse(req.body).value.commandName) != "audit") ==> RouteOf(req, env, crypto, parse) == UnknownCommand
    ensures parse(req.body).value.kind !in {INTERACTION_PING, INTERACTION_APPLICATION_COMMAND, INTERACTION_MESSAGE_COMPONENT}
            ==> RouteOf(req, env, crypto, parse) == UnhandledType
  {
  }

  /** The answer of every route whose answer does not depend on the table. */
  function FixedAnswer(r: Route): (a: Answer)
    requires !(r.Component? && (r.action.Retry? || r.action.Reject?))
    ensures Gated(r) ==> a.Plain? && a.status in {405, 500, 401}
    ensures r == UnknownCommand || r == UnhandledType ==> a.Plain? && a.status == 400
  {
    match r
    case MethodNotAllowed => Plain(405, "Method Not Allowed")
    case NoPublicKey => Plain(500, "Server configuration error")
    case BadSignature => Plain(401, "Invalid request signature")
    case Unparsable => Uncaught
    case Ping => Discord(Pong)
    case AuditCommand(_) => Discord(DeferredChannelMessage)
    case UnknownCommand => Plain(400, "Unknown command")
    case Component(_, action) =>
      if action.Malformed? then Discord(UpdateMessage(InvalidButtonFormat, WARNING_COLOR))
      else Discord(UpdateMessage(UnknownAction, WARNING_COLOR))
    case UnhandledType => Plain(400, "Unhandled interaction type")
  }

  // ---------------------------------------------------------------------------
  // retry_all
  // ---------------------------------------------------------------------------

  /** `FUNCTIONS_BASE_URL` and `FUNCTION_INVOKE_KEY` are both set. */
  predicate JobsConfigured(env: Env) {
    IsSet(env, "FUNCTIONS_BASE_URL") && IsSet(env, "FUNCTION_INVOKE_KEY")
  }

  /** One re-invocation: a POST to the job with the business day in `X-Business-Day`. */
  datatype Invocation = Invocation(functionName: string, businessDay: string)

  /**
   * Whether re-invocation number `i` of a press succeeds: the jobs must be
   * configured, and `outcome(i)` is whether that call answered with a 2xx
   * status (false when it threw).
   */
  predicate JobOk(env: Env, outcome: nat -> bool, i: nat) {
    JobsConfigured(env) && outcome(i)
  }

  /**
   * `retryFunction(functionName, businessDay)` as re-invocation number `i`:
   * without the configuration no call is made and the answer is false;
   * otherwise one call is made and its outcome is the answer.
   */
  method RetryFunction(env: Env, functionName: string, businessDay: string, outcome: nat -> bool, i: nat)
    returns (ok: bool, call: Option<Invocation>)
    ensures call.Some? <==> JobsConfigured(env)
    ensures call.Some? ==> call.value == Invocation(functionName, businessDay)
    ensures ok <==> call.Some? && outcome(i)
  {
    if !IsSet(env, "FUNCTIONS_BASE_URL") || !IsSet(env, "FUNCTION_INVOKE_KEY") {
      return false, None;
    }
    call := Some(Invocation(functionName, businessDay));
    ok := outcome(i);
  }

  /** The names pushed onto `succeeded` for the fetched rows, in order. */
  function Succeeded(errs: seq<Entry>, env: Env, outcome: nat -> bool): seq<string> {
    if errs == [] then []
    else
      Succeeded(errs[..|errs| - 1], env, outcome)
        + (if JobOk(env, outcome, |errs| - 1) then [errs[|errs| - 1].row.functionName] else [])
  }

  /** The names pushed onto `failed` for the fetched rows, in order. */
  function Failed(errs: seq<Entry>, env: Env, outcome: nat -> bool): seq<string> {
    if errs == [] then []
    else
      Failed(errs[..|errs| - 1], env, outcome)
        + (if JobOk(env, outcome, |errs| - 1) then [] else [errs[|errs| - 1].row.functionName])
  }

  /** One call per fetched row, in fetch order, each with the pressed day. */
  function Invocations(errs: seq<Entry>, date: string): (calls: seq<Invocation>)
    ensures |calls| == |errs|
  {
    if errs == [] then [] else Invocations(errs[..|errs| - 1], date) + [Invocation(errs[|errs| - 1].row.functionName, date)]
  }

  /** Each call of the loop, in order, names the row's function and the pressed day. */
  lemma {:induction false} InvocationsInOrder(errs: seq<Entry>, date: string)
    ensures forall i :: 0 <= i < |errs| ==> Invocations(errs, date)[i] == Invocation(errs[i].row.functionName, date)
  {
    if errs != [] {
      InvocationsInOrder(errs[..|errs| - 1], date);
    }
  }

  /**
   * Every fetched row's job lands in exactly one of the two lists: in
   * `succeeded` when its call succeeded, in `failed` otherwise.
   */
  lemma {:induction false} OutcomesPartition(errs: seq<Entry>, env: Env, outcome: nat -> bool)
    ensures |Succeeded(errs, env, outcome)| + |Failed(errs, env, outcome)| == |errs|
    ensures forall i :: 0 <= i < |errs| && JobOk(env, outcome, i) ==> errs[i].row.functionName in Succeeded(errs, env, outcome)
    ensures forall i :: 0 <= i < |errs| && !JobOk(env, outcome, i) ==> errs[i].row.functionName in Failed(errs, env, outcome)
  {
    if errs != [] {
      var init := errs[..|errs| - 1];
      OutcomesPartition(init, env, outcome);
      forall i | 0 <= i < |errs| - 1
        ensures errs[i] == init[i]
      {
      }
    }
  }

  /** No failure exactly when every call succeeded; no success exactly when every call failed. */
  lemma {:induction false} OutcomesEmpty(errs: seq<Entry>, env: Env, outcome: nat -> bool)
    ensures Failed(errs, env, outcome) == [] <==> forall i :: 0 <= i < |errs| ==> JobOk(env, outcome, i)
    ensures Succeeded(errs, env, outcome) == [] <==> forall i :: 0 <= i < |errs| ==> !JobOk(env, outcome, i)
  {
    if errs != [] {
      OutcomesEmpty(errs[..|errs| - 1], env, outcome);
    }
  }

  /** The ids of the fetched rows whose function is among `names`: `errors.filter(e => names.includes(e.function_name)).map(e => e.id)`. */
  function IdsNamed(errs: seq<Entry>, names: seq<string>): seq<int> {
    if errs == [] then []
    else IdsNamed(errs[..|errs| - 1], names) + (if errs[|errs| - 1].row.functionName in names then [errs[|errs| - 1].id] else [])
  }

  lemma {:induction false} IdsNamedMembers(errs: seq<Entry>, names: seq<string>, rows: map<int, ErrorRow>)
    requires RowsOf(errs, rows)
    ensures forall id :: id in IdsNamed(errs, names) ==> id in Ids(errs)
    ensures forall id :: id in Ids(errs) ==> id in rows && (id in IdsNamed(errs, names) <==> rows[id].functionName in names)
  {
    if errs != [] {
      var init, last := errs[..|errs| - 1], errs[|errs| - 1];
      assert errs == init + [last];
      assert forall e :: e in init ==> e in errs;
      IdsNamedMembers(init, names, rows);
      IdsAppend(init, last);
    }
  }

  /** The summary of a press with rows: complete, failed or partial. */
  datatype RetryReport =
    | Complete(date: string, count: nat)
    | AllFailed(date: string, failed: seq<string>)
    | Partial(date: string, succeeded: seq<string>, failed: seq<string>)

  function RetrySummary(date: string, succeeded: seq<string>, failed: seq<string>): RetryReport {
    if failed == [] then Complete(date, |succeeded|)
    else if succeeded == [] then AllFailed(date, failed)
    else Partial(date, succeeded, failed)
  }

  /** Green for a complete backfill, red for a failed one, orange for a partial one. */
  function RetryColor(r: RetryReport): int {
    match r
    case Complete(_, _) => Audit.GREEN
    case AllFailed(_, _) => Audit.RED
    case Partial(_, _, _) => Audit.ORANGE
  }

  /**
   * For the rows a press fetched: the summary is complete exactly when every
   * job succeeded and failed exactly when none did, and without the job
   * configuration it is always failed.
   */
  lemma RetrySummaryMeaning(date: string, errs: seq<Entry>, env: Env, outcome: nat -> bool)
    requires errs != []
    ensures RetrySummary(date, Succeeded(errs, env, outcome), Failed(errs, env, outcome)).Complete?
            <==> forall i :: 0 <= i < |errs| ==> JobOk(env, outcome, i)
    ensures RetrySummary(date, Succeeded(errs, env, outcome), Failed(errs, env, outcome)).AllFailed?
            <==> forall i :: 0 <= i < |errs| ==> !JobOk(env, outcome, i)
    ensures !JobsConfigured(env) ==> RetrySummary(date, Succeeded(errs, env, outcome), Failed(errs, env, outcome)).AllFailed?
  {
    OutcomesEmpty(errs, env, outcome);
    OutcomesPartition(errs, env, outcome);
  }

  /**
   * The clock's readings during a retry: at the mark to retrying, and at the
   * reset of the failed rows to pending. Each PATCH stamps `retried_at`.
   */
  datatype RetryClock = RetryClock(markedAt: int, resetAt: int)

  /**
   * The table after the reconciliation of a press whose rows were fetched:
   * rows of succeeded functions are gone, the other fetched rows are pending
   * again with the reset's stamp, and the rest are untouched.
   */
  ghost predicate Reconciled(before: map<int, ErrorRow>, after: map<int, ErrorRow>, fetched: seq<Entry>, succeeded: seq<string>,
                             resetAt: int) {
    && (forall id :: id in after ==> id in before)
    && (forall id :: id in before && id !in Ids(fetched) ==> id in after && after[id] == before[id])
    && (forall id :: id in before && id in Ids(fetched) && before[id].functionName in succeeded ==> id !in after)
    && (forall id :: id in before && id in Ids(fetched) && before[id].functionName !in succeeded ==>
          id in after && after[id] == before[id].(status := Pending, retriedAt := Some(resetAt)))
  }

  /** The loop of `handleRetryAll`: one call per fetched row, in order, filling the two lists. */
  method RetryLoop(env: Env, errors: seq<Entry>, date: string, outcome: nat -> bool)
    returns (succeeded: seq<string>, failed: seq<string>, calls: seq<Invocation>)
    ensures succeeded == Succeeded(errors, env, outcome) && failed == Failed(errors, env, outcome)
    ensures calls == if JobsConfigured(env) then Invocations(errors, date) else []
  {
    succeeded, failed, calls := [], [], [];
    for i := 0 to |errors|
      invariant succeeded == Succeeded(errors[..i], env, outcome) && failed == Failed(errors[..i], env, outcome)
      invariant calls == if JobsConfigured(env) then Invocations(errors[..i], date) else []
    {
      assert errors[..i + 1][..i] == errors[..i];
      var fn := errors[i].row.functionName;
      var ok, call := RetryFunction(env, fn, date, outcome, i);
      if call.Some? {
        calls := calls + [call.value];
      }
      if ok {
        succeeded := succeeded + [fn];
      } else {
        failed := failed + [fn];
      }
    }
    assert errors[..|errors|] == errors;
  }

  /**
   * `handleRetryAll(date, token)`. With no pending or notified row for the
   * day: a grey notice and nothing else. Otherwise a deferred update, and
   * then: every fetched row is marked retrying and stamped with
   * `clock.markedAt` (`marked` is the table at that point), each row's job
   * is re-invoked once in fetch order, the rows of functions that succeeded
   * are deleted and the others reset to pending with the stamp
   * `clock.resetAt`, and the summary goes to the original message when
   * `DISCORD_APPLICATION_ID` is set.
   */
  method HandleRetryAll(db: Database, env: Env, storeResponds: bool, date: string, outcome: nat -> bool, clock: RetryClock)
    returns (reply: Reply, calls: seq<Invocation>, report: Option<RetryReport>, edited: bool,
             ghost fetched: seq<Entry>, ghost marked: map<int, ErrorRow>)
    requires db.Valid()
    modifies db
    ensures db.Valid() && db.runs == old(db.runs)
    ensures DistinctIds(fetched) && RowsOf(fetched, old(db.errors))
    ensures forall e :: e in fetched ==> AwaitingAction(e.row, date)
    ensures IsSet(env, "SUPABASE_URL") && storeResponds ==>
              forall id :: id in old(db.errors) && AwaitingAction(old(db.errors)[id], date) ==> id in Ids(fetched)
    ensures !(IsSet(env, "SUPABASE_URL") && storeResponds) ==> fetched == []
    ensures fetched == [] ==>
              reply == UpdateMessage(NothingToRetry(date), Audit.GREY) && calls == [] && report == None && !edited
              && db.errors == old(db.errors)
    ensures fetched != [] ==>
              && reply == DeferredUpdate
              && calls == (if JobsConfigured(env) then Invocations(fetched, date) else [])
              && report == Some(RetrySummary(date, Succeeded(fetched, env, outcome), Failed(fetched, env, outcome)))
              && edited == IsSet(env, "DISCORD_APPLICATION_ID")
              && marked.Keys == old(db.errors).Keys
              && (forall id :: id in marked ==>
                    marked[id] == if id in Ids(fetched) then old(db.errors)[id].(status := Retrying, retriedAt := Some(clock.markedAt)) else old(db.errors)[id])
    ensures Reconciled(old(db.errors), db.errors, fetched, Succeeded(fetched, env, outcome), clock.resetAt)
  {
    var errors := FetchErrorsByDate(db, env, storeResponds, date);
    fetched := errors;
    marked := db.errors;
    if |errors| == 0 {
      return UpdateMessage(NothingToRetry(date), Audit.GREY), [], None, false, fetched, marked;
    }
    reply := DeferredUpdate;
    ghost var before := db.errors;
    UpdateStatusByIds(db, env, Ids(errors), Retrying, clock.markedAt);
    marked := db.errors;
    var succeeded, failed;
    succeeded, failed, calls := RetryLoop(env, errors, date, outcome);
    IdsNamedMembers(errors, succeeded, before);
    IdsNamedMembers(errors, failed, before);
    OutcomesPartition(errors, env, outcome);
    var successIds := IdsNamed(errors, succeeded);
    DeleteByIds(db, env, successIds);
    var failedIds := IdsNamed(errors, failed);
    ghost var afterDelete := db.errors;
    UpdateStatusByIds(db, env, failedIds, Pending, clock.resetAt);
    forall id | id in before && id in Ids(errors) && before[id].functionName !in succeeded
      ensures id in failedIds
    {
      var i :| 0 <= i < |errors| && Ids(errors)[i] == id;
      assert errors[i] in errors;
    }
    report := Some(RetrySummary(date, succeeded, failed));
    edited := IsSet(env, "DISCORD_APPLICATION_ID");
  }

  /** A fetched row never stays retrying: after a press a surviving fetched row is pending, stamped at the reset. */
  lemma ReconciledLeavesNothingRetrying(before: map<int, ErrorRow>, after: map<int, ErrorRow>, fetched: seq<Entry>,
                                        succeeded: seq<string>, resetAt: int, id: int)
    requires Reconciled(before, after, fetched, succeeded, resetAt)
    requires id in after && id in Ids(fetched)
    ensures after[id].status == Pending && after[id].retriedAt == Some(resetAt)
  {
  }

  // ---------------------------------------------------------------------------
  // reject_all
  // ---------------------------------------------------------------------------

  /** `handleRejectAll(date)`: the day's pending and notified rows are deleted, then a grey notice. */
  method HandleRejectAll(db: Database, env: Env, date: string) returns (reply: Reply)
    requires db.Valid()
    modifies db
    ensures db.Valid() && db.runs == old(db.runs)
    ensures reply == UpdateMessage(Ignored(date), Audit.GREY)
    ensures forall id :: id in db.errors ==> id in old(db.errors) && db.errors[id] == old(db.errors)[id]
    ensures forall id :: id in old(db.errors) ==>
              (id in db.errors <==> !IsSet(env, "SUPABASE_URL") || !AwaitingAction(old(db.errors)[id], date))
  {
    DeleteByDate(db, env, date);
    reply := UpdateMessage(Ignored(date), Audit.GREY);
  }

  // ---------------------------------------------------------------------------
  // /audit
  // ---------------------------------------------------------------------------

  /** `fetchAuditConfigs`: the active configurations by `sort_order` as the store answers them, or none. */
  function FetchAuditConfigs(env: Env, answer: Option<seq<Audit.AuditConfig>>): (configs: seq<Audit.AuditConfig>)
    ensures configs != [] ==> IsSet(env, "SUPABASE_URL") && answer == Some(configs)
  {
    if IsSet(env, "SUPABASE_URL") && answer.Some? then answer.value else []
  }

  /** The row count of every configuration, in order. */
  function Counts(env: Env, configs: seq<Audit.AuditConfig>, date: string,
                  head: (string, Audit.Filter) -> Option<Option<string>>): (counts: seq<Option<nat>>)
    ensures |counts| == |configs|
    ensures forall i :: 0 <= i < |configs| ==> counts[i] == Audit.CountRecords(env, configs[i], date, head)
  {
    seq(|configs|, i requires 0 <= i < |configs| => Audit.CountRecords(env, configs[i], date, head))
  }

  /**
   * The work behind `/audit`: for yesterday, the configurations, their
   * counts and the day's pending and notified rows make the report's lines,
   * totals and colour. The table is only read.
   */
  method AuditJob(db: Database, env: Env, storeResponds: bool, configAnswer: Option<seq<Audit.AuditConfig>>,
                  head: (string, Audit.Filter) -> Option<Option<string>>, today: CalendarDate)
    returns (date: string, summary: Audit.Summary, ghost errors: seq<Entry>)
    requires db.Valid()
    ensures date == Yesterday(today)
    ensures DistinctIds(errors) && RowsOf(errors, db.errors) && forall e :: e in errors ==> AwaitingAction(e.row, date)
    ensures IsSet(env, "SUPABASE_URL") && storeResponds ==>
              forall id :: id in db.errors && AwaitingAction(db.errors[id], date) ==> id in Ids(errors)
    ensures !(IsSet(env, "SUPABASE_URL") && storeResponds) ==> errors == []
    ensures var configs := FetchAuditConfigs(env, configAnswer);
            var lines := Audit.AuditLines(configs, Counts(env, configs, date, head), errors);
            summary == Audit.Summarize(lines, Audit.RecordCount(lines), Audit.OkCount(lines), Audit.ErrCount(lines))
    ensures summary == Audit.NoConfiguration <==> FetchAuditConfigs(env, configAnswer) == [] && errors == []
  {
    date := Yesterday(today);
    var configs := FetchAuditConfigs(env, configAnswer);
    var fetched := FetchErrorsByDate(db, env, storeResponds, date);
    errors := fetched;
    var counts := Counts(env, configs, date, head);
    var lines, totalRecords, totalOk, totalErr := Audit.BuildLines(configs, counts, fetched);
    Audit.NoLinesIff(configs, counts, fetched);
    summary := Audit.Summarize(lines, totalRecords, totalOk, totalErr);
  }

  // ---------------------------------------------------------------------------
  // The endpoint
  // ---------------------------------------------------------------------------

  /** The background work's edit of the original message, if any. */
  datatype Edit = NoEdit | RetryEdit(token: string, report: RetryReport) | AuditEdit(token: string, date: string, summary: Audit.Summary)

  /** The audit report of `date` over the configurations the store answers and the day's rows `errors`. */
  function AuditSummary(env: Env, configAnswer: Option<seq<Audit.AuditConfig>>,
                        head: (string, Audit.Filter) -> Option<Option<string>>, date: string,
                        errors: seq<Entry>): Audit.Summary
  {
    var configs := FetchAuditConfigs(env, configAnswer);
    var lines := Audit.AuditLines(configs, Counts(env, configs, date, head), errors);
    Audit.Summarize(lines, Audit.RecordCount(lines), Audit.OkCount(lines), Audit.ErrCount(lines))
  }

  /**
   * What `/audit` amounts to, with `errors` the rows the store answered for
   * yesterday: a deferred reply, and the report of yesterday over all of
   * that day's pending and notified rows edited into the message when
   * `DISCORD_APPLICATION_ID` is set.
   */
  ghost predicate AuditOutcome(rows: map<int, ErrorRow>, env: Env, storeResponds: bool, token: string,
                               configAnswer: Option<seq<Audit.AuditConfig>>,
                               head: (string, Audit.Filter) -> Option<Option<string>>, today: CalendarDate,
                               errors: seq<Entry>, answer: Answer, edit: Edit)
  {
    && answer == Discord(DeferredChannelMessage)
    && DistinctIds(errors) && RowsOf(errors, rows)
    && (forall e :: e in errors ==> AwaitingAction(e.row, Yesterday(today)))
    && (IsSet(env, "SUPABASE_URL") && storeResponds ==>
          forall id :: id in rows && AwaitingAction(rows[id], Yesterday(today)) ==> id in Ids(errors))
    && (!(IsSet(env, "SUPABASE_URL") && storeResponds) ==> errors == [])
    && edit == if IsSet(env, "DISCORD_APPLICATION_ID")
               then AuditEdit(token, Yesterday(today), AuditSummary(env, configAnswer, head, Yesterday(today), errors))
               else NoEdit
  }

  /**
   * What a `retry_all:date` press amounts to, with `fetched` the rows the
   * store answered for the day: nothing to retry gives a grey notice and no
   * work at all; otherwise a deferred update, one call per row, the
   * reconciliation of the table and the summary edited into the message.
   */
  ghost predicate RetryOutcome(before: map<int, ErrorRow>, after: map<int, ErrorRow>, env: Env, storeResponds: bool,
                               date: string, token: string, outcome: nat -> bool, clock: RetryClock, fetched: seq<Entry>,
                               answer: Answer, calls: seq<Invocation>, edit: Edit)
  {
    && DistinctIds(fetched) && RowsOf(fetched, before)
    && (forall e :: e in fetched ==> AwaitingAction(e.row, date))
    && (IsSet(env, "SUPABASE_URL") && storeResponds ==>
          forall id :: id in before && AwaitingAction(before[id], date) ==> id in Ids(fetched))
    && (!(IsSet(env, "SUPABASE_URL") && storeResponds) ==> fetched == [])
    && (fetched == [] ==>
          answer == Discord(UpdateMessage(NothingToRetry(date), Audit.GREY)) && calls == [] && edit == NoEdit
          && after == before)
    && (fetched != [] ==>
          && answer == Discord(DeferredUpdate)
          && calls == (if JobsConfigured(env) then Invocations(fetched, date) else [])
          && edit == if IsSet(env, "DISCORD_APPLICATION_ID")
                     then RetryEdit(token, RetrySummary(date, Succeeded(fetched, env, outcome), Failed(fetched, env, outcome)))
                     else NoEdit)
    && Reconciled(before, after, fetched, Succeeded(fetched, env, outcome), clock.resetAt)
  }

  /** What a `reject_all:date` press amounts to: the day's pending and notified rows go, and a grey notice. */
  ghost predicate RejectOutcome(before: map<int, ErrorRow>, after: map<int, ErrorRow>, env: Env, date: string,
                                answer: Answer, calls: seq<Invocation>, edit: Edit)
  {
    && answer == Discord(UpdateMessage(Ignored(date), Audit.GREY)) && calls == [] && edit == NoEdit
    && (forall id :: id in after ==> id in before && after[id] == before[id])
    && (forall id :: id in before ==> (id in after <==> !IsSet(env, "SUPABASE_URL") || !AwaitingAction(before[id], date)))
  }

  /**
   * What the endpoint does on route `r`: the two buttons as above, `/audit`
   * as above and without a write, and every other route its fixed answer
   * with no call, no edit and no write.
   */
  ghost predicate ServedAs(r: Route, before: map<int, ErrorRow>, after: map<int, ErrorRow>, env: Env, storeResponds: bool,
                           outcome: nat -> bool, clock: RetryClock, configAnswer: Option<seq<Audit.AuditConfig>>,
                           head: (string, Audit.Filter) -> Option<Option<string>>, today: CalendarDate,
                           answer: Answer, calls: seq<Invocation>, edit: Edit, rows: seq<Entry>)
  {
    match r
    case Component(token, Retry(date)) =>
      RetryOutcome(before, after, env, storeResponds, date, token, outcome, clock, rows, answer, calls, edit)
    case Component(_, Reject(date)) =>
      RejectOutcome(before, after, env, date, answer, calls, edit)
    case AuditCommand(token) =>
      AuditOutcome(before, env, storeResponds, token, configAnswer, head, today, rows, answer, edit)
      && calls == [] && after == before
    case _ =>
      answer == FixedAnswer(r) && calls == [] && edit == NoEdit && after == before
  }

  lemma FirstFetched(fetched: seq<Entry>)
    requires fetched != []
    ensures fetched[0] in fetched
  {
  }

  /**
   * A retry of a day with no pending or notified row, or one whose read of
   * the store is unset or fails, is answered with the grey notice and does
   * nothing else: no call, no edit, no write.
   */
  lemma QuietDayRetry(before: map<int, ErrorRow>, after: map<int, ErrorRow>, env: Env, storeResponds: bool,
                      date: string, token: string, outcome: nat -> bool, clock: RetryClock, fetched: seq<Entry>,
                      answer: Answer, calls: seq<Invocation>, edit: Edit)
    requires RetryOutcome(before, after, env, storeResponds, date, token, outcome, clock, fetched, answer, calls, edit)
    requires (forall id :: id in before ==> !AwaitingAction(before[id], date)) || !(IsSet(env, "SUPABASE_URL") && storeResponds)
    ensures answer == Discord(UpdateMessage(NothingToRetry(date), Audit.GREY)) && calls == [] && edit == NoEdit
    ensures after == before
  {
    if fetched != [] {
      FirstFetched(fetched);
      assert false;
    }
  }

  /**
   * The `/audit` command: a deferred reply at once, then the report for
   * yesterday edits it when `DISCORD_APPLICATION_ID` is set.
   */
  method ServeAudit(db: Database, env: Env, storeResponds: bool, token: string,
                    configAnswer: Option<seq<Audit.AuditConfig>>, head: (string, Audit.Filter) -> Option<Option<string>>,
                    today: CalendarDate)
    returns (answer: Answer, edit: Edit, ghost errors: seq<Entry>)
    requires db.Valid()
    ensures AuditOutcome(db.errors, env, storeResponds, token, configAnswer, head, today, errors, answer, edit)
  {
    answer := Discord(DeferredChannelMessage);
    var date, summary;
    date, summary, errors := AuditJob(db, env, storeResponds, configAnswer, head, today);
    edit := if IsSet(env, "DISCORD_APPLICATION_ID") then AuditEdit(token, date, summary) else NoEdit;
  }

  /**
   * A button press: the custom id's action decides; a retry or a rejection
   * works on the table, anything else is answered with a warning. `fetched`
   * is what the store answered for a retried day.
   */
  method ServeComponent(db: Database, env: Env, storeResponds: bool, token: string, action: ButtonAction,
                        outcome: nat -> bool, clock: RetryClock)
    returns (answer: Answer, calls: seq<Invocation>, edit: Edit, ghost fetched: seq<Entry>)
    requires db.Valid()
    modifies db
    ensures db.Valid() && db.runs == old(db.runs)
    ensures forall id :: id in db.errors ==>
              id in old(db.errors) && (db.errors[id] == old(db.errors)[id]
                                       || db.errors[id] == old(db.errors)[id].(status := Pending, retriedAt := Some(clock.resetAt)))
    ensures !(action.Retry? || action.Reject?) ==>
              answer == FixedAnswer(Component(token, action)) && calls == [] && edit == NoEdit && db.errors == old(db.errors)
    ensures action.Reject? ==> RejectOutcome(old(db.errors), db.errors, env, action.date, answer, calls, edit)
    ensures action.Retry? ==>
              RetryOutcome(old(db.errors), db.errors, env, storeResponds, action.date, token, outcome, clock, fetched, answer, calls, edit)
  {
    fetched := [];
    match action
    case Malformed =>
      return Discord(UpdateMessage(InvalidButtonFormat, WARNING_COLOR)), [], NoEdit, fetched;
    case Retry(date) =>
      var reply, report, edited;
      ghost var marked;
      reply, calls, report, edited, fetched, marked := HandleRetryAll(db, env, storeResponds, date, outcome, clock);
      answer := Discord(reply);
      edit := if edited then RetryEdit(token, report.value) else NoEdit;
    case Reject(date) =>
      var reply := HandleRejectAll(db, env, date);
      return Discord(reply), [], NoEdit, fetched;
    case Unrecognised =>
      return Discord(UpdateMessage(UnknownAction, WARNING_COLOR)), [], NoEdit, fetched;
  }

  /**
   * The checks before dispatch, in order: the method, the public key, the
   * signature over timestamp and body, and the parse of the body. The
   * answer of the first that fails, or None when the request goes through.
   */
  method Gate(req: Request, env: Env, crypto: Crypto, parse: string -> Option<Interaction>)
    returns (turnedAway: Option<Answer>)
    ensures turnedAway.Some? <==> Gated(RouteOf(req, env, crypto, parse)) || RouteOf(req, env, crypto, parse) == Unparsable
    ensures turnedAway.Some? ==> turnedAway.value == FixedAnswer(RouteOf(req, env, crypto, parse))
    ensures turnedAway.None? ==> parse(req.body).Some? && RouteOf(req, env, crypto, parse) == DispatchRoute(parse(req.body).value)
  {
    if req.httpMethod != "POST" {
      return Some(Plain(405, "Method Not Allowed"));
    }
    if !IsSet(env, "DISCORD_PUBLIC_KEY") {
      return Some(Plain(500, "Server configuration error"));
    }
    var publicKey := env["DISCORD_PUBLIC_KEY"];
    var signature := HeaderOrEmpty(req, "x-signature-ed25519");
    var timestamp := HeaderOrEmpty(req, "x-signature-timestamp");
    var isValid := VerifySignature(publicKey, signature, timestamp, req.body, crypto);
    if !isValid {
      return Some(Plain(401, "Invalid request signature"));
    }
    if parse(req.body).None? {
      return Some(Uncaught);
    }
    return None;
  }

  /**
   * The handler past the gate, on the parsed interaction: a ping, a
   * command or a button press, and anything else turned away with 400.
   */
  method Dispatch(db: Database, env: Env, storeResponds: bool, body: Interaction, outcome: nat -> bool, clock: RetryClock,
                  configAnswer: Option<seq<Audit.AuditConfig>>, head: (string, Audit.Filter) -> Option<Option<string>>,
                  today: CalendarDate)
    returns (answer: Answer, calls: seq<Invocation>, edit: Edit, ghost rows: seq<Entry>)
    requires db.Valid()
    modifies db
    ensures db.Valid() && db.runs == old(db.runs)
    ensures forall id :: id in db.errors ==>
              id in old(db.errors) && (db.errors[id] == old(db.errors)[id]
                                       || db.errors[id] == old(db.errors)[id].(status := Pending, retriedAt := Some(clock.resetAt)))
    ensures ServedAs(DispatchRoute(body), old(db.errors), db.errors, env, storeResponds, outcome, clock,
                     configAnswer, head, today, answer, calls, edit, rows)
  {
    rows := [];
    if body.kind == INTERACTION_PING {
      return Discord(Pong), [], NoEdit, rows;
    }
    if body.kind == INTERACTION_APPLICATION_COMMAND {
      if OrEmpty(body.commandName) == "audit" {
        answer, edit, rows := ServeAudit(db, env, storeResponds, body.token, configAnswer, head, today);
        calls := [];
        return;
      }
      return Plain(400, "Unknown command"), [], NoEdit, rows;
    }
    if body.kind == INTERACTION_MESSAGE_COMPONENT {
      var action := ButtonOf(OrEmpty(body.customId));
      answer, calls, edit, rows := ServeComponent(db, env, storeResponds, body.token, action, outcome, clock);
      return;
    }
    return Plain(400, "Unhandled interaction type"), [], NoEdit, rows;
  }

  /**
   * The main handler on one request, with its background work run to the
   * end: `calls` are the jobs it re-invokes, `edit` the edit of the original
   * message, and `rows` what the store answered for the audited or retried
   * day. The endpoint never adds rows: every row that survives is unchanged
   * or, after a retry, back to pending with the reset's `retried_at` stamp;
   * only the two buttons touch the
   * table at all.
   */
  method Serve(db: Database, env: Env, storeResponds: bool, req: Request, crypto: Crypto,
               parse: string -> Option<Interaction>, outcome: nat -> bool, clock: RetryClock,
               configAnswer: Option<seq<Audit.AuditConfig>>, head: (string, Audit.Filter) -> Option<Option<string>>,
               today: CalendarDate)
    returns (answer: Answer, calls: seq<Invocation>, edit: Edit, ghost rows: seq<Entry>)
    requires db.Valid()
    modifies db
    ensures db.Valid() && db.runs == old(db.runs)
    ensures forall id :: id in db.errors ==>
              id in old(db.errors) && (db.errors[id] == old(db.errors)[id]
                                       || db.errors[id] == old(db.errors)[id].(status := Pending, retriedAt := Some(clock.resetAt)))
    ensures ServedAs(RouteOf(req, env, crypto, parse), old(db.errors), db.errors, env, storeResponds, outcome, clock,
                     configAnswer, head, today, answer, calls, edit, rows)
    ensures var r := RouteOf(req, env, crypto, parse);
            r.Component? && r.action.Retry?
            && ((forall id :: id in old(db.errors) ==> !AwaitingAction(old(db.errors)[id], r.action.date))
                || !(IsSet(env, "SUPABASE_URL") && storeResponds)) ==>
              answer == Discord(UpdateMessage(NothingToRetry(r.action.date), Audit.GREY)) && calls == [] && edit == NoEdit
              && db.errors == old(db.errors)
  {
    var turnedAway := Gate(req, env, crypto, parse);
    if turnedAway.Some? {
      return turnedAway.value, [], NoEdit, [];
    }
    var body := parse(req.body).value;
    answer, calls, edit, rows := Dispatch(db, env, storeResponds, body, outcome, clock, configAnswer, head, today);
    if body.kind == INTERACTION_MESSAGE_COMPONENT {
      var action := ButtonOf(OrEmpty(body.customId));
      if action.Retry? && ((forall id :: id in old(db.errors) ==> !AwaitingAction(old(db.errors)[id], action.date))
                           || !(IsSet(env, "SUPABASE_URL") && storeResponds)) {
        QuietDayRetry(old(db.errors), db.errors, env, storeResponds, action.date, body.token, outcome, clock, rows, answer, calls, edit);
      }
    }
  }


}
