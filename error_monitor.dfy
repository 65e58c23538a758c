/**
 * The error-capture gateway every monitored edge function goes through:
 * it decides the business day a request is about, turns whatever a
 * handler throws into an `Error`, files it as a `pending` row of the error
 * table, records successful runs in `function_runs`, and wraps a handler so
 * that a throw becomes a generic 500 response.
 *
 * The clock is an input: `today` is the current UTC calendar date and
 * `now` the current instant in milliseconds. Whether the store accepts an
 * insert is the input `accepted`.
 */
module ErrorMonitor {
  import opened Wrappers
  import opened Text
  import opened Calendar
  import opened Edge
  import opened Store

  const DEFAULT_PROJECT_NAME := "Proyecto Desconocido"
  const BUSINESS_DAY_HEADER := "x-business-day"
  const BUSINESS_DAY_PARAM := "business_day"
  const INTERNAL_ERROR_TEXT := "Internal Server Error"

  /** A JavaScript `Error` object, as far as this module reads it. */
  datatype ErrorObject = ErrorObject(name: string, message: string, stack: Option<string>)

  /** A thrown value: an `Error` instance, or any other value given by its `String(v)` text. */
  datatype Thrown = ErrorInstance(error: ErrorObject) | OtherValue(asString: string)

  /** What a handler does with a request: returns a response or throws. */
  datatype HandlerOutcome = Returned(response: Response) | Threw(thrown: Thrown)

  // ---------------------------------------------------------------------------
  // Business day
  // ---------------------------------------------------------------------------

  /** A header or query value counts only when it is not empty (JavaScript truthiness). */
  predicate Given(v: Option<string>) {
    v.Some? && v.value != ""
  }

  /** `getBusinessDay(req)`: a non-empty header wins over a non-empty query parameter, which wins over yesterday. */
  function GetBusinessDay(req: Request, today: CalendarDate): (r: string)
    ensures r != ""
    ensures Given(Header(req, BUSINESS_DAY_HEADER)) ==> r == Header(req, BUSINESS_DAY_HEADER).value
    ensures !Given(Header(req, BUSINESS_DAY_HEADER)) && Given(QueryParam(req.query, BUSINESS_DAY_PARAM))
            ==> r == QueryParam(req.query, BUSINESS_DAY_PARAM).value
    ensures !Given(Header(req, BUSINESS_DAY_HEADER)) && !Given(QueryParam(req.query, BUSINESS_DAY_PARAM))
            ==> r == Yesterday(today)
  {
    var fromHeader := Header(req, BUSINESS_DAY_HEADER);
    var fromQuery := QueryParam(req.query, BUSINESS_DAY_PARAM);
    if Given(fromHeader) then fromHeader.value
    else if Given(fromQuery) then fromQuery.value
    else
      assert |Yesterday(today)| > 0 by {
        assert Yesterday(today)[|IntToString(PrevDay(today).year)|] == '-';
      }
      Yesterday(today)
  }

  /** An empty header does not hide the query parameter, and the result is always one of the three sources. */
  lemma BusinessDaySources(req: Request, today: CalendarDate)
    ensures var r := GetBusinessDay(req, today);
            Header(req, BUSINESS_DAY_HEADER) == Some(r)
            || QueryParam(req.query, BUSINESS_DAY_PARAM) == Some(r)
            || r == Yesterday(today)
    ensures Header(req, BUSINESS_DAY_HEADER) == Some("") && Given(QueryParam(req.query, BUSINESS_DAY_PARAM))
            ==> GetBusinessDay(req, today) == QueryParam(req.query, BUSINESS_DAY_PARAM).value
  {
  }

  // ---------------------------------------------------------------------------
  // Error normalisation
  // ---------------------------------------------------------------------------

  /** `String(error)` for an `Error`: `Error.prototype.toString`. */
  function ErrorToString(e: ErrorObject): (r: string)
    ensures r == "" <==> e.name == "" && e.message == ""
    ensures |e.message| <= |r| && r[|r| - |e.message|..] == e.message
    ensures |e.name| <= |r| && r[..|e.name|] == e.name
  {
    if e.name == "" then e.message
    else if e.message == "" then e.name
    else e.name + ": " + e.message
  }

  /** `error.message || String(error)`: the text filed as `error_message`. */
  function ErrorMessageText(e: ErrorObject): (r: string)
    ensures e.message != "" ==> r == e.message
    ensures e.message == "" ==> r == ErrorToString(e)
    ensures r != "" <==> e.message != "" || e.name != ""
  {
    if e.message != "" then e.message else ErrorToString(e)
  }

  /**
   * `toError(v)`: an `Error` passes through unchanged; anything else becomes
   * `new Error(String(v))`, whose stack is the one the runtime captures.
   */
  function ToError(v: Thrown, capturedStack: Option<string>): (r: ErrorObject)
    ensures v.ErrorInstance? ==> r == v.error
    ensures v.OtherValue? ==> r.name == "Error" && r.message == v.asString
  {
    match v
    case ErrorInstance(e) => e
    case OtherValue(text) => ErrorObject("Error", text, capturedStack)
  }

  /** Normalising twice changes nothing, and a wrapped value never files an empty message. */
  lemma ToErrorNormalises(v: Thrown, capturedStack: Option<string>)
    ensures ToError(ErrorInstance(ToError(v, capturedStack)), capturedStack) == ToError(v, capturedStack)
    ensures v.OtherValue? ==> ErrorMessageText(ToError(v, capturedStack)) != ""
    ensures v.OtherValue? && v.asString == "" ==> ErrorMessageText(ToError(v, capturedStack)) == "Error"
  {
  }

  /** The row `saveErrorInSupabase` posts. */
  function ErrorPayload(functionName: string, projectName: string, e: ErrorObject, businessDay: string, now: int): (r: ErrorRow)
    ensures r.status == Pending
    ensures r.functionName == functionName && r.projectName == projectName
    ensures r.businessDay == Some(businessDay) && r.occurredAt == now
    ensures r.errorMessage == ErrorMessageText(e) && r.errorStack == e.stack
    ensures r.retriedAt == None
  {
    ErrorRow(projectName, functionName, ErrorMessageText(e), e.stack, now, Some(businessDay), Pending, None)
  }

  /** A filed error awaits the operator on its business day and is picked up by the next batch. */
  lemma FiledErrorAwaitsAction(functionName: string, projectName: string, e: ErrorObject, businessDay: string, now: int)
    ensures AwaitingAction(ErrorPayload(functionName, projectName, e, businessDay, now), businessDay)
    ensures forall d :: d != businessDay ==> !AwaitingAction(ErrorPayload(functionName, projectName, e, businessDay, now), d)
  {
  }

  /** The store credentials `saveErrorInSupabase` and `saveRunInSupabase` need. */
  predicate StoreConfigured(env: Env) {
    IsSet(env, "SUPABASE_URL") && IsSet(env, "SUPABASE_SERVICE_ROLE_KEY")
  }

  // ---------------------------------------------------------------------------
  // Persistence
  // ---------------------------------------------------------------------------

  /**
   * `saveErrorInSupabase`: without credentials, or when the store refuses
   * the insert, nothing is stored and the result is None; otherwise the
   * payload is stored under a fresh id, which is returned.
   */
  method SaveError(db: Database, env: Env, accepted: bool, functionName: string, projectName: string,
                   e: ErrorObject, businessDay: string, now: int) returns (id: Option<int>)
    requires db.Valid()
    modifies db
    ensures db.Valid() && db.runs == old(db.runs)
    ensures !(StoreConfigured(env) && accepted) ==> id == None && db.errors == old(db.errors)
    ensures StoreConfigured(env) && accepted ==>
              id.Some? && id.value !in old(db.errors)
              && db.errors == old(db.errors)[id.value := ErrorPayload(functionName, projectName, e, businessDay, now)]
  {
    if !StoreConfigured(env) || !accepted {
      return None;
    }
    var newId := db.InsertError(ErrorPayload(functionName, projectName, e, businessDay, now));
    return Some(newId);
  }

  /** `saveRunInSupabase`: appends one `function_runs` row when configured and accepted; the error table is never touched. */
  method SaveRun(db: Database, env: Env, accepted: bool, functionName: string, projectName: string,
                 recordCount: int, businessDay: string, now: int)
    requires db.Valid()
    modifies db
    ensures db.Valid() && db.errors == old(db.errors)
    ensures StoreConfigured(env) && accepted ==>
              db.runs == old(db.runs) + [RunRow(projectName, functionName, businessDay, recordCount, now)]
    ensures !(StoreConfigured(env) && accepted) ==> db.runs == old(db.runs)
  {
    if StoreConfigured(env) && accepted {
      db.AppendRun(RunRow(projectName, functionName, businessDay, recordCount, now));
    }
  }

  /** `businessDay ?? yesterday`: only an omitted day defaults; an empty one is kept. */
  function ResolveBusinessDay(businessDay: Option<string>, today: CalendarDate): (r: string)
    ensures businessDay.Some? ==> r == businessDay.value
    ensures businessDay.None? ==> r == Yesterday(today)
  {
    if businessDay.Some? then businessDay.value else Yesterday(today)
  }

  /** `notifyError`: files the error under the project named by `PROJECT_NAME`. */
  method NotifyError(db: Database, env: Env, accepted: bool, functionName: string, e: ErrorObject,
                     businessDay: Option<string>, today: CalendarDate, now: int)
    requires db.Valid()
    modifies db
    ensures db.Valid() && db.runs == old(db.runs)
    ensures !(StoreConfigured(env) && accepted) ==> db.errors == old(db.errors)
    ensures StoreConfigured(env) && accepted ==>
              exists id :: id !in old(db.errors)
                && db.errors == old(db.errors)[id := ErrorPayload(functionName, EnvOr(env, "PROJECT_NAME", DEFAULT_PROJECT_NAME),
                                                                 e, ResolveBusinessDay(businessDay, today), now)]
  {
    var projectName := EnvOr(env, "PROJECT_NAME", DEFAULT_PROJECT_NAME);
    var id := SaveError(db, env, accepted, functionName, projectName, e, ResolveBusinessDay(businessDay, today), now);
    if id.Some? {
      var row := ErrorPayload(functionName, projectName, e, ResolveBusinessDay(businessDay, today), now);
      var k := id.value;
      assert k !in old(db.errors) && db.errors == old(db.errors)[k := row];
    }
  }

  /** `notifySuccess`: records the run's `record_count`; the error table is never touched. */
  method NotifySuccess(db: Database, env: Env, accepted: bool, functionName: string, recordCount: int,
                       businessDay: Option<string>, today: CalendarDate, now: int)
    requires db.Valid()
    modifies db
    ensures db.Valid() && db.errors == old(db.errors)
    ensures StoreConfigured(env) && accepted ==>
              db.runs == old(db.runs) + [RunRow(EnvOr(env, "PROJECT_NAME", DEFAULT_PROJECT_NAME), functionName,
                                                ResolveBusinessDay(businessDay, today), recordCount, now)]
    ensures !(StoreConfigured(env) && accepted) ==> db.runs == old(db.runs)
  {
    var projectName := EnvOr(env, "PROJECT_NAME", DEFAULT_PROJECT_NAME);
    SaveRun(db, env, accepted, functionName, projectName, recordCount, ResolveBusinessDay(businessDay, today), now);
  }

  // ---------------------------------------------------------------------------
  // The wrapper
  // ---------------------------------------------------------------------------

  /** The 500 response a monitored function returns after a throw: it names the function, not the error. */
  function InternalError(functionName: string): (r: Response)
    ensures r.status == 500
    ensures r.body.JsonObject? && |r.body.fields| == 2
    ensures r.body.fields[0] == ("error", INTERNAL_ERROR_TEXT) && r.body.fields[1] == ("function_name", functionName)
  {
    Response(500, JsonObject([("error", INTERNAL_ERROR_TEXT), ("function_name", functionName)]))
  }

  /**
   * `withErrorMonitoring(functionName, handler)` applied to one request: a
   * response the handler returns passes through and nothing is filed; a
   * throw is normalised and filed as one pending row on the request's
   * business day, and the caller gets the generic 500.
   */
  method WithErrorMonitoring(db: Database, env: Env, accepted: bool, functionName: string,
                             handler: Request -> HandlerOutcome, req: Request,
                             today: CalendarDate, now: int, capturedStack: Option<string>)
    returns (resp: Response)
    requires db.Valid()
    modifies db
    ensures db.Valid() && db.runs == old(db.runs)
    ensures handler(req).Returned? ==> resp == handler(req).response && db.errors == old(db.errors)
    ensures handler(req).Threw? ==> resp == InternalError(functionName)
    ensures handler(req).Threw? && StoreConfigured(env) && accepted ==>
              exists id :: id !in old(db.errors)
                && db.errors == old(db.errors)[id := ErrorPayload(functionName, EnvOr(env, "PROJECT_NAME", DEFAULT_PROJECT_NAME),
                                                                 ToError(handler(req).thrown, capturedStack),
                                                                 GetBusinessDay(req, today), now)]
    ensures handler(req).Threw? && !(StoreConfigured(env) && accepted) ==> db.errors == old(db.errors)
  {
    var outcome := handler(req);
    match outcome {
      case Returned(response) =>
        return response;
      case Threw(thrown) =>
        var normalized := ToError(thrown, capturedStack);
        var businessDay := GetBusinessDay(req, today);
        NotifyError(db, env, accepted, functionName, normalized, Some(businessDay), today, now);
        return InternalError(functionName);
    }
  }
}
