/**
 * The demonstration job `test-alerta`: a monitored edge function that
 * answers on three paths, throws on demand (`fail=1`) so the alerting
 * chain can be exercised, and otherwise reports the business day it would
 * have processed.
 */
module TestAlerta {
  import opened Wrappers
  import opened Text
  import opened Calendar
  import opened Edge
  import opened Store
  import opened ErrorMonitor

  const FUNCTION_NAME := "test-alerta"
  const ALLOWED_PATHS: set<string> := {"/", "/test-alerta", "/functions/v1/test-alerta"}
  const FAIL_MESSAGE_PREFIX := "Fallo de prueba para Discord (businessDay: "

  /** The message of the error thrown for `fail=1` on `businessDay`. */
  function FailMessage(businessDay: string): (m: string)
    ensures OccursAt(m, businessDay, |FAIL_MESSAGE_PREFIX|)
  {
    var m := FAIL_MESSAGE_PREFIX + businessDay + ")";
    assert m[|FAIL_MESSAGE_PREFIX|..|FAIL_MESSAGE_PREFIX| + |businessDay|] == businessDay;
    m
  }

  /** A request that asks the job to fail: the first `fail` parameter is exactly "1". */
  predicate AsksToFail(req: Request) {
    QueryParam(req.query, "fail") == Some("1")
  }

  /**
   * The unwrapped handler: an unknown path is 404 whatever the query says;
   * on a known path `fail=1` throws an `Error` naming the business day, and
   * anything else is 200 with that business day in the body.
   */
  function Handle(req: Request, today: CalendarDate, capturedStack: Option<string>): (r: HandlerOutcome)
    ensures req.pathname !in ALLOWED_PATHS ==> r == Returned(Response(404, PlainText("Not Found")))
    ensures req.pathname in ALLOWED_PATHS && AsksToFail(req) ==>
              r.Threw? && r.thrown.ErrorInstance?
              && r.thrown.error.name == "Error"
              && Includes(r.thrown.error.message, GetBusinessDay(req, today))
    ensures req.pathname in ALLOWED_PATHS && !AsksToFail(req) ==>
              r.Returned? && r.response.status == 200 && r.response.body.JsonObject?
              && ("business_day", GetBusinessDay(req, today)) in r.response.body.fields
  {
    if req.pathname !in ALLOWED_PATHS then
      Returned(Response(404, PlainText("Not Found")))
    else
      var businessDay := GetBusinessDay(req, today);
      if AsksToFail(req) then
        IncludesIffOccurs(FailMessage(businessDay), businessDay, |FAIL_MESSAGE_PREFIX|);
        Threw(ErrorInstance(ErrorObject("Error", FailMessage(businessDay), capturedStack)))
      else
        Returned(Response(200, JsonObject([("message", "Alerta procesada"), ("business_day", businessDay)])))
  }

  /** The row filed for a failure on `businessDay`: the wrapper's payload for the thrown error. */
  function FiledRow(env: Env, businessDay: string, now: int, capturedStack: Option<string>): ErrorRow {
    ErrorPayload(FUNCTION_NAME, EnvOr(env, "PROJECT_NAME", DEFAULT_PROJECT_NAME),
                 ErrorObject("Error", FailMessage(businessDay), capturedStack), businessDay, now)
  }

  /**
   * The filed row is a pending `test-alerta` row of the project, on the
   * business day, whose message is the thrown one naming that day.
   */
  lemma FiledRowContents(env: Env, businessDay: string, now: int, capturedStack: Option<string>)
    ensures var row := FiledRow(env, businessDay, now, capturedStack);
            && row.status == Pending && row.functionName == FUNCTION_NAME
            && row.projectName == EnvOr(env, "PROJECT_NAME", DEFAULT_PROJECT_NAME)
            && row.businessDay == Some(businessDay) && row.occurredAt == now && row.errorStack == capturedStack
            && row.errorMessage == FailMessage(businessDay) && row.retriedAt == None
            && Includes(row.errorMessage, businessDay)
  {
    IncludesIffOccurs(FailMessage(businessDay), businessDay, |FAIL_MESSAGE_PREFIX|);
  }

  /**
   * `Deno.serve(withErrorMonitoring("test-alerta", handler))` on one request.
   * Unknown paths are 404 with nothing filed; `fail=1` on a known path files
   * one pending `test-alerta` row for the request's business day and answers
   * the generic 500; anything else is 200 with nothing filed.
   */
  method Serve(db: Database, env: Env, accepted: bool, req: Request, today: CalendarDate, now: int,
               capturedStack: Option<string>) returns (resp: Response)
    requires db.Valid()
    modifies db
    ensures db.Valid() && db.runs == old(db.runs)
    ensures req.pathname !in ALLOWED_PATHS ==> resp.status == 404 && db.errors == old(db.errors)
    ensures req.pathname in ALLOWED_PATHS && !AsksToFail(req) ==>
              resp.status == 200 && db.errors == old(db.errors)
    ensures req.pathname in ALLOWED_PATHS && AsksToFail(req) ==> resp == InternalError(FUNCTION_NAME)
    ensures req.pathname in ALLOWED_PATHS && AsksToFail(req) && StoreConfigured(env) && accepted ==>
              exists id :: id !in old(db.errors) && id in db.errors && db.errors == old(db.errors)[id := db.errors[id]]
                && db.errors[id] == FiledRow(env, GetBusinessDay(req, today), now, capturedStack)
                && AwaitingAction(db.errors[id], GetBusinessDay(req, today))
    ensures req.pathname in ALLOWED_PATHS && AsksToFail(req) && !(StoreConfigured(env) && accepted) ==>
              db.errors == old(db.errors)
  {
    var handler := (r: Request) => Handle(r, today, capturedStack);
    resp := WithErrorMonitoring(db, env, accepted, FUNCTION_NAME, handler, req, today, now, capturedStack);
    if req.pathname in ALLOWED_PATHS && AsksToFail(req) && StoreConfigured(env) && accepted {
      ghost var id :| id !in old(db.errors)
        && db.errors == old(db.errors)[id := ErrorPayload(FUNCTION_NAME, EnvOr(env, "PROJECT_NAME", DEFAULT_PROJECT_NAME),
                                                         ToError(handler(req).thrown, capturedStack),
                                                         GetBusinessDay(req, today), now)];
      assert ToError(handler(req).thrown, capturedStack)
          == ErrorObject("Error", FailMessage(GetBusinessDay(req, today)), capturedStack);
      FiledErrorAwaitsAction(FUNCTION_NAME, EnvOr(env, "PROJECT_NAME", DEFAULT_PROJECT_NAME),
                             ToError(handler(req).thrown, capturedStack), GetBusinessDay(req, today), now);
    }
  }
}
