/**
 * The surface of the edge runtime the functions see: an incoming request
 * (method, path, query string, headers, body text), the response they
 * return, and the process environment read through `Deno.env.get`.
 */
module Edge {
  import opened Wrappers

  /**
   * An incoming request. Header names are kept in lower case, as the
   * runtime's `Headers` object compares them case-insensitively; the query
   * string is the list of its `name=value` pairs in order.
   */
  datatype Request = Request(
    httpMethod: string,
    pathname: string,
    query: seq<(string, string)>,
    headers: map<string, string>,
    body: string)

  /** `req.headers.get(name)` for a lower-case `name`. */
  function Header(req: Request, name: string): (r: Option<string>)
    ensures r.Some? <==> name in req.headers
    ensures r.Some? ==> r.value == req.headers[name]
  {
    if name in req.headers then Some(req.headers[name]) else None
  }

  /** `searchParams.get(name)`: the value of the first pair with that name. */
  function QueryParam(query: seq<(string, string)>, name: string): (r: Option<string>)
    ensures r.None? <==> forall i :: 0 <= i < |query| ==> query[i].0 != name
    ensures r.Some? ==> (name, r.value) in query
  {
    if query == [] then None
    else if query[0].0 == name then Some(query[0].1)
    else QueryParam(query[1..], name)
  }

  /** The value found is that of the first pair with the name: later pairs with it are ignored. */
  lemma {:induction false} QueryParamFirst(query: seq<(string, string)>, name: string, i: nat)
    requires i < |query| && query[i].0 == name
    requires forall j :: 0 <= j < i ==> query[j].0 != name
    ensures QueryParam(query, name) == Some(query[i].1)
  {
    if i > 0 {
      assert query[0].0 != name;
      forall j | 0 <= j < i - 1 ensures query[1..][j].0 != name {
        assert query[1..][j] == query[j + 1];
      }
      QueryParamFirst(query[1..], name, i - 1);
    }
  }

  /** A response body: plain text, or a JSON object whose fields are strings. */
  datatype Body = PlainText(text: string) | JsonObject(fields: seq<(string, string)>)

  datatype Response = Response(status: int, body: Body)

  /** The process environment. */
  type Env = map<string, string>

  /** `Deno.env.get(name)` is truthy: present and not empty. */
  predicate IsSet(env: Env, name: string) {
    name in env && env[name] != ""
  }

  /** `Deno.env.get(name) ?? fallback`: only an absent variable falls back. */
  function EnvOr(env: Env, name: string, fallback: string): (r: string)
    ensures name in env ==> r == env[name]
    ensures name !in env ==> r == fallback
  {
    if name in env then env[name] else fallback
  }
}
