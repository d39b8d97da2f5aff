/**
 * `Handler._dispatch`: route lookup, the 404/405 decision, the request
 * mapping handed to the wrapped handler, and how the handler's result (or the
 * exception it raised) becomes a status and a body. The HTTP plumbing around
 * it (reading the socket, decoding the body, writing the answer) is outside
 * the model: the decoded body and the client address arrive as inputs.
 *
 * The framework is generic in the state its handlers keep between requests
 * (`S`); a handler is a middleware `Chain` from a context to a reply.
 */
module Dispatch {
  import opened Wrappers
  import opened Url
  import opened Routes
  import opened Matcher
  import opened Middleware
  import Json
  import Auth

  /** The request mapping the dispatcher builds (`request = {...}`); `user` is set by the auth gate. */
  datatype Request = Request(
    verb: string,  // `request["method"]`
    path: string,
    headers: map<string, string>,
    query: map<string, QueryValue>,
    params: map<string, string>,
    json: Json.Value,
    ip: Option<string>,
    user: Option<Auth.User>)

  /** What a handler hands back: a `(body, status)` pair or a bare body. */
  datatype Result = Pair(body: Json.Value, status: int) | Plain(body: Json.Value)

  /** A handler call either returns or raises an exception with message `detail` (`str(e)`). */
  datatype Outcome = Returned(result: Result) | Raised(detail: string)

  /** What a handler sees: the request, the state kept between requests, and the clock reading. */
  datatype Ctx<S> = Ctx(req: Request, state: S, now: real)

  /** What a handler produces: its outcome and the state afterwards (changes made before a raise stay). */
  datatype Reply<S> = Reply(outcome: Outcome, state: S)

  type Handler<!S> = Chain<Ctx<S>, Reply<S>>

  datatype Response = Response(status: int, body: Json.Value)

  /** The methods whose body is read (`method in {"POST","PATCH","DELETE"}`). */
  const BodyMethods: set<string> := {"POST", "PATCH", "DELETE"}

  /** The routing decision. */
  datatype Decision<H> = RouteNotFound | MethodNotAllowed | Run(handler: H, params: map<string, string>, target: Target)

  /**
   * No matching pattern, or a matching pattern whose method map is empty (an
   * empty dict is false), is a missing route; a match without the method is a
   * method not allowed; otherwise the handler runs with the match's bindings.
   */
  function Decide<H>(t: Table<H>, verb: string, raw: string): (d: Decision<H>)
    ensures d.RouteNotFound? <==> MatchRoute(t, raw).0.NoRoute? || MatchRoute(t, raw).0.methods == map[]
    ensures d.MethodNotAllowed? <==>
      MatchRoute(t, raw).0.Found? && MatchRoute(t, raw).0.methods != map[] && verb !in MatchRoute(t, raw).0.methods
    ensures d.Run? ==> MatchRoute(t, raw).0.Found? && verb in MatchRoute(t, raw).0.methods
    ensures d.Run? ==> d.handler == MatchRoute(t, raw).0.methods[verb] && d.params == MatchRoute(t, raw).0.params
    ensures d.Run? ==> d.target == SplitTarget(raw)
  {
    var (found, target) := MatchRoute(t, raw);
    if found.NoRoute? || found.methods == map[] then RouteNotFound
    else if verb !in found.methods then MethodNotAllowed
    else Run(found.methods[verb], found.params, target)
  }

  /**
   * The first pattern that matches decides alone: when it binds the method,
   * that handler runs, even if a later pattern would match too and bind the
   * method as well; when it does not, the answer is 405, never 404.
   */
  lemma FirstMatchDecides<H>(t: Table<H>, verb: string, raw: string, i: nat)
    requires i < |t| && MatchPath(t[i].pattern, SplitTarget(raw).path).Some?
    requires forall j :: 0 <= j < i ==> MatchPath(t[j].pattern, SplitTarget(raw).path).None?
    ensures verb in t[i].methods ==> Decide(t, verb, raw) == Run(t[i].methods[verb], MatchPath(t[i].pattern, SplitTarget(raw).path).value, SplitTarget(raw))
    ensures verb !in t[i].methods && t[i].methods != map[] ==> Decide(t, verb, raw) == MethodNotAllowed
    ensures t[i].methods == map[] ==> Decide(t, verb, raw) == RouteNotFound
  {
    FirstMatchAt(t, SplitTarget(raw).path, i);
    var found := MatchRoute(t, raw).0;
    assert found == Found(i, t[i].methods, MatchPath(t[i].pattern, SplitTarget(raw).path).value);
  }

  /**
   * When the path matches only one registered pattern, the route is that
   * pattern's method map (`routes.get(pattern)`), wherever it sits in the table.
   */
  lemma OnlyMatchDecides<H>(t: Table<H>, verb: string, raw: string, pattern: string)
    requires MatchPath(pattern, SplitTarget(raw).path).Some? && Lookup(t, pattern).Some?
    requires forall j :: 0 <= j < |t| && t[j].pattern != pattern ==> MatchPath(t[j].pattern, SplitTarget(raw).path).None?
    ensures verb in Lookup(t, pattern).value ==>
      Decide(t, verb, raw) == Run(Lookup(t, pattern).value[verb], MatchPath(pattern, SplitTarget(raw).path).value, SplitTarget(raw))
  {
    FirstMatchDecides(t, verb, raw, IndexOf(t, pattern));
  }

  /** `json.dumps` argument for a crash: the error and `str(e)`. */
  function ServerError(detail: string): Json.Value {
    Json.Obj(map["error" := Json.Str("Internal Server Error"), "detail" := Json.Str(detail)])
  }

  /**
   * Result normalisation: a pair is sent as `(body, status)` verbatim, a bare
   * body with status 200, and an exception as 500 with its message.
   */
  function Respond(o: Outcome): (r: Response)
    ensures o.Returned? && o.result.Pair? ==> r == Response(o.result.status, o.result.body)
    ensures o.Returned? && o.result.Plain? ==> r == Response(200, o.result.body)
    ensures o.Raised? ==> r.status == 500 && r.body == ServerError(o.detail)
  {
    match o
    case Raised(detail) => Response(500, ServerError(detail))
    case Returned(Pair(body, status)) => Response(status, body)
    case Returned(Plain(body)) => Response(200, body)
  }

  /**
   * The request mapping for a routed call: the parsed path, the normalised
   * query, the path bindings, the body only for methods that carry one, and
   * the client address.
   */
  function BuildRequest(verb: string, target: Target, headers: map<string, string>, params: map<string, string>,
                        body: Json.Value, ip: string): (r: Request)
    ensures r.verb == verb && r.path == target.path && r.headers == headers && r.params == params
    ensures forall k :: k in r.query ==> Values(r.query[k]) == ValuesFor(Pairs(Text.Split(target.query, '&')), k)
    ensures verb !in BodyMethods ==> r.json == Json.Null
    ensures verb in BodyMethods ==> r.json == body
    ensures r.ip == Some(ip) && r.user.None?
  {
    Request(verb, target.path, headers, QueryOf(target.query), params,
            if verb in BodyMethods then body else Json.Null, Some(ip), None)
  }

  /**
   * One request through `_dispatch`: `raw` is the request target, `body` the
   * decoded JSON body (`Null` when absent or not JSON). Routing failures leave
   * the state alone; a routed request runs the handler inside the middleware
   * in registration order.
   */
  function Dispatch<S>(t: Table<Handler<S>>, mws: seq<Layer<Ctx<S>, Reply<S>>>, verb: string, raw: string,
                       headers: map<string, string>, body: Json.Value, ip: string, now: real, s: S): (r: (Response, S))
    ensures Decide(t, verb, raw).RouteNotFound? ==> r.0 == Response(404, Json.Error("Route not found"))
    ensures Decide(t, verb, raw).MethodNotAllowed? ==>
      r.0 == Response(405, Json.Error("Method " + verb + " not allowed"))
    ensures !Decide(t, verb, raw).Run? ==> r.1 == s
  {
    match Decide(t, verb, raw)
    case RouteNotFound => (Response(404, Json.Error("Route not found")), s)
    case MethodNotAllowed => (Response(405, Json.Error("Method " + verb + " not allowed")), s)
    case Run(h, params, target) =>
      var req := BuildRequest(verb, target, headers, params, body, ip);
      var (reply, _) := Invoke(Nest(mws, h), Ctx(req, s, now));
      (Respond(reply.outcome), reply.state)
  }
}
