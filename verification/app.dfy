/**
 * The demo application assembled: its three middlewares (`rate_limit`,
 * `logger`, `auth_required`), the route table in registration order, the
 * middleware registration, and the re-binding of the protected routes to
 * auth-wrapped handlers.
 */
module TodoApp {
  import opened Wrappers
  import opened Text
  import opened Middleware
  import opened Routes
  import opened Dispatch
  import opened Handlers
  import Json
  import RateLimit
  import Auth

  type AppHandler = Handler<AppState>
  type AppLayer = Layer<Ctx<AppState>, Reply<AppState>>

  // ---------------------------------------------------------------------------
  // The middlewares
  // ---------------------------------------------------------------------------

  /** The rate-limit key: the client address, or `"local"` for a request without one. */
  function Key(req: Request): (k: string)
    ensures req.ip.None? ==> k == "local"
    ensures req.ip.Some? ==> k == req.ip.value
  {
    req.ip.GetOr("local")
  }

  function TooMany(cfg: Config): Json.Value {
    Json.Obj(map["error" := Json.Str("rate limit exceeded"), "limit_per_min" := Json.Num(cfg.limit)])
  }

  /**
   * The first half of `rate_limit`: the window of the request's key is
   * evicted; a full window answers 429 with the limit (recording nothing),
   * anything else records the request and passes it on.
   */
  function RateLimitBefore(cfg: Config, x: Ctx<AppState>): (r: Step<Ctx<AppState>, Reply<AppState>>)
    ensures r.Continue? <==> RateLimit.Admit(x.state.windows, Key(x.req), x.now, cfg.limit).0
    ensures r.Continue? ==> r.ctx == x.(state := x.state.(windows := RateLimit.Admit(x.state.windows, Key(x.req), x.now, cfg.limit).1))
    ensures r.Respond? ==> r.resp.outcome == Returned(Pair(TooMany(cfg), 429))
    ensures r.Respond? ==> r.resp.state == x.state.(windows := RateLimit.Admit(x.state.windows, Key(x.req), x.now, cfg.limit).1)
  {
    var (ok, w) := RateLimit.Admit(x.state.windows, Key(x.req), x.now, cfg.limit);
    var s := x.state.(windows := w);
    if ok then Continue(x.(state := s)) else Respond(Answer(s, TooMany(cfg), 429))
  }

  function RateLimitLayer(cfg: Config): AppLayer {
    Layer("rate_limit", x => RateLimitBefore(cfg, x), r => r)
  }

  /** `logger` only prints; it passes every request on unchanged. */
  function LoggerLayer(): AppLayer {
    Layer("logger", x => Continue(x), r => r)
  }

  /** `request["headers"].get("Authorization")`: the header name is matched exactly as sent. */
  function AuthHeader(req: Request): Option<string> {
    if "Authorization" in req.headers then Some(req.headers["Authorization"]) else None
  }

  /**
   * The first half of `auth_required`: without a verified bearer token the
   * answer is 401 and the state is untouched; otherwise the request goes on
   * with `user` set from the token's claims.
   */
  function AuthBefore(cfg: Config, x: Ctx<AppState>): (r: Step<Ctx<AppState>, Reply<AppState>>)
    ensures r.Respond? <==> Auth.Authenticate(AuthHeader(x.req), cfg.verify).None?
    ensures r.Respond? ==> r.resp == Unauthorized(x.state)
    ensures r.Continue? ==> r.ctx == x.(req := x.req.(user := Auth.Authenticate(AuthHeader(x.req), cfg.verify)))
  {
    match Auth.Authenticate(AuthHeader(x.req), cfg.verify)
    case None => Respond(Unauthorized(x.state))
    case Some(u) => Continue(x.(req := x.req.(user := Some(u))))
  }

  function AuthLayer(cfg: Config): AppLayer {
    Layer("auth_required", x => AuthBefore(cfg, x), r => r)
  }

  /** `app.use(rate_limit)` then `app.use(logger)`. */
  function Middlewares(cfg: Config): seq<AppLayer> {
    Use(Use([], RateLimitLayer(cfg)), LoggerLayer())
  }

  // ---------------------------------------------------------------------------
  // The route table
  // ---------------------------------------------------------------------------

  function RegisterHandler(cfg: Config): AppHandler {
    Base(x => Register(cfg, x))
  }

  function LoginHandler(cfg: Config): AppHandler {
    Base(x => Login(cfg, x))
  }

  /** The ten `@app.route` registrations, in the order the module runs them. */
  function Registered(cfg: Config): Table<AppHandler> {
    var t0: Table<AppHandler> := [];
    var t1 := Route(t0, "/health", ["GET"], Base(Health));
    var t2 := Route(t1, "/hello", ["GET"], Base(Hello));
    var t3 := Route(t2, "/auth/register", ["POST"], RegisterHandler(cfg));
    var t4 := Route(t3, "/auth/login", ["POST"], LoginHandler(cfg));
    var t5 := Route(t4, "/me", ["GET"], Base(Me));
    var t6 := Route(t5, "/todos", ["GET"], Base(ListTodos));
    var t7 := Route(t6, "/todos", ["POST"], Base(CreateTodo));
    var t8 := Route(t7, "/todos/:id/toggle", ["PATCH"], Base(Toggle));
    var t9 := Route(t8, "/todos/:id", ["DELETE"], Base(Delete));
    Route(t9, "/openapi.json", ["GET"], Base(OpenApi))
  }

  /**
   * `app.routes[path][verb] = l(app.routes[path][verb])`: the bound handler is
   * wrapped in place; the entry keeps its position and its other methods.
   * (Python raises `KeyError` at start-up for a missing binding; the table is
   * then left as it is.)
   */
  function Rewrap(t: Table<AppHandler>, path: string, verb: string, l: AppLayer): (r: Table<AppHandler>)
    ensures forall p :: p != path ==> Lookup(r, p) == Lookup(t, p)
    ensures Lookup(t, path).Some? && verb in Lookup(t, path).value ==>
      Lookup(r, path) == Some(Lookup(t, path).value[verb := Wrap(l, Lookup(t, path).value[verb])])
  {
    var i := IndexOf(t, path);
    if i < |t| && verb in t[i].methods then
      var r := t[i := Entry(path, t[i].methods[verb := Wrap(l, t[i].methods[verb])])];
      IndexOfUpdate(t, i, r);
      r
    else t
  }

  /** Re-binding changes no pattern and no position, so the table keeps its order and its keys. */
  lemma RewrapKeepsOrder(t: Table<AppHandler>, path: string, verb: string, l: AppLayer)
    ensures Patterns(Rewrap(t, path, verb, l)) == Patterns(t)
    ensures UniquePatterns(t) ==> UniquePatterns(Rewrap(t, path, verb, l))
  {
    var i := IndexOf(t, path);
    if i < |t| && verb in t[i].methods {
      var r := Rewrap(t, path, verb, l);
      IndexOfUpdate(t, i, r);
      assert forall j :: 0 <= j < |t| ==> r[j].pattern == t[j].pattern;
    }
  }

  /** The five re-bindings at start-up, applied to any table with layer `a`. */
  function Protect(t: Table<AppHandler>, a: AppLayer): Table<AppHandler> {
    var t := Rewrap(t, "/me", "GET", a);
    var t := Rewrap(t, "/todos", "GET", a);
    var t := Rewrap(t, "/todos", "POST", a);
    var t := Rewrap(t, "/todos/:id/toggle", "PATCH", a);
    Rewrap(t, "/todos/:id", "DELETE", a)
  }

  /** The table the server dispatches on: the protected routes wrapped in `auth_required`. */
  function RouteTable(cfg: Config): Table<AppHandler> {
    Protect(Registered(cfg), AuthLayer(cfg))
  }

  /** One request to the running server. */
  function Serve(cfg: Config, verb: string, raw: string, headers: map<string, string>, body: Json.Value,
                 ip: string, now: real, s: AppState): (Response, AppState)
  {
    Dispatch.Dispatch(RouteTable(cfg), Middlewares(cfg), verb, raw, headers, body, ip, now, s)
  }
}
