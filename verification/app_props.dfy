/**
 * What the assembled demo application guarantees: the shape of its route
 * table, the effective order of its middlewares around a protected handler,
 * what a rate-limited or unauthenticated request reaches, and how the todo
 * and account handlers behave over several requests.
 */
module AppProperties {
  import opened Wrappers
  import opened Text
  import opened Middleware
  import opened Routes
  import opened Dispatch
  import opened Handlers
  import opened TodoApp
  import Json
  import RateLimit
  import Auth
  import Store

  // ---------------------------------------------------------------------------
  // The route table
  // ---------------------------------------------------------------------------

  lemma UpperVerb(v: string)
    requires forall i :: 0 <= i < |v| ==> !('a' <= v[i] <= 'z')
    ensures Upper(v) == v
  {
  }

  /** Registering one upper-case method binds exactly it, on top of what the path had. */
  lemma RouteOne<H>(t: Table<H>, path: string, verb: string, h: H)
    requires Upper(verb) == verb
    ensures Lookup(Route(t, path, [verb], h), path) == Some((if Lookup(t, path).Some? then Lookup(t, path).value else map[])[verb := h])
  {
    assert UpperAll([verb]) == {verb} by {
      assert [verb][0] == verb;
    }
    var m := if Lookup(t, path).Some? then Lookup(t, path).value else map[];
    var b := Bind(m, [verb], h);
    assert b == m[verb := h] by {
      assert b.Keys == m[verb := h].Keys;
      forall k | k in b ensures b[k] == m[verb := h][k] {
        if k != verb {
          assert k in m;
        }
      }
    }
  }

  lemma Verbs()
    ensures Upper("GET") == "GET" && Upper("POST") == "POST" && Upper("PATCH") == "PATCH" && Upper("DELETE") == "DELETE"
  {
    UpperVerb("GET");
    UpperVerb("POST");
    UpperVerb("PATCH");
    UpperVerb("DELETE");
  }

  lemma Unchanged<H>(t: Table<H>, path: string, verb: string, h: H, p: string)
    requires p != path
    ensures Lookup(Route(t, path, [verb], h), p) == Lookup(t, p)
  {
  }



  /** `/todos` is registered twice, and the second registration adds POST beside GET. */
  lemma RegisteredTodos(cfg: Config)
    ensures Lookup(Registered(cfg), "/todos") == Some(map["GET" := Base(ListTodos), "POST" := Base(CreateTodo)])
  {
    Verbs();
    var t0: Table<AppHandler> := [];
    var t1 := Route(t0, "/health", ["GET"], Base(Health));
    var t2 := Route(t1, "/hello", ["GET"], Base(Hello));
    var t3 := Route(t2, "/auth/register", ["POST"], RegisterHandler(cfg));
    var t4 := Route(t3, "/auth/login", ["POST"], LoginHandler(cfg));
    var t5 := Route(t4, "/me", ["GET"], Base(Me));
    var t6 := Route(t5, "/todos", ["GET"], Base(ListTodos));
    var t7 := Route(t6, "/todos", ["POST"], Base(CreateTodo));
    var t8 := Route(t7, "/todos/:id/toggle", ["PATCH"], Base(Toggle));
    var t9 := Route(t8, "/todos/:id", ["DELETE"], Base(Delete));
    var t10 := Route(t9, "/openapi.json", ["GET"], Base(OpenApi));
    assert t10 == Registered(cfg);
    Unchanged(t0, "/health", "GET", Base(Health), "/todos");
    Unchanged(t1, "/hello", "GET", Base(Hello), "/todos");
    Unchanged(t2, "/auth/register", "POST", RegisterHandler(cfg), "/todos");
    Unchanged(t3, "/auth/login", "POST", LoginHandler(cfg), "/todos");
    Unchanged(t4, "/me", "GET", Base(Me), "/todos");
    RouteOne(t5, "/todos", "GET", Base(ListTodos));
    RouteOne(t6, "/todos", "POST", Base(CreateTodo));
    Unchanged(t7, "/todos/:id/toggle", "PATCH", Base(Toggle), "/todos");
    Unchanged(t8, "/todos/:id", "DELETE", Base(Delete), "/todos");
    Unchanged(t9, "/openapi.json", "GET", Base(OpenApi), "/todos");
  }

  /** `/health` is public and bound to its bare handler. */
  lemma RegisteredHealth(cfg: Config)
    ensures Lookup(Registered(cfg), "/health") == Some(map["GET" := Base(Health)])
  {
    Verbs();
    var t0: Table<AppHandler> := [];
    var t1 := Route(t0, "/health", ["GET"], Base(Health));
    var t2 := Route(t1, "/hello", ["GET"], Base(Hello));
    var t3 := Route(t2, "/auth/register", ["POST"], RegisterHandler(cfg));
    var t4 := Route(t3, "/auth/login", ["POST"], LoginHandler(cfg));
    var t5 := Route(t4, "/me", ["GET"], Base(Me));
    var t6 := Route(t5, "/todos", ["GET"], Base(ListTodos));
    var t7 := Route(t6, "/todos", ["POST"], Base(CreateTodo));
    var t8 := Route(t7, "/todos/:id/toggle", ["PATCH"], Base(Toggle));
    var t9 := Route(t8, "/todos/:id", ["DELETE"], Base(Delete));
    var t10 := Route(t9, "/openapi.json", ["GET"], Base(OpenApi));
    assert t10 == Registered(cfg);
    RouteOne(t0, "/health", "GET", Base(Health));
    Unchanged(t1, "/hello", "GET", Base(Hello), "/health");
    Unchanged(t2, "/auth/register", "POST", RegisterHandler(cfg), "/health");
    Unchanged(t3, "/auth/login", "POST", LoginHandler(cfg), "/health");
    Unchanged(t4, "/me", "GET", Base(Me), "/health");
    Unchanged(t5, "/todos", "GET", Base(ListTodos), "/health");
    Unchanged(t6, "/todos", "POST", Base(CreateTodo), "/health");
    Unchanged(t7, "/todos/:id/toggle", "PATCH", Base(Toggle), "/health");
    Unchanged(t8, "/todos/:id", "DELETE", Base(Delete), "/health");
    Unchanged(t9, "/openapi.json", "GET", Base(OpenApi), "/health");
  }
  /** `/me` is registered once, for GET. */
  lemma RegisteredMe(cfg: Config)
    ensures Lookup(Registered(cfg), "/me") == Some(map["GET" := Base(Me)])
  {
    Verbs();
    var t0: Table<AppHandler> := [];
    var t1 := Route(t0, "/health", ["GET"], Base(Health));
    var t2 := Route(t1, "/hello", ["GET"], Base(Hello));
    var t3 := Route(t2, "/auth/register", ["POST"], RegisterHandler(cfg));
    var t4 := Route(t3, "/auth/login", ["POST"], LoginHandler(cfg));
    var t5 := Route(t4, "/me", ["GET"], Base(Me));
    var t6 := Route(t5, "/todos", ["GET"], Base(ListTodos));
    var t7 := Route(t6, "/todos", ["POST"], Base(CreateTodo));
    var t8 := Route(t7, "/todos/:id/toggle", ["PATCH"], Base(Toggle));
    var t9 := Route(t8, "/todos/:id", ["DELETE"], Base(Delete));
    var t10 := Route(t9, "/openapi.json", ["GET"], Base(OpenApi));
    assert t10 == Registered(cfg);
    Unchanged(t0, "/health", "GET", Base(Health), "/me");
    Unchanged(t1, "/hello", "GET", Base(Hello), "/me");
    Unchanged(t2, "/auth/register", "POST", RegisterHandler(cfg), "/me");
    Unchanged(t3, "/auth/login", "POST", LoginHandler(cfg), "/me");
    RouteOne(t4, "/me", "GET", Base(Me));
    Unchanged(t5, "/todos", "GET", Base(ListTodos), "/me");
    Unchanged(t6, "/todos", "POST", Base(CreateTodo), "/me");
    Unchanged(t7, "/todos/:id/toggle", "PATCH", Base(Toggle), "/me");
    Unchanged(t8, "/todos/:id", "DELETE", Base(Delete), "/me");
    Unchanged(t9, "/openapi.json", "GET", Base(OpenApi), "/me");
  }
  /** The toggle route is registered once, for PATCH. */
  lemma RegisteredToggle(cfg: Config)
    ensures Lookup(Registered(cfg), "/todos/:id/toggle") == Some(map["PATCH" := Base(Toggle)])
  {
    Verbs();
    var t0: Table<AppHandler> := [];
    var t1 := Route(t0, "/health", ["GET"], Base(Health));
    var t2 := Route(t1, "/hello", ["GET"], Base(Hello));
    var t3 := Route(t2, "/auth/register", ["POST"], RegisterHandler(cfg));
    var t4 := Route(t3, "/auth/login", ["POST"], LoginHandler(cfg));
    var t5 := Route(t4, "/me", ["GET"], Base(Me));
    var t6 := Route(t5, "/todos", ["GET"], Base(ListTodos));
    var t7 := Route(t6, "/todos", ["POST"], Base(CreateTodo));
    var t8 := Route(t7, "/todos/:id/toggle", ["PATCH"], Base(Toggle));
    var t9 := Route(t8, "/todos/:id", ["DELETE"], Base(Delete));
    var t10 := Route(t9, "/openapi.json", ["GET"], Base(OpenApi));
    assert t10 == Registered(cfg);
    Unchanged(t0, "/health", "GET", Base(Health), "/todos/:id/toggle");
    Unchanged(t1, "/hello", "GET", Base(Hello), "/todos/:id/toggle");
    Unchanged(t2, "/auth/register", "POST", RegisterHandler(cfg), "/todos/:id/toggle");
    Unchanged(t3, "/auth/login", "POST", LoginHandler(cfg), "/todos/:id/toggle");
    Unchanged(t4, "/me", "GET", Base(Me), "/todos/:id/toggle");
    Unchanged(t5, "/todos", "GET", Base(ListTodos), "/todos/:id/toggle");
    Unchanged(t6, "/todos", "POST", Base(CreateTodo), "/todos/:id/toggle");
    RouteOne(t7, "/todos/:id/toggle", "PATCH", Base(Toggle));
    Unchanged(t8, "/todos/:id", "DELETE", Base(Delete), "/todos/:id/toggle");
    Unchanged(t9, "/openapi.json", "GET", Base(OpenApi), "/todos/:id/toggle");
  }
  /** The delete route is registered once, for DELETE. */
  lemma RegisteredDelete(cfg: Config)
    ensures Lookup(Registered(cfg), "/todos/:id") == Some(map["DELETE" := Base(Delete)])
  {
    Verbs();
    var t0: Table<AppHandler> := [];
    var t1 := Route(t0, "/health", ["GET"], Base(Health));
    var t2 := Route(t1, "/hello", ["GET"], Base(Hello));
    var t3 := Route(t2, "/auth/register", ["POST"], RegisterHandler(cfg));
    var t4 := Route(t3, "/auth/login", ["POST"], LoginHandler(cfg));
    var t5 := Route(t4, "/me", ["GET"], Base(Me));
    var t6 := Route(t5, "/todos", ["GET"], Base(ListTodos));
    var t7 := Route(t6, "/todos", ["POST"], Base(CreateTodo));
    var t8 := Route(t7, "/todos/:id/toggle", ["PATCH"], Base(Toggle));
    var t9 := Route(t8, "/todos/:id", ["DELETE"], Base(Delete));
    var t10 := Route(t9, "/openapi.json", ["GET"], Base(OpenApi));
    assert t10 == Registered(cfg);
    Unchanged(t0, "/health", "GET", Base(Health), "/todos/:id");
    Unchanged(t1, "/hello", "GET", Base(Hello), "/todos/:id");
    Unchanged(t2, "/auth/register", "POST", RegisterHandler(cfg), "/todos/:id");
    Unchanged(t3, "/auth/login", "POST", LoginHandler(cfg), "/todos/:id");
    Unchanged(t4, "/me", "GET", Base(Me), "/todos/:id");
    Unchanged(t5, "/todos", "GET", Base(ListTodos), "/todos/:id");
    Unchanged(t6, "/todos", "POST", Base(CreateTodo), "/todos/:id");
    Unchanged(t7, "/todos/:id/toggle", "PATCH", Base(Toggle), "/todos/:id");
    RouteOne(t8, "/todos/:id", "DELETE", Base(Delete));
    Unchanged(t9, "/openapi.json", "GET", Base(OpenApi), "/todos/:id");
  }
  lemma Rebound<K, V>(k: K, v: V, w: V)
    ensures map[k := v][k := w] == map[k := w]
  {
  }

  /** Wrapping one method of a two-method binding keeps the other. */
  lemma RewrapOfTwo(t: Table<AppHandler>, path: string, k: string, k': string, g: AppHandler, q: AppHandler, a: AppLayer)
    requires k != k' && Lookup(t, path) == Some(map[k := g, k' := q])
    ensures Lookup(Rewrap(t, path, k, a), path) == Some(map[k := Wrap(a, g), k' := q])
  {
    var m := map[k := g, k' := q];
    assert m[k] == g;
    assert m[k := Wrap(a, g)] == map[k := Wrap(a, g), k' := q];
  }

  /** Only the two `/todos` re-bindings touch `/todos`. */
  lemma ProtectAtTodos(t: Table<AppHandler>, a: AppLayer)
    ensures Lookup(Protect(t, a), "/todos") ==
      Lookup(Rewrap(Rewrap(Rewrap(t, "/me", "GET", a), "/todos", "GET", a), "/todos", "POST", a), "/todos")
  {
  }

  lemma MeKeepsTodos(t: Table<AppHandler>, a: AppLayer)
    ensures Lookup(Rewrap(t, "/me", "GET", a), "/todos") == Lookup(t, "/todos")
  {
  }

  /** Re-binding wraps both methods of `/todos` in `a`. */
  lemma ProtectTodos(t: Table<AppHandler>, a: AppLayer, g: AppHandler, q: AppHandler)
    requires Lookup(t, "/todos") == Some(map["GET" := g, "POST" := q])
    ensures Lookup(Protect(t, a), "/todos") == Some(map["GET" := Wrap(a, g), "POST" := Wrap(a, q)])
  {
    ProtectAtTodos(t, a);
    MeKeepsTodos(t, a);
    var r1 := Rewrap(t, "/me", "GET", a);
    var r2 := Rewrap(r1, "/todos", "GET", a);
    RewrapOfTwo(r1, "/todos", "GET", "POST", g, q, a);
    SwapTwo("GET", "POST", Wrap(a, g), q);
    RewrapOfTwo(r2, "/todos", "POST", "GET", q, Wrap(a, g), a);
    SwapTwo("POST", "GET", Wrap(a, q), Wrap(a, g));
  }

  lemma SwapTwo<K, V>(k: K, k': K, v: V, v': V)
    ensures map[k := v, k' := v'] == map[k' := v', k := v] || k == k'
  {
  }

  /** Re-binding wraps the GET of `/me` in `a`. */
  lemma ProtectMe(t: Table<AppHandler>, a: AppLayer, h: AppHandler)
    requires Lookup(t, "/me") == Some(map["GET" := h])
    ensures Lookup(Protect(t, a), "/me") == Some(map["GET" := Wrap(a, h)])
  {
    var r1 := Rewrap(t, "/me", "GET", a);
    Rebound("GET", h, Wrap(a, h));
    assert Lookup(r1, "/me") == Some(map["GET" := Wrap(a, h)]);
  }

  /** Re-binding wraps the PATCH of the toggle route in `a`. */
  lemma ProtectToggle(t: Table<AppHandler>, a: AppLayer, h: AppHandler)
    requires Lookup(t, "/todos/:id/toggle") == Some(map["PATCH" := h])
    ensures Lookup(Protect(t, a), "/todos/:id/toggle") == Some(map["PATCH" := Wrap(a, h)])
  {
    var r1 := Rewrap(t, "/me", "GET", a);
    var r2 := Rewrap(r1, "/todos", "GET", a);
    var r3 := Rewrap(r2, "/todos", "POST", a);
    var r4 := Rewrap(r3, "/todos/:id/toggle", "PATCH", a);
    assert Lookup(r3, "/todos/:id/toggle") == Lookup(t, "/todos/:id/toggle");
    Rebound("PATCH", h, Wrap(a, h));
    assert Lookup(r4, "/todos/:id/toggle") == Some(map["PATCH" := Wrap(a, h)]);
  }

  /** Re-binding wraps the DELETE of the item route in `a`. */
  lemma ProtectDelete(t: Table<AppHandler>, a: AppLayer, h: AppHandler)
    requires Lookup(t, "/todos/:id") == Some(map["DELETE" := h])
    ensures Lookup(Protect(t, a), "/todos/:id") == Some(map["DELETE" := Wrap(a, h)])
  {
    var r1 := Rewrap(t, "/me", "GET", a);
    var r2 := Rewrap(r1, "/todos", "GET", a);
    var r3 := Rewrap(r2, "/todos", "POST", a);
    var r4 := Rewrap(r3, "/todos/:id/toggle", "PATCH", a);
    assert Lookup(r4, "/todos/:id") == Lookup(t, "/todos/:id");
    Rebound("DELETE", h, Wrap(a, h));
  }

  /** Re-binding leaves every other path alone. */
  lemma ProtectKeeps(t: Table<AppHandler>, a: AppLayer, p: string)
    requires p !in {"/me", "/todos", "/todos/:id/toggle", "/todos/:id"}
    ensures Lookup(Protect(t, a), p) == Lookup(t, p)
  {
  }

  /**
   * After start-up the protected methods run behind `auth_required` and the
   * public `/health` keeps its bare handler.
   */
  lemma ProtectedRoutes(cfg: Config)
    ensures Lookup(RouteTable(cfg), "/todos") ==
      Some(map["GET" := Wrap(AuthLayer(cfg), Base(ListTodos)), "POST" := Wrap(AuthLayer(cfg), Base(CreateTodo))])
    ensures Lookup(RouteTable(cfg), "/me") == Some(map["GET" := Wrap(AuthLayer(cfg), Base(Me))])
    ensures Lookup(RouteTable(cfg), "/todos/:id/toggle") == Some(map["PATCH" := Wrap(AuthLayer(cfg), Base(Toggle))])
    ensures Lookup(RouteTable(cfg), "/todos/:id") == Some(map["DELETE" := Wrap(AuthLayer(cfg), Base(Delete))])
    ensures Lookup(RouteTable(cfg), "/health") == Some(map["GET" := Base(Health)])
  {
    var t := Registered(cfg);
    var a := AuthLayer(cfg);
    RegisteredTodos(cfg);
    RegisteredMe(cfg);
    RegisteredToggle(cfg);
    RegisteredDelete(cfg);
    RegisteredHealth(cfg);
    ProtectTodos(t, a, Base(ListTodos), Base(CreateTodo));
    ProtectMe(t, a, Base(Me));
    ProtectToggle(t, a, Base(Toggle));
    ProtectDelete(t, a, Base(Delete));
    ProtectKeeps(t, a, "/health");
  }

  // ---------------------------------------------------------------------------
  // Middleware order around a protected handler
  // ---------------------------------------------------------------------------

  /** The rate limiter admits the request's key at the request's time. */
  predicate Admitted(cfg: Config, x: Ctx<AppState>) {
    RateLimit.Admit(x.state.windows, Key(x.req), x.now, cfg.limit).0
  }

  /** The context after the rate limiter recorded the request. */
  function Recorded(cfg: Config, x: Ctx<AppState>): Ctx<AppState> {
    x.(state := x.state.(windows := RateLimit.Admit(x.state.windows, Key(x.req), x.now, cfg.limit).1))
  }

  /** The application middlewares wrap a handler with `rate_limit` outermost, then `logger`. */
  lemma MiddlewaresShape(cfg: Config, inner: AppHandler)
    ensures Nest(Middlewares(cfg), inner) == Wrap(RateLimitLayer(cfg), Wrap(LoggerLayer(), inner))
  {
    var ls := Middlewares(cfg);
    assert ls == [RateLimitLayer(cfg), LoggerLayer()];
    assert ls[1..] == [LoggerLayer()];
    assert ls[1..][1..] == [];
    assert Nest(ls[1..][1..], inner) == inner;
    assert Nest(ls[1..], inner) == Wrap(LoggerLayer(), inner);
  }

  lemma Through<C, R>(l: Layer<C, R>, c: Chain<C, R>, x: C)
    requires l.before(x).Continue?
    ensures Invoke(Wrap(l, c), x) ==
      (l.after(Invoke(c, l.before(x).ctx).0), [Pre(l.name)] + Invoke(c, l.before(x).ctx).1 + [Post(l.name)])
  {
  }

  lemma Stopped<C, R>(l: Layer<C, R>, c: Chain<C, R>, x: C)
    requires l.before(x).Respond?
    ensures Invoke(Wrap(l, c), x) == (l.before(x).resp, [Pre(l.name)])
  {
  }

  /** `rate_limit` passes an admitted request on with its window recorded. */
  lemma RateLimitPasses(cfg: Config, c: AppHandler, x: Ctx<AppState>)
    requires Admitted(cfg, x)
    ensures Invoke(Wrap(RateLimitLayer(cfg), c), x) ==
      (Invoke(c, Recorded(cfg, x)).0, [Pre("rate_limit")] + Invoke(c, Recorded(cfg, x)).1 + [Post("rate_limit")])
  {
    Through(RateLimitLayer(cfg), c, x);
  }

  /** `rate_limit` answers a request over the limit itself, with 429. */
  lemma RateLimitStops(cfg: Config, c: AppHandler, x: Ctx<AppState>)
    requires !Admitted(cfg, x)
    ensures Invoke(Wrap(RateLimitLayer(cfg), c), x) ==
      (Reply(Returned(Pair(TooMany(cfg), 429)), Recorded(cfg, x).state), [Pre("rate_limit")])
  {
    Stopped(RateLimitLayer(cfg), c, x);
  }

  /** `logger` passes every request on untouched. */
  lemma LoggerPasses(c: AppHandler, x: Ctx<AppState>)
    ensures Invoke(Wrap(LoggerLayer(), c), x) == (Invoke(c, x).0, [Pre("logger")] + Invoke(c, x).1 + [Post("logger")])
  {
    Through(LoggerLayer(), c, x);
  }

  /** The context the handler sees behind `auth_required`: `user` set from the token. */
  function Authenticated(cfg: Config, x: Ctx<AppState>): Ctx<AppState> {
    x.(req := x.req.(user := Auth.Authenticate(AuthHeader(x.req), cfg.verify)))
  }

  /** `auth_required` passes a request with a verified token on, with `user` set. */
  lemma AuthPasses(cfg: Config, c: AppHandler, x: Ctx<AppState>)
    requires Auth.Authenticate(AuthHeader(x.req), cfg.verify).Some?
    ensures Invoke(Wrap(AuthLayer(cfg), c), x) ==
      (Invoke(c, Authenticated(cfg, x)).0, [Pre("auth_required")] + Invoke(c, Authenticated(cfg, x)).1 + [Post("auth_required")])
  {
    Through(AuthLayer(cfg), c, x);
  }

  /** `auth_required` answers a request without a verified token with 401, touching nothing. */
  lemma AuthStops(cfg: Config, c: AppHandler, x: Ctx<AppState>)
    requires Auth.Authenticate(AuthHeader(x.req), cfg.verify).None?
    ensures Invoke(Wrap(AuthLayer(cfg), c), x) == (Unauthorized(x.state), [Pre("auth_required")])
  {
    Stopped(AuthLayer(cfg), c, x);
  }

  /**
   * Effective order: for an admitted, authenticated request the rate limiter
   * runs first, then the logger, then `auth_required`, then the handler, and
   * the second halves unwind in reverse. The handler sees the request with
   * the rate window recorded and `user` set from the token.
   */
  lemma EffectiveOrder(cfg: Config, h: Ctx<AppState> -> Reply<AppState>, x: Ctx<AppState>)
    requires Admitted(cfg, x)
    requires Auth.Authenticate(AuthHeader(x.req), cfg.verify).Some?
    ensures Invoke(Nest(Middlewares(cfg), Wrap(AuthLayer(cfg), Base(h))), x).1 ==
      [Pre("rate_limit"), Pre("logger"), Pre("auth_required"), Core, Post("auth_required"), Post("logger"), Post("rate_limit")]
    ensures Invoke(Nest(Middlewares(cfg), Wrap(AuthLayer(cfg), Base(h))), x).0 == h(Authenticated(cfg, Recorded(cfg, x)))
  {
    var c2 := Wrap(LoggerLayer(), Wrap(AuthLayer(cfg), Base(h)));
    MiddlewaresShape(cfg, Wrap(AuthLayer(cfg), Base(h)));
    var x1 := Recorded(cfg, x);
    assert x1.req == x.req;
    LoggedAuthenticated(cfg, h, x1);
    RateLimitPasses(cfg, c2, x);
    RateLimitAround();
  }

  lemma RateLimitAround()
    ensures [Pre("rate_limit")] + [Pre("logger"), Pre("auth_required"), Core, Post("auth_required"), Post("logger")] + [Post("rate_limit")] ==
      [Pre("rate_limit"), Pre("logger"), Pre("auth_required"), Core, Post("auth_required"), Post("logger"), Post("rate_limit")]
  {
  }

  /** Behind the rate limiter: `logger`, then `auth_required` passing, then the handler. */
  lemma LoggedAuthenticated(cfg: Config, h: Ctx<AppState> -> Reply<AppState>, x: Ctx<AppState>)
    requires Auth.Authenticate(AuthHeader(x.req), cfg.verify).Some?
    ensures Invoke(Wrap(LoggerLayer(), Wrap(AuthLayer(cfg), Base(h))), x) ==
      (h(Authenticated(cfg, x)), [Pre("logger"), Pre("auth_required"), Core, Post("auth_required"), Post("logger")])
  {
    AuthPasses(cfg, Base(h), x);
    LoggerPasses(Wrap(AuthLayer(cfg), Base(h)), x);
    assert [Pre("auth_required")] + [Core] + [Post("auth_required")] == [Pre("auth_required"), Core, Post("auth_required")];
    assert [Pre("logger")] + [Pre("auth_required"), Core, Post("auth_required")] + [Post("logger")] ==
      [Pre("logger"), Pre("auth_required"), Core, Post("auth_required"), Post("logger")];
  }

  /**
   * A request over the limit is answered 429 by `rate_limit` alone: nothing
   * inside it runs, whatever the handler, and only the rate window changes.
   */
  lemma RateLimitedStops(cfg: Config, inner: AppHandler, x: Ctx<AppState>)
    requires !Admitted(cfg, x)
    ensures Invoke(Nest(Middlewares(cfg), inner), x) ==
      (Reply(Returned(Pair(TooMany(cfg), 429)), Recorded(cfg, x).state), [Pre("rate_limit")])
    ensures Recorded(cfg, x).state.db == x.state.db
  {
    MiddlewaresShape(cfg, inner);
    RateLimitStops(cfg, Wrap(LoggerLayer(), inner), x);
  }

  /**
   * An admitted request without a verified token to a protected route is
   * answered 401 by `auth_required`: the handler never runs, the outer layers
   * still unwind, and the database is untouched.
   */
  lemma UnauthenticatedStops(cfg: Config, inner: AppHandler, x: Ctx<AppState>)
    requires Admitted(cfg, x)
    requires Auth.Authenticate(AuthHeader(x.req), cfg.verify).None?
    ensures Invoke(Nest(Middlewares(cfg), Wrap(AuthLayer(cfg), inner)), x) ==
      (Unauthorized(Recorded(cfg, x).state), [Pre("rate_limit"), Pre("logger"), Pre("auth_required"), Post("logger"), Post("rate_limit")])
  {
    var c2 := Wrap(LoggerLayer(), Wrap(AuthLayer(cfg), inner));
    MiddlewaresShape(cfg, Wrap(AuthLayer(cfg), inner));
    var x1 := Recorded(cfg, x);
    assert x1.req == x.req;
    LoggedUnauthenticated(cfg, inner, x1);
    RateLimitPasses(cfg, c2, x);
    assert [Pre("rate_limit")] + [Pre("logger"), Pre("auth_required"), Post("logger")] + [Post("rate_limit")] ==
      [Pre("rate_limit"), Pre("logger"), Pre("auth_required"), Post("logger"), Post("rate_limit")];
  }

  /** Behind the rate limiter: `logger`, then `auth_required` answering 401 itself. */
  lemma LoggedUnauthenticated(cfg: Config, inner: AppHandler, x: Ctx<AppState>)
    requires Auth.Authenticate(AuthHeader(x.req), cfg.verify).None?
    ensures Invoke(Wrap(LoggerLayer(), Wrap(AuthLayer(cfg), inner)), x) ==
      (Unauthorized(x.state), [Pre("logger"), Pre("auth_required"), Post("logger")])
  {
    AuthStops(cfg, inner, x);
    LoggerPasses(Wrap(AuthLayer(cfg), inner), x);
    assert [Pre("logger")] + [Pre("auth_required")] + [Post("logger")] == [Pre("logger"), Pre("auth_required"), Post("logger")];
  }

  // ---------------------------------------------------------------------------
  // Whole requests
  // ---------------------------------------------------------------------------

  /** The request the dispatcher builds for a routed call. */
  function Routed(cfg: Config, verb: string, raw: string, headers: map<string, string>, body: Json.Value,
                  ip: string, now: real, s: AppState): Ctx<AppState>
    requires Decide(RouteTable(cfg), verb, raw).Run?
  {
    var d := Decide(RouteTable(cfg), verb, raw);
    Ctx(BuildRequest(verb, d.target, headers, d.params, body, ip), s, now)
  }

  /** A routed call is the handler inside the application middlewares, on the built request. */
  lemma ServeRouted(cfg: Config, verb: string, raw: string, headers: map<string, string>, body: Json.Value,
                    ip: string, now: real, s: AppState)
    requires Decide(RouteTable(cfg), verb, raw).Run?
    ensures var x := Routed(cfg, verb, raw, headers, body, ip, now, s);
      var reply := Invoke(Nest(Middlewares(cfg), Decide(RouteTable(cfg), verb, raw).handler), x).0;
      Serve(cfg, verb, raw, headers, body, ip, now, s) == (Dispatch.Respond(reply.outcome), reply.state)
    ensures Key(Routed(cfg, verb, raw, headers, body, ip, now, s).req) == ip
  {
  }

  /**
   * Any routed request from an address over its limit gets 429 with the
   * configured limit, and the server's database is left as it was.
   */
  lemma ServeRateLimited(cfg: Config, verb: string, raw: string, headers: map<string, string>, body: Json.Value,
                         ip: string, now: real, s: AppState)
    requires Decide(RouteTable(cfg), verb, raw).Run?
    requires !RateLimit.Admit(s.windows, ip, now, cfg.limit).0
    ensures Serve(cfg, verb, raw, headers, body, ip, now, s) ==
      (Response(429, TooMany(cfg)), s.(windows := RateLimit.Admit(s.windows, ip, now, cfg.limit).1))
  {
    ServeRouted(cfg, verb, raw, headers, body, ip, now, s);
    var x := Routed(cfg, verb, raw, headers, body, ip, now, s);
    RateLimitedStops(cfg, Decide(RouteTable(cfg), verb, raw).handler, x);
  }

  /**
   * An admitted request to an auth-wrapped route without a verified bearer
   * token in its `Authorization` header gets 401, and the database is left
   * as it was.
   */
  lemma ServeUnauthenticated(cfg: Config, verb: string, raw: string, headers: map<string, string>, body: Json.Value,
                             ip: string, now: real, s: AppState)
    requires Decide(RouteTable(cfg), verb, raw).Run?
    requires Decide(RouteTable(cfg), verb, raw).handler.Wrap? && Decide(RouteTable(cfg), verb, raw).handler.layer == AuthLayer(cfg)
    requires RateLimit.Admit(s.windows, ip, now, cfg.limit).0
    requires Auth.Authenticate(if "Authorization" in headers then Some(headers["Authorization"]) else None, cfg.verify).None?
    ensures Serve(cfg, verb, raw, headers, body, ip, now, s) ==
      (Response(401, Json.Error("unauthorized")), s.(windows := RateLimit.Admit(s.windows, ip, now, cfg.limit).1))
  {
    ServeRouted(cfg, verb, raw, headers, body, ip, now, s);
    var x := Routed(cfg, verb, raw, headers, body, ip, now, s);
    var h := Decide(RouteTable(cfg), verb, raw).handler;
    assert AuthHeader(x.req) == (if "Authorization" in headers then Some(headers["Authorization"]) else None);
    UnauthenticatedStops(cfg, h.inner, x);
  }
}
