/**
 * How the demo application's route table routes a concrete request: which
 * patterns the ten registrations leave in the table, which of them a toggle
 * request `PATCH /todos/<id>/toggle` matches, and what the whole server
 * answers to it.
 */
module RoutingProperties {
  import opened Wrappers
  import opened Text
  import opened Url
  import opened Routes
  import opened Matcher
  import opened Middleware
  import opened Dispatch
  import opened Handlers
  import opened TodoApp
  import opened AppProperties
  import Json
  import RateLimit
  import Auth

  /** The nine patterns the demo application registers. */
  const AppPatterns: set<string> :=
    {"/health", "/hello", "/auth/register", "/auth/login", "/me", "/todos", "/todos/:id/toggle", "/todos/:id", "/openapi.json"}

  /** Every pattern of the table is one of `s`. */
  predicate Within<H>(t: Table<H>, s: set<string>) {
    forall j :: 0 <= j < |t| ==> t[j].pattern in s
  }

  /** A registration adds no pattern but its own. */
  lemma RouteWithin<H>(t: Table<H>, path: string, methods: seq<string>, h: H, s: set<string>)
    requires Within(t, s) && path in s
    ensures Within(Route(t, path, methods, h), s)
  {
    RouteKeepsOrder(t, path, methods, h);
    var r := Route(t, path, methods, h);
    forall j | 0 <= j < |r| ensures r[j].pattern in s {
      assert Patterns(r)[j] == r[j].pattern;
      if j < |t| { assert Patterns(t)[j] == t[j].pattern; }
    }
  }

  /** Re-binding a handler adds no pattern. */
  lemma RewrapWithin(t: Table<AppHandler>, path: string, verb: string, l: AppLayer, s: set<string>)
    requires Within(t, s)
    ensures Within(Rewrap(t, path, verb, l), s)
  {
    RewrapKeepsOrder(t, path, verb, l);
    var r := Rewrap(t, path, verb, l);
    forall j | 0 <= j < |r| ensures r[j].pattern in s {
      assert Patterns(r)[j] == r[j].pattern && Patterns(t)[j] == t[j].pattern;
    }
  }

  /** The registrations leave only the nine patterns the module names. */
  lemma RegisteredWithin(cfg: Config)
    ensures Within(Registered(cfg), AppPatterns)
  {
    var s := AppPatterns;
    var t0: Table<AppHandler> := [];
    var t1 := Route(t0, "/health", ["GET"], Base(Health));
    var t2 := Route(t1, "/hello", ["GET"], Base(Hello));
    var t3 := Route(t2, "/auth/register", ["POST"], RegisterHandler(cfg));
    var t4 := Route(t3, "/auth/login", ["POST"], LoginHandler(cfg));
    var t5 := Route(t4, "/me", ["GET"], Base(Me));
    var t6 := Route(t5, "/todos", ["GET"], Base(ListTodos));
    var t7 := Route(t6, "/todos", ["POST"], Base(CreateTodo));
    var t8 := Route(t7, "/todos/:id/toggle", ["PATCH"], Base(Toggle));
    var t9 := Route(t8, "/todos/:id", ["DELETE"], Base(Delete));
    var t10 := Route(t9, "/openapi.json", ["GET"], Base(OpenApi));
    assert t10 == Registered(cfg);
    RouteWithin(t0, "/health", ["GET"], Base(Health), s);
    RouteWithin(t1, "/hello", ["GET"], Base(Hello), s);
    RouteWithin(t2, "/auth/register", ["POST"], RegisterHandler(cfg), s);
    RouteWithin(t3, "/auth/login", ["POST"], LoginHandler(cfg), s);
    RouteWithin(t4, "/me", ["GET"], Base(Me), s);
    RouteWithin(t5, "/todos", ["GET"], Base(ListTodos), s);
    RouteWithin(t6, "/todos", ["POST"], Base(CreateTodo), s);
    RouteWithin(t7, "/todos/:id/toggle", ["PATCH"], Base(Toggle), s);
    RouteWithin(t8, "/todos/:id", ["DELETE"], Base(Delete), s);
    RouteWithin(t9, "/openapi.json", ["GET"], Base(OpenApi), s);
  }

  /** Wrapping the protected handlers at start-up adds no pattern either. */
  lemma RouteTableWithin(cfg: Config)
    ensures Within(RouteTable(cfg), AppPatterns)
  {
    var s := AppPatterns;
    var a := AuthLayer(cfg);
    var t := Registered(cfg);
    RegisteredWithin(cfg);
    var t1 := Rewrap(t, "/me", "GET", a);
    RewrapWithin(t, "/me", "GET", a, s);
    var t2 := Rewrap(t1, "/todos", "GET", a);
    RewrapWithin(t1, "/todos", "GET", a, s);
    var t3 := Rewrap(t2, "/todos", "POST", a);
    RewrapWithin(t2, "/todos", "POST", a, s);
    var t4 := Rewrap(t3, "/todos/:id/toggle", "PATCH", a);
    RewrapWithin(t3, "/todos/:id/toggle", "PATCH", a, s);
    RewrapWithin(t4, "/todos/:id", "DELETE", a, s);
  }

  /** A pattern with a known segment list compiles to that many segments. */
  lemma CompiledLength(pattern: string, parts: seq<string>)
    requires |parts| >= 1 && forall k :: 0 <= k < |parts| ==> '/' !in parts[k]
    requires Join(parts, '/') == pattern
    ensures |Compile(pattern)| == |parts|
  {
    SplitJoin(parts, '/');
  }

  /** `/a` has two segments. */
  lemma TwoSegments(a: string)
    requires '/' !in a
    ensures |Compile("/" + a)| == 2
  {
    assert Join(["", a], '/') == "/" + a;
    CompiledLength("/" + a, ["", a]);
  }

  /** `/a/b` has three segments. */
  lemma ThreeSegments(a: string, b: string)
    requires '/' !in a && '/' !in b
    ensures |Compile("/" + a + "/" + b)| == 3
  {
    assert Join([a, b], '/') == a + "/" + b;
    assert Join(["", a, b], '/') == "/" + a + "/" + b;
    CompiledLength("/" + a + "/" + b, ["", a, b]);
  }

  /** Every pattern but the toggle route's has two or three segments. */
  lemma ShortPatterns(p: string)
    requires p in AppPatterns && p != "/todos/:id/toggle"
    ensures |Compile(p)| < 4
  {
    if p == "/health" {
      assert p == "/" + "health";
      TwoSegments("health");
    } else if p == "/hello" {
      assert p == "/" + "hello";
      TwoSegments("hello");
    } else if p == "/auth/register" {
      assert p == "/" + "auth" + "/" + "register";
      ThreeSegments("auth", "register");
    } else if p == "/auth/login" {
      assert p == "/" + "auth" + "/" + "login";
      ThreeSegments("auth", "login");
    } else if p == "/me" {
      assert p == "/" + "me";
      TwoSegments("me");
    } else if p == "/todos" {
      assert p == "/" + "todos";
      TwoSegments("todos");
    } else if p == "/todos/:id" {
      assert p == "/" + "todos" + "/" + ":id";
      ThreeSegments("todos", ":id");
    } else {
      assert p == "/" + "openapi.json";
      TwoSegments("openapi.json");
    }
  }

  /** A toggle path has four segments, whatever the id, so no other pattern of the application matches it. */
  lemma ToggleMissesOthers(id: string, p: string)
    requires id != "" && '/' !in id
    requires p in AppPatterns && p != "/todos/:id/toggle"
    ensures MatchPath(p, "/todos/" + id + "/toggle").None?
  {
    JoinToggle(id);
    SplitJoin(["", "todos", id, "toggle"], '/');
    ShortPatterns(p);
  }

  /** In any table holding only the application's patterns, the toggle route alone decides a toggle request. */
  lemma ToggleDecidedBy<H>(t: Table<H>, id: string, h: H)
    requires id != "" && '/' !in id && PlainPath(id)
    requires Within(t, AppPatterns) && Lookup(t, "/todos/:id/toggle") == Some(map["PATCH" := h])
    ensures var raw := "/todos/" + id + "/toggle";
      Decide(t, "PATCH", raw) == Run(h, map["id" := id], Target(raw, ""))
  {
    var raw := "/todos/" + id + "/toggle";
    assert PlainPath(raw);
    SplitTargetPath(raw);
    forall j | 0 <= j < |t| && t[j].pattern != "/todos/:id/toggle"
      ensures MatchPath(t[j].pattern, raw).None?
    {
      ToggleMissesOthers(id, t[j].pattern);
    }
    ToggleBindsId(id, raw);
    OnlyMatchDecides(t, "PATCH", raw, "/todos/:id/toggle");
  }

  /**
   * `PATCH /todos/<id>/toggle` reaches the toggle handler behind
   * `auth_required`, with `id` bound to the path's id, for every id without
   * a `/` and without the characters `urlparse` splits on.
   */
  lemma DecideToggle(cfg: Config, id: string)
    requires id != "" && '/' !in id && PlainPath(id)
    ensures var raw := "/todos/" + id + "/toggle";
      Decide(RouteTable(cfg), "PATCH", raw) ==
        Run(Wrap(AuthLayer(cfg), Base(Toggle)), map["id" := id], Target(raw, ""))
  {
    RouteTableWithin(cfg);
    ProtectedRoutes(cfg);
    ToggleDecidedBy(RouteTable(cfg), id, Wrap(AuthLayer(cfg), Base(Toggle)));
  }

  /**
   * End to end: an admitted toggle request whose `Authorization` header does
   * not carry a verified bearer token gets 401, and no todo changes.
   */
  lemma ToggleWithoutToken(cfg: Config, id: string, headers: map<string, string>, body: Json.Value,
                           ip: string, now: real, s: AppState)
    requires id != "" && '/' !in id && PlainPath(id)
    requires RateLimit.Admit(s.windows, ip, now, cfg.limit).0
    requires Auth.Authenticate(if "Authorization" in headers then Some(headers["Authorization"]) else None, cfg.verify).None?
    ensures var r := Serve(cfg, "PATCH", "/todos/" + id + "/toggle", headers, body, ip, now, s);
      r.0 == Response(401, Json.Error("unauthorized")) && r.1.db == s.db
  {
    DecideToggle(cfg, id);
    ServeUnauthenticated(cfg, "PATCH", "/todos/" + id + "/toggle", headers, body, ip, now, s);
  }
}
