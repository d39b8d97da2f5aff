/**
 * The route handlers of the demo API (`examples/hello_world/backend/main.py`):
 * their validation, their status codes and what they do to the tables.
 * A handler reads the request and the state and returns a `Reply`; a Python
 * exception a handler would raise is a `Raised` outcome carrying `str(e)`.
 */
module Handlers {
  import opened Wrappers
  import opened Text
  import opened Dispatch
  import Json
  import Url
  import RateLimit
  import Auth
  import Store

  /** Everything the server keeps between requests: the rate windows and the database. */
  datatype AppState = AppState(windows: RateLimit.Windows, db: Store.Db)

  /**
   * `RATE_LIMIT_PER_MIN`, and the token functions of `backend/auth.py`:
   * `sign` stands for `jwt.encode` with the secret, `verify` for `verify_token`.
   */
  datatype Config = Config(limit: int, sign: Auth.Claims -> string, verify: string -> Option<Auth.Claims>)

  /** The limit when the environment does not set one. */
  const DefaultLimit: int := 60

  // ---------------------------------------------------------------------------
  // Replies and the Python errors handlers run into
  // ---------------------------------------------------------------------------

  function Answer(s: AppState, body: Json.Value, status: int): Reply<AppState> {
    Reply(Returned(Pair(body, status)), s)
  }

  function Body(s: AppState, body: Json.Value): Reply<AppState> {
    Reply(Returned(Plain(body)), s)
  }

  /** Python's type name of a decoded JSON value. */
  function TypeName(v: Json.Value): string {
    match v
    case Null => "NoneType"
    case Bool(_) => "bool"
    case Num(_) => "int"
    case Str(_) => "str"
    case Arr(_) => "list"
    case Obj(_) => "dict"
  }

  /** The message of the `AttributeError` raised by `v.attr` on a value that lacks it. */
  function NoAttribute(v: Json.Value, attr: string): string {
    "'" + TypeName(v) + "' object has no attribute '" + attr + "'"
  }

  /** The message of the `TypeError` raised by `item["done"] = ...` when the row read back is `None`. */
  const NoRowAssignment: string := "'NoneType' object does not support item assignment"

  /** The message of the `KeyError` raised by `request["params"]["id"]` without an `id`. */
  const NoIdParam: string := "'id'"

  datatype Attempt<T> = Ok(value: T) | Fail(detail: string)

  /**
   * `(v or "").strip()`: a false value reads as the empty string, a string is
   * stripped, any other true value raises `AttributeError`.
   */
  function StripOr(v: Json.Value): (r: Attempt<string>)
    ensures !Json.Truthy(v) ==> r == Ok("")
    ensures v.Str? ==> r == Ok(Strip(v.s))
    ensures r.Fail? <==> Json.Truthy(v) && !v.Str?
  {
    if !Json.Truthy(v) then Ok("")
    else if v.Str? then Ok(Strip(v.s))
    else Fail(NoAttribute(v, "strip"))
  }

  function UserJson(id: int, email: string): Json.Value {
    Json.Obj(map["id" := Json.Num(id), "email" := Json.Str(email)])
  }

  function TodoJson(t: Store.Todo): Json.Value {
    Json.Obj(map["id" := Json.Num(t.id), "title" := Json.Str(t.title), "done" := Json.Bool(t.done)])
  }

  function TodoJsons(ts: seq<Store.Todo>): (r: seq<Json.Value>)
    ensures |r| == |ts| && forall i :: 0 <= i < |ts| ==> r[i] == TodoJson(ts[i])
  {
    if |ts| == 0 then [] else [TodoJson(ts[0])] + TodoJsons(ts[1..])
  }

  /** The token `create_token` returns for a user at clock reading `now`. */
  function Token(cfg: Config, id: int, email: string, now: real): Json.Value {
    Json.Str(cfg.sign(Auth.NewClaims(id, email, now)))
  }

  // ---------------------------------------------------------------------------
  // Public routes
  // ---------------------------------------------------------------------------

  function Health(x: Ctx<AppState>): Reply<AppState> {
    Body(x.state, Json.Obj(map["status" := Json.Str("ok")]))
  }

  function Hello(x: Ctx<AppState>): Reply<AppState> {
    Body(x.state, Json.Obj(map["message" := Json.Str("Hello from PyReactX on macOS \U{1F389} (SQLite + JWT + .env + rate-limit)")]))
  }

  /** `/openapi.json`: a constant document; only its header fields are modelled. */
  function OpenApi(x: Ctx<AppState>): Reply<AppState> {
    Body(x.state, Json.Obj(map[
      "openapi" := Json.Str("3.0.3"),
      "info" := Json.Obj(map[
        "title" := Json.Str("PyReactX API"),
        "version" := Json.Str("1.0.0"),
        "description" := Json.Str("Minimal auth + todos API for the PyReactX demo.")])]))
  }

  /**
   * The registration checks: a false body is 400 "invalid JSON body"; a body
   * that is not an object, or an email that is neither false nor a string,
   * raises; the email is stripped and lower-cased; an empty email or a false
   * password is 400; a known email is 409; a password that is not a string
   * raises when it is hashed. What is accepted is the email and the password.
   */
  datatype Check = Refuse(status: int, message: string) | Crash(detail: string) | Accept(email: string, password: string)

  function RegisterCheck(data: Json.Value, accounts: seq<Store.Account>): (c: Check)
    ensures !Json.Truthy(data) <==> c == Refuse(400, "invalid JSON body")
    ensures c.Accept? ==> data.Obj? && c.email != "" && c.password != ""
    ensures c.Accept? ==> Json.Get(data.fields, "email").Str? && c.email == Lower(Strip(Json.Get(data.fields, "email").s))
    ensures c.Accept? ==> Json.Get(data.fields, "password") == Json.Str(c.password)
    ensures c.Accept? ==> Store.FindAccount(accounts, c.email).None?
  {
    if !Json.Truthy(data) then Refuse(400, "invalid JSON body")
    else if !data.Obj? then Crash(NoAttribute(data, "get"))
    else
      match StripOr(Json.Get(data.fields, "email"))
      case Fail(d) => Crash(d)
      case Ok(stripped) =>
        var email := Lower(stripped);
        var password := Json.Or(Json.Get(data.fields, "password"), Json.Str(""));
        if email == "" || !Json.Truthy(password) then Refuse(400, "email and password required")
        else if Store.FindAccount(accounts, email).Some? then Refuse(409, "email already in use")
        else if !password.Str? then Crash(NoAttribute(password, "encode"))
        else Accept(email, password.s)
  }

  /**
   * `register`: an accepted registration inserts the account and answers with
   * the user and a fresh token (the account is read back by email, which
   * finds exactly the inserted row).
   */
  function Register(cfg: Config, x: Ctx<AppState>): (r: Reply<AppState>)
    ensures r.state.windows == x.state.windows
    ensures !RegisterCheck(x.req.json, x.state.db.accounts).Accept? ==> r.state == x.state
    ensures RegisterCheck(x.req.json, x.state.db.accounts).Accept? ==>
      var c := RegisterCheck(x.req.json, x.state.db.accounts);
      r.state.db == Store.AddAccount(x.state.db, c.email, c.password).0
  {
    var s := x.state;
    match RegisterCheck(x.req.json, s.db.accounts)
    case Refuse(status, message) => Answer(s, Json.Error(message), status)
    case Crash(d) => Reply(Raised(d), s)
    case Accept(email, password) =>
      var (db', a) := Store.AddAccount(s.db, email, password);
      Body(s.(db := db'), Json.Obj(map["user" := UserJson(a.id, a.email), "token" := Token(cfg, a.id, a.email, x.now)]))
  }

  /** `check_password`: bcrypt's comparison, with a non-string password failing instead of raising. */
  predicate PasswordMatches(given: Json.Value, stored: string) {
    given.Str? && given.s == stored
  }

  /** `login`: the account found by the normalised email, if the password matches it. */
  function Login(cfg: Config, x: Ctx<AppState>): (r: Reply<AppState>)
    ensures r.state == x.state
    ensures !Json.Truthy(x.req.json) ==> r.outcome == Returned(Pair(Json.Error("invalid JSON body"), 400))
  {
    var s := x.state;
    var data := x.req.json;
    if !Json.Truthy(data) then Answer(s, Json.Error("invalid JSON body"), 400)
    else if !data.Obj? then Reply(Raised(NoAttribute(data, "get")), s)
    else
      match StripOr(Json.Get(data.fields, "email"))
      case Fail(d) => Reply(Raised(d), s)
      case Ok(stripped) =>
        var email := Lower(stripped);
        var password := Json.Or(Json.Get(data.fields, "password"), Json.Str(""));
        match Store.FindAccount(s.db.accounts, email)
        case None => Answer(s, Json.Error("invalid credentials"), 401)
        case Some(a) =>
          if !PasswordMatches(password, a.password) then Answer(s, Json.Error("invalid credentials"), 401)
          else Body(s, Json.Obj(map["user" := UserJson(a.id, a.email), "token" := Token(cfg, a.id, a.email, x.now)]))
  }

  // ---------------------------------------------------------------------------
  // Protected routes (each also refuses a request without a user itself)
  // ---------------------------------------------------------------------------

  function Unauthorized(s: AppState): Reply<AppState> {
    Answer(s, Json.Error("unauthorized"), 401)
  }

  function Me(x: Ctx<AppState>): Reply<AppState> {
    Body(x.state, Json.Obj(map["user" := if x.req.user.Some? then UserJson(x.req.user.value.id, x.req.user.value.email) else Json.Null]))
  }

  /** `int(request["query"].get(key, default))`: `None` where it raises (a bad string or a list of values). */
  function IntArg(query: map<string, Url.QueryValue>, key: string, default: int): Option<int> {
    if key !in query then Some(default)
    else
      match query[key]
      case Single(v) => ParseInt(v)
      case Many(_) => None
  }

  function Max(a: int, b: int): int {
    if a >= b then a else b
  }

  function Min(a: int, b: int): int {
    if a <= b then a else b
  }

  datatype Paging = Paging(page: int, limit: int, offset: int)

  /**
   * The pagination clamp of `list_todos`: `page` defaults to 1 and is at
   * least 1, `limit` defaults to 10 and lies in [1, 50], and the offset is
   * `(page - 1) * limit`, never negative. Either value failing to parse gives
   * `None` (answered with 400).
   */
  function Pagination(query: map<string, Url.QueryValue>): (p: Option<Paging>)
    ensures p.None? <==> IntArg(query, "page", 1).None? || IntArg(query, "limit", 10).None?
    ensures p.Some? ==> p.value.page >= 1 && 1 <= p.value.limit <= 50 && p.value.offset >= 0
    ensures p.Some? ==> p.value.offset == (p.value.page - 1) * p.value.limit
    ensures p.Some? ==> p.value.page == Max(IntArg(query, "page", 1).value, 1)
    ensures p.Some? ==> p.value.limit == Max(Min(IntArg(query, "limit", 10).value, 50), 1)
  {
    match IntArg(query, "page", 1)
    case None => None
    case Some(page) =>
      match IntArg(query, "limit", 10)
      case None => None
      case Some(limit) =>
        var page' := Max(page, 1);
        var limit' := Max(Min(limit, 50), 1);
        var offset := (page' - 1) * limit';
        ProductNonNegative(page' - 1, limit');
        Some(Paging(page', limit', offset))
  }

  lemma ProductNonNegative(a: int, b: int)
    requires a >= 0 && b >= 0
    ensures a * b >= 0
  {
  }

  /** `list_todos`: one page of the user's todos, newest first, with the total count. */
  function ListTodos(x: Ctx<AppState>): (r: Reply<AppState>)
    ensures r.state == x.state
    ensures x.req.user.None? ==> r == Unauthorized(x.state)
    ensures x.req.user.Some? && Pagination(x.req.query).None? ==>
      r.outcome == Returned(Pair(Json.Error("bad pagination params"), 400))
  {
    var s := x.state;
    match x.req.user
    case None => Unauthorized(s)
    case Some(u) =>
      match Pagination(x.req.query)
      case None => Answer(s, Json.Error("bad pagination params"), 400)
      case Some(p) =>
        var owned := Store.OwnedBy(s.db.todos, u.id);
        var items := Store.PageOf(owned, p.limit, p.offset);
        Body(s, Json.Obj(map[
          "items" := Json.Arr(TodoJsons(items)),
          "page" := Json.Num(p.page),
          "limit" := Json.Num(p.limit),
          "total" := Json.Num(|owned|)]))
  }

  /** The title `create_todo` accepts: `(data.get("title") or "").strip()`, which must not be empty. */
  function TitleCheck(data: Json.Value): (c: Attempt<Option<string>>)
    ensures c.Ok? && c.value.Some? ==> data.Obj? && Json.Get(data.fields, "title").Str?
    ensures c.Ok? && c.value.Some? ==> c.value.value == Strip(Json.Get(data.fields, "title").s) && c.value.value != ""
    ensures c.Ok? && c.value.Some? ==> !IsSpace(c.value.value[0]) && !IsSpace(c.value.value[|c.value.value| - 1])
    ensures c.Ok? && c.value.None? <==> data.Obj? && (var t := Json.Get(data.fields, "title"); !Json.Truthy(t) || (t.Str? && Strip(t.s) == ""))
  {
    if !data.Obj? then Fail(NoAttribute(data, "get"))
    else
      match StripOr(Json.Get(data.fields, "title"))
      case Fail(d) => Fail(d)
      case Ok(title) => if title == "" then Ok(None) else Ok(Some(title))
  }

  /** `create_todo`: inserts a not-done todo for the user and answers 201 with the row read back. */
  function CreateTodo(x: Ctx<AppState>): (r: Reply<AppState>)
    ensures r.state.windows == x.state.windows
    ensures x.req.user.None? ==> r == Unauthorized(x.state)
    ensures x.req.user.Some? && !Json.Truthy(x.req.json) ==> r == Answer(x.state, Json.Error("invalid JSON body"), 400)
    ensures x.req.user.Some? && Json.Truthy(x.req.json) && TitleCheck(x.req.json) == Ok(None) ==>
      r == Answer(x.state, Json.Error("title is required"), 400)
  {
    var s := x.state;
    match x.req.user
    case None => Unauthorized(s)
    case Some(u) =>
      if !Json.Truthy(x.req.json) then Answer(s, Json.Error("invalid JSON body"), 400)
      else
        match TitleCheck(x.req.json)
        case Fail(d) => Reply(Raised(d), s)
        case Ok(None) => Answer(s, Json.Error("title is required"), 400)
        case Ok(Some(title)) =>
          var (db', _) := Store.AddTodo(s.db, title, u.id);
          var s' := s.(db := db');
          match Store.Newest(db'.todos, u.id)
          case None => Reply(Raised(NoRowAssignment), s')
          case Some(item) => Answer(s', TodoJson(item), 201)
  }

  /**
   * The row id a path parameter selects: `id=?` against an INTEGER PRIMARY
   * KEY converts a string of decimal digits to its value; any other string
   * selects no row.
   */
  function RowId(tid: string): (r: Option<int>)
    ensures r.Some? <==> |tid| > 0 && forall i :: 0 <= i < |tid| ==> IsDigit(tid[i])
    ensures r.Some? ==> r.value >= 0
  {
    if |tid| > 0 && forall i :: 0 <= i < |tid| ==> IsDigit(tid[i]) then Some(DigitsValue(tid)) else None
  }

  /** The decimal spelling of an id selects that id. */
  lemma RowIdShowNat(n: nat)
    ensures RowId(ShowNat(n)) == Some(n)
  {
    DigitsValueShowNat(n);
  }

  /** The todo a request's `id` parameter names for its user, if there is one. */
  function Target(x: Ctx<AppState>, u: Auth.User): Option<Store.Todo>
    requires "id" in x.req.params
  {
    match RowId(x.req.params["id"])
    case None => None
    case Some(id) => Store.FindTodo(x.state.db.todos, id, u.id)
  }

  /** `toggle_todo`: flips `done` of the user's todo and answers with the row read back; 404 when it is not theirs. */
  function Toggle(x: Ctx<AppState>): (r: Reply<AppState>)
    ensures r.state.windows == x.state.windows
    ensures x.req.user.None? ==> r == Unauthorized(x.state)
    ensures x.req.user.Some? && "id" in x.req.params && Target(x, x.req.user.value).None? ==>
      r == Answer(x.state, Json.Error("not found"), 404)
    ensures x.req.user.Some? && "id" in x.req.params && Target(x, x.req.user.value).Some? ==>
      var t := Target(x, x.req.user.value).value;
      r.state.db == x.state.db.(todos := Store.SetDone(x.state.db.todos, t.id, t.owner, !t.done))
  {
    var s := x.state;
    match x.req.user
    case None => Unauthorized(s)
    case Some(u) =>
      if "id" !in x.req.params then Reply(Raised(NoIdParam), s)
      else
        match Target(x, u)
        case None => Answer(s, Json.Error("not found"), 404)
        case Some(t) =>
          var s' := s.(db := s.db.(todos := Store.SetDone(s.db.todos, t.id, t.owner, !t.done)));
          match Store.FindTodo(s'.db.todos, t.id, t.owner)
          case None => Reply(Raised(NoRowAssignment), s')
          case Some(item) => Body(s', TodoJson(item))
  }

  /** `delete_todo`: removes the user's todo; 404 when it is not theirs. */
  function Delete(x: Ctx<AppState>): (r: Reply<AppState>)
    ensures r.state.windows == x.state.windows
    ensures x.req.user.None? ==> r == Unauthorized(x.state)
    ensures x.req.user.Some? && "id" in x.req.params && Target(x, x.req.user.value).None? ==>
      r == Answer(x.state, Json.Error("not found"), 404)
    ensures x.req.user.Some? && "id" in x.req.params && Target(x, x.req.user.value).Some? ==>
      var t := Target(x, x.req.user.value).value;
      r == Answer(x.state.(db := x.state.db.(todos := Store.Remove(x.state.db.todos, t.id, t.owner))),
                  Json.Obj(map["status" := Json.Str("deleted")]), 200)
  {
    var s := x.state;
    match x.req.user
    case None => Unauthorized(s)
    case Some(u) =>
      if "id" !in x.req.params then Reply(Raised(NoIdParam), s)
      else
        match Target(x, u)
        case None => Answer(s, Json.Error("not found"), 404)
        case Some(t) =>
          Answer(s.(db := s.db.(todos := Store.Remove(s.db.todos, t.id, t.owner))),
                 Json.Obj(map["status" := Json.Str("deleted")]), 200)
  }
}
