/**
 * What the todo and account handlers guarantee over several requests: a
 * later request sees the state an earlier reply left.
 */
module HandlerProperties {
  import opened Wrappers
  import opened Text
  import opened Dispatch
  import opened Handlers
  import Json
  import Url
  import Store

  // ---------------------------------------------------------------------------
  // Todos
  // ---------------------------------------------------------------------------

  /** The user's todo that a toggle or delete request names. */
  predicate Names(x: Ctx<AppState>, u: Auth.User) {
    x.req.user == Some(u) && "id" in x.req.params && Target(x, u).Some?
  }

  lemma TargetFound(x: Ctx<AppState>, u: Auth.User)
    requires Names(x, u)
    ensures Store.FindTodo(x.state.db.todos, Target(x, u).value.id, Target(x, u).value.owner) == Target(x, u)
    ensures Target(x, u).value.owner == u.id
    ensures RowId(x.req.params["id"]) == Some(Target(x, u).value.id)
  {
  }

  /** Toggling answers with the named todo, `done` flipped, and keeps the tables valid. */
  lemma ToggleFlips(x: Ctx<AppState>, u: Auth.User)
    requires Names(x, u) && Store.Valid(x.state.db)
    ensures var t := Target(x, u).value;
      Toggle(x).outcome == Returned(Plain(TodoJson(t.(done := !t.done))))
    ensures Store.Valid(Toggle(x).state.db)
    ensures Target(x.(state := Toggle(x).state), u) == Some(Target(x, u).value.(done := !Target(x, u).value.done))
  {
    var t := Target(x, u).value;
    TargetFound(x, u);
    Store.SetDoneValid(x.state.db, t.id, t.owner, !t.done);
  }

  /** Toggling the same todo twice restores the state the first toggle saw. */
  lemma ToggleTwiceRestores(x: Ctx<AppState>, u: Auth.User)
    requires Names(x, u) && Store.Valid(x.state.db)
    ensures Toggle(x.(state := Toggle(x).state)).state == x.state
  {
    var t := Target(x, u).value;
    var db := x.state.db;
    TargetFound(x, u);
    ToggleFlips(x, u);
    var x2 := x.(state := Toggle(x).state);
    assert Names(x2, u);
    assert Toggle(x2).state.db == x2.state.db.(todos := Store.SetDone(x2.state.db.todos, t.id, t.owner, t.done));
    Store.ToggleTwice(db.todos, t.id, t.owner);
  }

  /** A deleted todo is gone: toggling or deleting it again answers 404. */
  lemma DeleteThenMissing(x: Ctx<AppState>, u: Auth.User)
    requires Names(x, u)
    ensures Delete(x).outcome == Returned(Pair(Json.Obj(map["status" := Json.Str("deleted")]), 200))
    ensures var x2 := x.(state := Delete(x).state);
      Toggle(x2) == Answer(x2.state, Json.Error("not found"), 404) &&
      Delete(x2) == Answer(x2.state, Json.Error("not found"), 404)
  {
    var t := Target(x, u).value;
    TargetFound(x, u);
    Store.RemoveGone(x.state.db.todos, t.id, t.owner);
    var x2 := x.(state := Delete(x).state);
    assert Target(x2, u).None?;
  }

  /** The request `create_todo` accepts: a user and a non-empty title. */
  predicate Creates(x: Ctx<AppState>, u: Auth.User, title: string) {
    x.req.user == Some(u) && Json.Truthy(x.req.json) && TitleCheck(x.req.json) == Ok(Some(title))
  }

  /**
   * Creating answers 201 with the new row, not done, under the next id, and
   * keeps the tables valid.
   */
  lemma CreateAnswers(x: Ctx<AppState>, u: Auth.User, title: string)
    requires Creates(x, u, title)
    ensures CreateTodo(x).outcome == Returned(Pair(TodoJson(Store.Todo(x.state.db.lastTodo + 1, title, false, u.id)), 201))
    ensures CreateTodo(x).state == x.state.(db := Store.AddTodo(x.state.db, title, u.id).0)
  {
    Store.NewestIsAdded(x.state.db, title, u.id);
  }

  /** Every answer of the delete handler, including the error ones, keeps the tables valid. */
  lemma DeleteValid(x: Ctx<AppState>)
    requires Store.Valid(x.state.db)
    ensures Store.Valid(Delete(x).state.db)
  {
    if x.req.user.Some? && "id" in x.req.params && Target(x, x.req.user.value).Some? {
      var t := Target(x, x.req.user.value).value;
      Store.RemoveValid(x.state.db, t.id, t.owner);
    }
  }

  /** Creating keeps the tables valid. */
  lemma CreateValid(x: Ctx<AppState>, u: Auth.User, title: string)
    requires Creates(x, u, title) && Store.Valid(x.state.db)
    ensures Store.Valid(CreateTodo(x).state.db)
  {
    CreateAnswers(x, u, title);
    Store.AddTodoValid(x.state.db, title, u.id);
  }

  /** The newly created todo is named by the decimal spelling of its id. */
  lemma CreatedIsNamed(x: Ctx<AppState>, u: Auth.User, title: string, y: Ctx<AppState>)
    requires Creates(x, u, title) && Store.Valid(x.state.db) && x.state.db.lastTodo >= 0
    requires y.state == CreateTodo(x).state && y.req.user == Some(u)
    requires y.req.params == map["id" := ShowNat(x.state.db.lastTodo + 1)]
    ensures Target(y, u) == Some(Store.Todo(x.state.db.lastTodo + 1, title, false, u.id))
  {
    CreateAnswers(x, u, title);
    Store.AddTodoValid(x.state.db, title, u.id);
    RowIdShowNat(x.state.db.lastTodo + 1);
  }

  /** What a successful listing shows: its first item and its total. */
  predicate ListingStarts(r: Reply<AppState>, first: Store.Todo, total: int) {
    r.outcome.Returned? && r.outcome.result.Plain? &&
    var body := r.outcome.result.body;
    body.Obj? && "items" in body.fields && "total" in body.fields &&
    body.fields["total"] == Json.Num(total) &&
    body.fields["items"].Arr? && |body.fields["items"].items| > 0 &&
    body.fields["items"].items[0] == TodoJson(first)
  }

  lemma ZeroTimes(a: int, b: int)
    requires a == 0
    ensures a * b == 0
  {
  }

  /** The first page of a listing starts with the user's last row. */
  lemma FirstPageNewest(y: Ctx<AppState>, u: Auth.User, older: seq<Store.Todo>, t: Store.Todo)
    requires y.req.user == Some(u)
    requires Pagination(y.req.query).Some? && Pagination(y.req.query).value.page == 1
    requires Store.OwnedBy(y.state.db.todos, u.id) == older + [t]
    ensures ListingStarts(ListTodos(y), t, |older| + 1)
  {
    var owned := older + [t];
    var p := Pagination(y.req.query).value;
    ZeroTimes(p.page - 1, p.limit);
    var items := Store.PageOf(owned, p.limit, p.offset);
    assert items[0] == t;
  }

  /**
   * Listing against the database a create left (see `CreateAnswers`) shows
   * the new todo first on the first page (newest first) and counts one more
   * todo for the user.
   */
  lemma CreatedListedFirst(db: Store.Db, u: Auth.User, title: string, y: Ctx<AppState>)
    requires y.state.db == Store.AddTodo(db, title, u.id).0 && y.req.user == Some(u)
    requires Pagination(y.req.query).Some? && Pagination(y.req.query).value.page == 1
    ensures ListingStarts(ListTodos(y), Store.Todo(db.lastTodo + 1, title, false, u.id), |Store.OwnedBy(db.todos, u.id)| + 1)
  {
    var t := Store.Todo(db.lastTodo + 1, title, false, u.id);
    Store.OwnedByAppend(db.todos, t, u.id);
    FirstPageNewest(y, u, Store.OwnedBy(db.todos, u.id), t);
  }

  // ---------------------------------------------------------------------------
  // Pagination
  // ---------------------------------------------------------------------------

  /** Without query parameters a listing shows page 1 of 10. */
  lemma PaginationDefaults()
    ensures Pagination(map[]) == Some(Paging(1, 10, 0))
  {
  }

  /** Integers given in the query are clamped: `page` to at least 1, `limit` into [1, 50]. */
  lemma PaginationGiven(page: int, limit: int)
    ensures var q := map["page" := Url.Single(ShowInt(page)), "limit" := Url.Single(ShowInt(limit))];
      var pg := Max(page, 1);
      var l := Max(Min(limit, 50), 1);
      Pagination(q) == Some(Paging(pg, l, (pg - 1) * l))
  {
    var q := map["page" := Url.Single(ShowInt(page)), "limit" := Url.Single(ShowInt(limit))];
    IntArgGiven(q, "page", page, 1);
    IntArgGiven(q, "limit", limit, 10);
    PagingOf(q, page, limit);
  }

  /** The paging a query yields, once both of its values are read. */
  lemma PagingOf(q: map<string, Url.QueryValue>, page: int, limit: int)
    requires IntArg(q, "page", 1) == Some(page) && IntArg(q, "limit", 10) == Some(limit)
    ensures var pg := Max(page, 1);
      var l := Max(Min(limit, 50), 1);
      Pagination(q) == Some(Paging(pg, l, (pg - 1) * l))
  {
    var p := Pagination(q).value;
    assert p.page == Max(page, 1) && p.limit == Max(Min(limit, 50), 1);
  }

  /** A query value written as an integer reads back as that integer, whatever the default. */
  lemma IntArgGiven(q: map<string, Url.QueryValue>, key: string, n: int, default: int)
    requires key in q && q[key] == Url.Single(ShowInt(n))
    ensures IntArg(q, key, default) == Some(n)
  {
    ParseShowInt(n);
  }

  // ---------------------------------------------------------------------------
  // Accounts
  // ---------------------------------------------------------------------------

  /**
   * Register then log in: logging in with the body a registration accepted,
   * against the state it left, answers with the new user and a fresh token.
   */
  lemma RegisterThenLogin(cfg: Config, x: Ctx<AppState>, y: Ctx<AppState>)
    requires RegisterCheck(x.req.json, x.state.db.accounts).Accept?
    requires y.req.json == x.req.json && y.state == Register(cfg, x).state
    ensures var e := RegisterCheck(x.req.json, x.state.db.accounts).email;
      Login(cfg, y) == Body(y.state, Json.Obj(map["user" := UserJson(x.state.db.lastUser + 1, e), "token" := Token(cfg, x.state.db.lastUser + 1, e, y.now)]))
  {
    var c := RegisterCheck(x.req.json, x.state.db.accounts);
    RegisteredDb(cfg, x);
    AcceptedBody(x, y);
    LoginAfterAdd(cfg, x.state.db, y, c.email, c.password);
  }

  /** An accepted registration leaves the database with the account added. */
  lemma RegisteredDb(cfg: Config, x: Ctx<AppState>)
    requires RegisterCheck(x.req.json, x.state.db.accounts).Accept?
    ensures var c := RegisterCheck(x.req.json, x.state.db.accounts);
      Register(cfg, x).state.db == Store.AddAccount(x.state.db, c.email, c.password).0
  {
  }

  /** The body an accepted registration carried, sent again, is an object with the same email and password. */
  lemma AcceptedBody(x: Ctx<AppState>, y: Ctx<AppState>)
    requires RegisterCheck(x.req.json, x.state.db.accounts).Accept?
    requires y.req.json == x.req.json
    ensures var c := RegisterCheck(x.req.json, x.state.db.accounts);
      && Store.FindAccount(x.state.db.accounts, c.email).None?
      && Json.Truthy(y.req.json) && y.req.json.Obj?
      && Json.Get(y.req.json.fields, "email").Str? && Lower(Strip(Json.Get(y.req.json.fields, "email").s)) == c.email
      && Json.Get(y.req.json.fields, "password") == Json.Str(c.password) && c.password != ""
  {
  }

  /** Logging in right after an account was added, with its email and password, answers with that account. */
  lemma LoginAfterAdd(cfg: Config, db: Store.Db, y: Ctx<AppState>, email: string, password: string)
    requires Store.FindAccount(db.accounts, email).None?
    requires y.state.db == Store.AddAccount(db, email, password).0
    requires Json.Truthy(y.req.json) && y.req.json.Obj?
    requires Json.Get(y.req.json.fields, "email").Str? && Lower(Strip(Json.Get(y.req.json.fields, "email").s)) == email
    requires Json.Get(y.req.json.fields, "password") == Json.Str(password) && password != ""
    ensures Login(cfg, y) ==
      Body(y.state, Json.Obj(map["user" := UserJson(db.lastUser + 1, email), "token" := Token(cfg, db.lastUser + 1, email, y.now)]))
  {
    var a := Store.AddAccount(db, email, password).1;
    Store.FindAccountAppend(db.accounts, a, email);
    LoginAccepts(cfg, y, email, password, a);
  }

  /** A login whose normalised email finds an account with that password answers with it. */
  lemma LoginAccepts(cfg: Config, y: Ctx<AppState>, email: string, password: string, a: Store.Account)
    requires Json.Truthy(y.req.json) && y.req.json.Obj?
    requires Json.Get(y.req.json.fields, "email").Str? && Lower(Strip(Json.Get(y.req.json.fields, "email").s)) == email
    requires Json.Get(y.req.json.fields, "password") == Json.Str(password) && password != ""
    requires Store.FindAccount(y.state.db.accounts, email) == Some(a) && a.password == password
    ensures Login(cfg, y) == Body(y.state, Json.Obj(map["user" := UserJson(a.id, a.email), "token" := Token(cfg, a.id, a.email, y.now)]))
  {
    assert Json.Truthy(Json.Get(y.req.json.fields, "password"));
  }

  /** Registering the same email again answers 409 and changes nothing. */
  lemma RegisterTwiceConflicts(cfg: Config, x: Ctx<AppState>, y: Ctx<AppState>)
    requires RegisterCheck(x.req.json, x.state.db.accounts).Accept?
    requires y.req.json == x.req.json && y.state == Register(cfg, x).state
    ensures Register(cfg, y) == Answer(y.state, Json.Error("email already in use"), 409)
  {
    var c := RegisterCheck(x.req.json, x.state.db.accounts);
    var (db', a) := Store.AddAccount(x.state.db, c.email, c.password);
    Store.FindAccountAppend(x.state.db.accounts, a, c.email);
    assert y.state.db.accounts == x.state.db.accounts + [a];
    assert Json.Truthy(x.req.json);
    assert Json.Truthy(Json.Get(x.req.json.fields, "password"));
  }

  /**
   * An accepted registration answers with the account it added (under the
   * next user id, see `Store.AddAccount`) and a token made for it.
   */
  lemma RegisterAnswers(cfg: Config, x: Ctx<AppState>)
    requires RegisterCheck(x.req.json, x.state.db.accounts).Accept?
    ensures var c := RegisterCheck(x.req.json, x.state.db.accounts);
      var a := Store.AddAccount(x.state.db, c.email, c.password).1;
      Register(cfg, x).outcome == Returned(Plain(Json.Obj(map["user" := UserJson(a.id, a.email), "token" := Token(cfg, a.id, a.email, x.now)])))
  {
  }

  /**
   * A login whose normalised email finds no account, or finds one whose
   * password does not match, answers 401 and changes nothing.
   */
  lemma LoginRejects(cfg: Config, y: Ctx<AppState>, email: string)
    requires Json.Truthy(y.req.json) && y.req.json.Obj?
    requires StripOr(Json.Get(y.req.json.fields, "email")).Ok?
    requires Lower(StripOr(Json.Get(y.req.json.fields, "email")).value) == email
    requires Store.FindAccount(y.state.db.accounts, email).None? ||
      !PasswordMatches(Json.Or(Json.Get(y.req.json.fields, "password"), Json.Str("")), Store.FindAccount(y.state.db.accounts, email).value.password)
    ensures Login(cfg, y) == Answer(y.state, Json.Error("invalid credentials"), 401)
  {
  }

  /** A registration keeps the tables valid. */
  lemma RegisterValid(cfg: Config, x: Ctx<AppState>)
    requires Store.Valid(x.state.db)
    ensures Store.Valid(Register(cfg, x).state.db)
  {
    var c := RegisterCheck(x.req.json, x.state.db.accounts);
    if c.Accept? {
      RegisteredDb(cfg, x);
      Store.AddAccountFindsIt(x.state.db, c.email, c.password);
    } else {
      assert Register(cfg, x).state == x.state;
    }
  }
}
