# pyreactx routing, middleware and demo API, in Dafny

A functional model of the request path of the pyreactx micro-framework and of
the decision logic of its demo API.

The framework (`backend/app.py`):
- `App.route` builds an insertion-ordered table from path pattern to a map from
  upper-cased HTTP method to handler.
- `App.use` appends a middleware; `_apply_middlewares` folds them with
  `reversed`, so the first registered is the outermost layer.
- `_match_route` parses the request target, turns every `:name` segment into a
  `[^/]+` capture and returns the first pattern (in registration order) that
  matches the whole path.
- `Handler._dispatch` answers 404 or 405, builds the request mapping (query
  values grouped and collapsed, body only for POST/PATCH/DELETE, client
  address), runs the wrapped handler and normalises its result (a pair is
  `(body, status)`, anything else is status 200, an exception is 500).

The demo API (`examples/hello_world/backend/main.py`):
- a global sliding-window rate limiter keyed by client address (60 seconds,
  limit `RATE_LIMIT_PER_MIN`), registered before the logger;
- the `auth_required` wrapper put around five bindings after start-up, built on
  `parse_bearer` and the token claims of `backend/auth.py`;
- the register, login, list, create, toggle and delete handlers, with their
  validation, status codes and effect on the `users` and `todos` tables, which
  are modelled as an abstract store (rows in insertion order, AUTOINCREMENT
  counters).

Modules, one per file: `Wrappers` (Option), `Text` (Python string built-ins:
`strip`, `split()`, `split(sep)`, `join`, `lower`, `upper`, `int`, `str`),
`Json` (decoded JSON values, truthiness), `Url` (`urlparse`, `parse_qs`, the
query collapse), `Routes` (the route table), `Matcher` (pattern matching and
first-match search), `Middleware` (layers, nesting, traces), `Dispatch`
(`_dispatch`), `RateLimit`, `Auth`, `Store` (the two tables), `Handlers` (the
route handlers), `TodoApp` (the assembled application), `HandlerProperties`
and `AppProperties` (properties over several requests and over the whole
application).

A middleware is modelled as a `Layer`: a first half that either passes a
(possibly enriched) context on or answers at once, and a second half that may
rework the answer. Running a chain returns the answer and a trace of `Pre`,
`Core` and `Post` events. The clock (`time.time()`), the client address, the
decoded request body, the token signer (`jwt.encode`) and verifier
(`verify_token`), and `RATE_LIMIT_PER_MIN` are parameters.

## Model

| member | source | states |
|---|---|---|
| Routes.Bind | backend/app.py:16-17 | every listed method, upper-cased, is bound to the new handler (overwriting an earlier binding); every other method keeps its handler; the method set is the old one plus the listed ones |
| Routes.Route | backend/app.py:12-19 | after registration the path's method map is its old map (the empty map for a new path) with the listed methods bound; every other path looks up as before |
| Routes.RouteKeepsOrder | backend/app.py:14-15 | a path already registered keeps its position, a new path is appended last, and no pattern appears twice in the table |
| Matcher.ParseSegment | backend/app.py:37 | a segment is a capture exactly when it is `:` followed by an identifier `[a-zA-Z_][a-zA-Z0-9_]*`; anything else is literal text |
| Matcher.MatchSegments | backend/app.py:37-38 | matching succeeds exactly when the path has as many segments as the pattern and each fits (literal equal, capture non-empty); it then binds exactly the pattern's names, each to its own path segment |
| Matcher.MatchThenFill | backend/app.py:37-38 | the match covers the whole path: a matched path is the pattern with each name replaced by its binding |
| Matcher.FillThenMatch | backend/app.py:37-38 | conversely, a pattern filled with non-empty `/`-free values matches the result and binds exactly those values |
| Matcher.ToggleBindsId | backend/app.py:37-38 | `/todos/:id/toggle` matches `/todos/<id>/toggle` for every non-empty `/`-free id and binds `id` to it |
| Matcher.FirstMatch | backend/app.py:35-41 | the result is the first pattern from the start position that matches, with no later ranking; nothing is found exactly when no pattern matches |
| Matcher.FirstMatchAt | backend/app.py:35-40 | when every earlier pattern misses and pattern `i` matches, the search returns pattern `i` with its method map and bindings |
| Matcher.MatchRoute | backend/app.py:32-41 | only the path part of the target (no query, no fragment) takes part; the winner is the first matching pattern; no route exactly when none matches |
| Url.DropParams | backend/app.py:33-34 | `;params` cut from the path leave a prefix of it; a target without `;` keeps its whole path |
| Url.SplitTarget | backend/app.py:33-34 | the parsed path holds no `?` or `#` and the query holds no `#` |
| Url.SplitTargetPath | backend/app.py:33-34 | a plain path parses to itself with an empty query |
| Url.SplitTargetQuery | backend/app.py:33-34 | `path?query#fragment` parses back into `path` and `query` |
| Url.SplitTargetNoFragment | backend/app.py:33-34 | `path?query` with no fragment parses into `path` and `query` |
| Url.DropParamsLast | backend/app.py:33-34 | `;params` after the last `/` are cut off and the path before them is kept whole |
| Url.DropParamsEarlier | backend/app.py:33-34 | a `;` before the last `/` stays in the path when the last segment has none |
| Url.DropParamsNoSlash | backend/app.py:33-34 | a path without `/` is cut at its first `;` |
| Url.Pair | backend/app.py:84 | a kept query piece is `name=value` with a non-empty value and no `=` in the name |
| Url.PairKept | backend/app.py:84 | every piece `name=value` with a non-empty value and no `=` in the name is kept as exactly that pair |
| Url.PairDropped | backend/app.py:84 | a piece without `=`, or with nothing after its first `=`, is dropped |
| Url.GroupIsValuesFor | backend/app.py:84 | grouping the pairs agrees with the reference: a name is present exactly when it has values, and holds exactly its values in order |
| Url.QueryOf | backend/app.py:84 | every key maps to exactly the values given for it, in order; the value is a scalar exactly when there is one; every name given a value is present |
| Middleware.Use | backend/app.py:21-23 | registration appends the middleware and keeps the earlier ones in order |
| Middleware.ApplyMiddlewares | backend/app.py:25-29 | the `reversed` loop builds the reference nesting in which the first registered middleware is outermost |
| Middleware.NestAppend | backend/app.py:25-29 | wrapping with a list `a + b` is wrapping with `b` first and then with `a` around that |
| Middleware.OnionOrder | backend/app.py:25-29 | when every layer passes on and the handler returns, all first halves run in registration order, then the handler, then all second halves in reverse; the answer is reworked innermost first |
| Middleware.RegistrationOrder | backend/app.py:21-29 | with A registered before B and a handler that returns, the trace is A-pre, B-pre, handler, B-post, A-post |
| Middleware.ShortCircuit | backend/app.py:25-29 | when layer `k` answers itself the later layers and the handler never run; only the earlier layers unwind, in reverse |
| Dispatch.Decide | backend/app.py:75-82 | 404 exactly when no pattern matches or the matched map is empty; 405 exactly when the matched map is non-empty and lacks the method; otherwise the bound handler runs with the match's bindings |
| Dispatch.FirstMatchDecides | backend/app.py:75-82 | the first matching pattern decides alone: its handler runs even if a later pattern would also match; lacking the method it is 405, never 404 |
| Dispatch.OnlyMatchDecides | backend/app.py:32-40 | a path that only one registered pattern matches runs that pattern's handler for the method, wherever the pattern sits in the table |
| Dispatch.Respond | backend/app.py:96-109 | a pair is sent as `(body, status)` verbatim, a bare body with 200, an exception as 500 with its message |
| Dispatch.BuildRequest | backend/app.py:84-93 | the request carries the method, the parsed path, the headers, the bindings, the grouped query, the client address, and the body only for POST, PATCH and DELETE |
| Dispatch.Dispatch | backend/app.py:74-109 | an unknown route answers 404 "Route not found", a missing method 405 "Method M not allowed", and neither touches the state |
| RateLimit.Evict | examples/hello_world/backend/main.py:334-336 | eviction drops a prefix of the queue, everything dropped is more than 60 seconds old, and the front that stays is not (a time exactly 60 seconds old stays) |
| RateLimit.EvictedWithinWindow | examples/hello_world/backend/main.py:331-336 | with times in arrival order every time left after eviction lies within the window |
| RateLimit.Admit | examples/hello_world/backend/main.py:329-342 | admitted exactly when fewer than `limit` times remain after eviction; an admitted time is appended and the queue is then at most `limit` long; a rejection records nothing; other keys are untouched |
| RateLimit.AdmitRequest | examples/hello_world/backend/main.py:332-342 | the pop-front loop as written computes the same verdict and windows as the functional definition |
| RateLimit.AdmitPreservesWellFormed | examples/hello_world/backend/main.py:334-342 | with a clock that does not go backwards, every queue stays in arrival order, no longer than the limit, and holds no future time |
| RateLimit.KeysIndependent | examples/hello_world/backend/main.py:325-332 | a request for one key changes neither the verdict nor the queue of another key |
| RateLimit.SameQueueSameVerdict | examples/hello_world/backend/main.py:332-342 | the verdict and the new queue for a key depend on that key's queue only |
| RateLimit.WindowResets | examples/hello_world/backend/main.py:334-342 | once the newest recorded time is more than 60 seconds old the queue empties and the request is admitted |
| RateLimit.BurstWithinWindow | examples/hello_world/backend/main.py:331-342 | for a fresh key sending requests within 60 seconds of its first, exactly the first `limit` are admitted and the window holds exactly their times |
| RateLimit.NothingExpires | examples/hello_world/backend/main.py:335-336 | a queue whose oldest time is within the window loses nothing |
| Auth.ParseBearer | backend/auth.py:28-33 | an absent or empty header yields no token; a token returned is non-empty, whitespace-free, and the second of exactly two words whose first is `bearer` in any letter case |
| Auth.ParseBearerWords | backend/auth.py:28-33 | for a header of whitespace-separated words: a token comes back exactly when there are two words and the first is `bearer` in any letter case, and it is the second word |
| Auth.BearerRoundTrip | backend/auth.py:30-32 | a header of optional whitespace, `bearer` in any letter case, whitespace, a token and optional whitespace yields that token |
| Auth.SchemeAloneRejected | backend/auth.py:31-33 | a header with a single word (`Bearer` alone) yields no token |
| Auth.ExtraWordRejected | backend/auth.py:31-33 | a header with a third word (`Bearer a b`) yields no token |
| Auth.Truncate | backend/auth.py:18 | `int()` of a clock reading truncates toward zero: within one unit below a non-negative value, above a negative one |
| Auth.NewClaims | backend/auth.py:17-19 | the claims carry the user's id and email, expire exactly 86400 seconds after issue, and are issued at the whole second of the clock reading |
| Auth.Authenticate | examples/hello_world/backend/main.py:40-44 | without a bearer token there is no user and the verifier is not consulted; otherwise the user is the verified claims' `sub` and `email`, if any |
| Auth.TokenIdentifiesUser | backend/auth.py:17-26 | a token made for a user and sent back as `Bearer <token>` identifies the same user to a verifier that accepts what the signer produced |
| Text.Strip | examples/hello_world/backend/main.py:59 | the stripped string neither starts nor ends with whitespace, and a whitespace-free string is unchanged |
| Text.StripPadded | examples/hello_world/backend/main.py:59 | stripping removes exactly the surrounding whitespace: padding and stripping gives the original back |
| Text.Words | backend/auth.py:30 | every token of `split()` is non-empty and whitespace-free |
| Text.WordsAfterSpace | backend/auth.py:30 | leading whitespace does not change the tokens |
| Text.WordsUnwords | backend/auth.py:30 | joining whitespace-free words with single spaces and splitting gives the words back |
| Text.JoinSplit | backend/app.py:37-38 | splitting on `/` and re-joining gives the path back, so segment-wise matching sees the whole path |
| Text.SplitJoin | backend/app.py:37-38 | joining separator-free pieces and splitting gives the pieces back |
| Text.Lower | backend/auth.py:31 | lower-casing keeps the length and maps each character through the ASCII case map |
| Text.Upper | backend/app.py:17 | upper-casing keeps the length and maps each character through the ASCII case map |
| Text.ParseShowInt | examples/hello_world/backend/main.py:98-99 | `int(str(n)) == n` for every integer (Python's digit limit aside, see below) |
| Store.FindAccount | examples/hello_world/backend/main.py:63 | the account found has the email asked for; none is found exactly when no row has it |
| Store.AddAccount | examples/hello_world/backend/main.py:65 | the new row gets the next user id and goes last; the todos are untouched |
| Store.AddAccountFindsIt | examples/hello_world/backend/main.py:63-66 | adding a fresh email keeps ids increasing and emails unique, and the email then finds exactly the new row |
| Store.FindTodo | examples/hello_world/backend/main.py:148 | the row found has the id and owner asked for; none is found exactly when no row has both |
| Store.OwnedBy | examples/hello_world/backend/main.py:107-112 | the user's rows are exactly the rows the user owns |
| Store.OwnedByAppend | examples/hello_world/backend/main.py:135 | an inserted row comes last among its owner's rows and does not change other users' rows |
| Store.AddTodo | examples/hello_world/backend/main.py:135 | the new todo is not done, gets the next todo id and goes last; the accounts are untouched |
| Store.AddTodoValid | examples/hello_world/backend/main.py:135 | an insert keeps the tables valid and the new row is found by its id and owner |
| Store.Newest | examples/hello_world/backend/main.py:136 | the newest row belongs to the user; none exactly when the user has no rows; in a table with increasing ids it has the largest id among the user's rows |
| Store.NewestIsAdded | examples/hello_world/backend/main.py:135-136 | the row `create_todo` reads back is the one it inserted |
| Store.SetDone | examples/hello_world/backend/main.py:152 | only the row with the id and owner changes, and only its `done` |
| Store.SetDoneValid | examples/hello_world/backend/main.py:151-153 | an update keeps the tables valid and the row reads back with its new flag |
| Store.ToggleTwice | examples/hello_world/backend/main.py:151-152 | setting the flag to its negation and back restores the table exactly |
| Store.Remove | examples/hello_world/backend/main.py:167 | exactly the row with the id and owner goes, and ids stay increasing |
| Store.RemoveAppend | examples/hello_world/backend/main.py:167 | the rows that stay keep their order |
| Store.RemoveValid | examples/hello_world/backend/main.py:167 | a delete keeps the tables valid |
| Store.RemoveGone | examples/hello_world/backend/main.py:167 | after the delete the row is not found, and every other row stays |
| Store.PageOf | examples/hello_world/backend/main.py:107-112 | at most `limit` rows, newest first, starting after the `offset` newest; empty past the end |
| Handlers.StripOr | examples/hello_world/backend/main.py:59 | a false value reads as the empty string, a string is stripped, any other value raises |
| Handlers.RegisterCheck | examples/hello_world/backend/main.py:56-64 | a false body is 400 "invalid JSON body"; what is accepted is an object whose email, stripped and lower-cased, is non-empty and unknown, with a non-empty string password |
| Handlers.Register | examples/hello_world/backend/main.py:54-68 | an accepted registration adds the account and nothing else; any other outcome leaves the state as it was |
| Handlers.Login | examples/hello_world/backend/main.py:72-82 | logging in never changes the state; a false body is 400 "invalid JSON body" |
| Handlers.Pagination | examples/hello_world/backend/main.py:97-104 | `page` and `limit` are read with `int()` or default to 1 and 10; a value `int()` refuses gives 400; otherwise `page >= 1`, `limit` in [1, 50] and `offset = (page - 1) * limit >= 0` |
| Handlers.ListTodos | examples/hello_world/backend/main.py:91-119 | listing never changes the state; no user is 401; bad pagination is 400 |
| Handlers.TitleCheck | examples/hello_world/backend/main.py:128-133 | an accepted title is the stripped string given and is non-empty; the title is refused exactly when it is false or strips to nothing |
| Handlers.CreateTodo | examples/hello_world/backend/main.py:123-138 | no user is 401; a false body is 400 "invalid JSON body"; an empty title is 400 "title is required" and changes nothing |
| Handlers.RowId | examples/hello_world/backend/main.py:147-148 | an id parameter selects a row exactly when it is a non-empty run of decimal digits |
| Handlers.RowIdShowNat | examples/hello_world/backend/main.py:147-148 | the decimal spelling of an id selects that id |
| Handlers.Toggle | examples/hello_world/backend/main.py:142-155 | no user is 401; an id that names none of the user's todos is 404 and changes nothing; otherwise only that todo's flag is flipped |
| Handlers.Delete | examples/hello_world/backend/main.py:159-168 | no user is 401; an id that names none of the user's todos is 404 and changes nothing; otherwise only that todo is removed and the answer is `{"status": "deleted"}` |
| HandlerProperties.ToggleFlips | examples/hello_world/backend/main.py:147-155 | toggling answers with the named todo with `done` flipped, keeps the tables valid, and the todo then reads back flipped |
| HandlerProperties.ToggleTwiceRestores | examples/hello_world/backend/main.py:151-152 | toggling the same todo twice restores the state |
| HandlerProperties.DeleteThenMissing | examples/hello_world/backend/main.py:164-168 | deleting answers `{"status": "deleted"}`, after which the same id is 404 to toggle and to delete |
| HandlerProperties.DeleteValid | examples/hello_world/backend/main.py:159-168 | every answer of `delete_todo`, error ones included, keeps the tables valid |
| HandlerProperties.CreateAnswers | examples/hello_world/backend/main.py:135-138 | creating answers 201 with the new row, not done, under the next id, and inserts exactly that row |
| HandlerProperties.CreateValid | examples/hello_world/backend/main.py:135 | creating keeps the tables valid |
| HandlerProperties.CreatedIsNamed | examples/hello_world/backend/main.py:135-148 | the new todo is the one a later request names by the decimal spelling of its id |
| HandlerProperties.FirstPageNewest | examples/hello_world/backend/main.py:107-119 | the first page starts with the user's newest todo and the total counts all of the user's todos |
| HandlerProperties.CreatedListedFirst | examples/hello_world/backend/main.py:107-138 | after a create the first page starts with the new todo and the total is one more |
| HandlerProperties.PaginationDefaults | examples/hello_world/backend/main.py:98-104 | with no query parameters the listing shows page 1 of 10 from offset 0 |
| HandlerProperties.PaginationGiven | examples/hello_world/backend/main.py:97-104 | integers given in the query are clamped: `page` to at least 1, `limit` into [1, 50] |
| HandlerProperties.RegisterAnswers | examples/hello_world/backend/main.py:65-68 | an accepted registration answers with the account under the next user id and a token made for it |
| HandlerProperties.RegisterThenLogin | examples/hello_world/backend/main.py:54-82 | logging in with the body a registration accepted, against the state it left, answers with the new user and a fresh token |
| HandlerProperties.LoginAccepts | examples/hello_world/backend/main.py:76-82 | a normalised email that finds an account with a matching password answers with that account and a token |
| HandlerProperties.LoginRejects | examples/hello_world/backend/main.py:76-80 | an unknown email or a wrong password answers 401 "invalid credentials" and changes nothing |
| HandlerProperties.RegisterTwiceConflicts | examples/hello_world/backend/main.py:63-64 | registering the same email again answers 409 "email already in use" and changes nothing |
| HandlerProperties.RegisterValid | examples/hello_world/backend/main.py:63-65 | a registration, accepted or not, keeps ids increasing and emails unique |
| TodoApp.Key | examples/hello_world/backend/main.py:329 | the rate-limit key is the client address, or `"local"` without one |
| TodoApp.RateLimitBefore | examples/hello_world/backend/main.py:328-342 | the request passes on exactly when the limiter admits it, with its time recorded; otherwise the answer is 429 with the limit and only the eviction is kept |
| TodoApp.AuthBefore | examples/hello_world/backend/main.py:39-45 | without a verified bearer token the answer is 401 and the state is untouched; otherwise the request goes on with `user` set from the claims |
| TodoApp.Rewrap | examples/hello_world/backend/main.py:356-360 | the bound handler is wrapped in place, the path's other methods and every other path are unchanged |
| TodoApp.RewrapKeepsOrder | examples/hello_world/backend/main.py:356-360 | re-binding changes no pattern and no position |
| AppProperties.RouteOne | backend/app.py:16-17 | registering one upper-case method binds exactly it on top of what the path had |
| AppProperties.RegisteredTodos | examples/hello_world/backend/main.py:90-123 | `/todos` registered twice ends with GET and POST side by side |
| AppProperties.RegisteredHealth | examples/hello_world/backend/main.py:33-34 | `/health` is bound to its bare handler for GET |
| AppProperties.RegisteredMe | examples/hello_world/backend/main.py:85-86 | `/me` is bound for GET only |
| AppProperties.RegisteredToggle | examples/hello_world/backend/main.py:141-142 | the toggle route is bound for PATCH only |
| AppProperties.RegisteredDelete | examples/hello_world/backend/main.py:158-159 | the item route is bound for DELETE only |
| AppProperties.RewrapOfTwo | examples/hello_world/backend/main.py:357-358 | wrapping one method of a two-method binding keeps the other |
| AppProperties.ProtectTodos | examples/hello_world/backend/main.py:357-358 | both methods of `/todos` end up wrapped |
| AppProperties.ProtectMe | examples/hello_world/backend/main.py:356 | the GET of `/me` ends up wrapped |
| AppProperties.ProtectToggle | examples/hello_world/backend/main.py:359 | the PATCH of the toggle route ends up wrapped |
| AppProperties.ProtectDelete | examples/hello_world/backend/main.py:360 | the DELETE of the item route ends up wrapped |
| AppProperties.ProtectKeeps | examples/hello_world/backend/main.py:356-360 | every other path is left alone |
| AppProperties.ProtectedRoutes | examples/hello_world/backend/main.py:356-360 | after start-up the five protected bindings run behind `auth_required` and `/health` keeps its bare handler |
| AppProperties.MiddlewaresShape | examples/hello_world/backend/main.py:352-353 | the application wraps every handler with `rate_limit` outermost, then `logger` |
| AppProperties.RateLimitPasses | examples/hello_world/backend/main.py:341-342 | an admitted request goes on with its time recorded |
| AppProperties.RateLimitStops | examples/hello_world/backend/main.py:338-339 | a request over the limit is answered 429 by the limiter itself |
| AppProperties.LoggerPasses | examples/hello_world/backend/main.py:346-350 | the logger passes every request on and every answer back untouched |
| AppProperties.AuthPasses | examples/hello_world/backend/main.py:44-45 | a request with a verified token goes on with `user` set |
| AppProperties.AuthStops | examples/hello_world/backend/main.py:42-43 | a request without a verified token is answered 401 and the handler does not run |
| AppProperties.EffectiveOrder | examples/hello_world/backend/main.py:352-360 | for an admitted, authenticated request the order is rate_limit, logger, auth_required, handler, then the unwinding in reverse; the handler sees the recorded window and the user |
| AppProperties.RateLimitedStops | examples/hello_world/backend/main.py:338-339 | a request over the limit never reaches the logger, the auth gate or the handler, and the database is unchanged |
| AppProperties.UnauthenticatedStops | examples/hello_world/backend/main.py:38-46 | an admitted request without a verified token is answered 401 by `auth_required`, the handler never runs and the outer layers still unwind |
| AppProperties.ServeRouted | backend/app.py:84-97 | a routed request runs the bound handler inside the application middlewares on the built request, keyed by the client address |
| AppProperties.ServeRateLimited | examples/hello_world/backend/main.py:327-339 | any routed request from an address over its limit gets 429 with the limit and leaves the database as it was |
| AppProperties.ServeUnauthenticated | examples/hello_world/backend/main.py:38-46 | an admitted request to a protected route without a verified token gets 401 and leaves the database as it was |
| RoutingProperties.RouteWithin | backend/app.py:12-18 | a registration adds no pattern but its own |
| RoutingProperties.RewrapWithin | examples/hello_world/backend/main.py:356-360 | re-binding a handler adds no pattern |
| RoutingProperties.RegisteredWithin | examples/hello_world/backend/main.py:33-172 | the registrations leave only the nine patterns the module names |
| RoutingProperties.RouteTableWithin | examples/hello_world/backend/main.py:356-360 | wrapping the protected handlers leaves only those nine patterns |
| RoutingProperties.ShortPatterns | examples/hello_world/backend/main.py:33-172 | every pattern of the application but the toggle route has two or three segments |
| RoutingProperties.ToggleMissesOthers | backend/app.py:32-40 | no pattern of the application but the toggle route matches `/todos/<id>/toggle` |
| RoutingProperties.ToggleDecidedBy | backend/app.py:32-40 | in a table of the application's patterns, `PATCH /todos/<id>/toggle` runs what the toggle route binds to PATCH, with `id` bound |
| RoutingProperties.DecideToggle | examples/hello_world/backend/main.py:141-142 | `PATCH /todos/<id>/toggle` runs the toggle handler behind `auth_required`, with `id` bound to the path's id |
| RoutingProperties.ToggleWithoutToken | examples/hello_world/backend/main.py:38-46 | an admitted toggle request without a verified token gets 401 and changes no todo |

## Left out

- Literal pattern text is compared segment by segment for exact equality. The source compiles it as a regular expression, so the `.` of `/openapi.json` matches any character there (`/openapiXjson` would be routed); the model does not reproduce that.
- Patterns whose segments mix a `:name` with other text (`/a:b`) are literal segments here; a pattern that repeats a capture name does not compile in Python and is excluded from the matching lemmas by `UniqueNames`.
- `urlparse` scheme and network location (absolute-form targets) are not modelled; the target is taken as path, `;params`, query and fragment.
- Percent-decoding and `+` decoding in `parse_qs` are not modelled; names and values are kept as sent.
- `str.lower` / `str.upper` map ASCII letters only; non-ASCII case mapping is not modelled.
- `int()` accepts ASCII digits only; Unicode decimal digits are not modelled.
- JSON numbers are integers; floats are not modelled.
- SQLite type affinity: an `id` parameter selects a row only as a plain run of decimal digits; other spellings SQLite would convert (`+5`, ` 5`, `5.0`) select nothing here.
- bcrypt and JWT are parameters: `sign` stands for `jwt.encode`, `verify` for `verify_token`, and a stored password is compared by equality with the given one (bcrypt's 72-byte truncation is not modelled).
- The clock (`time.time()`) is a parameter of each request.
- HTTP plumbing: sockets, header sending, CORS headers, `do_OPTIONS`, `Content-Length` and JSON decoding; the decoded body arrives as an input.
- Concurrency: the server runs requests one at a time; the rate-limit map is modelled sequentially.
- The logger's `print` is only a trace event.
- The OpenAPI document is constant data; only its header fields are modelled.
- `backend/config.py` and environment loading: `RATE_LIMIT_PER_MIN` is a parameter (default 60).
- The seeded demo user is not modelled; the store starts from any valid state.
- A handler returning a tuple of another length than two is sent as a bare body; no handler here does.
- The `Authorization` header is looked up with its exact name; a client sending it in another letter case is not authenticated.
- TodoApp.Rewrap: when the path or method is not bound the table is left as it is, where Python raises `KeyError` at start-up; every binding re-wrapped by the application exists.
- Handlers.Login: its own contract states only that the state is untouched and the invalid-body case; the accepted and rejected logins are stated by `HandlerProperties.LoginAccepts` and `HandlerProperties.LoginRejects`.
- Handlers.ListTodos: its own contract states the refusals; the page contents are stated by `HandlerProperties.FirstPageNewest` and `HandlerProperties.CreatedListedFirst` through `Store.PageOf`.
- Handlers.Pagination: integers are unbounded. Python 3.11 and later refuse `int()` of a string of more than 4300 digits, which the handler answers with 400; and a `LIMIT` or `OFFSET` outside SQLite's 64-bit integer range makes the query fail, which the dispatcher answers with 500. The model accepts numbers of any length and answers from the table.
- Text.ParseShowInt: states the round trip for every integer; Python 3.11 and later keep it only for spellings of at most 4300 digits.
- Middleware.OnionOrder: a raise is an outcome value, so the second halves still run and their `Post` events are recorded when the handler raised; in Python the exception skips the code after `next_handler(request)`. Every layer of the application returns `next_handler(request)` directly, so no response differs, only the trace.
- HandlerProperties.RegisterValid: states validity only; that the new email then finds the new account is stated by `Store.AddAccountFindsIt` and `HandlerProperties.RegisterThenLogin`.
