/**
 * The two tables of the demo API (`users`, `todos`) as the handlers use them.
 * Rows are kept in insertion order; `INTEGER PRIMARY KEY AUTOINCREMENT` hands
 * out the largest id ever used plus one, so ids only grow and are never
 * reused. Every query a handler makes is one function here.
 */
module Store {
  import opened Wrappers

  /** A `users` row; `password` stands for its bcrypt hash (see `PasswordMatches`). */
  datatype Account = Account(id: int, email: string, password: string)

  /** A `todos` row (`done` is stored as 0/1 and read back as a bool). */
  datatype Todo = Todo(id: int, title: string, done: bool, owner: int)

  /** Both tables and the AUTOINCREMENT counters (`sqlite_sequence`). */
  datatype Db = Db(accounts: seq<Account>, todos: seq<Todo>, lastUser: int, lastTodo: int)

  /**
   * Rows appear in increasing id order, no id exceeds its counter, and emails
   * are unique (`email TEXT NOT NULL UNIQUE`).
   */
  predicate Valid(db: Db) {
    AccountsValid(db.accounts, db.lastUser) && TodosValid(db.todos, db.lastTodo)
  }

  predicate AccountsValid(accounts: seq<Account>, last: int) {
    && (forall i, j :: 0 <= i < j < |accounts| ==> accounts[i].id < accounts[j].id)
    && (forall i :: 0 <= i < |accounts| ==> accounts[i].id <= last)
    && (forall i, j :: 0 <= i < j < |accounts| ==> accounts[i].email != accounts[j].email)
  }

  predicate TodosValid(todos: seq<Todo>, last: int) {
    IdsIncreasing(todos) && forall i :: 0 <= i < |todos| ==> todos[i].id <= last
  }

  predicate IdsIncreasing(todos: seq<Todo>) {
    forall i, j :: 0 <= i < j < |todos| ==> todos[i].id < todos[j].id
  }

  const Empty: Db := Db([], [], 0, 0)

  // ---------------------------------------------------------------------------
  // users
  // ---------------------------------------------------------------------------

  /** `SELECT ... FROM users WHERE email=?`: the account with that email, if any. */
  function FindAccount(accounts: seq<Account>, email: string): (r: Option<Account>)
    ensures r.Some? ==> r.value in accounts && r.value.email == email
    ensures r.None? <==> forall i :: 0 <= i < |accounts| ==> accounts[i].email != email
  {
    if |accounts| == 0 then None
    else if accounts[0].email == email then Some(accounts[0])
    else FindAccount(accounts[1..], email)
  }

  /** `INSERT INTO users(email, password_hash)`: the new row gets the next id. */
  function AddAccount(db: Db, email: string, password: string): (r: (Db, Account))
    ensures r.1 == Account(db.lastUser + 1, email, password)
    ensures r.0.accounts == db.accounts + [r.1] && r.0.lastUser == db.lastUser + 1
    ensures r.0.todos == db.todos && r.0.lastTodo == db.lastTodo
  {
    var a := Account(db.lastUser + 1, email, password);
    (db.(accounts := db.accounts + [a], lastUser := a.id), a)
  }

  /**
   * Registering a fresh email keeps the tables valid, and the email then finds
   * exactly the new account (what `register` reads back).
   */
  lemma AddAccountFindsIt(db: Db, email: string, password: string)
    requires Valid(db) && FindAccount(db.accounts, email).None?
    ensures Valid(AddAccount(db, email, password).0)
    ensures FindAccount(AddAccount(db, email, password).0.accounts, email) == Some(AddAccount(db, email, password).1)
  {
    var (db', a) := AddAccount(db, email, password);
    AccountAppended(db.accounts, db.lastUser, a);
    FindAccountAppend(db.accounts, a, email);
  }

  /** A row with the next id and a fresh email keeps the `users` table valid. */
  lemma AccountAppended(accounts: seq<Account>, last: int, a: Account)
    requires AccountsValid(accounts, last) && a.id == last + 1 && FindAccount(accounts, a.email).None?
    ensures AccountsValid(accounts + [a], a.id)
  {
    var r := accounts + [a];
    assert forall i :: 0 <= i < |accounts| ==> r[i] == accounts[i];
  }

  lemma {:induction false} FindAccountAppend(accounts: seq<Account>, a: Account, email: string)
    requires FindAccount(accounts, email).None? && a.email == email
    ensures FindAccount(accounts + [a], email) == Some(a)
    decreases |accounts|
  {
    if |accounts| == 0 {
      assert accounts + [a] == [a];
    } else {
      assert (accounts + [a])[1..] == accounts[1..] + [a];
      FindAccountAppend(accounts[1..], a, email);
    }
  }

  // ---------------------------------------------------------------------------
  // todos
  // ---------------------------------------------------------------------------

  /** `SELECT ... FROM todos WHERE id=? AND user_id=?`. */
  function FindTodo(todos: seq<Todo>, id: int, owner: int): (r: Option<Todo>)
    ensures r.Some? ==> r.value in todos && r.value.id == id && r.value.owner == owner
    ensures r.None? <==> forall i :: 0 <= i < |todos| ==> todos[i].id != id || todos[i].owner != owner
  {
    if |todos| == 0 then None
    else if todos[0].id == id && todos[0].owner == owner then Some(todos[0])
    else FindTodo(todos[1..], id, owner)
  }

  /** `WHERE user_id=?` in id order: the todos of one user. */
  function OwnedBy(todos: seq<Todo>, owner: int): (r: seq<Todo>)
    ensures |r| <= |todos|
    ensures forall t :: t in r <==> t in todos && t.owner == owner
  {
    if |todos| == 0 then []
    else if todos[0].owner == owner then [todos[0]] + OwnedBy(todos[1..], owner)
    else OwnedBy(todos[1..], owner)
  }

  /** A row appended at the end of the table comes last among its owner's rows. */
  lemma {:induction false} OwnedByAppend(todos: seq<Todo>, t: Todo, owner: int)
    ensures OwnedBy(todos + [t], owner) == OwnedBy(todos, owner) + (if t.owner == owner then [t] else [])
  {
    if |todos| == 0 {
      assert todos + [t] == [t];
      assert [t][1..] == [];
    } else {
      assert (todos + [t])[1..] == todos[1..] + [t];
      OwnedByAppend(todos[1..], t, owner);
    }
  }

  /** `INSERT INTO todos(title, done, user_id) VALUES (?, 0, ?)`. */
  function AddTodo(db: Db, title: string, owner: int): (r: (Db, Todo))
    ensures r.1 == Todo(db.lastTodo + 1, title, false, owner)
    ensures r.0.todos == db.todos + [r.1] && r.0.lastTodo == db.lastTodo + 1
    ensures r.0.accounts == db.accounts && r.0.lastUser == db.lastUser
  {
    var t := Todo(db.lastTodo + 1, title, false, owner);
    (db.(todos := db.todos + [t], lastTodo := t.id), t)
  }

  /** `UPDATE todos SET done=? WHERE id=? AND user_id=?`: the matching row changes, nothing else. */
  function SetDone(todos: seq<Todo>, id: int, owner: int, done: bool): (r: seq<Todo>)
    ensures |r| == |todos|
    ensures forall i :: 0 <= i < |todos| ==>
      r[i] == if todos[i].id == id && todos[i].owner == owner then todos[i].(done := done) else todos[i]
  {
    if |todos| == 0 then []
    else
      var t := todos[0];
      [if t.id == id && t.owner == owner then t.(done := done) else t] + SetDone(todos[1..], id, owner, done)
  }

  /** `DELETE FROM todos WHERE id=? AND user_id=?`: the matching row goes, the rest keep their order. */
  function Remove(todos: seq<Todo>, id: int, owner: int): (r: seq<Todo>)
    ensures |r| <= |todos|
    ensures forall t :: t in r <==> t in todos && !(t.id == id && t.owner == owner)
    ensures IdsIncreasing(todos) ==> IdsIncreasing(r)
  {
    if |todos| == 0 then []
    else if todos[0].id == id && todos[0].owner == owner then Remove(todos[1..], id, owner)
    else
      var rest := Remove(todos[1..], id, owner);
      if IdsIncreasing(todos) then
        ConsIncreasing(todos, rest);
        [todos[0]] + rest
      else [todos[0]] + rest
  }

  /** Putting a table's first row in front of rows drawn from the rest of it keeps ids increasing. */
  lemma ConsIncreasing(todos: seq<Todo>, rest: seq<Todo>)
    requires |todos| > 0 && IdsIncreasing(todos) && IdsIncreasing(rest)
    requires forall t :: t in rest ==> t in todos[1..]
    ensures IdsIncreasing([todos[0]] + rest)
  {
    forall k | 0 <= k < |rest| ensures todos[0].id < rest[k].id {
      assert rest[k] in todos[1..];
      var j :| 0 <= j < |todos[1..]| && todos[1..][j] == rest[k];
      assert todos[j + 1] == rest[k];
    }
    var c := [todos[0]] + rest;
    forall i, j | 0 <= i < j < |c| ensures c[i].id < c[j].id {
      assert c[j] == rest[j - 1];
      if i > 0 { assert c[i] == rest[i - 1]; }
    }
  }

  /**
   * A delete keeps the order of what stays: removing from a table with a row
   * appended is removing from the table, then appending the row unless it is
   * the one removed.
   */
  lemma {:induction false} RemoveAppend(todos: seq<Todo>, t: Todo, id: int, owner: int)
    ensures Remove(todos + [t], id, owner) == Remove(todos, id, owner) + (if t.id == id && t.owner == owner then [] else [t])
    decreases |todos|
  {
    if |todos| == 0 {
      assert todos + [t] == [t];
      assert [t][1..] == [];
    } else {
      assert (todos + [t])[1..] == todos[1..] + [t];
      RemoveAppend(todos[1..], t, id, owner);
    }
  }

  /** A delete keeps the tables valid. */
  lemma RemoveValid(db: Db, id: int, owner: int)
    requires Valid(db)
    ensures Valid(db.(todos := Remove(db.todos, id, owner)))
  {
    var r := Remove(db.todos, id, owner);
    forall i | 0 <= i < |r| ensures r[i].id <= db.lastTodo {
      assert r[i] in db.todos;
    }
  }

  // ---------------------------------------------------------------------------
  // What the todo operations preserve and undo
  // ---------------------------------------------------------------------------

  /** Adding a todo keeps the tables valid; the new row is found by its id and owner. */
  lemma AddTodoValid(db: Db, title: string, owner: int)
    requires Valid(db)
    ensures Valid(AddTodo(db, title, owner).0)
    ensures FindTodo(AddTodo(db, title, owner).0.todos, AddTodo(db, title, owner).1.id, owner) == Some(AddTodo(db, title, owner).1)
  {
    var (db', t) := AddTodo(db, title, owner);
    TodoAppended(db.todos, db.lastTodo, t);
    FindTodoAppend(db.todos, t);
  }

  /** A row with the next id keeps the `todos` table valid; no row had that id before. */
  lemma TodoAppended(todos: seq<Todo>, last: int, t: Todo)
    requires TodosValid(todos, last) && t.id == last + 1
    ensures TodosValid(todos + [t], t.id)
    ensures FindTodo(todos, t.id, t.owner).None?
  {
    var r := todos + [t];
    assert forall i :: 0 <= i < |todos| ==> r[i] == todos[i];
  }

  lemma {:induction false} FindTodoAppend(todos: seq<Todo>, t: Todo)
    requires FindTodo(todos, t.id, t.owner).None?
    ensures FindTodo(todos + [t], t.id, t.owner) == Some(t)
    decreases |todos|
  {
    if |todos| == 0 {
      assert todos + [t] == [t];
    } else {
      assert (todos + [t])[1..] == todos[1..] + [t];
      FindTodoAppend(todos[1..], t);
    }
  }

  /**
   * `ORDER BY id DESC LIMIT 1` for a user: with ids increasing, the user's
   * last row in table order.
   */
  function Newest(todos: seq<Todo>, owner: int): (r: Option<Todo>)
    ensures r.Some? ==> r.value in todos && r.value.owner == owner
    ensures r.None? <==> forall i :: 0 <= i < |todos| ==> todos[i].owner != owner
    ensures r.Some? && IdsIncreasing(todos) ==> forall i :: 0 <= i < |todos| && todos[i].owner == owner ==> todos[i].id <= r.value.id
  {
    if |todos| == 0 then None
    else if todos[|todos| - 1].owner == owner then Some(todos[|todos| - 1])
    else
      var r := Newest(todos[..|todos| - 1], owner);
      assert forall i :: 0 <= i < |todos| - 1 ==> todos[..|todos| - 1][i] == todos[i];
      r
  }

  /** The row `create_todo` reads back after inserting is the one it inserted. */
  lemma NewestIsAdded(db: Db, title: string, owner: int)
    ensures Newest(AddTodo(db, title, owner).0.todos, owner) == Some(AddTodo(db, title, owner).1)
  {
    var (db', t) := AddTodo(db, title, owner);
    assert db'.todos[|db'.todos| - 1] == t;
  }

  /** Toggling keeps the tables valid and the toggled row is found with its new flag. */
  lemma SetDoneValid(db: Db, id: int, owner: int, done: bool)
    requires Valid(db) && FindTodo(db.todos, id, owner).Some?
    ensures Valid(db.(todos := SetDone(db.todos, id, owner, done)))
    ensures FindTodo(SetDone(db.todos, id, owner, done), id, owner) == Some(FindTodo(db.todos, id, owner).value.(done := done))
  {
    var todos' := SetDone(db.todos, id, owner, done);
    SetDoneKeepsIds(db.todos, id, owner, done);
    var t := FindTodo(db.todos, id, owner).value;
    var k :| 0 <= k < |db.todos| && db.todos[k] == t;
    FindTodoAt(todos', k, id, owner);
  }

  lemma SetDoneKeepsIds(todos: seq<Todo>, id: int, owner: int, done: bool)
    ensures forall i :: 0 <= i < |todos| ==> SetDone(todos, id, owner, done)[i].id == todos[i].id
    ensures IdsIncreasing(todos) ==> IdsIncreasing(SetDone(todos, id, owner, done))
  {
  }

  /** With increasing ids, the row at position `k` is the one found by its id. */
  lemma FindTodoAt(todos: seq<Todo>, k: nat, id: int, owner: int)
    requires IdsIncreasing(todos) && k < |todos| && todos[k].id == id && todos[k].owner == owner
    ensures FindTodo(todos, id, owner) == Some(todos[k])
  {
    var r := FindTodo(todos, id, owner);
    var j :| 0 <= j < |todos| && todos[j] == r.value;
    assert j == k;
  }

  /** Toggling twice restores the table exactly. */
  lemma ToggleTwice(todos: seq<Todo>, id: int, owner: int)
    requires IdsIncreasing(todos) && FindTodo(todos, id, owner).Some?
    ensures SetDone(SetDone(todos, id, owner, !FindTodo(todos, id, owner).value.done), id, owner, FindTodo(todos, id, owner).value.done) == todos
  {
    var t := FindTodo(todos, id, owner).value;
    var r := SetDone(SetDone(todos, id, owner, !t.done), id, owner, t.done);
    forall i | 0 <= i < |todos| ensures r[i] == todos[i] {
      if todos[i].id == id && todos[i].owner == owner {
        FindTodoAt(todos, i, id, owner);
      }
    }
  }

  /** After a delete the row is gone, the user's other rows and other users' rows stay. */
  lemma RemoveGone(todos: seq<Todo>, id: int, owner: int)
    ensures FindTodo(Remove(todos, id, owner), id, owner).None?
    ensures forall t :: t in todos && (t.id != id || t.owner != owner) ==> t in Remove(todos, id, owner)
  {
    var r := Remove(todos, id, owner);
    assert forall i :: 0 <= i < |r| ==> r[i] in r;
  }

  // ---------------------------------------------------------------------------
  // Listing
  // ---------------------------------------------------------------------------

  function Reverse<T>(s: seq<T>): (r: seq<T>)
    ensures |r| == |s|
    ensures forall i :: 0 <= i < |s| ==> r[i] == s[|s| - 1 - i]
  {
    if |s| == 0 then [] else Reverse(s[1..]) + [s[0]]
  }

  /**
   * `ORDER BY id DESC LIMIT limit OFFSET offset` over a user's rows: at most
   * `limit` rows, newest first, starting after the `offset` newest ones.
   */
  function PageOf(owned: seq<Todo>, limit: nat, offset: nat): (r: seq<Todo>)
    ensures |r| <= limit
    ensures offset <= |owned| ==> |r| == if |owned| - offset < limit then |owned| - offset else limit
    ensures offset >= |owned| ==> r == []
    ensures forall i :: 0 <= i < |r| ==> r[i] == owned[|owned| - 1 - offset - i]
  {
    var desc := Reverse(owned);
    if offset >= |desc| then []
    else
      var end := if |desc| - offset < limit then |desc| else offset + limit;
      desc[offset..end]
  }
}
