/**
 * The route table of `App`: an insertion-ordered mapping from a path pattern
 * to a mapping from HTTP method to handler (`routes[pattern][method] = handler`).
 * Python dicts keep insertion order and updating a key keeps its place, so the
 * table is a sequence of entries with distinct patterns.
 */
module Routes {
  import opened Wrappers
  import opened Text

  datatype Entry<H> = Entry(pattern: string, methods: map<string, H>)

  type Table<H> = seq<Entry<H>>

  /** The patterns in iteration (registration) order. */
  function Patterns<H>(t: Table<H>): (ps: seq<string>)
    ensures |ps| == |t|
    ensures forall i :: 0 <= i < |t| ==> ps[i] == t[i].pattern
  {
    if |t| == 0 then [] else [t[0].pattern] + Patterns(t[1..])
  }

  /** A dict has each key once. */
  predicate UniquePatterns<H>(t: Table<H>) {
    forall i, j :: 0 <= i < j < |t| ==> t[i].pattern != t[j].pattern
  }

  /** Position of `pattern` in the table, or `|t|` when it is not registered. */
  function IndexOf<H>(t: Table<H>, pattern: string): (i: nat)
    ensures i <= |t|
    ensures i < |t| ==> t[i].pattern == pattern
    ensures forall j :: 0 <= j < i ==> t[j].pattern != pattern
  {
    if |t| == 0 then 0
    else if t[0].pattern == pattern then 0
    else 1 + IndexOf(t[1..], pattern)
  }

  /** `routes.get(pattern)`. */
  function Lookup<H>(t: Table<H>, pattern: string): Option<map<string, H>> {
    var i := IndexOf(t, pattern);
    if i < |t| then Some(t[i].methods) else None
  }

  /** The upper-cased method names a registration lists. */
  function UpperAll(methods: seq<string>): set<string> {
    set i | 0 <= i < |methods| :: Upper(methods[i])
  }

  /**
   * The registration loop `for m in methods: routes[path][m.upper()] = func`:
   * every listed method is bound to `h`, every other method keeps its handler.
   */
  function Bind<H>(m: map<string, H>, methods: seq<string>, h: H): (r: map<string, H>)
    ensures r.Keys == m.Keys + UpperAll(methods)
    ensures forall k :: k in UpperAll(methods) ==> r[k] == h
    ensures forall k :: k in m && k !in UpperAll(methods) ==> r[k] == m[k]
    decreases |methods|
  {
    if |methods| == 0 then m
    else
      var r := Bind(m[Upper(methods[0]) := h], methods[1..], h);
      assert UpperAll(methods) == {Upper(methods[0])} + UpperAll(methods[1..]) by {
        forall x | x in UpperAll(methods) ensures x in {Upper(methods[0])} + UpperAll(methods[1..]) {
          var i :| 0 <= i < |methods| && x == Upper(methods[i]);
          if i > 0 { assert x == Upper(methods[1..][i - 1]); }
        }
        forall x | x in UpperAll(methods[1..]) ensures x in UpperAll(methods) {
          var i :| 0 <= i < |methods[1..]| && x == Upper(methods[1..][i]);
          assert x == Upper(methods[i + 1]);
        }
      }
      r
  }

  /**
   * `App.route(path, methods)(h)`: binds the methods of `path` to `h`. A new
   * path is appended (with an empty method map first, so `methods == []` still
   * creates the entry); a known path keeps its place and its other methods.
   */
  function Route<H>(t: Table<H>, path: string, methods: seq<string>, h: H): (r: Table<H>)
    ensures Lookup(r, path) == Some(Bind(if Lookup(t, path).Some? then Lookup(t, path).value else map[], methods, h))
    ensures forall p :: p != path ==> Lookup(r, p) == Lookup(t, p)
  {
    var i := IndexOf(t, path);
    if i < |t| then
      var r := t[i := Entry(path, Bind(t[i].methods, methods, h))];
      Replaced(t, path, r[i].methods, r);
      r
    else
      var r := t + [Entry(path, Bind(map[], methods, h))];
      Appended(t, path, r[|t|].methods, r);
      r
  }

  /**
   * Registration keeps the iteration order of the table: a known path keeps
   * its place, a new one goes last, and no pattern appears twice.
   */
  lemma RouteKeepsOrder<H>(t: Table<H>, path: string, methods: seq<string>, h: H)
    ensures Patterns(Route(t, path, methods, h)) == if path in Patterns(t) then Patterns(t) else Patterns(t) + [path]
    ensures UniquePatterns(t) ==> UniquePatterns(Route(t, path, methods, h))
  {
    var i := IndexOf(t, path);
    var r := Route(t, path, methods, h);
    if i < |t| {
      Replaced(t, path, r[i].methods, r);
    } else {
      Appended(t, path, r[|t|].methods, r);
    }
  }

  /** A known pattern's method map replaced in place. */
  lemma Replaced<H>(t: Table<H>, path: string, m: map<string, H>, r: Table<H>)
    requires IndexOf(t, path) < |t| && r == t[IndexOf(t, path) := Entry(path, m)]
    ensures path in Patterns(t) && Patterns(r) == Patterns(t)
    ensures Lookup(r, path) == Some(m)
    ensures forall p :: p != path ==> Lookup(r, p) == Lookup(t, p)
    ensures UniquePatterns(t) ==> UniquePatterns(r)
  {
    var i := IndexOf(t, path);
    IndexOfUpdate(t, i, r);
    assert Patterns(t)[i] == path;
  }

  /** A new pattern appended with its method map. */
  lemma Appended<H>(t: Table<H>, path: string, m: map<string, H>, r: Table<H>)
    requires IndexOf(t, path) == |t| && r == t + [Entry(path, m)]
    ensures path !in Patterns(t) && Patterns(r) == Patterns(t) + [path]
    ensures Lookup(r, path) == Some(m)
    ensures forall p :: p != path ==> Lookup(r, p) == Lookup(t, p)
    ensures UniquePatterns(t) ==> UniquePatterns(r)
  {
    assert r[..|t|] == t;
    IndexOfAppend(t, r);
    assert Lookup(t, path) == None;
    forall p | p != path ensures Lookup(r, p) == Lookup(t, p) {
      assert IndexOf(r, p) == (if IndexOf(t, p) < |t| then IndexOf(t, p) else |r|);
    }
  }

  /** `IndexOf` is the only index with its defining properties. */
  lemma IndexOfUnique<H>(t: Table<H>, p: string, i: nat)
    requires i <= |t|
    requires i < |t| ==> t[i].pattern == p
    requires forall j :: 0 <= j < i ==> t[j].pattern != p
    ensures IndexOf(t, p) == i
  {
  }

  lemma IndexOfUpdate<H>(t: Table<H>, i: nat, r: Table<H>)
    requires i < |t| && |r| == |t| && r[i].pattern == t[i].pattern
    requires forall j :: 0 <= j < |t| && j != i ==> r[j] == t[j]
    ensures forall p :: IndexOf(r, p) == IndexOf(t, p)
    ensures Patterns(r) == Patterns(t)
  {
    forall p ensures IndexOf(r, p) == IndexOf(t, p) {
      IndexOfUnique(r, p, IndexOf(t, p));
    }
  }

  lemma IndexOfAppend<H>(t: Table<H>, r: Table<H>)
    requires |r| == |t| + 1 && r[..|t|] == t
    ensures forall p :: IndexOf(r, p) == (if IndexOf(t, p) < |t| then IndexOf(t, p) else if p == r[|t|].pattern then |t| else |r|)
    ensures Patterns(r) == Patterns(t) + [r[|t|].pattern]
  {
    forall p ensures IndexOf(r, p) ==
      if IndexOf(t, p) < |t| then IndexOf(t, p) else if p == r[|t|].pattern then |t| else |r|
    {
      IndexOfAppendAt(t, r, p);
    }
    PatternsAppend(t, r);
  }

  lemma IndexOfAppendAt<H>(t: Table<H>, r: Table<H>, p: string)
    requires |r| == |t| + 1 && r[..|t|] == t
    ensures IndexOf(r, p) == (if IndexOf(t, p) < |t| then IndexOf(t, p) else if p == r[|t|].pattern then |t| else |r|)
  {
    assert forall j :: 0 <= j < |t| ==> r[j] == t[j];
    var b := IndexOf(t, p);
    if b < |t| {
      IndexOfUnique(r, p, b);
    } else if p == r[|t|].pattern {
      IndexOfUnique(r, p, |t|);
    } else {
      IndexOfUnique(r, p, |r|);
    }
  }

  lemma PatternsAppend<H>(t: Table<H>, r: Table<H>)
    requires |r| == |t| + 1 && r[..|t|] == t
    ensures Patterns(r) == Patterns(t) + [r[|t|].pattern]
  {
    var a := Patterns(r);
    var b := Patterns(t) + [r[|t|].pattern];
    forall i | 0 <= i < |a| ensures a[i] == b[i] {
      if i < |t| {
        assert r[i] == r[..|t|][i];
      }
    }
  }
}
