/**
 * `App._match_route`: each pattern's `:name` segments become captures of a
 * non-empty run of non-`/` characters, the match must cover the whole path,
 * and the patterns are tried in registration order with the first match
 * winning. Literal pattern text is compared exactly, segment by segment.
 */
module Matcher {
  import opened Wrappers
  import opened Text
  import opened Url
  import opened Routes

  /** One `/`-separated piece of a pattern. */
  datatype Segment = Lit(text: string) | Param(name: string)

  predicate IsIdentStart(c: char) {
    ('a' <= c <= 'z') || ('A' <= c <= 'Z') || c == '_'
  }

  predicate IsIdentChar(c: char) {
    IsIdentStart(c) || ('0' <= c <= '9')
  }

  /** `[a-zA-Z_][a-zA-Z0-9_]*`, the name a `:name` segment may carry. */
  predicate IsIdent(s: string) {
    |s| > 0 && IsIdentStart(s[0]) && forall i :: 1 <= i < |s| ==> IsIdentChar(s[i])
  }

  /** A segment is a parameter when it is exactly `:` followed by an identifier. */
  function ParseSegment(s: string): (seg: Segment)
    ensures seg.Param? ==> s == ":" + seg.name && IsIdent(seg.name)
    ensures seg.Lit? ==> seg.text == s
  {
    if |s| >= 2 && s[0] == ':' && IsIdent(s[1..]) then Param(s[1..]) else Lit(s)
  }

  function ParseSegments(parts: seq<string>): (segs: seq<Segment>)
    ensures |segs| == |parts|
    ensures forall i :: 0 <= i < |parts| ==> segs[i] == ParseSegment(parts[i])
  {
    if |parts| == 0 then [] else [ParseSegment(parts[0])] + ParseSegments(parts[1..])
  }

  /** The pattern's segments; never empty, and no literal contains `/`. */
  function Compile(pattern: string): (segs: seq<Segment>)
    ensures |segs| >= 1
    ensures forall i :: 0 <= i < |segs| ==> segs[i].Lit? ==> '/' !in segs[i].text
  {
    var parts := Split(pattern, '/');
    var segs := ParseSegments(parts);
    assert forall i :: 0 <= i < |segs| ==> segs[i].Lit? ==> segs[i].text == parts[i];
    segs
  }

  /** Whether one path segment fits one pattern segment. */
  predicate Fits(seg: Segment, part: string) {
    match seg
    case Lit(t) => t == part
    case Param(_) => part != ""
  }

  predicate AllFit(segs: seq<Segment>, parts: seq<string>)
    requires |segs| == |parts|
  {
    forall i :: 0 <= i < |segs| ==> Fits(segs[i], parts[i])
  }

  /** The parameter names of a pattern. */
  function ParamNames(segs: seq<Segment>): set<string> {
    set i | 0 <= i < |segs| && segs[i].Param? :: segs[i].name
  }

  /** No name is captured twice (a Python regex with a repeated group name does not compile). */
  predicate UniqueNames(segs: seq<Segment>) {
    forall i, j :: 0 <= i < j < |segs| && segs[i].Param? && segs[j].Param? ==> segs[i].name != segs[j].name
  }

  /**
   * Matches path segments against pattern segments. It succeeds exactly when
   * the counts are equal and every segment fits, and then binds every
   * parameter name; with distinct names each binds its own path segment.
   */
  function MatchSegments(segs: seq<Segment>, parts: seq<string>): (r: Option<map<string, string>>)
    ensures r.Some? <==> |segs| == |parts| && AllFit(segs, parts)
    ensures r.Some? ==> r.value.Keys == ParamNames(segs)
    ensures r.Some? && UniqueNames(segs) ==>
      forall i :: 0 <= i < |segs| && segs[i].Param? ==> r.value[segs[i].name] == parts[i]
  {
    if |segs| != |parts| then None
    else if |segs| == 0 then Some(map[])
    else
      var rest := MatchSegments(segs[1..], parts[1..]);
      ParamNamesCons(segs);
      AllFitCons(segs, parts);
      if !Fits(segs[0], parts[0]) || rest.None? then None
      else
        var m := rest.value;
        match segs[0]
        case Lit(_) => Some(m)
        case Param(n) =>
          var r := m[n := parts[0]];
          BindFirst(segs, parts, m, r);
          Some(r)
  }

  /** The names of a pattern are those of its first segment and of the rest. */
  lemma ParamNamesCons(segs: seq<Segment>)
    requires |segs| > 0
    ensures ParamNames(segs) == (if segs[0].Param? then {segs[0].name} else {}) + ParamNames(segs[1..])
  {
    forall x | x in ParamNames(segs)
      ensures x in (if segs[0].Param? then {segs[0].name} else {}) + ParamNames(segs[1..])
    {
      var i :| 0 <= i < |segs| && segs[i].Param? && segs[i].name == x;
      if i > 0 { assert segs[1..][i - 1] == segs[i]; }
    }
    forall x | x in ParamNames(segs[1..]) ensures x in ParamNames(segs) {
      var i :| 0 <= i < |segs[1..]| && segs[1..][i].Param? && segs[1..][i].name == x;
      assert segs[i + 1] == segs[1..][i];
    }
  }

  /** Every segment fits when the first does and the rest do. */
  lemma AllFitCons(segs: seq<Segment>, parts: seq<string>)
    requires |segs| == |parts| > 0
    ensures AllFit(segs, parts) <==> Fits(segs[0], parts[0]) && AllFit(segs[1..], parts[1..])
  {
    if Fits(segs[0], parts[0]) && AllFit(segs[1..], parts[1..]) {
      forall i | 0 <= i < |segs| ensures Fits(segs[i], parts[i]) {
        if i > 0 { assert segs[1..][i - 1] == segs[i] && parts[1..][i - 1] == parts[i]; }
      }
    }
  }

  /** Binding the first parameter keeps the later bindings when names are distinct. */
  lemma BindFirst(segs: seq<Segment>, parts: seq<string>, m: map<string, string>, r: map<string, string>)
    requires |segs| == |parts| > 0 && segs[0].Param? && r == m[segs[0].name := parts[0]]
    requires forall i :: 0 <= i < |segs[1..]| && segs[1..][i].Param? ==> segs[1..][i].name in m
    requires UniqueNames(segs[1..]) ==>
      forall i :: 0 <= i < |segs[1..]| && segs[1..][i].Param? ==> m[segs[1..][i].name] == parts[1..][i]
    ensures UniqueNames(segs) ==> forall i :: 0 <= i < |segs| && segs[i].Param? ==> r[segs[i].name] == parts[i]
  {
    if UniqueNames(segs) {
      assert UniqueNames(segs[1..]);
      forall i | 1 <= i < |segs| && segs[i].Param? ensures r[segs[i].name] == parts[i] {
        assert segs[1..][i - 1] == segs[i] && parts[1..][i - 1] == parts[i];
      }
    }
  }

  /** `re.fullmatch` of the compiled pattern against a path, with its `groupdict()`. */
  function MatchPath(pattern: string, path: string): Option<map<string, string>> {
    MatchSegments(Compile(pattern), Split(path, '/'))
  }

  // ---------------------------------------------------------------------------
  // Round trip: a match is undone by filling the pattern with its bindings
  // ---------------------------------------------------------------------------

  /** The path a pattern stands for once each name is replaced by its value. */
  function Fill(segs: seq<Segment>, params: map<string, string>): (parts: seq<string>)
    requires ParamNames(segs) <= params.Keys
    ensures |parts| == |segs|
    ensures forall i :: 0 <= i < |segs| ==> parts[i] == (if segs[i].Param? then params[segs[i].name] else segs[i].text)
  {
    if |segs| == 0 then []
    else
      assert ParamNames(segs[1..]) <= ParamNames(segs) by {
        forall x | x in ParamNames(segs[1..]) ensures x in ParamNames(segs) {
          var i :| 0 <= i < |segs[1..]| && segs[1..][i].Param? && segs[1..][i].name == x;
          assert segs[i + 1] == segs[1..][i];
        }
      }
      assert segs[0].Param? ==> segs[0].name in ParamNames(segs);
      [if segs[0].Param? then params[segs[0].name] else segs[0].text] + Fill(segs[1..], params)
  }

  /** Whatever a pattern matches is the pattern filled with the bindings it produced. */
  lemma MatchThenFill(pattern: string, path: string)
    requires MatchPath(pattern, path).Some?
    requires UniqueNames(Compile(pattern))
    ensures Join(Fill(Compile(pattern), MatchPath(pattern, path).value), '/') == path
  {
    var segs := Compile(pattern);
    var parts := Split(path, '/');
    var m := MatchPath(pattern, path).value;
    assert Fill(segs, m) == parts;
    JoinSplit(path, '/');
  }

  /**
   * Conversely, filling a pattern with non-empty, `/`-free values gives a path
   * the pattern matches, binding exactly those values.
   */
  lemma FillThenMatch(pattern: string, params: map<string, string>)
    requires UniqueNames(Compile(pattern))
    requires params.Keys == ParamNames(Compile(pattern))
    requires forall n :: n in params ==> params[n] != "" && '/' !in params[n]
    ensures MatchPath(pattern, Join(Fill(Compile(pattern), params), '/')) == Some(params)
  {
    var segs := Compile(pattern);
    var parts := Fill(segs, params);
    FilledParts(segs, params);
    SplitJoin(parts, '/');
    FilledBinds(segs, params);
  }

  /** A filled pattern has `/`-free parts that each fit their segment. */
  lemma FilledParts(segs: seq<Segment>, params: map<string, string>)
    requires forall i :: 0 <= i < |segs| ==> segs[i].Lit? ==> '/' !in segs[i].text
    requires params.Keys == ParamNames(segs)
    requires forall n :: n in params ==> params[n] != "" && '/' !in params[n]
    ensures forall k :: 0 <= k < |segs| ==> '/' !in Fill(segs, params)[k]
    ensures AllFit(segs, Fill(segs, params))
  {
    var parts := Fill(segs, params);
    forall k | 0 <= k < |segs| ensures '/' !in parts[k] && Fits(segs[k], parts[k]) {
      if segs[k].Param? {
        assert segs[k].name in ParamNames(segs);
      }
    }
  }

  /** Matching a filled pattern binds exactly the values it was filled with. */
  lemma FilledBinds(segs: seq<Segment>, params: map<string, string>)
    requires UniqueNames(segs) && params.Keys == ParamNames(segs)
    requires AllFit(segs, Fill(segs, params))
    ensures MatchSegments(segs, Fill(segs, params)) == Some(params)
  {
    var parts := Fill(segs, params);
    assert MatchSegments(segs, parts).Some?;
    var r := MatchSegments(segs, parts).value;
    assert r.Keys == params.Keys;
    SameAtNames(segs, r, params);
  }

  /** Two maps over a pattern's names that agree at every parameter segment are equal. */
  lemma SameAtNames(segs: seq<Segment>, r: map<string, string>, params: map<string, string>)
    requires r.Keys == ParamNames(segs) && params.Keys == ParamNames(segs)
    requires forall i :: 0 <= i < |segs| && segs[i].Param? ==> r[segs[i].name] == params[segs[i].name]
    ensures r == params
  {
    forall n | n in params ensures r[n] == params[n] {
      var i :| 0 <= i < |segs| && segs[i].Param? && segs[i].name == n;
    }
  }

  lemma SplitToggle()
    ensures Split("/todos/:id/toggle", '/') == ["", "todos", ":id", "toggle"]
  {
    var parts := ["", "todos", ":id", "toggle"];
    JoinToggle(":id");
    assert "/todos/" + ":id" + "/toggle" == "/todos/:id/toggle";
    assert forall k :: 0 <= k < |parts| ==> '/' !in parts[k];
    SplitJoin(parts, '/');
  }

  lemma SegmentsToggle()
    ensures ParseSegments(["", "todos", ":id", "toggle"]) == [Lit(""), Lit("todos"), Param("id"), Lit("toggle")]
  {
    assert ":id"[1..] == "id";
    assert IsIdent("id");
  }

  lemma CompileToggle()
    ensures Compile("/todos/:id/toggle") == [Lit(""), Lit("todos"), Param("id"), Lit("toggle")]
  {
    SplitToggle();
    SegmentsToggle();
  }

  lemma JoinToggle(id: string)
    ensures Join(["", "todos", id, "toggle"], '/') == "/todos/" + id + "/toggle"
  {
    assert Join([id, "toggle"], '/') == id + "/toggle";
    assert Join(["todos", id, "toggle"], '/') == "todos/" + id + "/toggle";
  }

  lemma ToggleSegmentsShape(id: string)
    ensures UniqueNames([Lit(""), Lit("todos"), Param("id"), Lit("toggle")])
    ensures ParamNames([Lit(""), Lit("todos"), Param("id"), Lit("toggle")]) == {"id"}
    ensures Fill([Lit(""), Lit("todos"), Param("id"), Lit("toggle")], map["id" := id]) == ["", "todos", id, "toggle"]
  {
    var segs := [Lit(""), Lit("todos"), Param("id"), Lit("toggle")];
    assert segs[2].Param?;
  }

  lemma ToggleFilled(id: string)
    requires id != "" && '/' !in id
    ensures MatchPath("/todos/:id/toggle", Join(["", "todos", id, "toggle"], '/')) == Some(map["id" := id])
  {
    var params := map["id" := id];
    CompileToggle();
    ToggleSegmentsShape(id);
    assert params.Keys == {"id"};
    FillThenMatch("/todos/:id/toggle", params);
  }

  /**
   * The example the framework documents, for every id: `/todos/:id/toggle`
   * matches `/todos/<id>/toggle` and binds `id` (e.g. `"42"`).
   */
  lemma ToggleBindsId(id: string, path: string)
    requires id != "" && '/' !in id
    requires path == "/todos/" + id + "/toggle"
    ensures MatchPath("/todos/:id/toggle", path) == Some(map["id" := id])
  {
    ToggleFilled(id);
    JoinToggle(id);
  }

  // ---------------------------------------------------------------------------
  // First match in registration order
  // ---------------------------------------------------------------------------

  /** What `_match_route` hands back: the winning entry (with its position) or nothing. */
  datatype Found<H> = NoRoute | Found(index: nat, methods: map<string, H>, params: map<string, string>)

  /**
   * Tries the patterns from position `from` on and returns the first that
   * matches, with no ranking by specificity; `NoRoute` exactly when none does.
   */
  function FirstMatch<H>(t: Table<H>, path: string, from: nat): (r: Found<H>)
    requires from <= |t|
    ensures r.Found? ==> from <= r.index < |t| && r.methods == t[r.index].methods
    ensures r.Found? ==> MatchPath(t[r.index].pattern, path) == Some(r.params)
    ensures r.Found? ==> forall j :: from <= j < r.index ==> MatchPath(t[j].pattern, path).None?
    ensures r.NoRoute? <==> forall j :: from <= j < |t| ==> MatchPath(t[j].pattern, path).None?
    decreases |t| - from
  {
    if from == |t| then NoRoute
    else
      var m := MatchPath(t[from].pattern, path);
      if m.Some? then Found(from, t[from].methods, m.value)
      else
        var r := FirstMatch(t, path, from + 1);
        MissFirst(t, path, from, if r.Found? then r.index else |t|);
        r
  }

  /** A pattern that does not match can be put in front of a run of patterns that do not. */
  lemma MissFirst<H>(t: Table<H>, path: string, from: nat, to: nat)
    requires from < to <= |t| && MatchPath(t[from].pattern, path).None?
    ensures (forall j :: from <= j < to ==> MatchPath(t[j].pattern, path).None?) <==>
            (forall j :: from + 1 <= j < to ==> MatchPath(t[j].pattern, path).None?)
  {
  }

  /** When the patterns before position `i` miss and the one at `i` matches, the search stops at `i`. */
  lemma FirstMatchAt<H>(t: Table<H>, path: string, i: nat)
    requires i < |t| && MatchPath(t[i].pattern, path).Some?
    requires forall j :: 0 <= j < i ==> MatchPath(t[j].pattern, path).None?
    ensures FirstMatch(t, path, 0) == Found(i, t[i].methods, MatchPath(t[i].pattern, path).value)
  {
    var r := FirstMatch(t, path, 0);
    assert r.Found?;
    assert r.index == i;
  }

  /** `App._match_route(raw)`: only the path part of the target takes part in matching. */
  function MatchRoute<H>(t: Table<H>, raw: string): (r: (Found<H>, Target))
    ensures r.1 == SplitTarget(raw)
    ensures r.0.Found? ==> r.0.index < |t| && r.0.methods == t[r.0.index].methods
    ensures r.0.Found? ==> MatchPath(t[r.0.index].pattern, r.1.path) == Some(r.0.params)
    ensures r.0.Found? ==> forall j :: 0 <= j < r.0.index ==> MatchPath(t[j].pattern, r.1.path).None?
    ensures r.0.NoRoute? <==> forall j :: 0 <= j < |t| ==> MatchPath(t[j].pattern, r.1.path).None?
  {
    var target := SplitTarget(raw);
    (FirstMatch(t, target.path, 0), target)
  }
}
