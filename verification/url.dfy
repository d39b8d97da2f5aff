/**
 * The request-target handling done before routing: `urlparse` splitting the
 * raw target into path and query, `parse_qs` grouping the query's values by
 * name, and the dispatcher's collapse of one-element value lists to scalars.
 */
module Url {
  import opened Wrappers
  import opened Text

  /** The two parts of `urlparse(raw)` the dispatcher reads. */
  datatype Target = Target(path: string, query: string)

  /** Index of the first `c` in `s` at or after `start`, or `|s|`. */
  function FindFrom(s: string, c: char, start: nat): (i: nat)
    requires start <= |s|
    ensures start <= i <= |s|
    ensures i < |s| ==> s[i] == c
    ensures forall j :: start <= j < i ==> s[j] != c
    decreases |s| - start
  {
    if start == |s| then start
    else if s[start] == c then start
    else FindFrom(s, c, start + 1)
  }

  /** Index of the last `c` in `s`, when there is one. */
  function FindLast(s: string, c: char): (i: nat)
    requires c in s
    ensures i < |s| && s[i] == c
    ensures forall j :: i < j < |s| ==> s[j] != c
  {
    if s[|s| - 1] == c then |s| - 1
    else
      assert c in s[..|s| - 1] by {
        var k :| 0 <= k < |s| && s[k] == c;
        assert s[..|s| - 1][k] == c;
      }
      FindLast(s[..|s| - 1], c)
  }

  /**
   * `urlparse` moves `;params` of the LAST path segment out of the path: the
   * path is cut at the first `;` after the last `/` (anywhere, when there is no `/`).
   */
  function DropParams(u: string): (p: string)
    ensures |p| <= |u| && p == u[..|p|]
    ensures ';' !in u ==> p == u
  {
    if ';' !in u then u
    else
      var start := if '/' in u then FindLast(u, '/') else 0;
      u[..FindFrom(u, ';', start)]
  }

  /** `urlparse(raw)`: the fragment goes first, then the query, then the last segment's params. */
  function SplitTarget(raw: string): (t: Target)
    ensures '#' !in t.path && '?' !in t.path && '#' !in t.query
  {
    var noFragment := raw[..Find(raw, '#')];
    var q := Find(noFragment, '?');
    var query := if q < |noFragment| then noFragment[q + 1..] else "";
    var path := DropParams(noFragment[..q]);
    assert forall c :: c in path ==> c in noFragment[..q];
    Target(path, query)
  }

  /** A path free of the delimiters `urlparse` reacts to. */
  predicate PlainPath(p: string) {
    '#' !in p && '?' !in p && ';' !in p
  }

  /** A path with no query or fragment parses to itself and an empty query. */
  lemma SplitTargetPath(p: string)
    requires PlainPath(p)
    ensures SplitTarget(p) == Target(p, "")
  {
    FindAbsent(p, '#');
    assert p[..|p|] == p;
    FindAbsent(p, '?');
  }

  /** `path?query#fragment` splits back into `path` and `query`. */
  lemma SplitTargetQuery(p: string, q: string, f: string)
    requires PlainPath(p) && '#' !in q
    ensures SplitTarget(p + "?" + q + "#" + f) == Target(p, q)
  {
    var raw := p + "?" + q + "#" + f;
    var noFragment := p + "?" + q;
    assert raw == noFragment + "#" + f;
    assert '#' !in noFragment;
    FindPrefix(noFragment, '#', f);
    assert raw[..Find(raw, '#')] == noFragment;
    FindPrefix(p, '?', q);
    assert noFragment[..|p|] == p;
    assert noFragment[|p| + 1..] == q;
  }

  /** A target with a query and no fragment splits into its path and query. */
  lemma SplitTargetNoFragment(p: string, q: string)
    requires PlainPath(p) && '#' !in q
    ensures SplitTarget(p + "?" + q) == Target(p, q)
  {
    var raw := p + "?" + q;
    assert '#' !in raw;
    FindAbsent(raw, '#');
    assert raw[..|raw|] == raw;
    FindPrefix(p, '?', q);
    assert raw[..|p|] == p;
    assert raw[|p| + 1..] == q;
  }

  /** `;params` after the last `/` are cut off, and the rest of the path is kept. */
  lemma DropParamsLast(d: string, seg: string, params: string)
    requires ';' !in seg && '/' !in seg && '/' !in params
    ensures DropParams(d + "/" + seg + ";" + params) == d + "/" + seg
  {
    var u := d + "/" + seg + ";" + params;
    var n := |d|;
    assert u[n] == '/';
    assert u[n + 1 + |seg|] == ';';
    assert forall j :: n < j < |u| ==> u[j] != '/' by {
      forall j | n < j < |u| ensures u[j] != '/' {
        if j < n + 1 + |seg| { assert u[j] == seg[j - n - 1]; }
        else if j > n + 1 + |seg| { assert u[j] == params[j - n - 2 - |seg|]; }
      }
    }
    var last := FindLast(u, '/');
    assert last == n;
    forall j | n <= j < n + 1 + |seg| ensures u[j] != ';' {
      if j > n { assert u[j] == seg[j - n - 1]; }
    }
    assert FindFrom(u, ';', n) == n + 1 + |seg|;
    assert u[..n + 1 + |seg|] == d + "/" + seg;
  }

  /** A `;` before the last `/` stays in the path: only the last segment loses its params. */
  lemma DropParamsEarlier(d: string, seg: string)
    requires ';' !in seg && '/' !in seg
    ensures DropParams(d + "/" + seg) == d + "/" + seg
  {
    var u := d + "/" + seg;
    var n := |d|;
    assert u[n] == '/';
    if ';' in u {
      assert forall j :: n < j < |u| ==> u[j] != '/' by {
        forall j | n < j < |u| ensures u[j] != '/' { assert u[j] == seg[j - n - 1]; }
      }
      assert FindLast(u, '/') == n;
      forall j | n <= j < |u| ensures u[j] != ';' {
        if j > n { assert u[j] == seg[j - n - 1]; }
      }
      assert FindFrom(u, ';', n) == |u|;
      assert u[..|u|] == u;
    }
  }

  /** A path with no `/` at all is cut at its first `;`. */
  lemma DropParamsNoSlash(seg: string, params: string)
    requires ';' !in seg && '/' !in seg && '/' !in params
    ensures DropParams(seg + ";" + params) == seg
  {
    var u := seg + ";" + params;
    assert '/' !in u;
    assert u[|seg|] == ';';
    forall j | 0 <= j < |seg| ensures u[j] != ';' { assert u[j] == seg[j]; }
    assert FindFrom(u, ';', 0) == |seg|;
    assert u[..|seg|] == seg;
  }

  // ---------------------------------------------------------------------------
  // parse_qs
  // ---------------------------------------------------------------------------

  /**
   * One `&`-separated piece of the query as `parse_qsl` keeps it: it needs an
   * `=`, and a piece whose value is empty is dropped (blank values are not kept).
   */
  function Pair(piece: string): (r: Option<(string, string)>)
    ensures r.Some? ==> r.value.1 != "" && piece == r.value.0 + "=" + r.value.1
    ensures r.Some? ==> '=' !in r.value.0
  {
    var i := Find(piece, '=');
    if i == |piece| || i + 1 == |piece| then None
    else
      assert piece == piece[..i] + "=" + piece[i + 1..];
      Some((piece[..i], piece[i + 1..]))
  }

  /** Every piece `name=value` with a non-empty value and no `=` in the name is kept as that pair. */
  lemma PairKept(name: string, value: string)
    requires '=' !in name && value != ""
    ensures Pair(name + "=" + value) == Some((name, value))
  {
    var piece := name + "=" + value;
    FindPrefix(name, '=', value);
    assert piece[..|name|] == name;
    assert piece[|name| + 1..] == value;
  }

  /** A piece with no `=`, or with nothing after its first `=`, is dropped. */
  lemma PairDropped(name: string)
    requires '=' !in name
    ensures Pair(name) == None && Pair(name + "=") == None
  {
    FindAbsent(name, '=');
    FindPrefix(name, '=', "");
    assert name + "=" == name + ['='] + "";
  }

  /** The kept `(name, value)` pairs of `pieces`, in order. */
  function Pairs(pieces: seq<string>): (ps: seq<(string, string)>)
    ensures |ps| <= |pieces|
    ensures forall i :: 0 <= i < |ps| ==> ps[i].1 != ""
  {
    if |pieces| == 0 then []
    else
      match Pair(pieces[0])
      case Some(p) => [p] + Pairs(pieces[1..])
      case None => Pairs(pieces[1..])
  }

  /** Reference grouping: the values given for `name`, in the order they appear. */
  function ValuesFor(ps: seq<(string, string)>, name: string): seq<string>
  {
    if |ps| == 0 then []
    else if ps[0].0 == name then [ps[0].1] + ValuesFor(ps[1..], name)
    else ValuesFor(ps[1..], name)
  }

  /** `parse_qs`' loop: each pair appends its value to its name's list. */
  function Group(ps: seq<(string, string)>): (m: map<string, seq<string>>)
    ensures forall k :: k in m ==> |m[k]| > 0
  {
    if |ps| == 0 then map[]
    else
      var m := Group(ps[..|ps| - 1]);
      var p := ps[|ps| - 1];
      m[p.0 := (if p.0 in m then m[p.0] else []) + [p.1]]
  }

  lemma {:induction false} ValuesForSnoc(ps: seq<(string, string)>, p: (string, string), name: string)
    ensures ValuesFor(ps + [p], name) == ValuesFor(ps, name) + (if p.0 == name then [p.1] else [])
    decreases |ps|
  {
    if |ps| == 0 {
      assert ps + [p] == [p];
    } else {
      assert (ps + [p])[1..] == ps[1..] + [p];
      ValuesForSnoc(ps[1..], p, name);
    }
  }

  /** The grouping loop agrees with the reference: a name is present iff it has values, and holds exactly them. */
  lemma {:induction false} GroupIsValuesFor(ps: seq<(string, string)>, name: string)
    ensures name in Group(ps) <==> ValuesFor(ps, name) != []
    ensures name in Group(ps) ==> Group(ps)[name] == ValuesFor(ps, name)
    decreases |ps|
  {
    if |ps| > 0 {
      var init := ps[..|ps| - 1];
      var p := ps[|ps| - 1];
      assert ps == init + [p];
      GroupIsValuesFor(init, name);
      ValuesForSnoc(init, p, name);
    }
  }

  /** `parse_qs(query)`. */
  function ParseQs(query: string): map<string, seq<string>> {
    Group(Pairs(Split(query, '&')))
  }

  // ---------------------------------------------------------------------------
  // The dispatcher's normalisation: one value becomes a scalar, several a list
  // ---------------------------------------------------------------------------

  datatype QueryValue = Single(value: string) | Many(values: seq<string>)

  /** The values a normalised entry stands for. */
  function Values(q: QueryValue): seq<string> {
    match q
    case Single(v) => [v]
    case Many(vs) => vs
  }

  /** `{k: (v[0] if len(v) == 1 else v) for k, v in qs.items()}`. */
  function Normalise(qs: map<string, seq<string>>): (r: map<string, QueryValue>)
    ensures r.Keys == qs.Keys
  {
    map k | k in qs :: if |qs[k]| == 1 then Single(qs[k][0]) else Many(qs[k])
  }

  /** The query mapping a handler receives for a query string. */
  function QueryOf(query: string): (r: map<string, QueryValue>)
    ensures forall k :: k in r ==> Values(r[k]) == ValuesFor(Pairs(Split(query, '&')), k)
    ensures forall k :: k in r ==> (r[k].Single? <==> |ValuesFor(Pairs(Split(query, '&')), k)| == 1)
    ensures forall k :: ValuesFor(Pairs(Split(query, '&')), k) != [] ==> k in r
  {
    var ps := Pairs(Split(query, '&'));
    GroupIsValuesForAll(ps);
    Normalise(Group(ps))
  }

  lemma GroupIsValuesForAll(ps: seq<(string, string)>)
    ensures forall k :: k in Group(ps) <==> ValuesFor(ps, k) != []
    ensures forall k :: k in Group(ps) ==> Group(ps)[k] == ValuesFor(ps, k)
  {
    forall k ensures k in Group(ps) <==> ValuesFor(ps, k) != []
      ensures k in Group(ps) ==> Group(ps)[k] == ValuesFor(ps, k)
    {
      GroupIsValuesFor(ps, k);
    }
  }
}
