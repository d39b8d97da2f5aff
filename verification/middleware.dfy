/**
 * Middleware composition (`App.use`, `App._apply_middlewares`).
 *
 * A Python middleware is a function from the next handler to a wrapped
 * handler. Every middleware of this framework does some work before it
 * delegates (and may answer at once instead of delegating) and may rework the
 * answer afterwards, so a layer is modelled by those two halves. Running a
 * chain records which halves ran, in order, as a trace.
 */
module Middleware {

  /** What the first half of a layer decides: pass a (possibly enriched) context on, or answer. */
  datatype Step<C, R> = Continue(ctx: C) | Respond(resp: R)

  datatype Layer<!C, !R> = Layer(name: string, before: C -> Step<C, R>, after: R -> R)

  /** A handler: either a plain function or a layer wrapped around a handler. */
  datatype Chain<!C, !R> = Base(run: C -> R) | Wrap(layer: Layer<C, R>, inner: Chain<C, R>)

  /** Trace events: a layer's first half, the innermost handler, a layer's second half. */
  datatype Event = Pre(name: string) | Core | Post(name: string)

  /** `App.use(m)`: the list grows by `m` at the end and keeps its order. */
  function Use<C, R>(mws: seq<Layer<C, R>>, m: Layer<C, R>): (r: seq<Layer<C, R>>)
    ensures |r| == |mws| + 1 && r[..|mws|] == mws && r[|mws|] == m
  {
    mws + [m]
  }

  /** Reference composition: the first layer of the list is the outermost. */
  function Nest<C, R>(ls: seq<Layer<C, R>>, h: Chain<C, R>): Chain<C, R>
  {
    if |ls| == 0 then h else Wrap(ls[0], Nest(ls[1..], h))
  }

  /**
   * `_apply_middlewares`: `for mw in reversed(middlewares): wrapped = mw(wrapped)`.
   * Wrapping from the last registered to the first makes the first outermost.
   */
  method ApplyMiddlewares<C, R>(mws: seq<Layer<C, R>>, handler: Chain<C, R>) returns (wrapped: Chain<C, R>)
    ensures wrapped == Nest(mws, handler)
  {
    wrapped := handler;
    var i := |mws|;
    while i > 0
      invariant 0 <= i <= |mws|
      invariant wrapped == Nest(mws[i..], handler)
    {
      i := i - 1;
      assert mws[i..][1..] == mws[i + 1..];
      wrapped := Wrap(mws[i], wrapped);
    }
  }

  /** Wrapping with `a` and then with `b` around that is wrapping with `a + b`. */
  lemma {:induction false} NestAppend<C, R>(a: seq<Layer<C, R>>, b: seq<Layer<C, R>>, h: Chain<C, R>)
    ensures Nest(a + b, h) == Nest(a, Nest(b, h))
    decreases |a|
  {
    if |a| == 0 {
      assert a + b == b;
    } else {
      assert (a + b)[1..] == a[1..] + b;
      NestAppend(a[1..], b, h);
    }
  }

  /** Calls a chain on a context: its answer and the trace of what ran. */
  function Invoke<C, R>(c: Chain<C, R>, x: C): (R, seq<Event>)
  {
    match c
    case Base(run) => (run(x), [Core])
    case Wrap(l, inner) =>
      match l.before(x)
      case Respond(r) => (r, [Pre(l.name)])
      case Continue(x') =>
        var (r, t) := Invoke(inner, x');
        (l.after(r), [Pre(l.name)] + t + [Post(l.name)])
  }

  /** Every layer of `ls`, run in order from `x`, passes the request on. */
  predicate Continues<C, R>(ls: seq<Layer<C, R>>, x: C) {
    |ls| == 0 || (ls[0].before(x).Continue? && Continues(ls[1..], ls[0].before(x).ctx))
  }

  /** The context the inner handler sees once every layer has passed it on. */
  function Reached<C, R>(ls: seq<Layer<C, R>>, x: C): C
    requires Continues(ls, x)
  {
    if |ls| == 0 then x else Reached(ls[1..], ls[0].before(x).ctx)
  }

  /** The answer as reworked by the second halves, innermost layer first. */
  function Afters<C, R>(ls: seq<Layer<C, R>>, r: R): R {
    if |ls| == 0 then r else ls[0].after(Afters(ls[1..], r))
  }

  function Pres<C, R>(ls: seq<Layer<C, R>>): (t: seq<Event>)
    ensures |t| == |ls|
    ensures forall i :: 0 <= i < |ls| ==> t[i] == Pre(ls[i].name)
  {
    if |ls| == 0 then [] else [Pre(ls[0].name)] + Pres(ls[1..])
  }

  /** Second halves in reverse registration order. */
  function PostsReversed<C, R>(ls: seq<Layer<C, R>>): (t: seq<Event>)
    ensures |t| == |ls|
    ensures forall i :: 0 <= i < |ls| ==> t[i] == Post(ls[|ls| - 1 - i].name)
  {
    if |ls| == 0 then [] else PostsReversed(ls[1..]) + [Post(ls[0].name)]
  }

  /**
   * Onion order: when every layer passes the request on, all first halves run
   * in registration order, then the inner handler, then all second halves in
   * reverse order; the answer is the inner answer reworked innermost-first.
   */
  lemma {:induction false} OnionOrder<C, R>(ls: seq<Layer<C, R>>, inner: Chain<C, R>, x: C)
    requires Continues(ls, x)
    ensures Invoke(Nest(ls, inner), x).1 == Pres(ls) + Invoke(inner, Reached(ls, x)).1 + PostsReversed(ls)
    ensures Invoke(Nest(ls, inner), x).0 == Afters(ls, Invoke(inner, Reached(ls, x)).0)
    decreases |ls|
  {
    if |ls| > 0 {
      var x' := ls[0].before(x).ctx;
      OnionOrder(ls[1..], inner, x');
      var t := Invoke(Nest(ls[1..], inner), x').1;
      assert Invoke(Nest(ls, inner), x).1 == [Pre(ls[0].name)] + t + [Post(ls[0].name)];
    }
  }

  /**
   * The two-middleware case: with A registered before B, a request both pass
   * on runs A's first half, B's first half, the handler, B's second half, A's
   * second half.
   */
  lemma RegistrationOrder<C, R>(a: Layer<C, R>, b: Layer<C, R>, h: C -> R, x: C)
    requires a.before(x).Continue? && b.before(a.before(x).ctx).Continue?
    ensures Invoke(Nest(Use(Use([], a), b), Base(h)), x).1 == [Pre(a.name), Pre(b.name), Core, Post(b.name), Post(a.name)]
  {
    var ls := Use(Use([], a), b);
    assert ls == [a, b];
    assert ls[1..] == [b];
    assert Continues(ls, x) by {
      assert Continues(ls[1..][1..], b.before(a.before(x).ctx).ctx);
    }
    OnionOrder(ls, Base(h), x);
    assert Pres(ls) == [Pre(a.name), Pre(b.name)];
    assert PostsReversed(ls) == [Post(b.name), Post(a.name)];
  }

  /**
   * Short-circuit: when layer `k` answers itself, the layers after it and the
   * handler never run (no `Core` event), and only the layers before it rework
   * the answer.
   */
  lemma {:induction false} ShortCircuit<C, R>(ls: seq<Layer<C, R>>, k: nat, inner: Chain<C, R>, x: C)
    requires k < |ls| && Continues(ls[..k], x)
    requires ls[k].before(Reached(ls[..k], x)).Respond?
    ensures Invoke(Nest(ls, inner), x).1 == Pres(ls[..k + 1]) + PostsReversed(ls[..k])
    ensures Core !in Invoke(Nest(ls, inner), x).1
    ensures Invoke(Nest(ls, inner), x).0 == Afters(ls[..k], ls[k].before(Reached(ls[..k], x)).resp)
    decreases k
  {
    if k > 0 {
      var x' := ls[0].before(x).ctx;
      assert ls[..k][1..] == ls[1..][..k - 1];
      assert ls[..k + 1][1..] == ls[1..][..k];
      ShortCircuit(ls[1..], k - 1, inner, x');
      var t := Invoke(Nest(ls[1..], inner), x').1;
      assert Invoke(Nest(ls, inner), x).1 == [Pre(ls[0].name)] + t + [Post(ls[0].name)];
    } else {
      assert ls[..1] == [ls[0]];
    }
    var pre := Pres(ls[..k + 1]);
    var post := PostsReversed(ls[..k]);
    assert Core !in pre + post;
  }
}
