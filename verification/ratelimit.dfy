/**
 * The demo API's global sliding-window rate limiter (`rate_limit` in the
 * example backend): one queue of request times per client key; times more
 * than 60 seconds old are dropped from the front, a full window rejects the
 * request without recording it, anything else is recorded and admitted.
 */
module RateLimit {

  /** The window width, in the clock's unit (seconds). */
  const Window: real := 60.0

  /** Client key to the times of its recent admitted requests (a `defaultdict(deque)`). */
  type Windows = map<string, seq<real>>

  /** The queue of `key`; a key seen for the first time has an empty one. */
  function QueueOf(w: Windows, key: string): seq<real> {
    if key in w then w[key] else []
  }

  /**
   * The eviction loop `while q and now - q[0] > window: q.popleft()`: drops
   * the expired prefix. The result is a suffix of `q`, everything dropped was
   * older than the window, and the front that stays is not (a time exactly 60
   * seconds old stays).
   */
  function Evict(q: seq<real>, now: real): (r: seq<real>)
    ensures |r| <= |q| && r == q[|q| - |r|..]
    ensures forall i :: 0 <= i < |q| - |r| ==> now - q[i] > Window
    ensures r == [] || now - r[0] <= Window
  {
    if |q| > 0 && now - q[0] > Window then Evict(q[1..], now) else q
  }

  predicate Sorted(q: seq<real>) {
    forall i, j :: 0 <= i <= j < |q| ==> q[i] <= q[j]
  }

  /** With times in arrival order, every time left after eviction lies inside the window. */
  lemma EvictedWithinWindow(q: seq<real>, now: real)
    requires Sorted(q)
    ensures forall i :: 0 <= i < |Evict(q, now)| ==> now - Evict(q, now)[i] <= Window
  {
    var r := Evict(q, now);
    forall i | 0 <= i < |r| ensures now - r[i] <= Window {
      assert r[0] == q[|q| - |r|] && r[i] == q[|q| - |r| + i];
    }
  }

  /**
   * One call of the middleware for `key` at time `now`: whether the request
   * is admitted, and the windows afterwards. A full window (at least `limit`
   * times left after eviction) rejects and keeps the evicted queue; otherwise
   * `now` is appended. Every other key is left as it was.
   */
  function Admit(w: Windows, key: string, now: real, limit: int): (r: (bool, Windows))
    ensures key in r.1 && r.1 == w[key := r.1[key]]
    ensures r.0 <==> |Evict(QueueOf(w, key), now)| < limit
    ensures r.0 ==> r.1[key] == Evict(QueueOf(w, key), now) + [now] && |r.1[key]| <= limit
    ensures !r.0 ==> r.1[key] == Evict(QueueOf(w, key), now)
  {
    var q := Evict(QueueOf(w, key), now);
    if |q| >= limit then (false, w[key := q]) else (true, w[key := q + [now]])
  }

  /**
   * The middleware's loop as written, popping the front of the queue one
   * time at a time; it computes exactly `Admit`.
   */
  method AdmitRequest(w: Windows, key: string, now: real, limit: int) returns (admitted: bool, w': Windows)
    ensures (admitted, w') == Admit(w, key, now, limit)
  {
    var q := QueueOf(w, key);
    while |q| > 0 && now - q[0] > Window
      invariant Evict(q, now) == Evict(QueueOf(w, key), now)
    {
      q := q[1..];
    }
    if |q| >= limit {
      admitted, w' := false, w[key := q];
    } else {
      q := q + [now];
      admitted, w' := true, w[key := q];
    }
  }

  /** A queue in arrival order, no longer than the limit, and not from the future. */
  predicate QueueOk(q: seq<real>, limit: int, now: real) {
    Sorted(q) && |q| <= limit && forall i :: 0 <= i < |q| ==> q[i] <= now
  }

  /** Every queue is in arrival order, no longer than the limit, and not from the future. */
  predicate WellFormed(w: Windows, limit: int, now: real) {
    forall k :: k in w ==> QueueOk(w[k], limit, now)
  }

  /** A queue that was not from the future stays so as the clock advances. */
  lemma QueueOkLater(q: seq<real>, limit: int, before: real, now: real)
    requires QueueOk(q, limit, before) && before <= now
    ensures QueueOk(q, limit, now)
  {
  }

  /** Eviction keeps a queue sorted and adds no time later than the queue had. */
  lemma EvictSorted(q: seq<real>, now: real, limit: int)
    requires QueueOk(q, limit, now)
    ensures QueueOk(Evict(q, now), limit, now)
  {
    var e := Evict(q, now);
    assert forall i :: 0 <= i < |e| ==> e[i] == q[|q| - |e| + i];
  }

  /** Appending the current time to a queue with room keeps it well formed. */
  lemma AppendNow(q: seq<real>, now: real, limit: int)
    requires QueueOk(q, limit, now) && |q| < limit
    ensures QueueOk(q + [now], limit, now)
  {
  }

  /** What admission leaves for the key is well formed when the key's queue was. */
  lemma AdmittedQueueOk(w: Windows, key: string, now: real, limit: int)
    requires QueueOk(QueueOf(w, key), limit, now) && 0 <= limit
    ensures QueueOk(Admit(w, key, now, limit).1[key], limit, now)
  {
    var e := Evict(QueueOf(w, key), now);
    EvictSorted(QueueOf(w, key), now, limit);
    if |e| < limit {
      AppendNow(e, now, limit);
    }
  }

  /**
   * Admission keeps the windows well formed as long as the clock does not go
   * backwards: queues stay sorted and never exceed the limit.
   */
  lemma AdmitPreservesWellFormed(w: Windows, key: string, before: real, now: real, limit: int)
    requires 0 <= limit && before <= now
    requires WellFormed(w, limit, before)
    ensures WellFormed(Admit(w, key, now, limit).1, limit, now)
  {
    var w' := Admit(w, key, now, limit).1;
    if key in w {
      QueueOkLater(w[key], limit, before, now);
    }
    AdmittedQueueOk(w, key, now, limit);
    forall k | k in w'
      ensures QueueOk(w'[k], limit, now)
    {
      if k != key {
        QueueOkLater(w[k], limit, before, now);
      }
    }
  }

  /** Requests for one key do not change whether another key is admitted. */
  lemma KeysIndependent(w: Windows, a: string, b: string, t1: real, t2: real, limit: int)
    requires a != b
    ensures Admit(Admit(w, a, t1, limit).1, b, t2, limit).0 == Admit(w, b, t2, limit).0
    ensures Admit(Admit(w, a, t1, limit).1, b, t2, limit).1[b] == Admit(w, b, t2, limit).1[b]
  {
    var w1 := Admit(w, a, t1, limit).1;
    assert QueueOf(w1, b) == QueueOf(w, b);
    SameQueueSameVerdict(w1, w, b, t2, limit);
  }

  /** Admission for a key looks at that key's queue only. */
  lemma SameQueueSameVerdict(w: Windows, w': Windows, key: string, now: real, limit: int)
    requires QueueOf(w, key) == QueueOf(w', key)
    ensures Admit(w, key, now, limit).0 == Admit(w', key, now, limit).0
    ensures Admit(w, key, now, limit).1[key] == Admit(w', key, now, limit).1[key]
  {
  }

  /**
   * Capacity comes back: once the newest recorded time is more than 60
   * seconds old the whole queue is evicted, and with a positive limit the
   * request is admitted.
   */
  lemma WindowResets(w: Windows, key: string, now: real, limit: int)
    requires Sorted(QueueOf(w, key))
    requires QueueOf(w, key) != [] ==> now - QueueOf(w, key)[|QueueOf(w, key)| - 1] > Window
    requires limit >= 1
    ensures Evict(QueueOf(w, key), now) == []
    ensures Admit(w, key, now, limit).0
    ensures Admit(w, key, now, limit).1[key] == [now]
  {
  }

  // ---------------------------------------------------------------------------
  // A burst of requests from one key
  // ---------------------------------------------------------------------------

  /** Feeds the request times of one key through `Admit`; the verdicts, in order, and the final windows. */
  function Replay(w: Windows, key: string, times: seq<real>, limit: int): (seq<bool>, Windows)
  {
    if |times| == 0 then ([], w)
    else
      var (verdicts, w1) := Replay(w, key, times[..|times| - 1], limit);
      var (ok, w2) := Admit(w1, key, times[|times| - 1], limit);
      (verdicts + [ok], w2)
  }

  function Min(a: int, b: int): int {
    if a <= b then a else b
  }

  /**
   * With limit N, a key with an empty window that sends requests all within
   * 60 seconds of the first has exactly its first N admitted, the (N+1)-th
   * and later rejected, and its window holds the admitted times.
   */
  lemma {:induction false} BurstWithinWindow(w: Windows, key: string, times: seq<real>, limit: int)
    requires QueueOf(w, key) == [] && limit >= 0
    requires Sorted(times)
    requires |times| > 0 ==> times[|times| - 1] - times[0] <= Window
    ensures |Replay(w, key, times, limit).0| == |times|
    ensures forall i :: 0 <= i < |times| ==> (Replay(w, key, times, limit).0[i] <==> i < limit)
    ensures QueueOf(Replay(w, key, times, limit).1, key) == times[..Min(|times|, limit)]
    decreases |times|
  {
    if |times| > 0 {
      var n := |times|;
      var init := times[..n - 1];
      var now := times[n - 1];
      BurstPrefix(times);
      BurstWithinWindow(w, key, init, limit);
      var r1 := Replay(w, key, init, limit);
      ReplayLast(w, key, times, limit);
      BurstExtend(r1.0, r1.1, key, times, limit, Replay(w, key, times, limit).0);
    }
  }

  /** The last request of a replay is admitted against the windows the others left. */
  lemma ReplayLast(w: Windows, key: string, times: seq<real>, limit: int)
    requires |times| > 0
    ensures var r1 := Replay(w, key, times[..|times| - 1], limit);
      var a := Admit(r1.1, key, times[|times| - 1], limit);
      Replay(w, key, times, limit) == (r1.0 + [a.0], a.1)
  {
  }

  /** The induction step of `BurstWithinWindow`: the last request of the burst. */
  lemma BurstExtend(verdicts: seq<bool>, w1: Windows, key: string, times: seq<real>, limit: int, all: seq<bool>)
    requires |times| > 0 && Sorted(times) && times[|times| - 1] - times[0] <= Window && limit >= 0
    requires |verdicts| == |times| - 1
    requires forall i :: 0 <= i < |verdicts| ==> (verdicts[i] <==> i < limit)
    requires QueueOf(w1, key) == times[..|times| - 1][..Min(|times| - 1, limit)]
    requires all == verdicts + [Admit(w1, key, times[|times| - 1], limit).0]
    ensures forall i :: 0 <= i < |times| ==> (all[i] <==> i < limit)
    ensures QueueOf(Admit(w1, key, times[|times| - 1], limit).1, key) == times[..Min(|times|, limit)]
    ensures |all| == |times|
  {
    var n := |times|;
    var now := times[n - 1];
    var q := QueueOf(w1, key);
    BurstStep(times, q, limit);
    var a := Admit(w1, key, now, limit);
    assert a.0 <==> n - 1 < limit;
    if a.0 {
      assert a.1[key] == q + [now];
    } else {
      assert a.1[key] == q;
    }
  }

  /** The burst's hypotheses hold of its prefix. */
  lemma BurstPrefix(times: seq<real>)
    requires |times| > 0 && Sorted(times) && times[|times| - 1] - times[0] <= Window
    ensures Sorted(times[..|times| - 1])
    ensures |times| > 1 ==> times[|times| - 2] - times[0] <= Window
  {
    if |times| > 1 {
      assert times[|times| - 2] <= times[|times| - 1];
    }
  }

  /** The last request of a burst finds the window as the prefix left it, and nothing in it expired. */
  lemma BurstStep(times: seq<real>, q: seq<real>, limit: int)
    requires |times| > 0 && Sorted(times) && times[|times| - 1] - times[0] <= Window && limit >= 0
    requires q == times[..|times| - 1][..Min(|times| - 1, limit)]
    ensures Evict(q, times[|times| - 1]) == q
    ensures |q| < limit <==> |times| - 1 < limit
    ensures |q| < limit ==> q + [times[|times| - 1]] == times[..Min(|times|, limit)]
    ensures |q| >= limit ==> q == times[..Min(|times|, limit)]
  {
    if |q| > 0 {
      FrontOfPrefix(times, q, limit);
      NothingExpires(q, times[|times| - 1]);
    }
    PrefixSlices(times, q, limit);
  }

  lemma FrontOfPrefix(times: seq<real>, q: seq<real>, limit: int)
    requires |times| > 0 && limit >= 0
    requires q == times[..|times| - 1][..Min(|times| - 1, limit)] && |q| > 0
    ensures q[0] == times[0]
  {
  }

  /** A queue whose oldest time is inside the window loses nothing. */
  lemma NothingExpires(q: seq<real>, now: real)
    requires |q| > 0 && now - q[0] <= Window
    ensures Evict(q, now) == q
  {
  }

  lemma PrefixSlices<T>(times: seq<T>, q: seq<T>, limit: int)
    requires |times| > 0 && limit >= 0
    requires q == times[..|times| - 1][..Min(|times| - 1, limit)]
    ensures |q| < limit <==> |times| - 1 < limit
    ensures |q| < limit ==> q + [times[|times| - 1]] == times[..Min(|times|, limit)]
    ensures |q| >= limit ==> q == times[..Min(|times|, limit)]
  {
  }
}
