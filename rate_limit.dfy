/**
 * The sliding-window rate limiter built by `rateLimit(limit, interval)`.
 *
 * The closure owns a queue of request timestamps. Every call pushes the
 * current time, drops stale timestamps from the front, and then admits the
 * request unless more than `limit` timestamps remain. A rejected request's
 * timestamp stays in the queue.
 */
module RateLimit {

  /** Milliseconds since the epoch, as the JavaScript clock reports them. */
  type Millis = nat

  /** What one call leaves behind: the new queue and whether the request may go on. */
  datatype Decision = Decision(window: seq<Millis>, admitted: bool)

  /**
   * A timestamp the eviction loop drops: it is truthy (JavaScript treats 0 as
   * false) and strictly older than the cutoff `now - interval`.
   */
  predicate Stale(t: Millis, cutoff: int)
  {
    t != 0 && t < cutoff
  }

  /**
   * How many timestamps the eviction loop drops from the front of `q`: it
   * keeps dropping while the front is stale and stops at the first one that
   * is not (or when the queue is empty).
   */
  function Dropped(q: seq<Millis>, cutoff: int): (n: nat)
    ensures n <= |q|
    decreases |q|
  {
    if q != [] && Stale(q[0], cutoff) then 1 + Dropped(q[1..], cutoff) else 0
  }

  /** The queue the eviction loop leaves behind: a suffix of `q`. */
  function Evict(q: seq<Millis>, cutoff: int): (w: seq<Millis>)
    ensures |w| <= |q|
  {
    q[Dropped(q, cutoff)..]
  }

  /** Everything eviction drops is stale, and the new front is not. */
  lemma {:induction false} DroppedAreStale(q: seq<Millis>, cutoff: int)
    ensures forall i :: 0 <= i < Dropped(q, cutoff) ==> Stale(q[i], cutoff)
    ensures Dropped(q, cutoff) < |q| ==> !Stale(q[Dropped(q, cutoff)], cutoff)
    decreases |q|
  {
    if q != [] && Stale(q[0], cutoff) {
      DroppedAreStale(q[1..], cutoff);
    }
  }

  /**
   * One call of the middleware on queue `q` at time `now`: push, evict against
   * `now - interval`, and admit iff at most `limit` timestamps remain. The call's
   * own timestamp is never evicted, so it is the last one kept whether the call
   * is admitted or not.
   */
  function Step(q: seq<Millis>, now: Millis, limit: nat, interval: nat): (d: Decision)
    ensures d.window != [] && d.window[|d.window| - 1] == now
    ensures d.admitted <==> |d.window| <= limit
  {
    var p := q + [now];
    DroppedAreStale(p, now - interval);
    assert p[|q|] == now && !Stale(p[|q|], now - interval);
    var w := Evict(p, now - interval);
    Decision(w, |w| <= limit)
  }

  /** A limiter whose queue the middleware closure updates in place. */
  class SlidingWindow {
    const limit: nat
    const interval: nat
    var queue: seq<Millis>

    constructor (limit: nat, interval: nat)
      ensures this.limit == limit && this.interval == interval
      ensures queue == []
    {
      this.limit := limit;
      this.interval := interval;
      queue := [];
    }

    /** One request through the middleware; `now` is the clock reading it takes. */
    method Admit(now: Millis) returns (admitted: bool)
      modifies this
      ensures Decision(queue, admitted) == Step(old(queue), now, limit, interval)
      ensures queue != [] && queue[|queue| - 1] == now
      ensures admitted <==> |queue| <= limit
      ensures old(Chronological(queue, now)) && now > 0 ==>
        Chronological(queue, now) && forall i :: 0 <= i < |queue| ==> now - interval <= queue[i]
    {
      ghost var before := queue;
      queue := queue + [now];
      ghost var pushed := queue;
      ghost var k := 0;
      while queue != [] && queue[0] != 0 && queue[0] < now - interval
        invariant k + |queue| == |pushed| && queue == pushed[k..]
        invariant k + Dropped(queue, now - interval) == Dropped(pushed, now - interval)
        decreases |queue|
      {
        queue := queue[1..];
        k := k + 1;
      }
      admitted := !(|queue| > limit);
      if Chronological(before, now) && now > 0 {
        StepKeepsWindow(before, now, limit, interval);
      }
    }
  }

  /** Timestamps as the clock produces them: positive, non-decreasing, none after `now`. */
  predicate Chronological(q: seq<Millis>, now: Millis)
  {
    && (forall i :: 0 <= i < |q| ==> 0 < q[i] <= now)
    && (forall i, j :: 0 <= i < j < |q| ==> q[i] <= q[j])
  }

  /**
   * Eviction only removes a prefix of `q + [now]`: the new queue is what
   * follows the first `Dropped` entries, every dropped entry was stale, and
   * the entry that stopped the loop is not.
   */
  lemma StepEvictsStalePrefix(q: seq<Millis>, now: Millis, limit: nat, interval: nat)
    ensures var p, cutoff := q + [now], now - interval;
      && Dropped(p, cutoff) <= |q|
      && Step(q, now, limit, interval).window == p[Dropped(p, cutoff)..]
      && (forall i :: 0 <= i < Dropped(p, cutoff) ==> Stale(p[i], cutoff))
      && !Stale(p[Dropped(p, cutoff)], cutoff)
  {
    var p := q + [now];
    DroppedAreStale(p, now - interval);
    assert p[|q|] == now;
  }

  /**
   * On clock-ordered timestamps one call keeps the queue clock-ordered, keeps
   * only timestamps inside the window `[now - interval, now]`, and ends with `now`.
   */
  lemma StepKeepsWindow(q: seq<Millis>, now: Millis, limit: nat, interval: nat)
    requires Chronological(q, now) && now > 0
    ensures var d := Step(q, now, limit, interval);
      && Chronological(d.window, now)
      && (forall i :: 0 <= i < |d.window| ==> now - interval <= d.window[i] <= now)
      && d.window[|d.window| - 1] == now
  {
    var p := q + [now];
    assert Chronological(p, now);
    StepEvictsStalePrefix(q, now, limit, interval);
    var n := Dropped(p, now - interval);
    var w := Step(q, now, limit, interval).window;
    assert p[n] >= now - interval;
    forall i | 0 <= i < |w|
      ensures now - interval <= w[i] <= now
    {
      assert w[i] == p[n + i] >= p[n];
    }
  }

  /**
   * Eviction never removes a timestamp at or after the cutoff: in particular
   * one exactly equal to `now - interval` is kept, because the comparison is
   * strict. The kept entry keeps its place relative to the end of the queue.
   */
  lemma EvictionKeepsRecent(q: seq<Millis>, now: Millis, limit: nat, interval: nat, i: nat)
    requires i < |q| && q[i] >= now - interval
    ensures var d := Step(q, now, limit, interval);
      |q| + 1 - |d.window| <= i && d.window[i - (|q| + 1 - |d.window|)] == q[i]
  {
    var p := q + [now];
    StepEvictsStalePrefix(q, now, limit, interval);
    assert p[i] == q[i] && !Stale(p[i], now - interval);
  }

  /** The `queue[0] &&` guard: a zero timestamp at the front stops eviction altogether. */
  lemma ZeroFrontStopsEviction(q: seq<Millis>, now: Millis, limit: nat, interval: nat)
    requires q != [] && q[0] == 0
    ensures Step(q, now, limit, interval).window == q + [now]
  {
    assert (q + [now])[0] == 0;
  }

  /**
   * Once every earlier timestamp has left the window, the next call finds a
   * queue holding only itself and is admitted, however many calls were
   * rejected before.
   */
  lemma DrainedWindowAdmits(q: seq<Millis>, now: Millis, limit: nat, interval: nat)
    requires forall i :: 0 <= i < |q| ==> 0 < q[i] < now - interval
    requires limit >= 1
    ensures Step(q, now, limit, interval) == Decision([now], true)
  {
    var p := q + [now];
    StepEvictsStalePrefix(q, now, limit, interval);
    var n := Dropped(p, now - interval);
    assert n == |q|;
    assert p[|q|..] == [now];
  }

  /**
   * A rejected call keeps its timestamp, so while nothing in the queue has
   * become stale the next call finds a longer queue and is rejected too.
   */
  lemma {:induction false} RejectionPersists(q: seq<Millis>, t1: Millis, t2: Millis, limit: nat, interval: nat)
    requires !Step(q, t1, limit, interval).admitted
    requires Step(q, t1, limit, interval).window[0] >= t2 - interval
    ensures var d2 := Step(Step(q, t1, limit, interval).window, t2, limit, interval);
      && d2.window == Step(q, t1, limit, interval).window + [t2]
      && !d2.admitted
  {
    var w := Step(q, t1, limit, interval).window;
    assert (w + [t2])[0] == w[0];
  }

  /** The calls at `times`, in order, starting from queue `q`: the final queue and each verdict. */
  datatype Trace = Trace(window: seq<Millis>, verdicts: seq<bool>)

  function Replay(q: seq<Millis>, times: seq<Millis>, limit: nat, interval: nat): (t: Trace)
    ensures |t.verdicts| == |times|
    ensures times == [] ==> t.window == q
    decreases |times|
  {
    if times == [] then Trace(q, [])
    else
      var d := Step(q, times[0], limit, interval);
      var rest := Replay(d.window, times[1..], limit, interval);
      Trace(rest.window, [d.admitted] + rest.verdicts)
  }

  /**
   * However the run of calls went, the queue afterwards ends with the latest
   * call's timestamp: the limiter never forgets its most recent request.
   */
  lemma {:induction false} ReplayKeepsLastCall(q: seq<Millis>, times: seq<Millis>, limit: nat, interval: nat)
    requires times != []
    ensures var w := Replay(q, times, limit, interval).window;
      w != [] && w[|w| - 1] == times[|times| - 1]
    decreases |times|
  {
    if |times| > 1 {
      var d := Step(q, times[0], limit, interval);
      ReplayKeepsLastCall(d.window, times[1..], limit, interval);
      assert times[1..][|times| - 2] == times[|times| - 1];
    }
  }

  /**
   * While the front of the queue never becomes stale, nothing is evicted: the
   * queue just grows, and the k-th call is admitted iff the queue then holds at
   * most `limit` timestamps.
   */
  lemma {:induction false} ReplayWithoutEviction(q: seq<Millis>, times: seq<Millis>, limit: nat, interval: nat)
    requires q + times != []
    requires forall k :: 0 <= k < |times| ==> !Stale((q + times)[0], times[k] - interval)
    ensures Replay(q, times, limit, interval).window == q + times
    ensures forall k :: 0 <= k < |times| ==>
      (Replay(q, times, limit, interval).verdicts[k] <==> |q| + k + 1 <= limit)
    decreases |times|
  {
    if times != [] {
      var p := q + [times[0]];
      var rest := times[1..];
      assert p + rest == q + times;
      assert p[0] == (q + times)[0];
      assert !Stale(p[0], times[0] - interval);
      assert Step(q, times[0], limit, interval) == Decision(p, |p| <= limit);
      forall k | 0 <= k < |rest|
        ensures !Stale((p + rest)[0], rest[k] - interval)
      {
        assert rest[k] == times[k + 1];
      }
      ReplayWithoutEviction(p, rest, limit, interval);
      var r := Replay(p, rest, limit, interval);
      assert Replay(q, times, limit, interval) == Trace(r.window, [|p| <= limit] + r.verdicts);
    }
  }

  /**
   * Starting from an empty queue, calls whose timestamps all fall within one
   * interval are admitted exactly while they number at most `limit`: the first
   * `limit` get through and the `(limit + 1)`-th and every later one is refused.
   */
  lemma BurstWithinInterval(times: seq<Millis>, limit: nat, interval: nat)
    requires times != []
    requires forall i, j :: 0 <= i < j < |times| ==> times[i] <= times[j]
    requires times[|times| - 1] - times[0] <= interval
    ensures forall k :: 0 <= k < |times| ==> (Replay([], times, limit, interval).verdicts[k] <==> k < limit)
  {
    var last := |times| - 1;
    assert [] + times == times;
    forall k | 0 <= k < |times|
      ensures !Stale(([] + times)[0], times[k] - interval)
    {
      assert k == last || times[k] <= times[last];
    }
    ReplayWithoutEviction([], times, limit, interval);
  }

  /**
   * With a zero timestamp at the front the queue never drains: every later
   * call is kept, and once the queue holds `limit` timestamps every call is
   * refused, however far the clock advances.
   */
  lemma ZeroFrontNeverDrains(q: seq<Millis>, times: seq<Millis>, limit: nat, interval: nat)
    requires q != [] && q[0] == 0
    ensures Replay(q, times, limit, interval).window == q + times
    ensures |q| >= limit ==> forall k :: 0 <= k < |times| ==> !Replay(q, times, limit, interval).verdicts[k]
  {
    assert (q + times)[0] == 0;
    ReplayWithoutEviction(q, times, limit, interval);
  }
}
