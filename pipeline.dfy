/**
 * The rate-limited part of the request pipeline. One limiter of 10 requests
 * per 1000 ms is built once and registered for both the `/users` and the
 * `/collection` route groups, so the two groups draw on one queue.
 */
module Pipeline {
  import opened Common
  import opened RateLimit

  const RequestLimit: nat := 10
  const WindowMillis: nat := 1000
  /** The middleware's own answer to a refused request. */
  const TooManyRequests: Response := Response(429, "Rate limit exceeded")

  /** The route groups the limiter is registered for. */
  datatype RouteGroup = Users | Collection

  /** What the middleware does with a request: hand it on, or answer it itself. */
  datatype GateResult = Proceed | Refused(response: Response)

  /** The middleware's answer for a limiter verdict. */
  function Verdict(admitted: bool): (r: GateResult)
    ensures r.Proceed? <==> admitted
    ensures r.Refused? ==> r == Refused(TooManyRequests)
  {
    if admitted then Proceed else Refused(TooManyRequests)
  }

  /** The application with its single limiter instance. */
  class App {
    const limiter: SlidingWindow

    ghost predicate Valid()
    {
      limiter.limit == RequestLimit && limiter.interval == WindowMillis
    }

    constructor ()
      ensures Valid() && fresh(limiter) && limiter.queue == []
    {
      limiter := new SlidingWindow(RequestLimit, WindowMillis);
    }

    /**
     * A request of either group passes through the same limiter: the group
     * plays no part in the decision or in the update of the queue.
     */
    method Gate(group: RouteGroup, now: Millis) returns (r: GateResult)
      requires Valid()
      modifies limiter
      ensures Valid()
      ensures var d := Step(old(limiter.queue), now, RequestLimit, WindowMillis);
        limiter.queue == d.window && r == Verdict(d.admitted)
    {
      var admitted := limiter.Admit(now);
      r := Verdict(admitted);
    }

    /**
     * A stream of requests of either group, served one after the other
     * through `Gate`: the answers are the ones `Dispatch` describes from the
     * queue the limiter held before.
     */
    method Serve(calls: seq<Call>) returns (rs: seq<GateResult>)
      requires Valid()
      modifies limiter
      ensures Valid()
      ensures rs == Dispatch(old(limiter.queue), calls)
      ensures limiter.queue == Replay(old(limiter.queue), Times(calls), RequestLimit, WindowMillis).window
    {
      ghost var q0 := limiter.queue;
      rs := [];
      var i := 0;
      while i < |calls|
        invariant 0 <= i <= |calls|
        invariant Valid()
        invariant rs + Dispatch(limiter.queue, calls[i..]) == Dispatch(q0, calls)
        invariant Replay(limiter.queue, Times(calls[i..]), RequestLimit, WindowMillis).window
          == Replay(q0, Times(calls), RequestLimit, WindowMillis).window
      {
        ghost var q := limiter.queue;
        var r := Gate(calls[i].group, calls[i].now);
        assert calls[i..][1..] == calls[i + 1..];
        assert Times(calls[i..])[1..] == Times(calls[i + 1..]);
        assert Dispatch(q, calls[i..]) == [r] + Dispatch(limiter.queue, calls[i + 1..]);
        rs := rs + [r];
        i := i + 1;
      }
      assert calls[i..] == [];
      assert Times(calls[i..]) == [];
    }
  }

  /** A request reaching the limiter: its route group and the clock reading. */
  datatype Call = Call(group: RouteGroup, now: Millis)

  /** The middleware's answers to `calls`, in order, starting from queue `q`. */
  function Dispatch(q: seq<Millis>, calls: seq<Call>): (rs: seq<GateResult>)
    ensures |rs| == |calls|
    ensures forall k :: 0 <= k < |rs| ==> rs[k] == Proceed || rs[k] == Refused(TooManyRequests)
    decreases |calls|
  {
    if calls == [] then []
    else
      var d := Step(q, calls[0].now, RequestLimit, WindowMillis);
      [Verdict(d.admitted)] + Dispatch(d.window, calls[1..])
  }

  /** The clock readings of `calls`. */
  function Times(calls: seq<Call>): (ts: seq<Millis>)
    ensures |ts| == |calls| && forall k :: 0 <= k < |calls| ==> ts[k] == calls[k].now
  {
    seq(|calls|, k requires 0 <= k < |calls| => calls[k].now)
  }

  /**
   * The groups share one budget: the answers to a mixed stream of `/users`
   * and `/collection` requests are exactly the verdicts of one limiter fed
   * all their timestamps in order.
   */
  lemma {:induction false} SharedBudget(q: seq<Millis>, calls: seq<Call>)
    ensures var t := Replay(q, Times(calls), RequestLimit, WindowMillis);
      forall k :: 0 <= k < |calls| ==> Dispatch(q, calls)[k] == Verdict(t.verdicts[k])
    decreases |calls|
  {
    if calls != [] {
      var d := Step(q, calls[0].now, RequestLimit, WindowMillis);
      SharedBudget(d.window, calls[1..]);
      assert Times(calls)[1..] == Times(calls[1..]);
    }
  }

  /**
   * Within one second, from an empty queue, the first ten requests get
   * through whichever group they belong to, and every later one is answered
   * with 429: ten `/users` requests exhaust the budget of `/collection` too.
   */
  lemma SharedBurst(calls: seq<Call>)
    requires calls != []
    requires forall i, j :: 0 <= i < j < |calls| ==> calls[i].now <= calls[j].now
    requires calls[|calls| - 1].now - calls[0].now <= WindowMillis
    ensures forall k :: 0 <= k < |calls| ==>
      Dispatch([], calls)[k] == if k < RequestLimit then Proceed else Refused(TooManyRequests)
  {
    var ts := Times(calls);
    forall i, j | 0 <= i < j < |ts|
      ensures ts[i] <= ts[j]
    {
      assert ts[i] == calls[i].now && ts[j] == calls[j].now;
    }
    BurstWithinInterval(ts, RequestLimit, WindowMillis);
    SharedBudget([], calls);
  }

  /**
   * A freshly started application served a burst that fits in one second:
   * the first ten requests proceed, whichever group they belong to, and
   * every later one is refused with 429.
   */
  method ServeBurst(calls: seq<Call>) returns (rs: seq<GateResult>)
    requires calls != []
    requires forall i, j :: 0 <= i < j < |calls| ==> calls[i].now <= calls[j].now
    requires calls[|calls| - 1].now - calls[0].now <= WindowMillis
    ensures |rs| == |calls|
    ensures forall k :: 0 <= k < |calls| ==> rs[k] == if k < RequestLimit then Proceed else Refused(TooManyRequests)
  {
    var app := new App();
    rs := app.Serve(calls);
    SharedBurst(calls);
  }

  /**
   * Ten `/users` requests at one instant, then one `/collection` request at
   * the same instant, on a freshly started application: the last is refused.
   */
  method UsersExhaustCollection(now: Millis) returns (last: GateResult)
    ensures last == Refused(TooManyRequests)
  {
    var app := new App();
    var i := 0;
    while i < RequestLimit
      invariant 0 <= i <= RequestLimit
      invariant app.Valid()
      invariant app.limiter.queue == seq(i, _ => now)
      modifies app.limiter
    {
      var _ := app.Gate(Users, now);
      assert (seq(i, _ => now) + [now])[0] == now;
      assert seq(i, _ => now) + [now] == seq(i + 1, _ => now);
      i := i + 1;
    }
    last := app.Gate(Collection, now);
    assert (seq(i, _ => now) + [now])[0] == now;
  }
}
