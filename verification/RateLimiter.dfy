/**
 The sliding-window rate limiter.  The object keeps a queue of recent times per key and
 forgets stale keys; it is proved to decide like a limiter that remembers every admitted call.
 */
module RateLimiter {
  datatype Call = Call(key: string, at: real)

  const MAX_KEYS := 10_000
  const PRUNE_BATCH := 1_000

  // ----- The reference: a log of admitted calls ---------------------------------------------------

  /** Calls of `key` admitted in the window (lo, hi]. */
  function CountIn(log: seq<Call>, key: string, lo: real, hi: real): nat {
    if log == [] then 0
    else
      var c := log[|log| - 1];
      CountIn(log[..|log| - 1], key, lo, hi) + if c.key == key && lo < c.at <= hi then 1 else 0
  }

  predicate Admits(log: seq<Call>, window: real, key: string, limit: int, now: real) {
    CountIn(log, key, now - window, now) < limit
  }

  datatype Request = Request(key: string, limit: int, at: real)

  function Serve(log: seq<Call>, window: real, q: Request): seq<Call> {
    if Admits(log, window, q.key, q.limit, q.at) then log + [Call(q.key, q.at)] else log
  }

  function ServeAll(window: real, requests: seq<Request>): seq<Call> {
    if requests == [] then []
    else Serve(ServeAll(window, requests[..|requests| - 1]), window, requests[|requests| - 1])
  }

  predicate TimesRise(requests: seq<Request>) {
    forall i, j :: 0 <= i < j < |requests| ==> requests[i].at <= requests[j].at
  }

  /** Every request of `key` carries the same limit. */
  predicate FixedLimit(requests: seq<Request>, key: string, limit: int) {
    forall q <- requests :: q.key == key ==> q.limit == limit
  }

  lemma CountAppends(log: seq<Call>, c: Call, key: string, lo: real, hi: real)
    ensures CountIn(log + [c], key, lo, hi) == CountIn(log, key, lo, hi) + if c.key == key && lo < c.at <= hi then 1 else 0
  {
    assert (log + [c])[..|log|] == log;
  }

  /** A window that reaches no further back and no further forward over the log counts no more. */
  lemma {:induction false} CountShrinks(log: seq<Call>, key: string, lo: real, hi: real, lo': real, hi': real)
    requires lo <= lo' && forall c <- log :: c.at <= hi' ==> c.at <= hi
    ensures CountIn(log, key, lo', hi') <= CountIn(log, key, lo, hi)
  {
    if log != [] {
      assert forall c <- log[..|log| - 1] :: c in log;
      assert log[|log| - 1] in log;
      CountShrinks(log[..|log| - 1], key, lo, hi, lo', hi');
    }
  }

  lemma {:induction false} AdmittedInThePast(window: real, requests: seq<Request>, now: real)
    requires TimesRise(requests) && (requests != [] ==> requests[|requests| - 1].at <= now)
    ensures forall c <- ServeAll(window, requests) :: c.at <= now
  {
    if requests != [] {
      AdmittedInThePast(window, requests[..|requests| - 1], requests[|requests| - 1].at);
    }
  }

  lemma NothingCounted(key: string, lo: real, hi: real)
    ensures CountIn([], key, lo, hi) == 0
  {
  }

  /** With nondecreasing times and one limit per key, no window of length `window`, wherever it ends, holds more than the limit. */
  lemma {:induction false} WindowBound(window: real, requests: seq<Request>, key: string, limit: int, end: real)
    requires window > 0.0 && limit >= 0 && TimesRise(requests) && FixedLimit(requests, key, limit)
    ensures CountIn(ServeAll(window, requests), key, end - window, end) <= limit
  {
    hide CountIn;
    if requests == [] {
      NothingCounted(key, end - window, end);
    } else {
      var n := |requests| - 1;
      var q := requests[n];
      var log := ServeAll(window, requests[..n]);
      assert forall x <- requests[..n] :: x in requests;
      assert q in requests;
      WindowBound(window, requests[..n], key, limit, end);
      if Admits(log, window, q.key, q.limit, q.at) && q.key == key && q.at <= end {
        AdmittedInThePast(window, requests[..n], q.at);
        CountShrinks(log, key, q.at - window, q.at, end - window, end);
      }
      CountAppends(log, Call(q.key, q.at), key, end - window, end);
    }
  }

  /** A request is refused exactly when the window ending at it already holds the limit. */
  lemma RefusedWhenFull(window: real, requests: seq<Request>, q: Request)
    requires window > 0.0 && q.limit >= 0 && TimesRise(requests) && FixedLimit(requests, q.key, q.limit)
    ensures !Admits(ServeAll(window, requests), window, q.key, q.limit, q.at)
            <==> CountIn(ServeAll(window, requests), q.key, q.at - window, q.at) == q.limit
  {
    WindowBound(window, requests, q.key, q.limit, q.at);
  }

  // ----- The times of one key ----------------------------------------------------------------------

  function KeyTimes(log: seq<Call>, key: string): seq<real> {
    if log == [] then []
    else
      var c := log[|log| - 1];
      KeyTimes(log[..|log| - 1], key) + if c.key == key then [c.at] else []
  }

  ghost predicate Sorted(times: seq<real>) {
    forall i, j :: 0 <= i < j < |times| ==> times[i] <= times[j]
  }

  lemma KeyTimesAppends(log: seq<Call>, c: Call)
    ensures forall key :: KeyTimes(log + [c], key) == KeyTimes(log, key) + if c.key == key then [c.at] else []
  {
    assert (log + [c])[..|log|] == log;
  }

  function CountAbove(times: seq<real>, lo: real): nat {
    if times == [] then 0 else CountAbove(times[..|times| - 1], lo) + if times[|times| - 1] > lo then 1 else 0
  }

  lemma {:induction false} CountByKey(log: seq<Call>, key: string, lo: real, now: real)
    requires forall c <- log :: c.at <= now
    ensures CountIn(log, key, lo, now) == CountAbove(KeyTimes(log, key), lo)
  {
    if log != [] {
      var n := |log| - 1;
      assert forall c <- log[..n] :: c in log;
      assert log[n] in log;
      CountByKey(log[..n], key, lo, now);
      if log[n].key == key {
        assert KeyTimes(log, key)[..|KeyTimes(log, key)| - 1] == KeyTimes(log[..n], key);
      } else {
        assert KeyTimes(log, key) == KeyTimes(log[..n], key);
      }
    }
  }

  lemma {:induction false} CountAboveSplit(times: seq<real>, n: nat, lo: real)
    requires n <= |times| && (forall i :: 0 <= i < n ==> times[i] <= lo) && (forall i :: n <= i < |times| ==> times[i] > lo)
    ensures CountAbove(times, lo) == |times| - n
  {
    if |times| > n {
      CountAboveSplit(times[..|times| - 1], n, lo);
    } else if times != [] {
      CountAboveSplit(times[..|times| - 1], n - 1, lo);
    }
  }

  // ----- The object ------------------------------------------------------------------------------------

  /** `kept` is `times` without some oldest entries, none of them after the horizon. */
  ghost predicate KeptSince(times: seq<real>, kept: seq<real>, horizon: real) {
    && |kept| <= |times| && kept == times[|times| - |kept|..]
    && forall i :: 0 <= i < |times| - |kept| ==> times[i] <= horizon
  }

  function Queue(events: map<string, seq<real>>, key: string): seq<real> {
    if key in events then events[key] else []
  }

  /** Removes keys from a mapping and from its insertion order. */
  function Without(order: seq<string>, gone: set<string>): (r: seq<string>)
    ensures forall k :: k in r <==> k in order && k !in gone
  {
    if order == [] then []
    else
      var rest := Without(order[..|order| - 1], gone);
      assert forall k :: k in order <==> k in order[..|order| - 1] || k == order[|order| - 1];
      if order[|order| - 1] in gone then rest else rest + [order[|order| - 1]]
  }

  /** No admitted call lies after the clock, and each key was admitted in order of time. */
  ghost predicate LogOk(log: seq<Call>, clock: real) {
    && (forall c <- log :: c.at <= clock)
    && (forall key :: Sorted(KeyTimes(log, key)) && (forall t <- KeyTimes(log, key) :: t <= clock))
  }

  /** Every queue holds the recent part of its key's admitted times. */
  ghost predicate Mirrors(log: seq<Call>, events: map<string, seq<real>>, horizon: real) {
    forall key: string :: KeptSince(KeyTimes(log, key), Queue(events, key), horizon)
  }

  lemma PopKeeps(times: seq<real>, queue: seq<real>, horizon: real)
    requires KeptSince(times, queue, horizon) && queue != [] && queue[0] <= horizon
    ensures KeptSince(times, queue[1..], horizon)
  {
    assert queue[0] == times[|times| - |queue|];
  }

  lemma LaterHorizon(log: seq<Call>, events: map<string, seq<real>>, horizon: real, later: real)
    requires Mirrors(log, events, horizon) && horizon <= later
    ensures Mirrors(log, events, later)
  {
    forall key: string
      ensures KeptSince(KeyTimes(log, key), Queue(events, key), later)
    {
      assert KeptSince(KeyTimes(log, key), Queue(events, key), horizon);
    }
  }

  lemma QueueUpdates(log: seq<Call>, events: map<string, seq<real>>, horizon: real, key: string, queue: seq<real>)
    requires Mirrors(log, events, horizon) && KeptSince(KeyTimes(log, key), queue, horizon)
    ensures Mirrors(log, events[key := queue], horizon)
  {
    forall k: string
      ensures KeptSince(KeyTimes(log, k), Queue(events[key := queue], k), horizon)
    {
      assert KeptSince(KeyTimes(log, k), Queue(events, k), horizon);
    }
  }

  lemma KeptAppends(times: seq<real>, queue: seq<real>, horizon: real, t: real)
    requires KeptSince(times, queue, horizon)
    ensures KeptSince(times + [t], queue + [t], horizon)
  {
    var n := |times| - |queue|;
    assert (times + [t])[n..] == times[n..] + [t];
  }

  lemma AppendKeeps(log: seq<Call>, events: map<string, seq<real>>, horizon: real, c: Call)
    requires Mirrors(log, events, horizon)
    ensures Mirrors(log + [c], events[c.key := Queue(events, c.key) + [c.at]], horizon)
  {
    KeyTimesAppends(log, c);
    hide KeyTimes, KeptSince;
    var events' := events[c.key := Queue(events, c.key) + [c.at]];
    forall key: string
      ensures KeptSince(KeyTimes(log + [c], key), Queue(events', key), horizon)
    {
      KeptAppends(KeyTimes(log, key), Queue(events, key), horizon, c.at);
      assert KeyTimes(log, key) + [] == KeyTimes(log, key);
    }
  }

  lemma SortedAppends(times: seq<real>, t: real)
    requires Sorted(times) && forall x <- times :: x <= t
    ensures Sorted(times + [t])
  {
    assert forall i | 0 <= i < |times| :: times[i] in times;
  }

  lemma LogAppends(log: seq<Call>, clock: real, c: Call)
    requires LogOk(log, clock) && clock <= c.at
    ensures LogOk(log + [c], c.at)
  {
    KeyTimesAppends(log, c);
    forall key
      ensures Sorted(KeyTimes(log + [c], key)) && forall t <- KeyTimes(log + [c], key) :: t <= c.at
    {
      SortedAppends(KeyTimes(log, key), c.at);
      assert KeyTimes(log, key) + [] == KeyTimes(log, key);
    }
  }

  lemma LogLater(log: seq<Call>, clock: real, now: real)
    requires LogOk(log, clock) && clock <= now
    ensures LogOk(log, now)
  {
    forall key, t | t in KeyTimes(log, key)
      ensures t <= now
    {
      assert Sorted(KeyTimes(log, key));
    }
  }

  /** Forgetting keys whose queues lie before the horizon loses nothing. */
  lemma ForgettingKeeps(log: seq<Call>, events: map<string, seq<real>>, horizon: real, gone: set<string>)
    requires Mirrors(log, events, horizon)
    requires forall k <- gone :: forall t <- Queue(events, k) :: t <= horizon
    ensures Mirrors(log, events - gone, horizon)
  {
    forall key: string
      ensures KeptSince(KeyTimes(log, key), Queue(events - gone, key), horizon)
    {
      var times, queue := KeyTimes(log, key), Queue(events, key);
      assert KeptSince(times, queue, horizon);
      if key in gone {
        forall i | 0 <= i < |times|
          ensures times[i] <= horizon
        {
          if i >= |times| - |queue| { assert times[i] == queue[i - (|times| - |queue|)] && queue[i - (|times| - |queue|)] in queue; }
        }
      }
    }
  }

  /** After the old entries have been popped, the queue length is the number of admitted calls in the window. */
  lemma QueueCounts(log: seq<Call>, key: string, queue: seq<real>, horizon: real, now: real)
    requires LogOk(log, now) && KeptSince(KeyTimes(log, key), queue, horizon) && (queue != [] ==> queue[0] > horizon)
    ensures |queue| == CountIn(log, key, horizon, now)
  {
    var times := KeyTimes(log, key);
    CountByKey(log, key, horizon, now);
    assert Sorted(times);
    CountAboveSplit(times, |times| - |queue|, horizon);
  }

  /** What is left of a queue once expired times have been taken off its front. */
  function Live(queue: seq<real>, cutoff: real): seq<real> {
    if queue != [] && queue[0] <= cutoff then Live(queue[1..], cutoff) else queue
  }

  lemma {:induction false} LiveKeeps(times: seq<real>, queue: seq<real>, cutoff: real)
    requires KeptSince(times, queue, cutoff)
    ensures KeptSince(times, Live(queue, cutoff), cutoff)
    ensures Live(queue, cutoff) != [] ==> Live(queue, cutoff)[0] > cutoff
    decreases |queue|
  {
    if queue != [] && queue[0] <= cutoff {
      PopKeeps(times, queue, cutoff);
      LiveKeeps(times, queue[1..], cutoff);
    }
  }

  /** The last admitted time of a key has left the window. */
  predicate IsStale(queue: seq<real>, cutoff: real) { queue == [] || queue[|queue| - 1] <= cutoff }

  /** The live part of a queue decides like the log. */
  lemma LiveDecides(log: seq<Call>, events: map<string, seq<real>>, key: string, cutoff: real, now: real)
    requires LogOk(log, now) && Mirrors(log, events, cutoff)
    ensures |Live(Queue(events, key), cutoff)| == CountIn(log, key, cutoff, now)
    ensures Mirrors(log, events[key := Live(Queue(events, key), cutoff)], cutoff)
  {
    hide LogOk, CountIn;
    var queue := Live(Queue(events, key), cutoff);
    assert KeptSince(KeyTimes(log, key), Queue(events, key), cutoff);
    LiveKeeps(KeyTimes(log, key), Queue(events, key), cutoff);
    QueueCounts(log, key, queue, cutoff, now);
    QueueUpdates(log, events, cutoff, key, queue);
  }

  lemma LastIsLargest(log: seq<Call>, events: map<string, seq<real>>, horizon: real, key: string)
    requires Mirrors(log, events, horizon) && Sorted(KeyTimes(log, key))
    ensures var q := Queue(events, key);
            q != [] ==> q[|q| - 1] in q && forall t <- q :: t <= q[|q| - 1]
  {
    assert KeptSince(KeyTimes(log, key), Queue(events, key), horizon);
  }

  lemma TimesAreSorted(log: seq<Call>, clock: real, key: string)
    requires LogOk(log, clock)
    ensures Sorted(KeyTimes(log, key))
  {
  }

  /** With a steady clock, a stale queue holds no time inside the window. */
  lemma StaleIsOld(log: seq<Call>, events: map<string, seq<real>>, clock: real, window: real, key: string)
    requires LogOk(log, clock) && Mirrors(log, events, clock - window)
    requires key in events && IsStale(events[key], clock - window)
    ensures forall t <- Queue(events, key) :: t <= clock - window
  {
    hide LogOk, Mirrors, KeyTimes, Sorted;
    TimesAreSorted(log, clock, key);
    LastIsLargest(log, events, clock - window, key);
  }

  /** What is left after some stale queues were removed. */
  ghost predicate PrunedFrom(before: map<string, seq<real>>, after: map<string, seq<real>>, cutoff: real) {
    && (forall k <- after :: k in before && after[k] == before[k])
    && (forall k <- before :: k !in after ==> IsStale(before[k], cutoff))
  }

  /** One decision with a steady clock: the live queue decides like the log, and mirrors it again afterwards. */
  lemma SteadyDecision(log: seq<Call>, events: map<string, seq<real>>, clock: real, window: real, key: string, limit: int, now: real)
    requires LogOk(log, clock) && Mirrors(log, events, clock - window) && clock <= now
    ensures var queue := Live(Queue(events, key), now - window);
            var log' := log + if |queue| < limit then [Call(key, now)] else [];
            && log' == Serve(log, window, Request(key, limit, now)) && LogOk(log', now)
            && Mirrors(log', events[key := queue + if |queue| < limit then [now] else []], now - window)
  {
    hide LogOk, Mirrors, CountIn;
    var cutoff := now - window;
    LaterHorizon(log, events, clock - window, cutoff);
    LogLater(log, clock, now);
    LiveDecides(log, events, key, cutoff, now);
    var queue := Live(Queue(events, key), cutoff);
    if |queue| < limit {
      LogAppends(log, now, Call(key, now));
      AppendKeeps(log, events[key := queue], cutoff, Call(key, now));
      assert events[key := queue][key := queue + [now]] == events[key := queue + [now]];
    } else {
      assert log + [] == log && queue + [] == queue;
    }
  }

  /** The insertion order lists exactly the keys. */
  ghost predicate Lists(order: seq<string>, events: map<string, seq<real>>) {
    forall key: string :: key in order <==> key in events
  }

  lemma ListsOneMore(order: seq<string>, events: map<string, seq<real>>, key: string, queue: seq<real>)
    requires Lists(order, events)
    ensures Lists(if key in events then order else order + [key], events[key := queue])
  {
  }

  lemma NothingPruned(events: map<string, seq<real>>, cutoff: real)
    ensures PrunedFrom(events, events, cutoff)
  {
  }

  lemma StillThere(before: map<string, seq<real>>, after: map<string, seq<real>>, cutoff: real, key: string)
    requires PrunedFrom(before, after, cutoff) && key in before && !IsStale(before[key], cutoff)
    ensures key in after && after[key] == before[key]
  {
  }

  lemma NotStale(events: map<string, seq<real>>, key: string, queue: seq<real>, now: real, cutoff: real)
    requires key in events && events[key] == queue + [now] && cutoff < now
    ensures !IsStale(events[key], cutoff)
  {
  }

  class SlidingWindowRateLimiter {
    const window: real
    var events: map<string, seq<real>>
    var order: seq<string>
    ghost var log: seq<Call>
    ghost var clock: real
    /** No reading of the clock has been earlier than the one before. */
    ghost var steady: bool

    ghost predicate Valid()
      reads this
    {
      && window > 0.0
      && Lists(order, events)
      && (steady ==> LogOk(log, clock) && Mirrors(log, events, clock - window))
    }

    constructor (windowSeconds: int, ghost start: real)
      requires 1 <= windowSeconds <= 3_600
      ensures Valid() && log == [] && clock == start && steady && window == windowSeconds as real
    {
      window := windowSeconds as real;
      events, order := map[], [];
      log, clock, steady := [], start, true;
    }

    /**
     One decision, from the live part of the key's queue.  As long as the clock has not run back, it is the
     decision of a limiter that remembers every admitted call.  Other queues stay, except stale ones.
     */
    method Allow(key: string, limit: int, now: real) returns (allowed: bool)
      requires Valid()
      modifies this
      ensures Valid() && clock == now && steady == (old(steady) && old(clock) <= now)
      ensures allowed <==> |Live(Queue(old(events), key), now - window)| < limit
      ensures var queue := Live(Queue(old(events), key), now - window) + if allowed then [now] else [];
              key in events && PrunedFrom(old(events)[key := queue], events, now - window)
      ensures !allowed || |old(events).Keys + {key}| <= 10_000 ==> events.Keys == old(events).Keys + {key}
      ensures log == old(log) + if allowed then [Call(key, now)] else []
      ensures steady ==> log == Serve(old(log), window, Request(key, limit, now))
    {
      hide LogOk, Mirrors, Serve, Live, PrunedFrom, Lists, IsStale, Queue;
      var cutoff := now - window;
      if steady && clock <= now { SteadyDecision(log, events, clock, window, key, limit, now); }
      steady, clock := steady && clock <= now, now;
      ghost var before := events;
      var queue := PopOld(Queue(events, key), cutoff);
      var full := |queue| >= limit;
      var kept := queue + if full then [] else [now];
      ListsOneMore(order, events, key, kept);
      if key !in events { order := order + [key]; }
      events, log := events[key := kept], log + if full then [] else [Call(key, now)];
      NothingPruned(events, cutoff);
      if full { return false; }
      if |events| > MAX_KEYS {
        NotStale(events, key, queue, now, cutoff);
        Prune(cutoff);
        StillThere(before[key := kept], events, cutoff, key);
      }
      return true;
    }

    /** Takes expired times off the front of a queue. */
    method PopOld(queue: seq<real>, cutoff: real) returns (rest: seq<real>)
      ensures rest == Live(queue, cutoff)
    {
      rest := queue;
      while rest != [] && rest[0] <= cutoff
        invariant Live(rest, cutoff) == Live(queue, cutoff)
        decreases |rest|
      {
        rest := rest[1..];
      }
    }

    method Prune(cutoff: real)
      requires Valid() && cutoff == clock - window
      modifies this`events, this`order
      ensures Valid()
      ensures PrunedFrom(old(events), events, cutoff)
    {
      hide LogOk, Mirrors;
      var stale := StaleKeys(cutoff);
      var gone := set k | k in stale;
      if steady {
        forall k <- gone ensures forall t <- Queue(events, k) :: t <= cutoff { StaleIsOld(log, events, clock, window, k); }
        ForgettingKeeps(log, events, cutoff, gone);
      }
      events, order := events - gone, Without(order, gone);
    }

    /** The first thousand keys, in insertion order, whose last admitted time has left the window. */
    method StaleKeys(cutoff: real) returns (stale: seq<string>)
      requires Valid()
      ensures |stale| <= 1_000
      ensures forall k <- stale :: k in events && IsStale(events[k], cutoff)
      ensures forall k <- order :: IsStale(events[k], cutoff) ==> k in stale || |stale| == 1_000
    {
      hide LogOk, Mirrors;
      stale := [];
      for n := 0 to |order|
        invariant |stale| <= PRUNE_BATCH
        invariant forall k <- stale :: k in events && IsStale(events[k], cutoff)
        invariant forall k <- order[..n] :: IsStale(events[k], cutoff) ==> k in stale || |stale| == PRUNE_BATCH
      {
        var candidate := order[n];
        assert candidate in order && candidate in events;
        var values := events[candidate];
        assert order[..n + 1] == order[..n] + [candidate];
        if |stale| < PRUNE_BATCH && (values == [] || values[|values| - 1] <= cutoff) {
          stale := stale + [candidate];
        }
      }
      assert order[..|order|] == order;
    }
  }

  lemma NoneServed(window: real)
    ensures ServeAll(window, []) == []
  {
  }

  lemma OneMoreServed(window: real, requests: seq<Request>, n: nat)
    requires n < |requests|
    ensures ServeAll(window, requests[..n + 1]) == Serve(ServeAll(window, requests[..n]), window, requests[n])
  {
    assert requests[..n + 1][..n] == requests[..n];
  }

  /** The log tells whether a call was admitted. */
  lemma DecisionShows(log: seq<Call>, window: real, q: Request, allowed: bool)
    requires log + (if allowed then [Call(q.key, q.at)] else []) == Serve(log, window, q)
    ensures allowed <==> Admits(log, window, q.key, q.limit, q.at)
  {
    hide Admits;
    assert |log + [Call(q.key, q.at)]| == |log| + 1;
  }

  /**
   A whole run of one limiter: with nondecreasing times, every decision is the one that the log of all
   admitted calls before it calls for.
   */
  method ServeRequests(windowSeconds: int, requests: seq<Request>) returns (decisions: seq<bool>)
    requires 1 <= windowSeconds <= 3_600 && TimesRise(requests)
    ensures |decisions| == |requests|
    ensures var window := windowSeconds as real;
            forall i :: 0 <= i < |requests| ==>
              (decisions[i] <==> Admits(ServeAll(window, requests[..i]), window, requests[i].key, requests[i].limit, requests[i].at))
  {
    hide ServeAll, Admits, Serve, Live, PrunedFrom, Lists, LogOk, Mirrors, Queue;
    decisions := [];
    NoneServed(windowSeconds as real);
    if requests == [] { return; }
    var limiter := new SlidingWindowRateLimiter(windowSeconds, requests[0].at);
    for n := 0 to |requests|
      invariant fresh(limiter) && limiter.Valid() && limiter.steady && limiter.window == windowSeconds as real
      invariant limiter.log == ServeAll(limiter.window, requests[..n])
      invariant n < |requests| ==> limiter.clock <= requests[n].at
      invariant |decisions| == n
      invariant forall i :: 0 <= i < n ==>
          (decisions[i] <==> Admits(ServeAll(limiter.window, requests[..i]), limiter.window, requests[i].key, requests[i].limit, requests[i].at))
    {
      var q := requests[n];
      var allowed := limiter.Allow(q.key, q.limit, q.at);
      OneMoreServed(limiter.window, requests, n);
      DecisionShows(ServeAll(limiter.window, requests[..n]), limiter.window, q, allowed);
      decisions := decisions + [allowed];
    }
  }
}
