/** The sliding-window limiter on session-control messages, one window per peer. */
module RateLimiter {
  import opened Sets

  const SWEEP_INTERVAL: real := 300.0

  type Requests = map<string, seq<real>>

  datatype Config = Config(max: int, window: real, interval: real)

  datatype Limits = Limits(requests: Requests, lastSweep: real)

  datatype Call = Call(key: string, at: real)

  /** The entries less than `window` before `now`. */
  function Live(ts: seq<real>, now: real, window: real): seq<real> {
    if ts == [] then []
    else Live(ts[..|ts| - 1], now, window) + if now - ts[|ts| - 1] < window then [ts[|ts| - 1]] else []
  }

  predicate Expired(ts: seq<real>, now: real, window: real) {
    forall i | 0 <= i < |ts| :: !(now - ts[i] < window)
  }

  function Swept(requests: Requests, now: real, window: real): Requests {
    map k | k in requests && !Expired(requests[k], now, window) :: requests[k]
  }

  function Entries(requests: Requests, key: string): seq<real> {
    if key in requests then requests[key] else []
  }

  // ---------------------------------------------------------------- one call

  function Due(c: Config, l: Limits, now: real): Limits {
    if now - l.lastSweep > c.interval then Limits(Swept(l.requests, now, c.window), now) else l
  }

  predicate Allows(c: Config, l: Limits, call: Call) {
    |Live(Entries(Due(c, l, call.at).requests, call.key), call.at, c.window)| < c.max
  }

  function After(c: Config, l: Limits, call: Call): Limits {
    var d := Due(c, l, call.at);
    var entries := Live(Entries(d.requests, call.key), call.at, c.window);
    d.(requests := d.requests[call.key := if |entries| < c.max then entries + [call.at] else entries])
  }

  class Limiter {
    const config: Config
    var requests: Requests
    var lastSweep: real

    constructor (max: int, window: real)
      ensures config == Config(max, window, 300.0) && requests == map[] && lastSweep == 0.0
    {
      config := Config(max, window, SWEEP_INTERVAL);
      requests := map[];
      lastSweep := 0.0;
    }

    function State(): Limits
      reads this
    {
      Limits(requests, lastSweep)
    }

    method Sweep(now: real)
      modifies this`requests
      ensures requests == Swept(old(requests), now, config.window)
      ensures forall k :: k in requests <==> k in old(requests) && exists i :: 0 <= i < |old(requests)[k]| && now - old(requests)[k][i] < config.window
      ensures forall k | k in requests :: requests[k] == old(requests)[k]
    {
      var expired := set k | k in requests && Expired(requests[k], now, config.window);
      while expired != {}
        invariant requests.Keys <= old(requests).Keys && expired <= requests.Keys
        invariant forall k | k in requests :: requests[k] == old(requests)[k]
        invariant forall k | k in old(requests) && Expired(old(requests)[k], now, config.window) :: k in expired || k !in requests
        invariant forall k | k in old(requests) && !Expired(old(requests)[k], now, config.window) :: k in requests
        invariant forall k | k in expired :: Expired(old(requests)[k], now, config.window)
        decreases |expired|
      {
        var k := Pick(expired);
        requests := requests - {k};
        expired := expired - {k};
      }
    }

    method Allow(key: string, now: real) returns (ok: bool)
      modifies this
      ensures ok == Allows(config, old(State()), Call(key, now))
      ensures State() == After(config, old(State()), Call(key, now))
      ensures lastSweep == if now - old(lastSweep) > config.interval then now else old(lastSweep)
    {
      if now - lastSweep > config.interval {
        Sweep(now);
        lastSweep := now;
      }
      var entries := Live(Entries(requests, key), now, config.window);
      ghost var due := requests;
      if entries == [] {
        requests := requests - {key};
      }
      if |entries| >= config.max {
        assert requests[key := entries] == due[key := entries];
        requests := requests[key := entries];
        return false;
      }
      entries := entries + [now];
      assert requests[key := entries] == due[key := entries];
      requests := requests[key := entries];
      return true;
    }
  }

  // ---------------------------------------------------------------- whole runs

  function Run(c: Config, calls: seq<Call>): Limits
    decreases |calls|
  {
    if calls == [] then Limits(map[], 0.0) else After(c, Run(c, calls[..|calls| - 1]), calls[|calls| - 1])
  }

  /** When `key` was let through, over the whole run. */
  function Granted(c: Config, calls: seq<Call>, key: string): seq<real>
    decreases |calls|
  {
    if calls == [] then []
    else
      var before, call := calls[..|calls| - 1], calls[|calls| - 1];
      Granted(c, before, key) + if call.key == key && Allows(c, Run(c, before), call) then [call.at] else []
  }

  ghost predicate ClockForward(calls: seq<Call>, now: real) {
    && (forall i, j | 0 <= i < j < |calls| :: calls[i].at <= calls[j].at)
    && (forall i | 0 <= i < |calls| :: calls[i].at <= now)
  }

  // ---------------------------------------------------------------- what is pruned stays irrelevant

  lemma {:induction false} LiveAppend(a: seq<real>, t: real, now: real, window: real)
    ensures Live(a + [t], now, window) == Live(a, now, window) + if now - t < window then [t] else []
  {
    assert (a + [t])[..|a|] == a;
  }

  /** Dropping what was expired earlier changes nothing later. */
  lemma {:induction false} LiveTwice(ts: seq<real>, early: real, late: real, window: real)
    requires early <= late
    ensures Live(Live(ts, early, window), late, window) == Live(ts, late, window)
    decreases |ts|
  {
    if ts != [] {
      var front, t := ts[..|ts| - 1], ts[|ts| - 1];
      LiveTwice(front, early, late, window);
      if early - t < window {
        LiveAppend(Live(front, early, window), t, late, window);
      } else {
        assert Live(front, early, window) + [] == Live(front, early, window);
      }
    }
  }

  lemma {:induction false} ExpiredStaysDead(ts: seq<real>, early: real, late: real, window: real)
    requires early <= late && Expired(ts, early, window)
    ensures Live(ts, late, window) == []
    decreases |ts|
  {
    if ts != [] {
      ExpiredStaysDead(ts[..|ts| - 1], early, late, window);
    }
  }

  /** A sweep is invisible: at no later time does it change what counts for any key. */
  lemma SweepIsInvisible(requests: Requests, key: string, swept: real, now: real, window: real)
    requires swept <= now
    ensures Live(Entries(Swept(requests, swept, window), key), now, window) == Live(Entries(requests, key), now, window)
  {
    if key in requests && Expired(requests[key], swept, window) {
      ExpiredStaysDead(requests[key], swept, now, window);
    }
  }

  /** What counts for `key` at `now` after a call that came no later. */
  lemma AfterCounts(c: Config, l: Limits, call: Call, key: string, now: real)
    requires call.at <= now
    ensures var before := Live(Entries(l.requests, key), now, c.window);
      Live(Entries(After(c, l, call).requests, key), now, c.window) ==
      if call.key == key && Allows(c, l, call) && now - call.at < c.window then before + [call.at] else before
  {
    var d := Due(c, l, call.at);
    SweepIsInvisible(l.requests, key, call.at, now, c.window);
    if call.key == key {
      var entries := Live(Entries(d.requests, key), call.at, c.window);
      LiveTwice(Entries(d.requests, key), call.at, now, c.window);
      LiveAppend(entries, call.at, now, c.window);
    }
  }

  /** What the limiter keeps and the whole record of granted calls count the same, now and later. */
  lemma {:induction false} KeepsWhatCounts(c: Config, calls: seq<Call>, key: string, now: real)
    requires ClockForward(calls, now)
    ensures Live(Entries(Run(c, calls).requests, key), now, c.window) == Live(Granted(c, calls, key), now, c.window)
    decreases |calls|
  {
    if calls != [] {
      var before, call := calls[..|calls| - 1], calls[|calls| - 1];
      KeepsWhatCounts(c, before, key, now);
      AfterCounts(c, Run(c, before), call, key, now);
      if call.key == key && Allows(c, Run(c, before), call) {
        LiveAppend(Granted(c, before, key), call.at, now, c.window);
      } else {
        assert Granted(c, calls, key) == Granted(c, before, key);
      }
    }
  }

  /** A call is let through exactly when fewer than `max` granted calls of its key lie less than the window back. */
  lemma AllowsIffFewRecent(c: Config, calls: seq<Call>, call: Call)
    requires ClockForward(calls, call.at)
    ensures Allows(c, Run(c, calls), call) <==> |Live(Granted(c, calls, call.key), call.at, c.window)| < c.max
  {
    SweepIsInvisible(Run(c, calls).requests, call.key, call.at, call.at, c.window);
    KeepsWhatCounts(c, calls, call.key, call.at);
  }

  /** The granted calls in the half-open window that ends at `end`. */
  function Within(ts: seq<real>, end: real, window: real): seq<real> {
    if ts == [] then []
    else Within(ts[..|ts| - 1], end, window) + if end - window < ts[|ts| - 1] <= end then [ts[|ts| - 1]] else []
  }

  lemma {:induction false} WithinIsLive(ts: seq<real>, end: real, now: real, window: real)
    requires now <= end
    ensures |Within(ts, end, window)| <= |Live(ts, now, window)|
    decreases |ts|
  {
    if ts != [] {
      WithinIsLive(ts[..|ts| - 1], end, now, window);
    }
  }

  /** No window of the configured length, wherever it is put, holds more than `max` granted calls of a key. */
  lemma {:induction false} NoWindowOverflows(c: Config, calls: seq<Call>, key: string, now: real, end: real)
    requires ClockForward(calls, now)
    ensures |Within(Granted(c, calls, key), end, c.window)| <= if c.max > 0 then c.max else 0
    decreases |calls|
  {
    if calls != [] {
      var before, call := calls[..|calls| - 1], calls[|calls| - 1];
      NoWindowOverflows(c, before, key, now, end);
      if call.key == key && Allows(c, Run(c, before), call) {
        var ts := Granted(c, before, key);
        assert (ts + [call.at])[..|ts|] == ts;
        if call.at <= end {
          AllowsIffFewRecent(c, before, call);
          WithinIsLive(ts, end, call.at, c.window);
        }
      } else {
        assert Granted(c, calls, key) == Granted(c, before, key);
      }
    }
  }

  /** How often it sweeps, if at all, makes no difference to any answer of any run. */
  lemma {:induction false} SweepingChangesNoAnswer(c: Config, interval: real, calls: seq<Call>, call: Call, key: string)
    requires ClockForward(calls, call.at)
    ensures Granted(c, calls, key) == Granted(c.(interval := interval), calls, key)
    ensures Allows(c, Run(c, calls), call) <==> Allows(c.(interval := interval), Run(c.(interval := interval), calls), call)
    decreases |calls|
  {
    if calls != [] {
      SweepingChangesNoAnswer(c, interval, calls[..|calls| - 1], calls[|calls| - 1], key);
      SweepingChangesNoAnswer(c, interval, calls[..|calls| - 1], calls[|calls| - 1], call.key);
    }
    AllowsIffFewRecent(c, calls, call);
    AllowsIffFewRecent(c.(interval := interval), calls, call);
  }
}
