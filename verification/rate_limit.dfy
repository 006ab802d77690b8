/** The coach rate limiter of apps/web/src/lib/coach/rate-limit.ts: a fixed
    window counter per identifier, kept either in process memory or in a
    remote store driven by INCR, EXPIRE and TTL. The clock and the remote
    store's replies are inputs; the window and the limit are parameters. */
module RateLimit {
  import opened Wrappers

  /** `WINDOW_SECONDS` and `REQUEST_LIMIT`. */
  datatype Config = Config(windowSeconds: int, limit: int)

  predicate ValidConfig(cfg: Config) {
    cfg.windowSeconds > 0
  }

  /** `RateLimitResult`. */
  datatype Decision = Decision(allowed: bool, remaining: int, limit: int, retryAfterSeconds: int)

  /** A local window: how many calls it has seen and when it ends (ms). */
  datatype Counter = Counter(count: int, resetAt: int)

  type Counters = map<string, Counter>

  function Max0(x: int): (r: int)
    ensures r >= 0 && r >= x && (r == 0 || r == x)
  {
    if x > 0 then x else 0
  }

  /** `Math.ceil(ms / 1000)` for a positive number of milliseconds. */
  function CeilSeconds(ms: int): (s: int)
    requires ms > 0
    ensures s >= 1
    ensures (s - 1) * 1000 < ms <= s * 1000
  {
    (ms + 999) / 1000
  }

  /** The window for `id` is open at `now`: it exists and has not reached its reset time. */
  predicate Live(counters: Counters, id: string, now: nat) {
    id in counters && counters[id].resetAt > now
  }

  /** The local path of `enforceCoachRateLimit`: the decision and the counters after the call. */
  function EnforceLocal(cfg: Config, counters: Counters, id: string, now: nat): (r: (Decision, Counters))
    requires ValidConfig(cfg)
    ensures r.0.limit == cfg.limit
    ensures r.1.Keys == counters.Keys + {id}
    ensures forall k :: k in counters && k != id ==> r.1[k] == counters[k]
    ensures !Live(counters, id, now) ==>
      && r.1[id] == Counter(1, now + cfg.windowSeconds * 1000)
      && r.0 == Decision(true, Max0(cfg.limit - 1), cfg.limit, 0)
    ensures Live(counters, id, now) ==>
      && r.1[id] == Counter(counters[id].count + 1, counters[id].resetAt)
      && (r.0.allowed <==> r.1[id].count <= cfg.limit)
    ensures !r.0.allowed ==>
      && r.0.remaining == 0
      && r.0.retryAfterSeconds >= 1
      && r.0.retryAfterSeconds == CeilSeconds(r.1[id].resetAt - now)
    ensures r.0.allowed ==> r.0.remaining == Max0(cfg.limit - r.1[id].count) && r.0.retryAfterSeconds == 0
  {
    if !Live(counters, id, now) then
      (Decision(true, Max0(cfg.limit - 1), cfg.limit, 0), counters[id := Counter(1, now + cfg.windowSeconds * 1000)])
    else
      var c := Counter(counters[id].count + 1, counters[id].resetAt);
      if c.count > cfg.limit then
        (Decision(false, 0, cfg.limit, CeilSeconds(c.resetAt - now)), counters[id := c])
      else
        (Decision(true, Max0(cfg.limit - c.count), cfg.limit, 0), counters[id := c])
  }

  /** Calls by one identifier at the instants `times`, one after another:
      the decisions, in order, and the counters at the end. */
  function EnforceAll(cfg: Config, counters: Counters, id: string, times: seq<nat>): (r: (seq<Decision>, Counters))
    requires ValidConfig(cfg)
    decreases |times|
    ensures |r.0| == |times|
    ensures times != [] ==> id in r.1
    ensures forall k :: k in counters ==> k in r.1
  {
    if times == [] then ([], counters)
    else
      var first := EnforceLocal(cfg, counters, id, times[0]);
      var rest := EnforceAll(cfg, first.1, id, times[1..]);
      ([first.0] + rest.0, rest.1)
  }

  /** Inside a live window that has seen `seen` calls, the call that makes
      the count n passes exactly when n does not exceed the limit; a passing
      call reports `max(0, limit - n)` remaining and a refused one zero. Every
      call, refused or not, advances the stored count. */
  lemma {:induction false} WindowSequence(cfg: Config, counters: Counters, id: string, start: nat, times: seq<nat>, seen: nat)
    requires ValidConfig(cfg)
    requires seen >= 1
    requires id in counters && counters[id] == Counter(seen, start + cfg.windowSeconds * 1000)
    requires forall i :: 0 <= i < |times| ==> times[i] < start + cfg.windowSeconds * 1000
    ensures var r := EnforceAll(cfg, counters, id, times);
      && r.1[id] == Counter(seen + |times|, start + cfg.windowSeconds * 1000)
      && forall i :: 0 <= i < |times| ==>
           && (r.0[i].allowed <==> seen + i + 1 <= cfg.limit)
           && (r.0[i].allowed ==> r.0[i].remaining == Max0(cfg.limit - (seen + i + 1)))
           && (!r.0[i].allowed ==> r.0[i].remaining == 0)
    decreases |times|
  {
    var r := EnforceAll(cfg, counters, id, times);
    if times != [] {
      var first := EnforceLocal(cfg, counters, id, times[0]);
      assert Live(counters, id, times[0]);
      WindowSequence(cfg, first.1, id, start, times[1..], seen + 1);
      var rest := EnforceAll(cfg, first.1, id, times[1..]);
      assert r.0 == [first.0] + rest.0;
      forall i | 0 <= i < |times|
        ensures (r.0[i].allowed <==> seen + i + 1 <= cfg.limit)
        ensures (r.0[i].allowed ==> r.0[i].remaining == Max0(cfg.limit - (seen + i + 1)))
        ensures (!r.0[i].allowed ==> r.0[i].remaining == 0)
      {
        if i > 0 {
          assert r.0[i] == rest.0[i - 1];
          assert times[1..][i - 1] == times[i];
        }
      }
    }
  }

  /** The calls of a fresh identifier within one window: the first always
      passes whatever the limit, and the n-th passes exactly when n <= limit. */
  lemma FreshWindow(cfg: Config, counters: Counters, id: string, times: seq<nat>)
    requires ValidConfig(cfg)
    requires times != [] && id !in counters
    requires forall i :: 0 <= i < |times| ==> times[i] < times[0] + cfg.windowSeconds * 1000
    ensures var r := EnforceAll(cfg, counters, id, times);
      && r.0[0].allowed
      && forall i :: 1 <= i < |times| ==> (r.0[i].allowed <==> i + 1 <= cfg.limit)
  {
    var first := EnforceLocal(cfg, counters, id, times[0]);
    var tail := times[1..];
    forall i | 0 <= i < |tail|
      ensures tail[i] < times[0] + cfg.windowSeconds * 1000
    {
      assert tail[i] == times[i + 1];
    }
    WindowSequence(cfg, first.1, id, times[0], tail, 1);
    var r := EnforceAll(cfg, counters, id, times);
    var rest := EnforceAll(cfg, first.1, id, tail);
    assert r.0 == [first.0] + rest.0;
    forall i | 1 <= i < |times|
      ensures r.0[i].allowed <==> i + 1 <= cfg.limit
    {
      assert r.0[i] == rest.0[i - 1];
    }
  }

  /** Calls by one identifier leave every other identifier's counter as it was. */
  lemma {:induction false} OthersUntouched(cfg: Config, counters: Counters, id: string, times: seq<nat>, other: string)
    requires ValidConfig(cfg)
    requires other != id
    ensures var after := EnforceAll(cfg, counters, id, times).1;
      (other in after <==> other in counters) && (other in counters ==> after[other] == counters[other])
    decreases |times|
  {
    if times != [] {
      var first := EnforceLocal(cfg, counters, id, times[0]);
      OthersUntouched(cfg, first.1, id, times[1..], other);
    }
  }

  /** The commands sent to the remote store. */
  datatype Command = Incr(key: string) | Expire(key: string, seconds: int) | Ttl(key: string)

  const RemotePrefix: string := "coach:rl:"

  /** The remote path of `enforceCoachRateLimit`: `current` is the reply to
      INCR and `ttl` the reply TTL would give. Returns the decision and the
      commands issued, in order. */
  function EnforceRemote(cfg: Config, id: string, current: int, ttl: int): (r: (Decision, seq<Command>))
    requires ValidConfig(cfg)
    ensures |r.1| >= 1 && r.1[0] == Incr(RemotePrefix + id)
    ensures Expire(RemotePrefix + id, cfg.windowSeconds) in r.1 <==> current == 1
    ensures Ttl(RemotePrefix + id) in r.1 <==> current > cfg.limit
    ensures r.0.limit == cfg.limit
    ensures r.0.allowed <==> current <= cfg.limit
    ensures !r.0.allowed ==> r.0.remaining == 0 && r.0.retryAfterSeconds >= 1
    ensures !r.0.allowed && ttl > 0 ==> r.0.retryAfterSeconds == ttl
    ensures !r.0.allowed && ttl <= 0 ==> r.0.retryAfterSeconds == cfg.windowSeconds
    ensures r.0.allowed ==> r.0.remaining == Max0(cfg.limit - current) && r.0.retryAfterSeconds == 0
  {
    var key := RemotePrefix + id;
    var setup := [Incr(key)] + (if current == 1 then [Expire(key, cfg.windowSeconds)] else []);
    if current > cfg.limit then
      (Decision(false, 0, cfg.limit, if ttl > 0 then ttl else cfg.windowSeconds), setup + [Ttl(key)])
    else
      (Decision(true, Max0(cfg.limit - current), cfg.limit, 0), setup)
  }

  /** Inside a live window, the remote and the local path agree on whether a
      call passes and on what remains when the store's count matches the
      local one. */
  lemma RemoteAgreesWithLocal(cfg: Config, counters: Counters, id: string, now: nat, ttl: int)
    requires ValidConfig(cfg)
    requires Live(counters, id, now)
    ensures var local := EnforceLocal(cfg, counters, id, now).0;
            var remote := EnforceRemote(cfg, id, counters[id].count + 1, ttl).0;
            local.allowed == remote.allowed && local.remaining == remote.remaining && local.limit == remote.limit
  {
  }
}
