/** The in-memory fixed-window rate limiter of lib/rate-limit.ts. The clock is a parameter
    (`now`, in milliseconds) instead of a call to `Date.now()`. */
module RateLimit {
  import opened Wrappers
  import opened Strings

  /** Requests seen in the current window of one identity, and the instant the window ends. */
  datatype Entry = Entry(count: int, resetTime: int)

  datatype Config = Config(limit: int, windowMs: int)

  datatype RateLimitResult = RateLimitResult(success: bool, limit: int, remaining: int, resetTime: int)

  /** `RATE_LIMIT_CONFIGS.summarize`: 10 requests a minute. */
  const SummarizeConfig := Config(10, 60000)
  /** `RATE_LIMIT_CONFIGS.health`: 60 requests a minute. */
  const HealthConfig := Config(60, 60000)

  /** An entry is expired only once `now` is strictly past its reset time. */
  predicate Expired(e: Entry, now: int) {
    now > e.resetTime
  }

  /** What one `checkRateLimit` call returns and the store it leaves behind. */
  datatype Step = Step(result: RateLimitResult, store: map<string, Entry>)

  /** `checkRateLimit(id, config)` at time `now` against `store`: the specification of
      `RateLimiter.Check`. */
  function CheckRateLimit(store: map<string, Entry>, id: string, config: Config, now: int): (s: Step)
    // absent or expired: a new window holding this one request
    ensures id !in store || Expired(store[id], now) ==>
      && s.result == RateLimitResult(true, config.limit, config.limit - 1, now + config.windowMs)
      && s.store == store[id := Entry(1, now + config.windowMs)]
    // live and full: refused, nothing stored changes
    ensures id in store && !Expired(store[id], now) && store[id].count >= config.limit ==>
      && s.result == RateLimitResult(false, config.limit, 0, store[id].resetTime)
      && s.store == store
    // live with room: one more request counted in the same window
    ensures id in store && !Expired(store[id], now) && store[id].count < config.limit ==>
      && s.store == store[id := Entry(store[id].count + 1, store[id].resetTime)]
      && s.result == RateLimitResult(true, config.limit, config.limit - s.store[id].count, store[id].resetTime)
    // only the entry of `id` is ever written
    ensures id in s.store
    ensures forall k :: k != id ==> (k in s.store <==> k in store)
    ensures forall k :: k != id && k in store ==> s.store[k] == store[k]
  {
    if id !in store || now > store[id].resetTime then
      var started := Entry(1, now + config.windowMs);
      Step(RateLimitResult(true, config.limit, config.limit - 1, started.resetTime), store[id := started])
    else if store[id].count >= config.limit then
      Step(RateLimitResult(false, config.limit, 0, store[id].resetTime), store)
    else
      var bumped := store[id].(count := store[id].count + 1);
      Step(RateLimitResult(true, config.limit, config.limit - bumped.count, bumped.resetTime), store[id := bumped])
  }

  /** Every stored window has counted at least one and at most `limit` requests. */
  ghost predicate WithinLimit(store: map<string, Entry>, limit: int) {
    forall k :: k in store ==> 1 <= store[k].count <= limit
  }

  /** With a fixed config whose limit is at least one, the count bound is an invariant of the
      store, and every answer leaves between 0 and `limit - 1` requests. */
  lemma CheckKeepsWithinLimit(store: map<string, Entry>, id: string, config: Config, now: int)
    requires config.limit >= 1
    requires WithinLimit(store, config.limit)
    ensures WithinLimit(CheckRateLimit(store, id, config, now).store, config.limit)
    ensures 0 <= CheckRateLimit(store, id, config, now).result.remaining <= config.limit - 1
    ensures CheckRateLimit(store, id, config, now).result.limit == config.limit
  {
  }

  /** The answers to consecutive calls for one identity at the instants `times`. */
  function Replay(store: map<string, Entry>, id: string, config: Config, times: seq<int>): (rs: seq<RateLimitResult>)
    ensures |rs| == |times|
    decreases |times|
  {
    if times == [] then []
    else
      var s := CheckRateLimit(store, id, config, times[0]);
      [s.result] + Replay(s.store, id, config, times[1..])
  }

  /** The answer to a call in a live window ending at `reset` that has already counted `seen` requests. */
  ghost predicate LiveAnswer(r: RateLimitResult, config: Config, reset: int, seen: int) {
    && r.resetTime == reset
    && r.success == (seen < config.limit)
    && r.remaining == (if seen < config.limit then config.limit - seen - 1 else 0)
  }

  /** Calls inside a live window that already counted `n` requests: the i-th further call succeeds
      exactly while `n + i < limit`, and every answer carries the window's reset time. */
  lemma {:induction false} ReplayLiveWindow(store: map<string, Entry>, id: string, config: Config, times: seq<int>, n: int)
    requires id in store && store[id].count == n && 1 <= n <= config.limit
    requires forall i :: 0 <= i < |times| ==> times[i] <= store[id].resetTime
    ensures forall i :: 0 <= i < |times| ==> LiveAnswer(Replay(store, id, config, times)[i], config, store[id].resetTime, n + i)
    decreases |times|
  {
    if times != [] {
      var s := CheckRateLimit(store, id, config, times[0]);
      var rest := Replay(s.store, id, config, times[1..]);
      assert Replay(store, id, config, times) == [s.result] + rest;
      var n' := if n < config.limit then n + 1 else n;
      assert s.store[id] == Entry(n', store[id].resetTime);
      ReplayLiveWindow(s.store, id, config, times[1..], n');
      var rs := Replay(store, id, config, times);
      forall i | 0 <= i < |times|
        ensures LiveAnswer(rs[i], config, store[id].resetTime, n + i)
      {
        if i > 0 {
          assert rs[i] == rest[i - 1];
          assert LiveAnswer(rest[i - 1], config, store[id].resetTime, n' + (i - 1));
        }
      }
    }
  }

  /** A fresh window: starting with no live entry for `id`, and calling only while the window that
      the first call opens is still live, the first `limit` calls succeed with `remaining` equal to
      `limit - 1`, ..., `0`, and every later call fails, all with the same reset time. */
  lemma WindowExhaustion(store: map<string, Entry>, id: string, config: Config, times: seq<int>)
    requires config.limit >= 1
    requires |times| > 0
    requires id !in store || Expired(store[id], times[0])
    requires forall i :: 0 <= i < |times| ==> times[i] <= times[0] + config.windowMs
    ensures forall i :: 0 <= i < |times| ==>
      LiveAnswer(Replay(store, id, config, times)[i], config, times[0] + config.windowMs, i)
  {
    var s := CheckRateLimit(store, id, config, times[0]);
    var rest := Replay(s.store, id, config, times[1..]);
    var rs := Replay(store, id, config, times);
    assert rs == [s.result] + rest;
    ReplayLiveWindow(s.store, id, config, times[1..], 1);
    forall i | 0 <= i < |times|
      ensures LiveAnswer(rs[i], config, times[0] + config.windowMs, i)
    {
      if i > 0 {
        assert rs[i] == rest[i - 1];
        assert LiveAnswer(rest[i - 1], config, times[0] + config.windowMs, 1 + (i - 1));
      }
    }
  }

  /** With the summarize settings, the calls inside one minute from a fresh start: the first ten
      succeed and every later one is refused, all with the reset one minute after the first. */
  lemma SummarizeWindow(store: map<string, Entry>, id: string, times: seq<int>)
    requires |times| > 0
    requires id !in store || Expired(store[id], times[0])
    requires forall i :: 0 <= i < |times| ==> times[i] <= times[0] + 60000
    ensures forall i :: 0 <= i < |times| ==>
      && Replay(store, id, SummarizeConfig, times)[i].success == (i < 10)
      && Replay(store, id, SummarizeConfig, times)[i].resetTime == times[0] + 60000
  {
    WindowExhaustion(store, id, SummarizeConfig, times);
  }

  /** The store as the periodic sweep at time `now` leaves it: the entries that are not expired. */
  function Live(store: map<string, Entry>, now: int): (r: map<string, Entry>)
    ensures forall k :: k in r <==> k in store && !Expired(store[k], now)
    ensures forall k :: k in r ==> r[k] == store[k]
  {
    map k | k in store && !Expired(store[k], now) :: store[k]
  }

  /** The sweep cannot be observed: after a sweep at `sweptAt`, any check at a later `now` answers
      as it would have without the sweep, and the entries live at `now` are the same either way. */
  lemma SweepIsUnobservable(store: map<string, Entry>, id: string, config: Config, sweptAt: int, now: int)
    requires sweptAt <= now
    ensures CheckRateLimit(Live(store, sweptAt), id, config, now).result == CheckRateLimit(store, id, config, now).result
    ensures Live(CheckRateLimit(Live(store, sweptAt), id, config, now).store, now)
         == Live(CheckRateLimit(store, id, config, now).store, now)
  {
    var a := CheckRateLimit(Live(store, sweptAt), id, config, now).store;
    var b := CheckRateLimit(store, id, config, now).store;
    assert Live(a, now).Keys == Live(b, now).Keys;
  }

  /** The sweep keeps the count bound. */
  lemma SweepKeepsWithinLimit(store: map<string, Entry>, limit: int, now: int)
    requires WithinLimit(store, limit)
    ensures WithinLimit(Live(store, now), limit)
  {
  }

  /** The module-level `rateLimitStore` map and the two operations that change it. */
  class RateLimiter {
    var store: map<string, Entry>

    constructor ()
      ensures store == map[]
    {
      store := map[];
    }

    /** `checkRateLimit`: read the entry, then refuse, restart or count. */
    method Check(id: string, config: Config, now: int) returns (r: RateLimitResult)
      modifies this
      ensures r == CheckRateLimit(old(store), id, config, now).result
      ensures store == CheckRateLimit(old(store), id, config, now).store
    {
      if id !in store || now > store[id].resetTime {
        var started := Entry(1, now + config.windowMs);
        store := store[id := started];
        return RateLimitResult(true, config.limit, config.limit - 1, started.resetTime);
      }
      var entry := store[id];
      if entry.count >= config.limit {
        return RateLimitResult(false, config.limit, 0, entry.resetTime);
      }
      entry := entry.(count := entry.count + 1);
      store := store[id := entry];
      return RateLimitResult(true, config.limit, config.limit - entry.count, entry.resetTime);
    }

    /** The body of the 60-second `setInterval` timer: delete every expired entry while
        iterating over the store. */
    method Sweep(now: int)
      modifies this
      ensures store == Live(old(store), now)
    {
      ghost var start := store;
      var pending := store.Keys;
      while pending != {}
        invariant pending <= start.Keys
        invariant forall k :: k in store <==> k in start && (k in pending || !Expired(start[k], now))
        invariant forall k :: k in store ==> store[k] == start[k]
        decreases pending
      {
        var k :| k in pending;
        if now > store[k].resetTime {
          store := store - {k};
        }
        pending := pending - {k};
      }
      assert store.Keys == Live(start, now).Keys;
    }
  }

  /** `forwardedFor.split(',')[0]`: the text before the first comma. */
  function FirstSegment(s: string): (r: string)
    ensures |r| <= |s| && r == s[..|r|]
    ensures forall i :: 0 <= i < |r| ==> r[i] != ','
    ensures |r| < |s| ==> s[|r|] == ','
  {
    if s == [] || s[0] == ',' then "" else [s[0]] + FirstSegment(s[1..])
  }

  /** `getClientIp` over the values of the `x-forwarded-for` and `x-real-ip` headers
      (`None` when a header is absent). */
  function ClientIp(forwardedFor: Option<string>, realIp: Option<string>): (ip: string)
    ensures forwardedFor.Some? && forwardedFor.value != "" ==>
      ip == Trim(FirstSegment(forwardedFor.value))
    ensures !(forwardedFor.Some? && forwardedFor.value != "") && realIp.Some? && realIp.value != "" ==>
      ip == Trim(realIp.value)
    ensures !(forwardedFor.Some? && forwardedFor.value != "") && !(realIp.Some? && realIp.value != "") ==>
      ip == "unknown"
  {
    if forwardedFor.Some? && forwardedFor.value != "" then Trim(FirstSegment(forwardedFor.value))
    else if realIp.Some? && realIp.value != "" then Trim(realIp.value)
    else "unknown"
  }

  /** An identity taken from `x-forwarded-for` is a trimmed piece of its first comma-separated
      segment: it contains no comma, it starts at offset `i` of the header, and everything before
      it is whitespace. */
  lemma ForwardedIdentityShape(f: string, realIp: Option<string>) returns (ip: string, i: nat)
    requires f != ""
    ensures ip == ClientIp(Some(f), realIp)
    ensures i + |ip| <= |f| && ip == f[i..i + |ip|]
    ensures IsBlank(f[..i])
    ensures IsTrimmed(ip)
    ensures forall j :: 0 <= j < |ip| ==> ip[j] != ','
  {
    var seg := FirstSegment(f);
    ip := Trim(seg);
    i := LeadingSpace(seg);
    InnerSlice(f, seg, i, ip);
  }

  /** A slice of a comma-free prefix of `f` is a comma-free slice of `f`. */
  lemma InnerSlice(f: string, seg: string, i: nat, ip: string)
    requires |seg| <= |f| && seg == f[..|seg|]
    requires i + |ip| <= |seg| && ip == seg[i..i + |ip|]
    requires forall j :: 0 <= j < |seg| ==> seg[j] != ','
    ensures ip == f[i..i + |ip|] && seg[..i] == f[..i]
    ensures forall j :: 0 <= j < |ip| ==> ip[j] != ','
  {
    assert seg[i..i + |ip|] == f[i..i + |ip|];
    forall j | 0 <= j < |ip| ensures ip[j] != ',' {
      assert ip[j] == seg[i + j];
    }
  }
}
