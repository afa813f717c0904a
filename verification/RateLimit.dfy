/** core/rate_limit.py: a sliding window of accepted requests for every caller
    and path. Instants are monotonic seconds. */
module RateLimit {
  import opened Wrappers

  // --- Limits -----------------------------------------------------------------

  datatype Limit = Limit(count: int, window: int)

  function ExactLimit(path: string): Option<Limit> {
    if path == "/api/v1/auth/login" then Some(Limit(5, 60))
    else if path == "/api/v1/auth/register" then Some(Limit(3, 60))
    else if path == "/api/v1/auth/refresh" then Some(Limit(20, 60))
    else None
  }

  datatype PrefixLimit = PrefixLimit(prefix: string, suffix: string, limit: Limit)

  const PREFIX_LIMITS := [
    PrefixLimit("/api/v1/oauth/", "/start", Limit(10, 60)),
    PrefixLimit("/api/v1/oauth/", "/callback", Limit(10, 60)),
    PrefixLimit("/api/v1/oauth/link/", "/confirm", Limit(5, 60))]

  predicate Fits(path: string, p: PrefixLimit) {
    p.prefix <= path && |p.suffix| <= |path| && path[|path| - |p.suffix|..] == p.suffix
  }

  function LimitFor(path: string): (limit: Option<Limit>)
    ensures limit.Some? ==> 0 < limit.value.count && 0 < limit.value.window && "/" <= path
  {
    if ExactLimit(path).Some? then ExactLimit(path)
    else if Fits(path, PREFIX_LIMITS[0]) then Some(PREFIX_LIMITS[0].limit)
    else if Fits(path, PREFIX_LIMITS[1]) then Some(PREFIX_LIMITS[1].limit)
    else if Fits(path, PREFIX_LIMITS[2]) then Some(PREFIX_LIMITS[2].limit)
    else None
  }

  ghost predicate Spans(path: string, prefix: string, suffix: string) {
    && |prefix| <= |path| && path[..|prefix|] == prefix
    && |suffix| <= |path| && path[|path| - |suffix|..] == suffix
  }

  /** Which paths are limited, and to how many requests a minute. */
  lemma LimitsByPath(path: string)
    ensures LimitFor(path)
            == if path == "/api/v1/auth/login" then Some(Limit(5, 60))
               else if path == "/api/v1/auth/register" then Some(Limit(3, 60))
               else if path == "/api/v1/auth/refresh" then Some(Limit(20, 60))
               else if Spans(path, "/api/v1/oauth/", "/start") || Spans(path, "/api/v1/oauth/", "/callback") then Some(Limit(10, 60))
               else if Spans(path, "/api/v1/oauth/link/", "/confirm") then Some(Limit(5, 60))
               else None
  {
    SpansIff(path, PREFIX_LIMITS[0]);
    SpansIff(path, PREFIX_LIMITS[1]);
    SpansIff(path, PREFIX_LIMITS[2]);
  }

  lemma SpansIff(path: string, p: PrefixLimit)
    ensures Fits(path, p) <==> Spans(path, p.prefix, p.suffix)
  {
  }

  function Key(ip: string, path: string): string {
    ip + ":" + path
  }

  lemma ShorterAddressDiffers(ip1: string, path1: string, ip2: string, path2: string)
    requires '/' !in ip2 && "/" <= path1 && |ip1| < |ip2|
    ensures Key(ip1, path1) != Key(ip2, path2)
  {
    assert Key(ip1, path1)[|ip1| + 1] == '/';
    assert Key(ip2, path2)[|ip1| + 1] != '/';
  }

  /** An address, also an IPv6 one, holds no slash, so a key names one caller
      and one path. */
  lemma KeysAreDistinct(ip1: string, path1: string, ip2: string, path2: string)
    requires '/' !in ip1 && '/' !in ip2 && "/" <= path1 && "/" <= path2
    ensures Key(ip1, path1) == Key(ip2, path2) ==> ip1 == ip2 && path1 == path2
  {
    var k1, k2 := Key(ip1, path1), Key(ip2, path2);
    if |ip1| < |ip2| {
      ShorterAddressDiffers(ip1, path1, ip2, path2);
    } else if |ip2| < |ip1| {
      ShorterAddressDiffers(ip2, path2, ip1, path1);
    } else {
      assert ip1 == k1[..|ip1|] && ip2 == k2[..|ip2|];
      assert path1 == k1[|ip1| + 1..] && path2 == k2[|ip2| + 1..];
    }
  }

  // --- One key ------------------------------------------------------------------

  datatype Verdict = Accepted | Refused(retryAfter: int)

  /** Forget requests that have left the window. */
  function Expire(events: seq<real>, now: real, window: int): seq<real> {
    if events != [] && now - events[0] >= window as real then Expire(events[1..], now, window) else events
  }

  function RetryAfter(oldest: real, now: real, window: int): int {
    var seconds := (window as real - (now - oldest)).Floor;
    if seconds < 1 then 1 else seconds
  }

  function Admit(events: seq<real>, now: real, limit: Limit): (seq<real>, Verdict)
    requires 0 < limit.count
  {
    var live := Expire(events, now, limit.window);
    if |live| >= limit.count then (live, Refused(RetryAfter(live[0], now, limit.window)))
    else (live + [now], Accepted)
  }

  // --- The middleware -------------------------------------------------------------

  datatype Request = Request(ip: string, path: string, now: real)

  function EventsOf(all: map<string, seq<real>>, key: string): seq<real> {
    if key in all then all[key] else []
  }

  function Dispatched(all: map<string, seq<real>>, r: Request): (map<string, seq<real>>, Verdict) {
    match LimitFor(r.path)
    case None => (all, Accepted)
    case Some(limit) =>
      var (events, verdict) := Admit(EventsOf(all, Key(r.ip, r.path)), r.now, limit);
      (all[Key(r.ip, r.path) := events], verdict)
  }

  class AuthRateLimit {
    var events: map<string, seq<real>>

    constructor ()
      ensures events == map[]
    {
      events := map[];
    }

    method Reset()
      modifies this
      ensures events == map[]
    {
      events := map[];
    }

    method FindLimit(path: string) returns (limit: Option<Limit>)
      ensures limit == LimitFor(path)
    {
      limit := ExactLimit(path);
      if limit.Some? {
        return;
      }
      for i := 0 to |PREFIX_LIMITS|
        invariant forall k :: 0 <= k < i ==> !Fits(path, PREFIX_LIMITS[k])
      {
        if Fits(path, PREFIX_LIMITS[i]) {
          return Some(PREFIX_LIMITS[i].limit);
        }
      }
      limit := None;
    }

    method Dispatch(r: Request) returns (verdict: Verdict)
      modifies this
      ensures (events, verdict) == Dispatched(old(events), r)
    {
      var limit := FindLimit(r.path);
      if limit.None? {
        return Accepted;
      }
      var count, window := limit.value.count, limit.value.window;
      var key := Key(r.ip, r.path);
      var deque := if key in events then events[key] else [];
      while deque != [] && r.now - deque[0] >= window as real
        invariant Expire(deque, r.now, window) == Expire(EventsOf(events, key), r.now, window)
        decreases |deque|
      {
        deque := deque[1..];
      }
      if |deque| >= count {
        verdict := Refused(RetryAfter(deque[0], r.now, window));
      } else {
        deque := deque + [r.now];
        verdict := Accepted;
      }
      events := events[key := deque];
    }
  }

  // --- Histories of one key ---------------------------------------------------------

  predicate Nondecreasing(times: seq<real>) {
    forall i, j :: 0 <= i <= j < |times| ==> times[i] <= times[j]
  }

  /** What one key's requests leave in the window, and all it ever accepted. */
  datatype Track = Track(events: seq<real>, accepted: seq<real>)

  function After(times: seq<real>, limit: Limit): Track
    requires 0 < limit.count
  {
    if times == [] then Track([], [])
    else
      var now, before := times[|times| - 1], After(times[..|times| - 1], limit);
      var (events, verdict) := Admit(before.events, now, limit);
      Track(events, if verdict == Accepted then before.accepted + [now] else before.accepted)
  }

  lemma {:induction false} ExpireDropsTheOld(events: seq<real>, now: real, window: int) returns (n: nat)
    requires Nondecreasing(events)
    ensures n <= |events| && Expire(events, now, window) == events[n..]
    ensures forall k :: 0 <= k < n ==> now - events[k] >= window as real
    ensures forall k :: n <= k < |events| ==> now - events[k] < window as real
  {
    if events != [] && now - events[0] >= window as real {
      n := ExpireDropsTheOld(events[1..], now, window);
      n := n + 1;
      assert forall k :: 1 <= k < |events| ==> events[k] == events[1..][k - 1];
    } else {
      n := 0;
    }
  }

  ghost predicate Apart(accepted: seq<real>, limit: Limit, i: nat, j: nat) {
    i < j < |accepted| && i + limit.count <= j ==> accepted[j] - accepted[i] >= limit.window as real
  }

  /** `count` acceptances later, a window has passed. */
  ghost predicate Spaced(accepted: seq<real>, limit: Limit) {
    forall i: nat, j: nat :: Apart(accepted, limit, i, j)
  }

  /** At `now`, the window is the accepted requests not yet `window` old. */
  ghost predicate TrackOk(t: Track, limit: Limit, now: real) {
    && Nondecreasing(t.accepted)
    && (forall k :: 0 <= k < |t.accepted| ==> t.accepted[k] <= now)
    && |t.events| <= |t.accepted| && |t.events| <= limit.count
    && t.events == t.accepted[|t.accepted| - |t.events|..]
    && (forall k :: 0 <= k < |t.accepted| - |t.events| ==> now - t.accepted[k] >= limit.window as real)
    && Spaced(t.accepted, limit)
  }

  ghost predicate AllLive(events: seq<real>, now: real, window: int) {
    forall k :: 0 <= k < |events| ==> now - events[k] < window as real
  }

  lemma ExpireLeavesTheLive(events: seq<real>, now: real, window: int)
    requires Nondecreasing(events)
    ensures AllLive(Expire(events, now, window), now, window)
  {
    var n := ExpireDropsTheOld(events, now, window);
  }

  lemma SuffixIsNondecreasing(times: seq<real>, n: nat)
    requires Nondecreasing(times) && n <= |times|
    ensures Nondecreasing(times[n..])
  {
  }

  /** Time passing expires more of the window and nothing else. */
  lemma ExpireKeeps(t: Track, limit: Limit, now: real, later: real)
    requires TrackOk(t, limit, now) && now <= later
    ensures TrackOk(Track(Expire(t.events, later, limit.window), t.accepted), limit, later)
  {
    SuffixIsNondecreasing(t.accepted, |t.accepted| - |t.events|);
    var n := ExpireDropsTheOld(t.events, later, limit.window);
    var gone := |t.accepted| - |t.events|;
    SuffixOfSuffix(t.accepted, gone, n);
    forall k | 0 <= k < gone + n
      ensures later - t.accepted[k] >= limit.window as real
    {
      if gone <= k {
        assert t.accepted[k] == t.events[k - gone];
      }
    }
  }

  lemma SuffixOfSuffix(s: seq<real>, gone: nat, n: nat)
    requires gone + n <= |s|
    ensures s[gone..][n..] == s[gone + n..]
  {
  }

  lemma AcceptKeeps(t: Track, limit: Limit, now: real)
    requires TrackOk(t, limit, now) && |t.events| < limit.count
    ensures TrackOk(Track(t.events + [now], t.accepted + [now]), limit, now)
  {
    assert t.events + [now] == (t.accepted + [now])[|t.accepted| - |t.events|..];
    forall i: nat, j: nat
      ensures Apart(t.accepted + [now], limit, i, j)
    {
      assert Apart(t.accepted, limit, i, j);
    }
  }

  lemma {:induction false} AfterIsOk(times: seq<real>, limit: Limit)
    requires times != [] && 0 < limit.count && Nondecreasing(times)
    ensures TrackOk(After(times, limit), limit, times[|times| - 1])
  {
    var n := |times| - 1;
    var before, now := After(times[..n], limit), times[n];
    if n > 0 {
      AfterIsOk(times[..n], limit);
      ExpireKeeps(before, limit, times[n - 1], now);
    }
    var live := Track(Expire(before.events, now, limit.window), before.accepted);
    if |live.events| < limit.count {
      AcceptKeeps(live, limit, now);
    }
  }

  function CountBy(accepted: seq<real>, counted: real -> bool): nat {
    if accepted == [] then 0
    else CountBy(accepted[..|accepted| - 1], counted) + if counted(accepted[|accepted| - 1]) then 1 else 0
  }

  function Within(from: real, window: int): real -> bool {
    (t: real) => from <= t < from + window as real
  }

  function Preceding(now: real, window: int): real -> bool {
    (t: real) => now - window as real < t <= now
  }

  lemma {:induction false} CountSplits(a: seq<real>, b: seq<real>, counted: real -> bool)
    ensures CountBy(a + b, counted) == CountBy(a, counted) + CountBy(b, counted)
  {
    if b == [] {
      assert a + b == a;
    } else {
      CountSplits(a, b[..|b| - 1], counted);
      assert (a + b)[..|a + b| - 1] == a + b[..|b| - 1];
    }
  }

  lemma {:induction false} CountNone(a: seq<real>, counted: real -> bool)
    requires forall k :: 0 <= k < |a| ==> !counted(a[k])
    ensures CountBy(a, counted) == 0
  {
    if a != [] {
      CountNone(a[..|a| - 1], counted);
    }
  }

  lemma {:induction false} CountAtMost(a: seq<real>, counted: real -> bool)
    ensures CountBy(a, counted) <= |a|
  {
    if a != [] {
      CountAtMost(a[..|a| - 1], counted);
    }
  }

  lemma {:induction false} CountAll(a: seq<real>, counted: real -> bool)
    requires forall k :: 0 <= k < |a| ==> counted(a[k])
    ensures CountBy(a, counted) == |a|
  {
    if a != [] {
      CountAll(a[..|a| - 1], counted);
    }
  }

  lemma {:induction false} SpacedCount(accepted: seq<real>, limit: Limit, from: real)
    requires 0 < limit.count && Nondecreasing(accepted) && Spaced(accepted, limit)
    ensures CountBy(accepted, Within(from, limit.window)) <= limit.count
  {
    var n, counted := |accepted|, Within(from, limit.window);
    if n <= limit.count {
      CountAtMost(accepted, counted);
    } else if !counted(accepted[n - 1]) {
      var front := accepted[..n - 1];
      forall i: nat, j: nat
        ensures Apart(front, limit, i, j)
      {
        assert Apart(accepted, limit, i, j);
      }
      SpacedCount(front, limit, from);
    } else {
      var early, late := accepted[..n - limit.count], accepted[n - limit.count..];
      assert accepted == early + late;
      CountSplits(early, late, counted);
      forall k | 0 <= k < |early|
        ensures !counted(early[k])
      {
        assert Apart(accepted, limit, k, n - 1);
      }
      CountNone(early, counted);
      CountAtMost(late, counted);
    }
  }

  /** For every history of a key no half-open interval of the window's length
      holds more than `count` accepted requests, wherever it begins. */
  lemma NeverMoreThanTheLimit(times: seq<real>, limit: Limit, from: real)
    requires 0 < limit.count && Nondecreasing(times)
    ensures CountBy(After(times, limit).accepted, Within(from, limit.window)) <= limit.count
  {
    if times != [] {
      AfterIsOk(times, limit);
      SpacedCount(After(times, limit).accepted, limit, from);
    }
  }

  /** The verdict on a request that follows a history. */
  function VerdictAfter(times: seq<real>, limit: Limit, now: real): Verdict
    requires 0 < limit.count
  {
    Admit(After(times, limit).events, now, limit).1
  }

  /** Once expired, the window is what was accepted in the preceding one. */
  lemma LiveIsPreceding(live: Track, limit: Limit, now: real)
    requires TrackOk(live, limit, now) && AllLive(live.events, now, limit.window)
    ensures |live.events| == CountBy(live.accepted, Preceding(now, limit.window))
  {
    var counted, gone := Preceding(now, limit.window), |live.accepted| - |live.events|;
    assert live.accepted == live.accepted[..gone] + live.events;
    CountSplits(live.accepted[..gone], live.events, counted);
    CountNone(live.accepted[..gone], counted);
    forall k | 0 <= k < |live.events|
      ensures counted(live.events[k])
    {
      assert live.events[k] == live.accepted[gone + k];
    }
    CountAll(live.events, counted);
  }

  /** A history's track with what is over at `now` expired. */
  function LiveAt(times: seq<real>, limit: Limit, now: real): Track
    requires 0 < limit.count
  {
    Track(Expire(After(times, limit).events, now, limit.window), After(times, limit).accepted)
  }

  lemma LiveIsOk(times: seq<real>, limit: Limit, now: real)
    requires 0 < limit.count && Nondecreasing(times + [now])
    ensures TrackOk(LiveAt(times, limit, now), limit, now)
    ensures AllLive(LiveAt(times, limit, now).events, now, limit.window)
  {
    if times != [] {
      var n := |times| - 1;
      assert forall k :: 0 <= k <= n ==> (times + [now])[k] == times[k];
      assert (times + [now])[n + 1] == now;
      AfterIsOk(times, limit);
      var t := After(times, limit);
      ExpireKeeps(t, limit, times[n], now);
      SuffixIsNondecreasing(t.accepted, |t.accepted| - |t.events|);
      ExpireLeavesTheLive(t.events, now, limit.window);
    }
  }

  /** A request is refused exactly when `count` were accepted in the window
      before it, and never for any other reason. */
  lemma RefusedIff(times: seq<real>, limit: Limit, now: real)
    requires 0 < limit.count && 0 < limit.window && Nondecreasing(times + [now])
    ensures VerdictAfter(times, limit, now).Refused?
            <==> CountBy(After(times, limit).accepted, Preceding(now, limit.window)) == limit.count
  {
    LiveIsOk(times, limit, now);
    LiveIsPreceding(LiveAt(times, limit, now), limit, now);
  }

  /** How long until the oldest request of a full window leaves it. */
  function Remaining(times: seq<real>, limit: Limit, now: real): real
    requires 0 < limit.count && VerdictAfter(times, limit, now).Refused?
  {
    limit.window as real - (now - LiveAt(times, limit, now).events[0])
  }

  /** A full window admits the next request as soon as its oldest has left. */
  lemma RoomIff(live: Track, limit: Limit, now: real, later: real)
    requires 0 < limit.count && TrackOk(live, limit, now) && now <= later && |live.events| == limit.count
    ensures Admit(live.events, later, limit).1.Accepted? <==> limit.window as real <= later - live.events[0]
  {
    var gone := |live.accepted| - |live.events|;
    assert forall k :: gone <= k < |live.accepted| ==> live.accepted[k] == live.events[k - gone];
    var n := ExpireDropsTheOld(live.events, later, limit.window);
  }

  /** Retry-After is rounded down. Waiting exactly that long is enough if and
      only if the time remaining was a whole number of seconds or under one. */
  lemma RetryAfterSufficesIff(times: seq<real>, limit: Limit, now: real, wait: int)
    requires 0 < limit.count && 0 < limit.window && Nondecreasing(times + [now])
    requires VerdictAfter(times, limit, now) == Refused(wait)
    ensures var remaining := Remaining(times, limit, now);
            && 0.0 < remaining
            && (if remaining < 1.0 then wait == 1 else wait as real <= remaining < wait as real + 1.0)
            && (VerdictAfter(times + [now], limit, now + wait as real).Accepted?
                <==> remaining <= 1.0 || remaining == remaining.Floor as real)
  {
    var live := LiveAt(times, limit, now);
    LiveIsOk(times, limit, now);
    assert (times + [now])[..|times|] == times;
    assert After(times + [now], limit).events == live.events;
    RoomIff(live, limit, now, now + wait as real);
  }

  // --- Histories of the middleware -----------------------------------------------------

  function Served(requests: seq<Request>): map<string, seq<real>> {
    if requests == [] then map[] else Dispatched(Served(requests[..|requests| - 1]), requests[|requests| - 1]).0
  }

  /** When `ip` asked for `path`. */
  function TimesOf(requests: seq<Request>, ip: string, path: string): seq<real> {
    if requests == [] then []
    else
      var last, earlier := requests[|requests| - 1], TimesOf(requests[..|requests| - 1], ip, path);
      if last.ip == ip && last.path == path then earlier + [last.now] else earlier
  }

  /** Callers and paths do not disturb one another: each pair's window is that
      of its own requests alone. */
  lemma {:induction false} EachCallerHasItsOwnWindow(requests: seq<Request>, ip: string, path: string)
    requires LimitFor(path).Some? && '/' !in ip
    requires forall k :: 0 <= k < |requests| ==> '/' !in requests[k].ip
    ensures EventsOf(Served(requests), Key(ip, path)) == After(TimesOf(requests, ip, path), LimitFor(path).value).events
  {
    if requests != [] {
      var n := |requests| - 1;
      var last, times := requests[n], TimesOf(requests[..n], ip, path);
      EachCallerHasItsOwnWindow(requests[..n], ip, path);
      if last.ip == ip && last.path == path {
        assert (times + [last.now])[..|times|] == times;
      } else if LimitFor(last.path).Some? {
        KeysAreDistinct(last.ip, last.path, ip, path);
      }
    }
  }
}
