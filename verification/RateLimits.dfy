/** The per-IP rate limiter: what it lets through, and why cleaning it up cannot be seen.
    Times and durations are whole nanoseconds. */
module RateLimits {
  import opened Sequences

  datatype Visitor = Visitor(count: int, windowStart: int, blockedUntil: Option<int>)

  datatype Limits = Limits(maxRequests: int, window: int)

  datatype Call = Allow(ip: string, now: int) | Cleanup(now: int)

  /** The answer to one Allow call, and the start of the counting window it fell into. */
  datatype Response = Response(ip: string, at: int, allowed: bool, window: int)

  // ----- one call -----

  predicate BlockedAt(v: Visitor, now: int) {
    v.blockedUntil.Some? && now < v.blockedUntil.value
  }

  predicate ExpiredAt(v: Visitor, now: int, window: int) {
    now - v.windowStart > window
  }

  function Current(v: Option<Visitor>, now: int): Visitor {
    if v.Some? then v.value else Visitor(0, now, None)
  }

  /** The visitor after a call, and whether the call may go on. */
  function Visit(v: Visitor, now: int, limits: Limits): (Visitor, bool) {
    if BlockedAt(v, now) then (v, false)
    else
      var expired := ExpiredAt(v, now, limits.window);
      var count, start := if expired then 0 else v.count, if expired then now else v.windowStart;
      if count + 1 > limits.maxRequests
      then (Visitor(count + 1, start, Some(now + limits.window)), false)
      else (Visitor(count + 1, start, v.blockedUntil), true)
  }

  function Entry(visitors: map<string, Visitor>, ip: string): Option<Visitor> {
    if ip in visitors then Some(visitors[ip]) else None
  }

  function Visited(visitors: map<string, Visitor>, ip: string, now: int, limits: Limits)
      : (map<string, Visitor>, Response) {
    var (v, allowed) := Visit(Current(Entry(visitors, ip), now), now, limits);
    (visitors[ip := v], Response(ip, now, allowed, v.windowStart))
  }

  predicate Removable(v: Visitor, now: int, window: int) {
    ExpiredAt(v, now, window) && (v.blockedUntil.None? || now > v.blockedUntil.value)
  }

  function Cleaned(visitors: map<string, Visitor>, now: int, window: int): map<string, Visitor> {
    map ip | ip in visitors && !Removable(visitors[ip], now, window) :: visitors[ip]
  }

  // ----- histories -----

  /** What the Allow calls of a history answer. */
  function Responses(visitors: map<string, Visitor>, calls: seq<Call>, limits: Limits): seq<Response>
    decreases |calls|
  {
    if calls == [] then []
    else match calls[0]
      case Cleanup(now) => Responses(Cleaned(visitors, now, limits.window), calls[1..], limits)
      case Allow(ip, now) =>
        var (after, response) := Visited(visitors, ip, now, limits);
        [response] + Responses(after, calls[1..], limits)
  }

  function WithoutCleanups(calls: seq<Call>): seq<Call> {
    if calls == [] then []
    else if calls[0].Cleanup? then WithoutCleanups(calls[1..])
    else [calls[0]] + WithoutCleanups(calls[1..])
  }

  /** The clock never goes back. */
  predicate Clocked(calls: seq<Call>, since: int) {
    calls != [] ==> since <= calls[0].now && Clocked(calls[1..], calls[0].now)
  }

  /** How many of the calls of `ip` with lo <= at <= hi were let through. */
  function LetThrough(log: seq<Response>, ip: string, lo: int, hi: int): nat {
    if log == [] then 0
    else
      var last := log[|log| - 1];
      LetThrough(log[..|log| - 1], ip, lo, hi) + if last.ip == ip && last.allowed && lo <= last.at <= hi then 1 else 0
  }

  function LetThroughInWindow(log: seq<Response>, ip: string, window: int): nat {
    if log == [] then 0
    else
      var last := log[|log| - 1];
      LetThroughInWindow(log[..|log| - 1], ip, window)
        + if last.ip == ip && last.allowed && last.window == window then 1 else 0
  }

  // ----- cleaning up cannot be seen -----

  predicate PastBlock(blockedUntil: Option<int>, now: int) {
    blockedUntil.None? || blockedUntil.value <= now
  }

  /** A cleaned entry and an uncleaned one that no call from `now` on can tell apart. */
  predicate AlikeEntry(cleaned: Option<Visitor>, kept: Option<Visitor>, now: int, window: int) {
    if cleaned.None? then kept.None? || (ExpiredAt(kept.value, now, window) && PastBlock(kept.value.blockedUntil, now))
    else
      && kept.Some? && cleaned.value.count == kept.value.count && cleaned.value.windowStart == kept.value.windowStart
      && (cleaned.value.blockedUntil == kept.value.blockedUntil
          || (PastBlock(cleaned.value.blockedUntil, now) && PastBlock(kept.value.blockedUntil, now)))
  }

  ghost predicate Alike(cleaned: map<string, Visitor>, kept: map<string, Visitor>, now: int, window: int) {
    forall ip :: AlikeEntry(Entry(cleaned, ip), Entry(kept, ip), now, window)
  }

  lemma AlikeLater(cleaned: map<string, Visitor>, kept: map<string, Visitor>, since: int, now: int, window: int)
    requires Alike(cleaned, kept, since, window) && since <= now
    ensures Alike(cleaned, kept, now, window)
  {
    forall ip
      ensures AlikeEntry(Entry(cleaned, ip), Entry(kept, ip), now, window)
    {
      assert AlikeEntry(Entry(cleaned, ip), Entry(kept, ip), since, window);
    }
  }

  lemma AlikeCleaned(cleaned: map<string, Visitor>, kept: map<string, Visitor>, now: int, window: int)
    requires Alike(cleaned, kept, now, window)
    ensures Alike(Cleaned(cleaned, now, window), kept, now, window)
  {
    forall ip
      ensures AlikeEntry(Entry(Cleaned(cleaned, now, window), ip), Entry(kept, ip), now, window)
    {
      assert AlikeEntry(Entry(cleaned, ip), Entry(kept, ip), now, window);
    }
  }

  lemma AlikeVisited(cleaned: map<string, Visitor>, kept: map<string, Visitor>, ip: string, now: int, limits: Limits)
    requires Alike(cleaned, kept, now, limits.window)
    ensures Visited(cleaned, ip, now, limits).1 == Visited(kept, ip, now, limits).1
    ensures Alike(Visited(cleaned, ip, now, limits).0, Visited(kept, ip, now, limits).0, now, limits.window)
  {
    assert AlikeEntry(Entry(cleaned, ip), Entry(kept, ip), now, limits.window);
    var a, b := Visited(cleaned, ip, now, limits).0, Visited(kept, ip, now, limits).0;
    forall other
      ensures AlikeEntry(Entry(a, other), Entry(b, other), now, limits.window)
    {
      assert AlikeEntry(Entry(cleaned, other), Entry(kept, other), now, limits.window);
    }
  }

  lemma {:induction false} AlikeRespond(cleaned: map<string, Visitor>, kept: map<string, Visitor>, calls: seq<Call>,
                                        since: int, limits: Limits)
    requires Alike(cleaned, kept, since, limits.window) && Clocked(calls, since)
    ensures Responses(cleaned, calls, limits) == Responses(kept, WithoutCleanups(calls), limits)
    decreases |calls|
  {
    if calls == [] {
    } else {
      var now := calls[0].now;
      AlikeLater(cleaned, kept, since, now, limits.window);
      match calls[0]
      case Cleanup(_) =>
        AlikeCleaned(cleaned, kept, now, limits.window);
        AlikeRespond(Cleaned(cleaned, now, limits.window), kept, calls[1..], now, limits);
      case Allow(ip, _) =>
        AlikeVisited(cleaned, kept, ip, now, limits);
        AlikeRespond(Visited(cleaned, ip, now, limits).0, Visited(kept, ip, now, limits).0, calls[1..], now, limits);
        var rest := WithoutCleanups(calls[1..]);
        assert ([calls[0]] + rest)[1..] == rest;
    }
  }

  /** Cleanups put anywhere into a history leave every answer, and the window it fell into, unchanged. */
  lemma CleanupUnobservable(calls: seq<Call>, others: seq<Call>, since: int, limits: Limits)
    requires Clocked(calls, since) && Clocked(others, since)
    requires WithoutCleanups(calls) == WithoutCleanups(others)
    ensures Responses(map[], calls, limits) == Responses(map[], others, limits)
  {
    AlikeRespond(map[], map[], calls, since, limits);
    AlikeRespond(map[], map[], others, since, limits);
  }

  // ----- how much gets through -----

  /** How many of the calls of `ip` were let through at `lo` or later. */
  function LetThroughSince(log: seq<Response>, ip: string, lo: int): nat {
    if log == [] then 0
    else
      var last := log[|log| - 1];
      LetThroughSince(log[..|log| - 1], ip, lo) + if last.ip == ip && last.allowed && lo <= last.at then 1 else 0
  }

  lemma {:induction false} SplitInterval(log: seq<Response>, ip: string, lo: int, mid: int, hi: int)
    requires lo <= mid
    ensures LetThrough(log, ip, lo, hi) <= LetThrough(log, ip, lo, mid - 1) + LetThroughSince(log, ip, mid)
  {
    if log == [] {
    } else {
      SplitInterval(log[..|log| - 1], ip, lo, mid, hi);
    }
  }

  lemma {:induction false} SmallerInterval(log: seq<Response>, ip: string, lo: int, hi: int, lo': int, hi': int)
    requires lo' <= lo
    ensures hi <= hi' ==> LetThrough(log, ip, lo, hi) <= LetThrough(log, ip, lo', hi')
    ensures LetThrough(log, ip, lo, hi) <= LetThroughSince(log, ip, lo) <= LetThroughSince(log, ip, lo')
  {
    if log == [] {
    } else {
      SmallerInterval(log[..|log| - 1], ip, lo, hi, lo', hi');
    }
  }

  lemma OneMore(log: seq<Response>, r: Response, ip: string)
    ensures var more := log + [r];
            var counts := r.ip == ip && r.allowed;
            && (forall lo, hi ::
                  LetThrough(more, ip, lo, hi)
                  == LetThrough(log, ip, lo, hi) + if counts && lo <= r.at <= hi then 1 else 0)
            && (forall lo ::
                  LetThroughSince(more, ip, lo) == LetThroughSince(log, ip, lo) + if counts && lo <= r.at then 1 else 0)
            && (forall w ::
                  LetThroughInWindow(more, ip, w)
                  == LetThroughInWindow(log, ip, w) + if counts && r.window == w then 1 else 0)
  {
    assert (log + [r])[..|log|] == log;
  }

  function Least(a: int, b: int): int {
    if a < b then a else b
  }

  function IntervalLimit(limits: Limits): nat {
    if limits.maxRequests < 1 then 0
    else if limits.window == 0 then limits.maxRequests
    else 2 * limits.maxRequests - 1
  }

  function WindowLimit(maxRequests: int): nat {
    if maxRequests >= 1 then maxRequests else 0
  }

  /** Where the calls that got through lie, relative to the visitor's window. */
  ghost predicate Paced(v: Visitor, log: seq<Response>, ip: string, limits: Limits) {
    var most, start := Least(v.count, limits.maxRequests), v.windowStart;
    && LetThroughSince(log, ip, start) <= most
    && LetThroughSince(log, ip, start + 1) <= most - 1
    && LetThrough(log, ip, start - limits.window, start - 1) <= limits.maxRequests - 1
    && LetThroughInWindow(log, ip, start) <= most
  }

  ghost predicate Bounded(log: seq<Response>, ip: string, limits: Limits) {
    && (forall lo, hi :: hi - lo <= limits.window ==> LetThrough(log, ip, lo, hi) <= IntervalLimit(limits))
    && (forall w :: LetThroughInWindow(log, ip, w) <= WindowLimit(limits.maxRequests))
  }

  /** Nothing got through after the end of the visitor's window, or in a later window. */
  ghost predicate NothingLater(v: Visitor, log: seq<Response>, ip: string, limits: Limits) {
    && (forall lo :: lo > v.windowStart + limits.window ==> LetThroughSince(log, ip, lo) == 0)
    && (forall w :: w > v.windowStart ==> LetThroughInWindow(log, ip, w) == 0)
  }

  ghost predicate Unseen(log: seq<Response>, ip: string) {
    && (forall lo, hi :: LetThrough(log, ip, lo, hi) == 0)
    && (forall lo :: LetThroughSince(log, ip, lo) == 0)
    && (forall w :: LetThroughInWindow(log, ip, w) == 0)
  }

  ghost predicate Tracked(v: Option<Visitor>, log: seq<Response>, ip: string, now: int, limits: Limits) {
    if v.None? || limits.maxRequests < 1 then Unseen(log, ip) && (v.Some? ==> v.value.count >= 1)
    else
      && v.value.windowStart <= now && v.value.count >= 1
      && Bounded(log, ip, limits) && NothingLater(v.value, log, ip, limits) && Paced(v.value, log, ip, limits)
  }

  ghost predicate AllTracked(visitors: map<string, Visitor>, log: seq<Response>, now: int, limits: Limits) {
    forall ip :: Tracked(Entry(visitors, ip), log, ip, now, limits)
  }

  lemma GoOnInterval(v: Visitor, log: seq<Response>, ip: string, now: int, limits: Limits, lo: int, hi: int)
    requires limits.maxRequests >= 1 && hi - lo <= limits.window && v.windowStart <= now
             && !ExpiredAt(v, now, limits.window)
    requires Bounded(log, ip, limits) && Paced(v, log, ip, limits) && v.count + 1 <= limits.maxRequests
    ensures LetThrough(log + [Response(ip, now, true, v.windowStart)], ip, lo, hi) <= IntervalLimit(limits)
  {
    var start, r := v.windowStart, Response(ip, now, true, v.windowStart);
    var more := log + [r];
    OneMore(log, r, ip);
    if lo <= now <= hi {
      if limits.window == 0 {
        SmallerInterval(more, ip, lo, hi, start, hi);
      } else if lo > start {
        SmallerInterval(more, ip, lo, hi, start + 1, hi);
      } else {
        SplitInterval(more, ip, lo, start, hi);
        SmallerInterval(log, ip, lo, start - 1, start - limits.window, start - 1);
      }
    }
  }

  /** A further call in the visitor's window. */
  lemma GoOn(v: Visitor, log: seq<Response>, ip: string, since: int, now: int, limits: Limits)
    requires limits.maxRequests >= 1 && limits.window >= 0 && since <= now
    requires Tracked(Some(v), log, ip, since, limits) && !ExpiredAt(v, now, limits.window)
    requires v.count + 1 <= limits.maxRequests
    ensures Tracked(Some(v.(count := v.count + 1)), log + [Response(ip, now, true, v.windowStart)], ip, now, limits)
  {
    var r := Response(ip, now, true, v.windowStart);
    OneMore(log, r, ip);
    forall lo, hi | hi - lo <= limits.window
      ensures LetThrough(log + [r], ip, lo, hi) <= IntervalLimit(limits)
    {
      GoOnInterval(v, log, ip, now, limits, lo, hi);
    }
  }

  /** The first call of a new window. */
  lemma StartOver(v: Visitor, log: seq<Response>, ip: string, since: int, now: int, limits: Limits,
                  blockedUntil: Option<int>)
    requires limits.maxRequests >= 1 && limits.window >= 0 && since <= now
    requires Tracked(Some(v), log, ip, since, limits) && ExpiredAt(v, now, limits.window)
    ensures Tracked(Some(Visitor(1, now, blockedUntil)), log + [Response(ip, now, true, now)], ip, now, limits)
  {
    var more := log + [Response(ip, now, true, now)];
    OneMore(log, Response(ip, now, true, now), ip);
    SmallerInterval(log, ip, now - limits.window, now - 1, v.windowStart + 1, now);
    forall lo, hi | hi - lo <= limits.window
      ensures LetThrough(more, ip, lo, hi) <= IntervalLimit(limits)
    {
      if lo <= now <= hi {
        SmallerInterval(log, ip, lo, hi, v.windowStart + 1, hi);
      }
    }
  }

  lemma FirstVisit(log: seq<Response>, ip: string, now: int, limits: Limits)
    requires limits.maxRequests >= 1 && limits.window >= 0 && Unseen(log, ip)
    ensures Tracked(Some(Visitor(1, now, None)), log + [Response(ip, now, true, now)], ip, now, limits)
  {
    OneMore(log, Response(ip, now, true, now), ip);
  }

  lemma Denied(v: Visitor, log: seq<Response>, ip: string, since: int, now: int, limits: Limits, after: Visitor)
    requires Tracked(Some(v), log, ip, since, limits) && since <= now
    requires limits.maxRequests >= 1 ==> after.windowStart == v.windowStart
    requires after.count >= v.count
    ensures Tracked(Some(after), log + [Response(ip, now, false, after.windowStart)], ip, now, limits)
  {
    OneMore(log, Response(ip, now, false, after.windowStart), ip);
  }

  lemma NothingAllowed(v: Option<Visitor>, log: seq<Response>, ip: string, since: int, now: int, limits: Limits)
    requires Tracked(v, log, ip, since, limits) && limits.maxRequests < 1
    ensures var (after, allowed) := Visit(Current(v, now), now, limits);
            Tracked(Some(after), log + [Response(ip, now, allowed, after.windowStart)], ip, now, limits)
  {
    var (after, allowed) := Visit(Current(v, now), now, limits);
    OneMore(log, Response(ip, now, allowed, after.windowStart), ip);
  }

  lemma VisitTracked(v: Option<Visitor>, log: seq<Response>, ip: string, since: int, now: int, limits: Limits)
    requires Tracked(v, log, ip, since, limits) && limits.window >= 0 && since <= now
    ensures var (after, allowed) := Visit(Current(v, now), now, limits);
            Tracked(Some(after), log + [Response(ip, now, allowed, after.windowStart)], ip, now, limits)
  {
    var (after, allowed) := Visit(Current(v, now), now, limits);
    if limits.maxRequests < 1 {
      NothingAllowed(v, log, ip, since, now, limits);
    } else if v.None? {
      FirstVisit(log, ip, now, limits);
    } else if !allowed {
      Denied(v.value, log, ip, since, now, limits, after);
    } else if ExpiredAt(v.value, now, limits.window) {
      StartOver(v.value, log, ip, since, now, limits, v.value.blockedUntil);
    } else {
      GoOn(v.value, log, ip, since, now, limits);
    }
  }

  lemma OtherTracked(v: Option<Visitor>, log: seq<Response>, ip: string, since: int, now: int, limits: Limits,
                     r: Response)
    requires Tracked(v, log, ip, since, limits) && since <= now && r.ip != ip
    ensures Tracked(v, log + [r], ip, now, limits)
  {
    OneMore(log, r, ip);
  }

  lemma AllTrackedStep(visitors: map<string, Visitor>, log: seq<Response>, ip: string, since: int, now: int,
                       limits: Limits)
    requires AllTracked(visitors, log, since, limits) && limits.window >= 0 && since <= now
    ensures var (after, r) := Visited(visitors, ip, now, limits); AllTracked(after, log + [r], now, limits)
  {
    var (after, r) := Visited(visitors, ip, now, limits);
    forall other
      ensures Tracked(Entry(after, other), log + [r], other, now, limits)
    {
      assert Tracked(Entry(visitors, other), log, other, since, limits);
      if other == ip {
        VisitTracked(Entry(visitors, ip), log, ip, since, now, limits);
      } else {
        OtherTracked(Entry(visitors, other), log, other, since, now, limits, r);
      }
    }
  }

  lemma {:induction false} RunTracked(visitors: map<string, Visitor>, log: seq<Response>, since: int, calls: seq<Call>,
                                      limits: Limits) returns (after: map<string, Visitor>, now: int)
    requires AllTracked(visitors, log, since, limits) && limits.window >= 0 && Clocked(calls, since)
    requires WithoutCleanups(calls) == calls
    ensures AllTracked(after, log + Responses(visitors, calls, limits), now, limits)
    decreases |calls|
  {
    if calls == [] {
      assert log + [] == log;
      after, now := visitors, since;
    } else {
      OnlyAllows(calls);
      var (next, r) := Visited(visitors, calls[0].ip, calls[0].now, limits);
      AllTrackedStep(visitors, log, calls[0].ip, since, calls[0].now, limits);
      after, now := RunTracked(next, log + [r], calls[0].now, calls[1..], limits);
      assert log + [r] + Responses(next, calls[1..], limits) == log + Responses(visitors, calls, limits);
    }
  }

  lemma {:induction false} OnlyAllows(calls: seq<Call>)
    requires calls != [] && WithoutCleanups(calls) == calls
    ensures calls[0].Allow? && WithoutCleanups(calls[1..]) == calls[1..]
  {
    Shortened(calls[1..]);
    if calls[0].Allow? {
      assert ([calls[0]] + WithoutCleanups(calls[1..]))[1..] == WithoutCleanups(calls[1..]);
    }
  }

  lemma {:induction false} Shortened(calls: seq<Call>)
    ensures |WithoutCleanups(calls)| <= |calls|
  {
    if calls == [] {
    } else {
      Shortened(calls[1..]);
    }
  }

  lemma {:induction false} StillClocked(calls: seq<Call>, since: int, before: int)
    requires Clocked(calls, since) && before <= since
    ensures Clocked(WithoutCleanups(calls), before)
    ensures WithoutCleanups(WithoutCleanups(calls)) == WithoutCleanups(calls)
    decreases |calls|
  {
    if calls == [] {
    } else {
      if calls[0].Cleanup? {
        StillClocked(calls[1..], calls[0].now, before);
      } else {
        StillClocked(calls[1..], calls[0].now, calls[0].now);
        var rest := WithoutCleanups(calls[1..]);
        assert ([calls[0]] + rest)[1..] == rest;
      }
    }
  }

  /** Any mix of calls: at most maxRequests per counting window, and at most 2 * maxRequests - 1 in any closed
      interval as long as the window, or maxRequests if the window is a single moment. */
  lemma RateBound(calls: seq<Call>, since: int, limits: Limits, ip: string, lo: int, hi: int, window: int)
    requires Clocked(calls, since) && limits.window >= 0 && hi - lo <= limits.window
    ensures LetThroughInWindow(Responses(map[], calls, limits), ip, window) <= WindowLimit(limits.maxRequests)
    ensures LetThrough(Responses(map[], calls, limits), ip, lo, hi) <= IntervalLimit(limits)
  {
    var allows := WithoutCleanups(calls);
    StillClocked(calls, since, since);
    CleanupUnobservable(calls, allows, since, limits);
    var after, now := RunTracked(map[], [], since, allows, limits);
    assert [] + Responses(map[], allows, limits) == Responses(map[], allows, limits);
    assert Tracked(Entry(after, ip), Responses(map[], allows, limits), ip, now, limits);
  }

  // ----- the bound cannot be lowered -----

  function Burst(ip: string, now: int, n: nat): seq<Call> {
    if n == 0 then [] else [Allow(ip, now)] + Burst(ip, now, n - 1)
  }

  /** n calls at one moment that all fit into the visitor's window. */
  lemma {:induction false} BurstAllowed(visitors: map<string, Visitor>, ip: string, now: int, n: nat, rest: seq<Call>,
                                        limits: Limits)
      returns (after: map<string, Visitor>, log: seq<Response>)
    requires ip in visitors && visitors[ip].blockedUntil.None? && visitors[ip].count + n <= limits.maxRequests
    requires now - visitors[ip].windowStart <= limits.window
    ensures ip in after && after[ip] == visitors[ip].(count := visitors[ip].count + n)
    ensures Responses(visitors, Burst(ip, now, n) + rest, limits) == log + Responses(after, rest, limits)
    ensures |log| == n && forall i :: 0 <= i < n ==> log[i].ip == ip && log[i].at == now && log[i].allowed
    decreases n
  {
    var calls := Burst(ip, now, n) + rest;
    if n == 0 {
      assert calls == rest;
      after, log := visitors, [];
    } else {
      assert calls[0] == Allow(ip, now) && calls[1..] == Burst(ip, now, n - 1) + rest;
      var (next, r) := Visited(visitors, ip, now, limits);
      var tail;
      after, tail := BurstAllowed(next, ip, now, n - 1, rest, limits);
      log := [r] + tail;
    }
  }

  lemma {:induction false} AllInside(log: seq<Response>, ip: string, lo: int, hi: int)
    requires forall i :: 0 <= i < |log| ==> log[i].ip == ip && log[i].allowed && lo <= log[i].at <= hi
    ensures LetThrough(log, ip, lo, hi) == |log|
  {
    if log == [] {
    } else {
      AllInside(log[..|log| - 1], ip, lo, hi);
    }
  }

  lemma {:induction false} LetThroughJoin(a: seq<Response>, b: seq<Response>, ip: string, lo: int, hi: int)
    ensures LetThrough(a + b, ip, lo, hi) == LetThrough(a, ip, lo, hi) + LetThrough(b, ip, lo, hi)
  {
    if b == [] {
      assert a + b == a;
    } else {
      assert (a + b)[..|a + b| - 1] == a + b[..|b| - 1];
      LetThroughJoin(a, b[..|b| - 1], ip, lo, hi);
    }
  }

  /** A new window with maxRequests calls at its start. */
  function Window(ip: string, start: int, limits: Limits): seq<Call>
    requires limits.maxRequests >= 1
  {
    [Allow(ip, start)] + Burst(ip, start, limits.maxRequests - 1)
  }

  /** One call at 0, M - 1 more at the end of its window, and M in the next one. */
  function Squeeze(ip: string, limits: Limits): seq<Call> {
    if limits.maxRequests < 1 then []
    else [Allow(ip, 0)] + (Burst(ip, limits.window, limits.maxRequests - 1) + Window(ip, limits.window + 1, limits))
  }

  lemma WindowAllowed(visitors: map<string, Visitor>, ip: string, start: int, limits: Limits)
      returns (log: seq<Response>)
    requires limits.maxRequests >= 1 && limits.window >= 0
    requires ip in visitors && visitors[ip].blockedUntil.None? && ExpiredAt(visitors[ip], start, limits.window)
    ensures log == Responses(visitors, Window(ip, start, limits), limits) && |log| == limits.maxRequests
    ensures forall i :: 0 <= i < |log| ==> log[i].ip == ip && log[i].at == start && log[i].allowed
  {
    var tail := Burst(ip, start, limits.maxRequests - 1);
    assert Window(ip, start, limits)[1..] == tail && tail + [] == tail;
    var (next, r) := Visited(visitors, ip, start, limits);
    var after, rest := BurstAllowed(next, ip, start, limits.maxRequests - 1, [], limits);
    log := [r] + rest;
    assert rest + [] == rest;
  }

  lemma SqueezeResponses(ip: string, limits: Limits) returns (r: Response, log: seq<Response>, log': seq<Response>)
    requires limits.maxRequests >= 1 && limits.window >= 0
    ensures Responses(map[], Squeeze(ip, limits), limits) == [r] + (log + log') && r.at == 0
    ensures |log| == limits.maxRequests - 1 && |log'| == limits.maxRequests
    ensures forall i :: 0 <= i < |log| ==> log[i].ip == ip && log[i].allowed && log[i].at == limits.window
    ensures forall i :: 0 <= i < |log'| ==> log'[i].ip == ip && log'[i].allowed && log'[i].at == limits.window + 1
  {
    var second := Window(ip, limits.window + 1, limits);
    var first, middle;
    first, r := Visited(map[], ip, 0, limits).0, Visited(map[], ip, 0, limits).1;
    middle, log := BurstAllowed(first, ip, limits.window, limits.maxRequests - 1, second, limits);
    log' := WindowAllowed(middle, ip, limits.window + 1, limits);
    assert Squeeze(ip, limits)[1..] == Burst(ip, limits.window, limits.maxRequests - 1) + second;
  }

  lemma {:induction false} BurstClocked(ip: string, now: int, n: nat, rest: seq<Call>, since: int)
    requires since <= now && Clocked(rest, now)
    ensures Clocked(Burst(ip, now, n) + rest, since)
    decreases n
  {
    if n == 0 {
      assert Burst(ip, now, n) + rest == rest;
    } else {
      var more := Burst(ip, now, n - 1) + rest;
      assert Burst(ip, now, n) + rest == [Allow(ip, now)] + more;
      assert ([Allow(ip, now)] + more)[1..] == more;
      BurstClocked(ip, now, n - 1, rest, now);
    }
  }

  lemma SqueezeClocked(ip: string, limits: Limits)
    requires limits.window >= 0
    ensures Clocked(Squeeze(ip, limits), 0)
  {
    if limits.maxRequests >= 1 {
      var next := limits.window + 1;
      var second, last := Window(ip, next, limits), Burst(ip, next, limits.maxRequests - 1);
      BurstClocked(ip, next, limits.maxRequests - 1, [], next);
      assert last + [] == last && second[1..] == last;
      BurstClocked(ip, limits.window, limits.maxRequests - 1, second, 0);
      assert Squeeze(ip, limits)[1..] == Burst(ip, limits.window, limits.maxRequests - 1) + second;
    }
  }

  /** The bound on an interval is reached for every limit and every window. */
  lemma RateBoundIsTight(ip: string, limits: Limits)
    requires limits.window >= 0
    ensures Clocked(Squeeze(ip, limits), 0)
    ensures LetThrough(Responses(map[], Squeeze(ip, limits), limits), ip, 1, limits.window + 1) == IntervalLimit(limits)
  {
    SqueezeClocked(ip, limits);
    if limits.maxRequests >= 1 {
      var lo, hi := 1, limits.window + 1;
      var r, log, log' := SqueezeResponses(ip, limits);
      LetThroughJoin([r], log + log', ip, lo, hi);
      assert [r][..0] == [];
      LetThroughJoin(log, log', ip, lo, hi);
      AllInside(log', ip, lo, hi);
      if limits.window > 0 {
        AllInside(log, ip, lo, hi);
      } else {
        NoneInside(log, ip, lo, hi);
      }
    }
  }

  lemma {:induction false} NoneInside(log: seq<Response>, ip: string, lo: int, hi: int)
    requires forall i :: 0 <= i < |log| ==> log[i].at < lo
    ensures LetThrough(log, ip, lo, hi) == 0
  {
    if log == [] {
    } else {
      NoneInside(log[..|log| - 1], ip, lo, hi);
    }
  }

  /** With a negative window there is no bound: every call starts a window of its own. */
  lemma {:induction false} NegativeWindowUnlimited(visitors: map<string, Visitor>, ip: string, now: int, n: nat,
                                                   limits: Limits)
    requires limits.maxRequests >= 1 && limits.window < 0
    requires ip in visitors ==> visitors[ip] == Visitor(1, now, None)
    ensures LetThroughInWindow(Responses(visitors, Burst(ip, now, n), limits), ip, now) == n
    decreases n
  {
    if n == 0 {
    } else {
      var (next, r) := Visited(visitors, ip, now, limits);
      NegativeWindowUnlimited(next, ip, now, n - 1, limits);
      var rest := Responses(next, Burst(ip, now, n - 1), limits);
      assert Burst(ip, now, n)[1..] == Burst(ip, now, n - 1);
      InWindowJoin([r], rest, ip, now);
      assert [r][..0] == [];
    }
  }

  lemma {:induction false} InWindowJoin(a: seq<Response>, b: seq<Response>, ip: string, window: int)
    ensures LetThroughInWindow(a + b, ip, window)
            == LetThroughInWindow(a, ip, window) + LetThroughInWindow(b, ip, window)
  {
    if b == [] {
      assert a + b == a;
    } else {
      assert (a + b)[..|a + b| - 1] == a + b[..|b| - 1];
      InWindowJoin(a, b[..|b| - 1], ip, window);
    }
  }

  // ----- the limiter -----

  class VisitorInfo {
    var count: int
    var windowStart: int
    var blockedUntil: Option<int>

    constructor (now: int)
      ensures Value() == Visitor(0, now, None)
    {
      count, windowStart, blockedUntil := 0, now, None;
    }

    function Value(): Visitor
      reads this
    {
      Visitor(count, windowStart, blockedUntil)
    }
  }

  class RateLimiter {
    var visitors: map<string, VisitorInfo>
    const limits: Limits

    constructor (maxRequests: int, window: int)
      ensures limits == Limits(maxRequests, window) && Valid() && View() == map[]
    {
      visitors, limits := map[], Limits(maxRequests, window);
    }

    /** No two addresses share an entry. */
    ghost predicate Valid()
      reads this
    {
      forall a, b :: a in visitors && b in visitors && a != b ==> visitors[a] != visitors[b]
    }

    ghost function View(): (view: map<string, Visitor>)
      reads this, visitors.Values
    {
      map ip | ip in visitors :: visitors[ip].Value()
    }

    method Allow(ip: string, now: int) returns (allowed: bool)
      requires Valid()
      modifies this`visitors, visitors.Values
      ensures Valid() && fresh(visitors.Values - old(visitors.Values))
      ensures (View(), allowed)
              == (Visited(old(View()), ip, now, limits).0, Visited(old(View()), ip, now, limits).1.allowed)
    {
      hide Visit;
      var v := FindVisitor(ip, now);
      ghost var before := View();
      allowed := Count(v, now);
      assert forall other :: other in visitors && other != ip ==> visitors[other] != v;
      assert View() == before[ip := v.Value()] == old(View())[ip := v.Value()];
    }

    /** The entry of an address, made when there is none. */
    method FindVisitor(ip: string, now: int) returns (v: VisitorInfo)
      requires Valid()
      modifies this`visitors
      ensures Valid() && ip in visitors && visitors[ip] == v
      ensures v in old(visitors.Values) || fresh(v)
      ensures visitors == old(visitors)[ip := v]
      ensures v.Value() == Current(Entry(old(View()), ip), now)
      ensures View() == old(View())[ip := v.Value()]
    {
      if ip !in visitors {
        var info := new VisitorInfo(now);
        visitors := visitors[ip := info];
      }
      v := visitors[ip];
      assert visitors == old(visitors)[ip := v];
    }

    method Count(v: VisitorInfo, now: int) returns (allowed: bool)
      modifies v
      ensures (v.Value(), allowed) == Visit(old(v.Value()), now, limits)
    {
      if v.blockedUntil.Some? && now < v.blockedUntil.value {
        return false;
      }
      if now - v.windowStart > limits.window {
        v.count := 0;
        v.windowStart := now;
      }
      v.count := v.count + 1;
      if v.count > limits.maxRequests {
        v.blockedUntil := Some(now + limits.window);
        return false;
      }
      allowed := true;
    }

    method Cleanup(now: int)
      requires Valid()
      modifies this`visitors
      ensures Valid() && visitors.Values <= old(visitors.Values)
      ensures View() == Cleaned(old(View()), now, limits.window)
      ensures forall ip :: ip in visitors <==>
                ip in old(visitors) &&
                var v := old(View())[ip];
                !(now - v.windowStart > limits.window && (v.blockedUntil == None || now > v.blockedUntil.value))
    {
      var rest := visitors.Keys;
      while rest != {}
        invariant rest <= visitors.Keys <= old(visitors.Keys)
        invariant forall ip :: ip in visitors ==> visitors[ip] == old(visitors[ip])
        invariant forall ip :: ip in old(visitors) ==>
          (ip in visitors <==> ip in rest || !Removable(old(visitors)[ip].Value(), now, limits.window))
      {
        var ip :| ip in rest;
        var v := visitors[ip];
        if now - v.windowStart > limits.window && (v.blockedUntil.None? || now > v.blockedUntil.value) {
          visitors := visitors - {ip};
        }
        rest := rest - {ip};
      }
    }
  }
}
