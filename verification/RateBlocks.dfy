/** Exactly which calls the rate limiter refuses. */
module RateBlocks {
  import opened Sequences
  import opened RateLimits

  /** A block that started at `start` still holds at `at`. */
  predicate Blocks(start: Option<int>, at: int, window: int) {
    start.Some? && at < start.value + window
  }

  /** When the latest block of an address started: at a refused call that no earlier block refuses. */
  ghost function LatestBlock(log: seq<Response>, ip: string, window: int): Option<int> {
    if log == [] then None
    else
      var last, before := log[|log| - 1], LatestBlock(log[..|log| - 1], ip, window);
      if last.ip == ip && !last.allowed && !Blocks(before, last.at, window) then Some(last.at) else before
  }

  /** The counting window that the latest call of an address fell into. */
  ghost function LatestWindow(log: seq<Response>, ip: string): Option<int> {
    if log == [] then None
    else if log[|log| - 1].ip == ip then Some(log[|log| - 1].window)
    else LatestWindow(log[..|log| - 1], ip)
  }

  /** The window that a call falls into: the latest one while a block holds or it has not run out, else its own. */
  ghost function WindowFor(log: seq<Response>, ip: string, at: int, window: int): int {
    match LatestWindow(log, ip)
    case None => at
    case Some(start) => if Blocks(LatestBlock(log, ip, window), at, window) || at <= start + window then start else at
  }

  /** The answer, said without the limiter's own records: the call falls into that window, and it is let through exactly
      when no block holds and fewer than maxRequests calls of the window have been let through before. */
  ghost predicate AnswersRightly(log: seq<Response>, r: Response, limits: Limits) {
    && r.window == WindowFor(log, r.ip, r.at, limits.window)
    && (r.allowed <==>
          !Blocks(LatestBlock(log, r.ip, limits.window), r.at, limits.window)
          && LetThroughInWindow(log, r.ip, r.window) < limits.maxRequests)
  }

  // ----- the records behind it -----

  function Used(count: int, maxRequests: int): int {
    if maxRequests <= 0 then 0 else if count < maxRequests then count else maxRequests
  }

  /** What the limiter keeps of an address is what the log says of it. */
  ghost predicate Fits(v: Option<Visitor>, log: seq<Response>, ip: string, limits: Limits) {
    match v
    case None => LatestWindow(log, ip).None? && LatestBlock(log, ip, limits.window).None? && NeverIn(log, ip, None)
    case Some(visitor) =>
      && LatestWindow(log, ip) == Some(visitor.windowStart)
      && LatestBlock(log, ip, limits.window) == (match visitor.blockedUntil
                                                case None => None
                                                case Some(end) => Some(end - limits.window))
      && visitor.count >= 1 && NeverIn(log, ip, Some(visitor.windowStart))
      && LetThroughInWindow(log, ip, visitor.windowStart) == Used(visitor.count, limits.maxRequests)
  }

  /** Nothing was let through in a window that starts later. */
  ghost predicate NeverIn(log: seq<Response>, ip: string, start: Option<int>) {
    forall w: int :: start.None? || w > start.value ==> LetThroughInWindow(log, ip, w) == 0
  }

  ghost predicate AllFit(visitors: map<string, Visitor>, log: seq<Response>, limits: Limits) {
    forall ip :: Fits(Entry(visitors, ip), log, ip, limits)
  }

  lemma OneMoreResponse(log: seq<Response>, r: Response, ip: string, window: int)
    ensures LatestWindow(log + [r], ip) == if r.ip == ip then Some(r.window) else LatestWindow(log, ip)
    ensures LatestBlock(log + [r], ip, window)
            == if r.ip == ip && !r.allowed && !Blocks(LatestBlock(log, ip, window), r.at, window) then Some(r.at)
               else LatestBlock(log, ip, window)
    ensures forall w ::
              LetThroughInWindow(log + [r], ip, w)
              == LetThroughInWindow(log, ip, w) + if r.ip == ip && r.allowed && r.window == w then 1 else 0
  {
    assert (log + [r])[..|log|] == log;
  }

  lemma VisitFits(v: Option<Visitor>, log: seq<Response>, ip: string, now: int, limits: Limits)
    requires Fits(v, log, ip, limits) && limits.window >= 0
    ensures var (after, allowed) := Visit(Current(v, now), now, limits);
            var r := Response(ip, now, allowed, after.windowStart);
            AnswersRightly(log, r, limits) && Fits(Some(after), log + [r], ip, limits)
  {
    var (after, allowed) := Visit(Current(v, now), now, limits);
    OneMoreResponse(log, Response(ip, now, allowed, after.windowStart), ip, limits.window);
    hide LatestWindow, LatestBlock, LetThroughInWindow;
  }

  lemma OthersFit(v: Option<Visitor>, log: seq<Response>, ip: string, r: Response, limits: Limits)
    requires Fits(v, log, ip, limits) && r.ip != ip
    ensures Fits(v, log + [r], ip, limits)
  {
    OneMoreResponse(log, r, ip, limits.window);
    hide LatestWindow, LatestBlock, LetThroughInWindow;
  }

  lemma AllFitStep(visitors: map<string, Visitor>, log: seq<Response>, ip: string, now: int, limits: Limits)
    requires AllFit(visitors, log, limits) && limits.window >= 0
    ensures var (after, r) := Visited(visitors, ip, now, limits);
            r.ip == ip && r.at == now && AnswersRightly(log, r, limits) && AllFit(after, log + [r], limits)
  {
    hide Visit, Fits, AnswersRightly;
    var (after, r) := Visited(visitors, ip, now, limits);
    VisitFits(Entry(visitors, ip), log, ip, now, limits);
    forall other
      ensures Fits(Entry(after, other), log + [r], other, limits)
    {
      assert Fits(Entry(visitors, other), log, other, limits);
      if other != ip {
        OthersFit(Entry(visitors, other), log, other, r, limits);
      }
    }
  }

  lemma {:induction false} RunAnswersRightly(visitors: map<string, Visitor>, log: seq<Response>, calls: seq<Call>,
                                             limits: Limits, j: nat)
    requires AllFit(visitors, log, limits) && limits.window >= 0 && WithoutCleanups(calls) == calls
    requires j < |Responses(visitors, calls, limits)|
    ensures AnswersRightly(log + Responses(visitors, calls, limits)[..j], Responses(visitors, calls, limits)[j], limits)
    decreases |calls|
  {
    hide AllFit, AnswersRightly, Visited;
    OnlyAllows(calls);
    var (next, r) := Visited(visitors, calls[0].ip, calls[0].now, limits);
    var all, rest := Responses(visitors, calls, limits), Responses(next, calls[1..], limits);
    AllFitStep(visitors, log, calls[0].ip, calls[0].now, limits);
    assert all == [r] + rest;
    if j == 0 {
      assert log + all[..0] == log;
    } else {
      RunAnswersRightly(next, log + [r], calls[1..], limits, j - 1);
      assert log + [r] + rest[..j - 1] == log + all[..j];
    }
  }

  lemma NothingYet(limits: Limits)
    ensures AllFit(map[], [], limits)
  {
  }

  /** One answer for each call, under its address and time. */
  lemma {:induction false} AnswersInTurn(visitors: map<string, Visitor>, calls: seq<Call>, limits: Limits)
    ensures var log, allows := Responses(visitors, calls, limits), WithoutCleanups(calls);
            |log| == |allows| && forall j :: 0 <= j < |log| ==> allows[j] == Allow(log[j].ip, log[j].at)
    decreases |calls|
  {
    hide Visit;
    if calls == [] {
    } else if calls[0].Cleanup? {
      AnswersInTurn(Cleaned(visitors, calls[0].now, limits.window), calls[1..], limits);
    } else {
      AnswersInTurn(Visited(visitors, calls[0].ip, calls[0].now, limits).0, calls[1..], limits);
    }
  }

  /** Every answer of every history, cleanups included, is the right one. */
  lemma EveryAnswer(calls: seq<Call>, since: int, limits: Limits, j: nat)
    requires Clocked(calls, since) && limits.window >= 0 && j < |Responses(map[], calls, limits)|
    ensures var log := Responses(map[], calls, limits); AnswersRightly(log[..j], log[j], limits)
  {
    hide AnswersRightly;
    var allows := WithoutCleanups(calls);
    StillClocked(calls, since, since);
    CleanupUnobservable(calls, allows, since, limits);
    NothingYet(limits);
    RunAnswersRightly(map[], [], allows, limits, j);
    assert [] + Responses(map[], allows, limits)[..j] == Responses(map[], allows, limits)[..j];
  }

  // ----- in terms of earlier calls -----

  /** The call before `i` of the same address. */
  ghost predicate IsPredecessor(log: seq<Response>, k: int, i: int) {
    0 <= k < i < |log| && log[k].ip == log[i].ip && forall m :: k < m < i ==> log[m].ip != log[i].ip
  }

  /** A refused call whose predecessor, if it has one, was let through. */
  ghost predicate FirstRefusal(log: seq<Response>, i: int) {
    0 <= i < |log| && !log[i].allowed && forall k :: IsPredecessor(log, k, i) ==> log[k].allowed
  }

  ghost predicate ByTime(log: seq<Response>) {
    forall i, j :: 0 <= i < j < |log| ==> log[i].at <= log[j].at
  }

  lemma {:induction false} ResponsesInOrder(visitors: map<string, Visitor>, calls: seq<Call>, since: int,
                                            limits: Limits)
    requires Clocked(calls, since)
    ensures ByTime(Responses(visitors, calls, limits))
    ensures forall i :: 0 <= i < |Responses(visitors, calls, limits)| ==>
            since <= Responses(visitors, calls, limits)[i].at
    decreases |calls|
  {
    hide Visit;
    if calls == [] {
    } else if calls[0].Cleanup? {
      ResponsesInOrder(Cleaned(visitors, calls[0].now, limits.window), calls[1..], calls[0].now, limits);
    } else {
      var (next, r) := Visited(visitors, calls[0].ip, calls[0].now, limits);
      ResponsesInOrder(next, calls[1..], calls[0].now, limits);
    }
  }

  /** A block starts at some refused call, which no block refused. */
  lemma {:induction false} BlockHasStart(log: seq<Response>, ip: string, window: int) returns (i: nat)
    requires LatestBlock(log, ip, window).Some?
    ensures i < |log| && log[i].ip == ip && !log[i].allowed && LatestBlock(log, ip, window) == Some(log[i].at)
    ensures !Blocks(LatestBlock(log[..i], ip, window), log[i].at, window)
  {
    var n := |log| - 1;
    var before := LatestBlock(log[..n], ip, window);
    if log[n].ip == ip && !log[n].allowed && !Blocks(before, log[n].at, window) {
      i := n;
    } else {
      i := BlockHasStart(log[..n], ip, window);
      assert log[..n][..i] == log[..i];
    }
  }

  /** From a refused call on, the latest block of its address did not start before that call or still held at it. */
  lemma {:induction false} RefusalBlocks(log: seq<Response>, i: nat, window: int)
    requires i < |log| && !log[i].allowed && ByTime(log)
    requires !Blocks(LatestBlock(log[..i], log[i].ip, window), log[i].at, window)
    ensures LatestBlock(log, log[i].ip, window).Some? && log[i].at <= LatestBlock(log, log[i].ip, window).value
  {
    var n := |log| - 1;
    if i < n {
      assert log[..n][..i] == log[..i];
      RefusalBlocks(log[..n], i, window);
    }
  }

  /** After a first refusal every call of that address within the window's length is refused. */
  lemma BlockHolds(calls: seq<Call>, since: int, limits: Limits, i: nat, j: nat)
    requires Clocked(calls, since)
    requires var log := Responses(map[], calls, limits);
             i < j < |log| && FirstRefusal(log, i) && log[j].ip == log[i].ip && log[j].at < log[i].at + limits.window
    ensures !Responses(map[], calls, limits)[j].allowed
  {
    var log := Responses(map[], calls, limits);
    ResponsesInOrder(map[], calls, since, limits);
    hide Responses, LatestBlock, WindowFor;
    NoBlockAtFirstRefusal(calls, since, limits, i);
    assert log[..j][..i] == log[..i] && log[..j][i] == log[i];
    RefusalBlocks(log[..j], i, limits.window);
    EveryAnswer(calls, since, limits, j);
  }

  /** A first refusal is not due to a block: the block would have refused the predecessor as well. */
  lemma NoBlockAtFirstRefusal(calls: seq<Call>, since: int, limits: Limits, i: nat)
    requires Clocked(calls, since) && limits.window >= 0
    requires FirstRefusal(Responses(map[], calls, limits), i)
    ensures var log := Responses(map[], calls, limits);
            !Blocks(LatestBlock(log[..i], log[i].ip, limits.window), log[i].at, limits.window)
  {
    var log := Responses(map[], calls, limits);
    var ip, window := log[i].ip, limits.window;
    ResponsesInOrder(map[], calls, since, limits);
    hide Responses, LatestBlock, WindowFor;
    if Blocks(LatestBlock(log[..i], ip, window), log[i].at, window) {
      var k := BlockHasStart(log[..i], ip, window);
      var p := PredecessorAfter(log, k, i);
      assert log[p].allowed;
      if p == k {
        assert false;
      } else {
        assert log[..p][..k] == log[..k] && log[..i][..k] == log[..k] && log[..p][k] == log[k];
        RefusalBlocks(log[..p], k, window);
        EveryAnswer(calls, since, limits, p);
        assert false;
      }
    }
  }

  lemma {:induction false} PredecessorAfter(log: seq<Response>, k: nat, i: nat) returns (p: nat)
    requires k < i < |log| && log[k].ip == log[i].ip
    ensures k <= p && IsPredecessor(log, p, i)
    decreases i - k
  {
    p := i - 1;
    while log[p].ip != log[i].ip
      invariant k <= p < i && forall m :: p < m < i ==> log[m].ip != log[i].ip
      decreases p
    {
      p := p - 1;
    }
  }

  /** All calls of the counting window that a call falls into have been used up before it. */
  ghost predicate WindowIsFull(log: seq<Response>, j: nat, limits: Limits)
    requires j < |log|
  {
    LetThroughInWindow(log[..j], log[j].ip, log[j].window) >= limits.maxRequests
  }

  /** A refused call that no earlier block refuses: a block starts here. */
  ghost predicate StartsBlock(log: seq<Response>, i: nat, window: int)
    requires i < |log|
  {
    !log[i].allowed && !Blocks(LatestBlock(log[..i], log[i].ip, window), log[i].at, window)
  }

  /** A call is refused exactly when its counting window is full, or less than the window's length after a call of the
      same address at which a block started; and a block starts only at a call that finds its window full. */
  lemma RefusedExactly(calls: seq<Call>, since: int, limits: Limits, j: nat)
    requires Clocked(calls, since) && limits.window >= 0 && j < |Responses(map[], calls, limits)|
    ensures var log := Responses(map[], calls, limits);
            !log[j].allowed <==>
              WindowIsFull(log, j, limits)
              || exists i: nat :: i < j && log[i].ip == log[j].ip && StartsBlock(log, i, limits.window)
                                  && log[j].at < log[i].at + limits.window
    ensures StartsBlock(Responses(map[], calls, limits), j, limits.window) ==>
              WindowIsFull(Responses(map[], calls, limits), j, limits)
    ensures FirstRefusal(Responses(map[], calls, limits), j) ==>
              StartsBlock(Responses(map[], calls, limits), j, limits.window)
  {
    var log := Responses(map[], calls, limits);
    var ip, window := log[j].ip, limits.window;
    ResponsesInOrder(map[], calls, since, limits);
    hide Responses, LatestBlock, WindowFor, LetThroughInWindow;
    EveryAnswer(calls, since, limits, j);
    if Blocks(LatestBlock(log[..j], ip, window), log[j].at, window) {
      var i := BlockHasStart(log[..j], ip, window);
      assert log[..j][..i] == log[..i];
      assert StartsBlock(log, i, window);
    }
    if i: nat :| i < j && log[i].ip == ip && StartsBlock(log, i, window) && log[j].at < log[i].at + window {
      assert log[..j][..i] == log[..i] && log[..j][i] == log[i];
      RefusalBlocks(log[..j], i, window);
    }
    if FirstRefusal(log, j) {
      NoBlockAtFirstRefusal(calls, since, limits, j);
    }
  }

  // ----- a negative window -----

  /** Nothing that was recorded before `now` blocks or counts from `now` on. */
  ghost predicate Stale(visitors: map<string, Visitor>, now: int, window: int) {
    forall ip :: ip in visitors ==>
      && visitors[ip].windowStart <= now
      && (visitors[ip].blockedUntil.None? || visitors[ip].blockedUntil.value <= now + window)
  }

  lemma {:induction false} StaleAnswers(visitors: map<string, Visitor>, calls: seq<Call>, since: int, limits: Limits,
                                        j: nat)
    requires Clocked(calls, since) && limits.window < 0 && Stale(visitors, since, limits.window)
    requires j < |Responses(visitors, calls, limits)|
    ensures Responses(visitors, calls, limits)[j].allowed <==> limits.maxRequests >= 1
    decreases |calls|
  {
    var call := calls[0];
    if call.Cleanup? {
      StaleAnswers(Cleaned(visitors, call.now, limits.window), calls[1..], call.now, limits, j);
    } else {
      var (next, r) := Visited(visitors, call.ip, call.now, limits);
      assert Stale(next, call.now, limits.window);
      assert Responses(visitors, calls, limits) == [r] + Responses(next, calls[1..], limits);
      if j > 0 {
        StaleAnswers(next, calls[1..], call.now, limits, j - 1);
      }
    }
  }

  /** With a negative window no call is ever counted against another: all are let through, or none. */
  lemma NegativeWindowAnswers(calls: seq<Call>, since: int, limits: Limits, j: nat)
    requires Clocked(calls, since) && limits.window < 0 && j < |Responses(map[], calls, limits)|
    ensures Responses(map[], calls, limits)[j].allowed <==> limits.maxRequests >= 1
  {
    StaleAnswers(map[], calls, since, limits, j);
  }
}
