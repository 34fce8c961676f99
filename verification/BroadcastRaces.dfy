/** Broadcasts whose sends come after the lock is released: when one of them meets a channel that was closed. */
module BroadcastRaces {
  import opened Sequences

  type Subscriptions = map<string, set<nat>>

  /** `pending` holds, for each broadcast under way, the channels it collected and has not sent to yet. */
  datatype State = State(subs: Subscriptions, closed: set<nat>, pending: map<nat, set<nat>>, next: nat, panicked: bool)

  datatype Event =
    | Subscribe(job: string)
    | Collect(broadcast: nat, job: string)
    | Send(broadcast: nat, ch: nat)
    | Unsubscribe(job: string, ch: nat)
    | CleanUp(job: string)

  const INITIAL := State(map[], {}, map[], 0, false)

  function SubscribersOf(subs: Subscriptions, job: string): set<nat> {
    if job in subs then subs[job] else {}
  }

  function PendingOf(s: State, broadcast: nat): set<nat> {
    if broadcast in s.pending then s.pending[broadcast] else {}
  }

  /** What a step closes: channels that are registered for the job. */
  function Closes(s: State, e: Event): set<nat> {
    match e
    case Unsubscribe(job, ch) => SubscribersOf(s.subs, job) * {ch}
    case CleanUp(job) => SubscribersOf(s.subs, job)
    case _ => {}
  }

  /** A panic ends the process. */
  predicate Enabled(s: State, e: Event) {
    !s.panicked &&
    match e
    case Collect(broadcast, _) => PendingOf(s, broadcast) == {}
    case Send(broadcast, ch) => ch in PendingOf(s, broadcast)
    case _ => true
  }

  function Apply(s: State, e: Event): State {
    match e
    case Subscribe(job) => s.(subs := s.subs[job := SubscribersOf(s.subs, job) + {s.next}], next := s.next + 1)
    case Collect(broadcast, job) => s.(pending := s.pending[broadcast := SubscribersOf(s.subs, job)])
    case Send(broadcast, ch) =>
      s.(pending := s.pending[broadcast := PendingOf(s, broadcast) - {ch}], panicked := s.panicked || ch in s.closed)
    case Unsubscribe(job, ch) =>
      s.(subs := s.subs[job := SubscribersOf(s.subs, job) - {ch}], closed := s.closed + Closes(s, e))
    case CleanUp(job) => s.(subs := s.subs - {job}, closed := s.closed + Closes(s, e))
  }

  function Exec(s: State, events: seq<Event>): State {
    if events == [] then s else Apply(Exec(s, events[..|events| - 1]), events[|events| - 1])
  }

  predicate IsRun(s: State, events: seq<Event>) {
    events == [] || (IsRun(s, events[..|events| - 1]) && Enabled(Exec(s, events[..|events| - 1]), events[|events| - 1]))
  }

  predicate Registered(s: State, job: string, ch: nat) {
    job in s.subs && ch in s.subs[job]
  }

  /** Registered channels are open, each for one job, and all channels were issued. */
  ghost predicate Consistent(s: State) {
    && (forall job, ch: nat :: Registered(s, job, ch) ==> ch !in s.closed && ch < s.next)
    && (forall a, b, ch: nat :: Registered(s, a, ch) && Registered(s, b, ch) ==> a == b)
    && (forall ch :: ch in s.closed ==> ch < s.next)
  }

  /** No broadcast under way has a closed channel before it. */
  ghost predicate AllOpen(s: State) {
    !s.panicked && forall broadcast :: broadcast in s.pending ==> s.pending[broadcast] * s.closed == {}
  }

  /** The step closes a channel that a broadcast under way has collected and not sent to yet. */
  ghost predicate ClosesPending(s: State, e: Event) {
    exists broadcast :: broadcast in s.pending && s.pending[broadcast] * Closes(s, e) != {}
  }

  /** A channel registered after a step was registered before it, or is the new one. */
  lemma RegisteredAfter(s: State, e: Event, job: string, ch: nat)
    requires Consistent(s) && Registered(Apply(s, e), job, ch)
    ensures ch !in Apply(s, e).closed && ch < Apply(s, e).next
    ensures if ch == s.next then e.Subscribe? && job == e.job else Registered(s, job, ch)
  {
    assert Registered(s, job, ch) || (e.Subscribe? && job == e.job && ch == s.next);
    if e.Unsubscribe? || e.CleanUp? {
      assert ch in SubscribersOf(s.subs, e.job) ==> Registered(s, e.job, ch) && job == e.job;
      assert ch !in Closes(s, e);
    }
  }

  lemma StepKeepsConsistent(s: State, e: Event)
    requires Consistent(s)
    ensures Consistent(Apply(s, e))
  {
    hide Apply, Registered;
    forall job, ch: nat | Registered(Apply(s, e), job, ch)
      ensures ch !in Apply(s, e).closed && ch < Apply(s, e).next
    {
      RegisteredAfter(s, e, job, ch);
    }
    forall a, b, ch: nat | Registered(Apply(s, e), a, ch) && Registered(Apply(s, e), b, ch)
      ensures a == b
    {
      RegisteredAfter(s, e, a, ch);
      RegisteredAfter(s, e, b, ch);
    }
    ClosedAreIssued(s, e);
  }

  lemma ClosedAreIssued(s: State, e: Event)
    requires Consistent(s)
    ensures forall ch :: ch in Apply(s, e).closed ==> ch < Apply(s, e).next
  {
    assert (e.Unsubscribe? || e.CleanUp?) ==> forall ch: nat :: ch in SubscribersOf(s.subs, e.job) ==>
           Registered(s, e.job, ch);
  }

  lemma StepKeepsOpen(s: State, e: Event)
    requires Consistent(s) && AllOpen(s) && Enabled(s, e)
    ensures AllOpen(Apply(s, e)) <==> !ClosesPending(s, e)
  {
    var t := Apply(s, e);
    if ClosesPending(s, e) {
      var broadcast :| broadcast in s.pending && s.pending[broadcast] * Closes(s, e) != {};
      var ch :| ch in s.pending[broadcast] * Closes(s, e);
      assert t.pending == s.pending && ch in t.closed && ch in t.pending[broadcast];
    } else {
      if e.Send? {
        assert e.ch in s.pending[e.broadcast] && e.ch !in s.pending[e.broadcast] * s.closed;
      }
      assert e.Collect? ==> forall ch: nat :: ch in SubscribersOf(s.subs, e.job) ==> Registered(s, e.job, ch);
      forall broadcast | broadcast in t.pending
        ensures t.pending[broadcast] * t.closed == {}
      {
        if broadcast in s.pending && !(e.Collect? && e.broadcast == broadcast) {
          assert s.pending[broadcast] * s.closed == {} && s.pending[broadcast] * Closes(s, e) == {};
          assert t.pending[broadcast] <= s.pending[broadcast];
        }
      }
    }
  }

  /** With nothing but sends from here on, no send panics. */
  ghost predicate SendsSafely(s: State) {
    forall events: seq<Event> :: IsRun(s, events) && OnlySends(events) ==> !Exec(s, events).panicked
  }

  ghost predicate OnlySends(events: seq<Event>) {
    forall e :: e in events ==> e.Send?
  }

  lemma {:induction false} SendsStayOpen(s: State, events: seq<Event>)
    requires Consistent(s) && AllOpen(s) && IsRun(s, events) && OnlySends(events)
    ensures Consistent(Exec(s, events)) && AllOpen(Exec(s, events))
  {
    hide Consistent, AllOpen, Apply, Enabled;
    if events == [] {
    } else {
      var front, last := events[..|events| - 1], events[|events| - 1];
      assert last in events && last.Send?;
      assert OnlySends(front);
      SendsStayOpen(s, front);
      StepKeepsConsistent(Exec(s, front), last);
      StepKeepsOpen(Exec(s, front), last);
    }
  }

  lemma OpenIsSafe(s: State)
    requires Consistent(s) && !s.panicked
    ensures SendsSafely(s) <==> AllOpen(s)
  {
    if AllOpen(s) {
      forall events: seq<Event> | IsRun(s, events) && OnlySends(events)
        ensures !Exec(s, events).panicked
      {
        SendsStayOpen(s, events);
      }
    } else {
      var broadcast :| broadcast in s.pending && s.pending[broadcast] * s.closed != {};
      var ch :| ch in s.pending[broadcast] * s.closed;
      var events := [Send(broadcast, ch)];
      assert events[..0] == [];
      assert Exec(s, events[..0]) == s && ch in s.closed;
      assert Exec(s, events) == Apply(s, Send(broadcast, ch));
      assert IsRun(s, events) && OnlySends(events) && Exec(s, events).panicked;
    }
  }

  ghost predicate NoneClosesPending(events: seq<Event>) {
    events == [] ||
    (NoneClosesPending(events[..|events| - 1])
      && !ClosesPending(Exec(INITIAL, events[..|events| - 1]), events[|events| - 1]))
  }

  ghost predicate AlwaysSafe(events: seq<Event>) {
    !Exec(INITIAL, events).panicked && SendsSafely(Exec(INITIAL, events))
      && (events != [] ==> AlwaysSafe(events[..|events| - 1]))
  }

  lemma {:induction false} RunKeepsConsistent(events: seq<Event>)
    requires IsRun(INITIAL, events)
    ensures Consistent(Exec(INITIAL, events))
  {
    hide Apply, Enabled;
    if events == [] {
    } else {
      RunKeepsConsistent(events[..|events| - 1]);
      StepKeepsConsistent(Exec(INITIAL, events[..|events| - 1]), events[|events| - 1]);
    }
  }

  /** Whatever broadcasts, subscriptions and clean-ups overlap: no send ever meets a closed channel, or could meet one
      from then on, exactly when no channel is closed between its collection and its send. */
  lemma {:induction false} NoSendPanics(events: seq<Event>)
    requires IsRun(INITIAL, events)
    ensures AlwaysSafe(events) <==> NoneClosesPending(events)
    ensures NoneClosesPending(events) ==> AllOpen(Exec(INITIAL, events))
  {
    hide Consistent, AllOpen, SendsSafely, Apply, Enabled, ClosesPending;
    var s := Exec(INITIAL, events);
    RunKeepsConsistent(events);
    if !s.panicked {
      OpenIsSafe(s);
    }
    if events == [] {
      assert AllOpen(INITIAL) by {
        NothingPending();
      }
    } else {
      var front := events[..|events| - 1];
      NoSendPanics(front);
      RunKeepsConsistent(front);
      if NoneClosesPending(front) {
        StepKeepsOpen(Exec(INITIAL, front), events[|events| - 1]);
      }
      OpenIsQuiet(s);
    }
  }

  lemma NothingPending()
    ensures AllOpen(INITIAL)
  {
  }

  lemma OpenIsQuiet(s: State)
    ensures AllOpen(s) ==> !s.panicked
  {
  }

  /** Such a run: a reader leaves while a broadcast is on its way to it. */
  lemma ReaderLeaves(job: string)
    ensures var run := [Subscribe(job), Collect(0, job), Unsubscribe(job, 0), Send(0, 0)];
            IsRun(INITIAL, run) && Exec(INITIAL, run).panicked
  {
    var run := [Subscribe(job), Collect(0, job), Unsubscribe(job, 0), Send(0, 0)];
    var subscribed := INITIAL.(subs := map[job := {0}], next := 1);
    var collected := subscribed.(pending := map[0 := {0}]);
    assert {} + {0} == {0};
    assert Apply(INITIAL, run[0]) == subscribed && Apply(subscribed, run[1]) == collected;
    var left := Apply(collected, run[2]);
    assert Enabled(left, run[3]) && 0 in left.closed;
    assert run[..4][..3] == run[..3] && run[..3][..2] == run[..2] && run[..2][..1] == run[..1] && run[..1][..0] == [];
    assert run[..4] == run;
    assert Exec(INITIAL, run[..1]) == subscribed && IsRun(INITIAL, run[..1]);
    assert Exec(INITIAL, run[..2]) == collected && IsRun(INITIAL, run[..2]);
    assert Exec(INITIAL, run[..3]) == left && IsRun(INITIAL, run[..3]);
  }
}
