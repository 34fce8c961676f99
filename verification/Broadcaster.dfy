/** The progress broadcaster: bounded channels that are closed exactly when they stop being registered. */
module Broadcaster {
  import opened Sequences
  import opened Jobs

  const CAPACITY: nat := 16

  /** A channel's buffer, what has entered it, what its reader has taken out, and how many sends met a full buffer. */
  datatype ChannelState = ChannelState(buffer: seq<JobProgress>, accepted: seq<JobProgress>, received: seq<JobProgress>,
    drops: nat)

  const FRESH := ChannelState([], [], [], 0)

  /** A send that gives up when the buffer is full. */
  function AfterSend(c: ChannelState, progress: JobProgress): ChannelState {
    if |c.buffer| >= CAPACITY then c.(drops := c.drops + 1)
    else c.(buffer := c.buffer + [progress], accepted := c.accepted + [progress])
  }

  function AfterReceive(c: ChannelState): ChannelState {
    if c.buffer == [] then c else c.(buffer := c.buffer[1..], received := c.received + [c.buffer[0]])
  }

  /** The updates that were broadcast for `job` after the first `since` broadcasts. */
  function SentSince(broadcasts: seq<(string, JobProgress)>, since: nat, job: string): seq<JobProgress> {
    if |broadcasts| <= since then []
    else
      var n := |broadcasts| - 1;
      SentSince(broadcasts[..n], since, job) + if broadcasts[n].0 == job then [broadcasts[n].1] else []
  }

  /** The reader sees a bounded, ordered selection of what was sent for its job since it subscribed. */
  ghost predicate SeesInOrder(c: ChannelState, broadcasts: seq<(string, JobProgress)>, since: nat, job: string) {
    && |c.buffer| <= CAPACITY && since <= |broadcasts|
    && c.accepted == c.received + c.buffer
    && IsSubsequence(c.accepted, SentSince(broadcasts, since, job))
  }

  /** Every update for its job has entered the channel or met a full buffer. */
  ghost predicate AccountsForAll(c: ChannelState, broadcasts: seq<(string, JobProgress)>, since: nat, job: string) {
    |c.accepted| + c.drops == |SentSince(broadcasts, since, job)|
  }

  lemma SubscribedInOrder(broadcasts: seq<(string, JobProgress)>, job: string)
    ensures SeesInOrder(FRESH, broadcasts, |broadcasts|, job) && AccountsForAll(FRESH, broadcasts, |broadcasts|, job)
  {
  }

  lemma SendKeepsOrder(c: ChannelState, broadcasts: seq<(string, JobProgress)>, since: nat, job: string,
                       progress: JobProgress)
    requires SeesInOrder(c, broadcasts, since, job)
    ensures SeesInOrder(AfterSend(c, progress), broadcasts + [(job, progress)], since, job)
    ensures AccountsForAll(c, broadcasts, since, job) ==>
              AccountsForAll(AfterSend(c, progress), broadcasts + [(job, progress)], since, job)
  {
    var more := broadcasts + [(job, progress)];
    var sent, after := SentSince(broadcasts, since, job), AfterSend(c, progress);
    assert more[..|broadcasts|] == broadcasts && SentSince(more, since, job) == sent + [progress];
    assert (sent + [progress])[..|sent|] == sent;
    if |c.buffer| >= CAPACITY {
      SubsequenceExtend(c.accepted, sent + [progress]);
    } else {
      assert after.accepted[..|after.accepted| - 1] == c.accepted;
    }
  }

  /** A broadcast that does not reach the channel, for another job or after it was closed. */
  lemma MissedKeepsOrder(c: ChannelState, broadcasts: seq<(string, JobProgress)>, since: nat, job: string,
                         other: string, progress: JobProgress)
    requires SeesInOrder(c, broadcasts, since, job)
    ensures SeesInOrder(c, broadcasts + [(other, progress)], since, job)
    ensures AccountsForAll(c, broadcasts, since, job) && other != job ==>
              AccountsForAll(c, broadcasts + [(other, progress)], since, job)
  {
    var more := broadcasts + [(other, progress)];
    var sent := SentSince(broadcasts, since, job);
    assert more[..|broadcasts|] == broadcasts;
    if other != job {
      assert sent + [] == sent;
    } else {
      assert (sent + [progress])[..|sent|] == sent;
      SubsequenceExtend(c.accepted, sent + [progress]);
    }
  }

  lemma ReceiveKeepsOrder(c: ChannelState, broadcasts: seq<(string, JobProgress)>, since: nat, job: string)
    requires SeesInOrder(c, broadcasts, since, job)
    ensures SeesInOrder(AfterReceive(c), broadcasts, since, job)
  {
    if c.buffer != [] {
      assert c.received + c.buffer == (c.received + [c.buffer[0]]) + c.buffer[1..];
    }
  }

  /** What a reader has received is in the order of the broadcasts, whatever is still buffered. */
  lemma {:induction false} ReceivedInOrder(received: seq<JobProgress>, buffer: seq<JobProgress>, sent: seq<JobProgress>)
    requires IsSubsequence(received + buffer, sent)
    ensures IsSubsequence(received, sent)
    decreases |buffer|
  {
    if buffer == [] {
      assert received + buffer == received;
    } else {
      var n := |buffer| - 1;
      assert (received + buffer)[..|received| + n] == received + buffer[..n];
      SubsequenceDropLast(received + buffer, sent);
      ReceivedInOrder(received, buffer[..n], sent);
    }
  }

  class Channel {
    var buffer: seq<JobProgress>
    var closed: bool
    ghost var accepted: seq<JobProgress>
    ghost var received: seq<JobProgress>
    ghost var drops: nat
    ghost const job: string
    ghost const since: nat

    constructor (ghost job: string, ghost since: nat)
      ensures this.job == job && this.since == since && !closed && State() == FRESH
    {
      buffer, closed, accepted, received, drops := [], false, [], [], 0;
      this.job, this.since := job, since;
    }

    ghost function State(): ChannelState
      reads this`buffer, this`accepted, this`received, this`drops
    {
      ChannelState(buffer, accepted, received, drops)
    }

    /** Sending on a closed channel would panic. */
    method TrySend(progress: JobProgress)
      requires !closed
      modifies this`buffer, this`accepted, this`drops
      ensures State() == AfterSend(old(State()), progress)
      ensures buffer == if |old(buffer)| < 16 then old(buffer) + [progress] else old(buffer)
      ensures drops == if |old(buffer)| < 16 then old(drops) else old(drops) + 1
    {
      if |buffer| < CAPACITY {
        buffer, accepted := buffer + [progress], accepted + [progress];
      } else {
        drops := drops + 1;
      }
    }

    /** Closing twice would panic. */
    method Close()
      requires !closed
      modifies this`closed
      ensures closed
    {
      closed := true;
    }

    /** What was buffered can still be read after the close. */
    method Receive() returns (progress: Option<JobProgress>)
      modifies this`buffer, this`received
      ensures State() == AfterReceive(old(State()))
      ensures progress == if old(buffer) == [] then None else Some(old(buffer)[0])
      ensures buffer == if old(buffer) == [] then [] else old(buffer)[1..]
    {
      if |buffer| == 0 {
        return None;
      }
      progress := Some(buffer[0]);
      buffer, received := buffer[1..], received + [buffer[0]];
    }
  }

  method SendToAll(channels: set<Channel>, progress: JobProgress)
    requires forall ch :: ch in channels ==> !ch.closed
    modifies channels`buffer, channels`accepted, channels`drops
    ensures forall ch :: ch in channels ==> ch.State() == AfterSend(old(ch.State()), progress)
  {
    var rest := channels;
    while rest != {}
      invariant rest <= channels
      invariant forall ch :: ch in rest ==> ch.State() == old(ch.State())
      invariant forall ch :: ch in channels && ch !in rest ==> ch.State() == AfterSend(old(ch.State()), progress)
    {
      var ch :| ch in rest;
      ch.TrySend(progress);
      rest := rest - {ch};
    }
  }

  method CloseAll(channels: set<Channel>)
    requires forall ch :: ch in channels ==> !ch.closed
    modifies channels`closed
    ensures forall ch :: ch in channels ==> ch.closed
  {
    var rest := channels;
    while rest != {}
      invariant rest <= channels
      invariant forall ch :: ch in rest ==> !ch.closed
      invariant forall ch :: ch in channels && ch !in rest ==> ch.closed
    {
      var ch :| ch in rest;
      ch.Close();
      rest := rest - {ch};
    }
  }

  type Subscriptions = map<string, set<Channel>>

  function SubscribersOf(subscribers: Subscriptions, job: string): set<Channel> {
    if job in subscribers then subscribers[job] else {}
  }

  /** Each entry is for channels of its own job, and there are no empty entries. */
  ghost predicate WellFormed(subscribers: Subscriptions, issued: set<Channel>) {
    && (forall job :: job in subscribers ==> subscribers[job] != {})
    && (forall job, ch :: job in subscribers && ch in subscribers[job] ==> ch in issued && ch.job == job)
  }

  /** The map after channel `ch` left `job`; an entry that becomes empty goes too. */
  function Dropped(subscribers: Subscriptions, job: string, ch: Channel): Subscriptions {
    if job !in subscribers then subscribers
    else
      var subs := subscribers[job] - {ch};
      if subs == {} then subscribers - {job} else subscribers[job := subs]
  }

  lemma DroppedWellFormed(subscribers: Subscriptions, issued: set<Channel>, job: string, ch: Channel)
    requires WellFormed(subscribers, issued)
    ensures WellFormed(Dropped(subscribers, job, ch), issued)
    ensures forall other :: SubscribersOf(Dropped(subscribers, job, ch), other)
                            == SubscribersOf(subscribers, other) - if other == job then {ch} else {}
  {
  }

  lemma AddedWellFormed(subscribers: Subscriptions, issued: set<Channel>, job: string, ch: Channel)
    requires WellFormed(subscribers, issued) && ch.job == job
    ensures var more := subscribers[job := SubscribersOf(subscribers, job) + {ch}];
            && WellFormed(more, issued + {ch})
            && forall other ::
                 SubscribersOf(more, other) == SubscribersOf(subscribers, other) + if other == job then {ch} else {}
  {
  }

  lemma EntryDroppedWellFormed(subscribers: Subscriptions, issued: set<Channel>, job: string)
    requires WellFormed(subscribers, issued)
    ensures WellFormed(subscribers - {job}, issued)
    ensures forall other ::
              SubscribersOf(subscribers - {job}, other)
              == if other == job then {} else SubscribersOf(subscribers, other)
  {
  }

  class DefaultProgressBroadcaster {
    var subscribers: Subscriptions
    /** Every channel that a Subscribe call returned, and every broadcast so far. */
    ghost var issued: set<Channel>
    ghost var broadcasts: seq<(string, JobProgress)>

    ghost predicate AllInOrder()
      reads this`issued, this`broadcasts, issued`buffer, issued`accepted, issued`received, issued`drops
    {
      forall ch :: ch in issued ==> SeesInOrder(ch.State(), broadcasts, ch.since, ch.job)
    }

    /** No update for an open channel was lost but to a full buffer. */
    ghost predicate NoneForgotten()
      reads this`issued, this`broadcasts, issued`buffer, issued`accepted, issued`received, issued`drops, issued`closed
    {
      forall ch :: ch in issued && !ch.closed ==> AccountsForAll(ch.State(), broadcasts, ch.since, ch.job)
    }

    /** A channel is closed exactly when it is not registered. */
    ghost predicate ClosedWhenUnregistered()
      reads this`issued, this`subscribers, issued`closed
    {
      forall ch :: ch in issued ==> (ch.closed <==> ch !in SubscribersOf(subscribers, ch.job))
    }

    ghost predicate Valid()
      reads this, issued
    {
      WellFormed(subscribers, issued) && AllInOrder() && NoneForgotten() && ClosedWhenUnregistered()
    }

    constructor ()
      ensures Valid() && subscribers == map[] && issued == {} && broadcasts == []
    {
      subscribers, issued, broadcasts := map[], {}, [];
    }

    method Subscribe(job: string) returns (ch: Channel)
      requires Valid()
      modifies this`subscribers, this`issued
      ensures Valid() && fresh(ch) && issued == old(issued) + {ch}
      ensures subscribers == old(subscribers)[job := SubscribersOf(old(subscribers), job) + {ch}]
      ensures ch.job == job && ch.since == |broadcasts| && !ch.closed && ch.State() == FRESH
    {
      hide SeesInOrder, AccountsForAll, WellFormed;
      ch := new Channel(job, |broadcasts|);
      AddedWellFormed(subscribers, issued, job, ch);
      SubscribedInOrder(broadcasts, job);
      AddSubscriber(job, ch);
      issued := issued + {ch};
      hide SubscribersOf;
    }

    /** Makes the job's entry when it has none, and puts the channel into it. */
    method AddSubscriber(job: string, ch: Channel)
      modifies this`subscribers
      ensures subscribers == old(subscribers)[job := SubscribersOf(old(subscribers), job) + {ch}]
    {
      if job !in subscribers {
        subscribers := subscribers[job := {}];
      }
      subscribers := subscribers[job := subscribers[job] + {ch}];
    }

    method Unsubscribe(job: string, ch: Channel)
      requires Valid()
      modifies this`subscribers, ch`closed
      ensures Valid()
      ensures ch.closed == (old(ch.closed) || ch in SubscribersOf(old(subscribers), job))
      ensures subscribers == Dropped(old(subscribers), job, ch)
    {
      hide SeesInOrder, AccountsForAll;
      DroppedWellFormed(subscribers, issued, job, ch);
      if job in subscribers {
        if ch in subscribers[job] {
          ch.Close();
        }
        DropSubscriber(job, ch);
      }
    }

    /** Deletes the channel from its entry, and the entry when it is empty. */
    method DropSubscriber(job: string, ch: Channel)
      requires job in subscribers
      modifies this`subscribers
      ensures subscribers == Dropped(old(subscribers), job, ch)
    {
      var subs := subscribers[job];
      subs := subs - {ch};
      subscribers := subscribers[job := subs];
      if |subs| == 0 {
        subscribers := subscribers - {job};
      }
    }

    method Broadcast(job: string, progress: JobProgress)
      requires Valid()
      modifies this`broadcasts, SubscribersOf(subscribers, job)`buffer, SubscribersOf(subscribers, job)`accepted,
               SubscribersOf(subscribers, job)`drops
      ensures Valid()
      ensures broadcasts == old(broadcasts) + [(job, progress)]
      ensures forall ch :: ch in SubscribersOf(subscribers, job) ==> ch.State() == AfterSend(old(ch.State()), progress)
      ensures forall ch :: ch in SubscribersOf(subscribers, job) ==>
                ch.buffer == if |old(ch.buffer)| < 16 then old(ch.buffer) + [progress] else old(ch.buffer)
    {
      var channels := SubscribersOf(subscribers, job);
      SendToAll(channels, progress);
      ghost var before := broadcasts;
      broadcasts := broadcasts + [(job, progress)];
      forall ch | ch in issued
        ensures SeesInOrder(ch.State(), broadcasts, ch.since, ch.job)
        ensures !ch.closed ==> AccountsForAll(ch.State(), broadcasts, ch.since, ch.job)
      {
        if ch in channels {
          SendKeepsOrder(old(ch.State()), before, ch.since, job, progress);
        } else {
          MissedKeepsOrder(ch.State(), before, ch.since, ch.job, job, progress);
        }
      }
    }

    method Cleanup(job: string)
      requires Valid()
      modifies this`subscribers, SubscribersOf(subscribers, job)`closed
      ensures Valid()
      ensures forall ch :: ch in SubscribersOf(old(subscribers), job) ==> ch.closed
      ensures subscribers == old(subscribers) - {job}
    {
      EntryDroppedWellFormed(subscribers, issued, job);
      if job in subscribers {
        CloseAll(subscribers[job]);
        subscribers := subscribers - {job};
      }
    }

    /** A reader taking an update from a channel it got, open or closed. */
    method Read(ch: Channel) returns (progress: Option<JobProgress>)
      requires Valid() && ch in issued
      modifies ch`buffer, ch`received
      ensures Valid()
      ensures ch.State() == AfterReceive(old(ch.State()))
      ensures progress == if old(ch.buffer) == [] then None else Some(old(ch.buffer)[0])
      ensures ch.buffer == if old(ch.buffer) == [] then [] else old(ch.buffer)[1..]
    {
      ReceiveKeepsOrder(ch.State(), broadcasts, ch.since, ch.job);
      progress := ch.Receive();
    }
  }

  /** Whatever happened so far, each reader has seen an ordered selection of its job's broadcasts since it
      subscribed. */
  lemma ReadersSeeOrder(b: DefaultProgressBroadcaster, ch: Channel)
    requires b.Valid() && ch in b.issued
    ensures |ch.buffer| <= CAPACITY
    ensures IsSubsequence(ch.received, SentSince(b.broadcasts, ch.since, ch.job))
    ensures ch.closed <==> forall job :: job in b.subscribers ==> ch !in b.subscribers[job]
  {
    ReceivedInOrder(ch.received, ch.buffer, SentSince(b.broadcasts, ch.since, ch.job));
  }

  /** An open channel whose buffer was never full at a send has every update of its job, in order. */
  lemma NothingMissed(b: DefaultProgressBroadcaster, ch: Channel)
    requires b.Valid() && ch in b.issued && !ch.closed && ch.drops == 0
    ensures ch.received + ch.buffer == SentSince(b.broadcasts, ch.since, ch.job)
  {
    FullSubsequence(ch.accepted, SentSince(b.broadcasts, ch.since, ch.job));
  }

  /** What was sent since a channel was made: in order, and all of it for its job. */
  lemma {:induction false} SentSinceMeans(broadcasts: seq<(string, JobProgress)>, since: nat, job: string, i: nat)
    requires since <= i < |broadcasts|
    ensures SentSince(broadcasts, since, job) == SentSince(broadcasts[..i], since, job)
            + (if broadcasts[i].0 == job then [broadcasts[i].1] else []) + SentSince(broadcasts, i + 1, job)
    decreases |broadcasts|
  {
    var n := |broadcasts| - 1;
    if i < n {
      SentSinceMeans(broadcasts[..n], since, job, i);
      assert broadcasts[..n][..i] == broadcasts[..i];
    }
  }
}
