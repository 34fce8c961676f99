/** What holds over whole runs of the job engine: the queue, recovery, and runs whose context is done. */
module EngineRuns {
  import opened Sequences
  import opened Jobs
  import opened JobStore
  import opened EngineMachine
  import opened EngineInvariant

  // ----- every reachable state is consistent -----

  lemma {:induction false} RunKeepsConsistent(s: State, events: seq<Event>)
    requires Consistent(s) && IsRun(s, events)
    ensures Consistent(Exec(s, events))
  {
    hide Consistent, Apply, Enabled;
    if events == [] {
    } else {
      var front := events[..|events| - 1];
      RunKeepsConsistent(s, front);
      StepKeepsConsistent(Exec(s, front), events[|events| - 1]);
    }
  }

  lemma InitialConsistent()
    ensures Consistent(INITIAL) && QueueExact(INITIAL)
  {
  }

  lemma ReachableConsistent(events: seq<Event>)
    requires IsRun(INITIAL, events)
    ensures Consistent(Exec(INITIAL, events))
  {
    hide Consistent, Apply, Enabled, IsRun, Exec;
    InitialConsistent();
    RunKeepsConsistent(INITIAL, events);
  }

  lemma OneStep(s: State, a: Event)
    ensures Exec(s, [a]) == Apply(s, a)
    ensures IsRun(s, [a]) <==> Enabled(s, a)
  {
    assert [a][..0] == [];
  }

  lemma TwoSteps(s: State, a: Event, b: Event)
    ensures Exec(s, [a, b]) == Apply(Apply(s, a), b)
    ensures Enabled(s, a) && Enabled(Apply(s, a), b) ==> IsRun(s, [a, b])
  {
    assert [a, b][..1] == [a];
    OneStep(s, a);
  }

  lemma ThreeSteps(s: State, a: Event, b: Event, c: Event)
    ensures Exec(s, [a, b, c]) == Apply(Apply(Apply(s, a), b), c)
    ensures Enabled(s, a) && Enabled(Apply(s, a), b) && Enabled(Apply(Apply(s, a), b), c) ==> IsRun(s, [a, b, c])
  {
    assert [a, b, c][..2] == [a, b];
    TwoSteps(s, a, b);
  }

  /** One more step at the end of a run. */
  lemma StepOn(s: State, events: seq<Event>, e: Event)
    ensures Exec(s, events + [e]) == Apply(Exec(s, events), e)
    ensures IsRun(s, events + [e]) <==> IsRun(s, events) && Enabled(Exec(s, events), e)
  {
    hide Apply, Enabled;
    assert (events + [e])[..|events|] == events;
  }

  lemma {:induction false} SplitRun(s: State, before: seq<Event>, after: seq<Event>)
    requires IsRun(s, before + after)
    ensures IsRun(s, before) && IsRun(Exec(s, before), after)
  {
    hide Apply, Enabled;
    var all := before + after;
    if after == [] {
      assert all == before;
    } else {
      var front := after[..|after| - 1];
      assert all[..|all| - 1] == before + front;
      SplitRun(s, before, front);
      ExecJoin(s, before, front);
    }
  }

  lemma {:induction false} ExecJoin(s: State, before: seq<Event>, after: seq<Event>)
    ensures Exec(s, before + after) == Exec(Exec(s, before), after)
  {
    hide Apply, Enabled;
    if after == [] {
      assert before + after == before;
    } else {
      var all := before + after;
      assert all[..|all| - 1] == before + after[..|after| - 1];
      ExecJoin(s, before, after[..|after| - 1]);
    }
  }

  /** One run after another. */
  lemma {:induction false} JoinRuns(s: State, before: seq<Event>, after: seq<Event>)
    requires IsRun(s, before) && IsRun(Exec(s, before), after)
    ensures IsRun(s, before + after)
  {
    hide Apply, Enabled;
    if after == [] {
      assert before + after == before;
    } else {
      var front := after[..|after| - 1];
      assert before + after == before + front + [after[|front|]];
      JoinRuns(s, before, front);
      ExecJoin(s, before, front);
      StepOn(s, before + front, after[|front|]);
    }
  }

  // ----- the queue -----

  /** No step of the run saves a cancelled record for a job that is still queued. */
  ghost predicate NoBadSave(s: State, events: seq<Event>) {
    events == [] ||
    (NoBadSave(s, events[..|events| - 1]) && !BadSave(Exec(s, events[..|events| - 1]), events[|events| - 1]))
  }

  /** After every step of the run, all queued jobs are stored as queued. */
  ghost predicate QueueAlwaysExact(s: State, events: seq<Event>) {
    QueueExact(Exec(s, events)) && (events != [] ==> QueueAlwaysExact(s, events[..|events| - 1]))
  }

  lemma {:induction false} QueueExactExactly(s: State, events: seq<Event>)
    requires Consistent(s) && QueueExact(s) && IsRun(s, events)
    ensures QueueAlwaysExact(s, events) <==> NoBadSave(s, events)
  {
    hide Consistent, QueueExact, Apply, Enabled, BadSave;
    if events == [] {
    } else {
      var front := events[..|events| - 1];
      QueueExactExactly(s, front);
      RunKeepsConsistent(s, front);
      if QueueAlwaysExact(s, front) {
        assert QueueExact(Exec(s, front));
        StepKeepsQueueExact(Exec(s, front), events[|events| - 1]);
      }
    }
  }

  /** In every reachable state each queued job appears in the queue once and is stored as queued or cancelled; it is
      stored as queued throughout exactly when no cancel saves its record past a queue that still holds the job. */
  lemma QueueHoldsQueuedJobs(events: seq<Event>)
    requires IsRun(INITIAL, events)
    ensures var s := Exec(INITIAL, events);
            && Distinct(JobIds(s.queue))
            && (forall id :: id in JobIds(s.queue) ==> Stored(s, id, Queued) || Stored(s, id, Cancelled))
    ensures QueueAlwaysExact(INITIAL, events) <==> NoBadSave(INITIAL, events)
  {
    hide Exec, IsRun, QueueExact, QueueAlwaysExact, NoBadSave;
    InitialConsistent();
    ReachableConsistent(events);
    QueueExactExactly(INITIAL, events);
  }

  // ----- a cancel call on a queued job -----

  function CancelCall(id: string, removed: bool, now: int, saved: bool): seq<Event> {
    [BeginCancel(id), CancelAct(removed), CancelSave(now, saved)]
  }

  lemma CancelLoads(s: State, id: string)
    requires !s.phase.Recovering? && s.api.Ready? && id in s.rows && !s.rows[id].doc.status.IsTerminal()
    ensures Enabled(s, BeginCancel(id)) && Apply(s, BeginCancel(id)) == s.(api := CancelLoaded(s.rows[id].doc))
  {
  }

  lemma QueuedCancelActs(s: State, ok: bool)
    requires s.api.CancelLoaded? && s.api.job.status == Queued
    ensures Enabled(s, CancelAct(ok))
    ensures Apply(s, CancelAct(ok))
            == s.(api := CancelActed(s.api.job), queue := if ok then Without(s.queue, s.api.job.id) else s.queue)
  {
  }

  lemma CancelSaved(s: State, now: int, ok: bool)
    requires s.api.CancelActed?
    ensures Enabled(s, CancelSave(now, ok))
    ensures Apply(s, CancelSave(now, ok))
            == s.(api := Ready,
              rows := if ok then Saved(s.rows, s.api.job.(status := Cancelled, finishedAt := Some(now))) else s.rows)
  {
  }

  /** Its three steps, with no other step in between. */
  lemma CancelQueued(s: State, id: string, removed: bool, now: int, saved: bool)
    requires ColumnsAgree(s.rows) && !s.phase.Recovering? && s.api.Ready? && Stored(s, id, Queued)
    ensures IsRun(s, CancelCall(id, removed, now, saved))
    ensures Exec(s, CancelCall(id, removed, now, saved))
            == s.(rows := if saved then Saved(s.rows, s.rows[id].doc.(status := Cancelled, finishedAt := Some(now)))
                          else s.rows,
                  queue := if removed then Without(s.queue, id) else s.queue)
  {
    hide Apply, Enabled, Exec, IsRun;
    CancelLoads(s, id);
    var loaded := Apply(s, BeginCancel(id));
    QueuedCancelActs(loaded, removed);
    CancelSaved(Apply(loaded, CancelAct(removed)), now, saved);
    ThreeSteps(s, BeginCancel(id), CancelAct(removed), CancelSave(now, saved));
  }

  /** If the queue cannot delete the row and the save succeeds, the cancelled job stays queued. */
  lemma RemovalFaultBreaksQueue(s: State, id: string, now: int)
    requires Consistent(s) && !s.phase.Recovering? && s.api.Ready? && QueueExact(s) && id in JobIds(s.queue)
    ensures var after := Exec(s, CancelCall(id, false, now, true));
            IsRun(s, CancelCall(id, false, now, true)) && id in JobIds(after.queue) && Stored(after, id, Cancelled)
  {
    assert Stored(s, id, Queued);
    CancelQueued(s, id, false, now, true);
  }

  // ----- the states that the failures below start from are reached -----

  /** The worker holds a job that is stored as queued, and its next save goes through. */
  predicate Exposed(s: State, id: string) {
    s.phase.Up? && s.api.Ready? && !s.parentDone && Stored(s, id, Queued) && MayWrite(s, id)
  }

  function IntoWindow(req: JobRequest, id: string, now: int): (run: seq<Event>)
    ensures |run| == 6
  {
    [RestartBlind, Submit(req, id, now, true), EnqueueSubmitted(true), Dequeue, Register, MarkRunning(now, false)]
  }

  function SubmittedState(job: Job): State {
    INITIAL.(phase := Up, rows := Saved(map[], job), queue := [job])
  }

  function TakenState(job: Job): State {
    SubmittedState(job).(queue := [], worker := Dequeued(job))
  }

  function RegisteredState(job: Job): State {
    TakenState(job).(worker := Registered(job, 0), runningJobs := map[job.id := 0], cancels := map[job.id := 0],
      nextRun := 1)
  }

  function UnsavedState(job: Job, now: int): State {
    RegisteredState(job).(worker := Executing(job.(status := Running, startedAt := Some(now)), 0))
  }

  lemma SubmittedIsReached(req: JobRequest, id: string, now: int)
    requires id != ""
    ensures IsRun(INITIAL, IntoWindow(req, id, now)[..3])
    ensures Exec(INITIAL, IntoWindow(req, id, now)[..3]) == SubmittedState(NewJob(req, id, now))
  {
    var job := NewJob(req, id, now);
    assert IntoWindow(req, id, now)[..3] == [RestartBlind, Submit(req, id, now, true), EnqueueSubmitted(true)];
    var up := Apply(INITIAL, RestartBlind);
    assert up == INITIAL.(phase := Up);
    var saved := Apply(up, Submit(req, id, now, true));
    assert saved == up.(rows := Saved(map[], job), api := SubmitSaved(job));
    assert Apply(saved, EnqueueSubmitted(true)) == SubmittedState(job) by {
      assert [] + [job] == [job];
    }
    ThreeSteps(INITIAL, RestartBlind, Submit(req, id, now, true), EnqueueSubmitted(true));
  }

  lemma WindowSteps(job: Job, now: int)
    requires job.id != "" && job.status == Queued
    ensures var s, t, u := SubmittedState(job), TakenState(job), RegisteredState(job);
            && Enabled(s, Dequeue) && Apply(s, Dequeue) == t && Exposed(t, job.id)
            && Enabled(t, Register) && Apply(t, Register) == u && Exposed(u, job.id)
            && Enabled(u, MarkRunning(now, false)) && Apply(u, MarkRunning(now, false)) == UnsavedState(job, now)
            && Exposed(UnsavedState(job, now), job.id)
  {
  }

  /** A queued job is reached, and then the same job in the worker's hand: taken, registered, and executing after a
      first save that failed. */
  lemma WindowIsReached(req: JobRequest, id: string, now: int)
    requires id != ""
    ensures var run := IntoWindow(req, id, now);
            && IsRun(INITIAL, run)
            && JobIds(Exec(INITIAL, run[..3]).queue) == [id] && Stored(Exec(INITIAL, run[..3]), id, Queued)
            && Exec(INITIAL, run[..4]).worker.Dequeued? && Exposed(Exec(INITIAL, run[..4]), id)
            && Exec(INITIAL, run[..5]).worker.Registered? && Exposed(Exec(INITIAL, run[..5]), id)
            && Exec(INITIAL, run).worker.Executing? && Exposed(Exec(INITIAL, run), id)
  {
    hide Apply, Enabled, Exec, IsRun, Exposed;
    var run, job := IntoWindow(req, id, now), NewJob(req, id, now);
    SubmittedIsReached(req, id, now);
    WindowSteps(job, now);
    assert run[..4] == run[..3] + [Dequeue] && run[..5] == run[..4] + [Register]
           && run == run[..5] + [MarkRunning(now, false)];
    StepOn(INITIAL, run[..3], Dequeue);
    StepOn(INITIAL, run[..4], Register);
    StepOn(INITIAL, run[..5], MarkRunning(now, false));
  }

  // ----- recovery -----

  ghost predicate RecoverySaves(events: seq<Event>) {
    forall i :: 0 <= i < |events| && events[i].RecoverSave? ==> events[i].ok
  }

  predicate MissesNothing(s: State) {
    s.phase.Recovering? ==> s.phase.missed == {}
  }

  lemma StepMissesNothing(s: State, e: Event)
    requires MissesNothing(s) && Enabled(s, e) && (e.RecoverSave? ==> e.ok)
    ensures MissesNothing(Apply(s, e))
  {
    hide IsListing;
    if !IsSystemEvent(e) {
      assert Apply(s, e).phase == s.phase;
    }
  }

  lemma {:induction false} RunMissesNothing(s: State, events: seq<Event>)
    requires IsRun(s, events) && RecoverySaves(events) && MissesNothing(s)
    ensures MissesNothing(Exec(s, events))
  {
    hide Enabled, Apply, MissesNothing;
    if events == [] {
    } else {
      RunMissesNothing(s, events[..|events| - 1]);
      StepMissesNothing(Exec(s, events[..|events| - 1]), events[|events| - 1]);
    }
  }

  lemma RecoveryEnds(s: State)
    requires PhaseConsistent(s) && Enabled(s, RecoverDone)
    ensures s.phase.Recovering? && forall id :: Stored(Apply(s, RecoverDone), id, Running) <==> id in s.phase.missed
  {
    assert JobIds(s.phase.todo) == [];
  }

  /** With failing saves, exactly the jobs whose save failed still load as running. */
  lemma RecoveryMisses(events: seq<Event>)
    requires IsRun(INITIAL, events + [RecoverDone])
    ensures Exec(INITIAL, events).phase.Recovering?
    ensures forall id :: Stored(Exec(INITIAL, events + [RecoverDone]), id, Running) <==>
            id in Exec(INITIAL, events).phase.missed
  {
    hide Enabled, Apply, Stored;
    var all := events + [RecoverDone];
    assert all[..|all| - 1] == events;
    ReachableConsistent(events);
    RecoveryEnds(Exec(INITIAL, events));
  }

  /** When recovery ends with its saves done, no job loads as running. */
  lemma RecoveryLeavesNothingRunning(events: seq<Event>)
    requires IsRun(INITIAL, events + [RecoverDone]) && RecoverySaves(events)
    ensures var s := Exec(INITIAL, events + [RecoverDone]);
            forall id :: id in s.rows ==> s.rows[id].doc.status != Running
  {
    hide Enabled, Apply;
    assert (events + [RecoverDone])[..|events|] == events;
    RecoveryMisses(events);
    RunMissesNothing(INITIAL, events);
    var s := Exec(INITIAL, events + [RecoverDone]);
    assert forall id :: id in s.rows ==> !Stored(s, id, Running);
  }

  function RecoverSaves(saves: seq<bool>): seq<Event> {
    if saves == [] then [] else RecoverSaves(saves[..|saves| - 1]) + [RecoverSave(saves[|saves| - 1])]
  }

  /** The rows after the first saves of a recovery. */
  function PausedRows(rows: Rows, listed: seq<Job>, saves: seq<bool>): Rows
    requires |saves| <= |listed|
  {
    if saves == [] then rows
    else
      var n := |saves| - 1;
      var front := PausedRows(rows, listed, saves[..n]);
      if saves[n] then Saved(front, listed[n].(status := Paused)) else front
  }

  lemma RecoverSaveRows(s: State, ok: bool)
    requires Enabled(s, RecoverSave(ok))
    ensures var t := Apply(s, RecoverSave(ok));
            && s.phase.Recovering? && s.phase.todo != [] && t.phase.Recovering? && t.phase.todo == s.phase.todo[1..]
            && t.rows == if ok then Saved(s.rows, s.phase.todo[0].(status := Paused)) else s.rows
  {
  }

  lemma {:induction false} RecoveryRows(s: State, listed: seq<Job>, saves: seq<bool>)
    requires s.phase == Recovering(listed, {}) && IsRun(s, RecoverSaves(saves))
    ensures |saves| <= |listed|
    ensures var t := Exec(s, RecoverSaves(saves));
            t.phase.Recovering? && t.phase.todo == listed[|saves|..] && t.rows == PausedRows(s.rows, listed, saves)
  {
    hide Apply, Enabled, IsRun, Exec;
    if saves == [] {
      NoRecoverSaves(s);
    } else {
      var n := |saves| - 1;
      var front := saves[..n];
      StepOn(s, RecoverSaves(front), RecoverSave(saves[n]));
      RecoveryRows(s, listed, front);
      RecoverSaveRows(Exec(s, RecoverSaves(front)), saves[n]);
      assert listed[n..][1..] == listed[n + 1..];
    }
  }

  lemma NoRecoverSaves(s: State)
    ensures Exec(s, RecoverSaves([])) == s
  {
  }

  lemma {:induction false} PausedRowsAt(rows: Rows, listed: seq<Job>, saves: seq<bool>, id: string)
    requires |saves| <= |listed| && Distinct(JobIds(listed))
    requires forall j :: j in listed ==> j.id in rows
    ensures PausedRows(rows, listed, saves).Keys == rows.Keys
    ensures (forall i :: 0 <= i < |saves| && listed[i].id == id ==> !saves[i]) ==>
              id in rows ==> PausedRows(rows, listed, saves)[id] == rows[id]
    ensures forall i :: 0 <= i < |saves| && listed[i].id == id && saves[i] ==>
              id in rows && PausedRows(rows, listed, saves)[id].doc == listed[i].(status := Paused)
  {
    if saves == [] {
    } else {
      var n := |saves| - 1;
      PausedRowsAt(rows, listed, saves[..n], id);
      assert JobIds(listed)[n] == listed[n].id;
      assert forall i :: 0 <= i < n ==> JobIds(listed)[i] != JobIds(listed)[n];
    }
  }

  function WholeRecovery(listed: seq<Job>, saves: seq<bool>): seq<Event> {
    [Restart(listed)] + RecoverSaves(saves) + [RecoverDone]
  }

  lemma WholeRecoveryRows(s: State, listed: seq<Job>, saves: seq<bool>)
    requires IsRun(s, WholeRecovery(listed, saves))
    ensures Enabled(s, Restart(listed)) && |saves| == |listed|
    ensures Exec(s, WholeRecovery(listed, saves)).rows == PausedRows(s.rows, listed, saves)
  {
    hide IsRun, Exec, Enabled, PausedRows;
    var steps, restarted := RecoverSaves(saves), Apply(s, Restart(listed));
    assert restarted == s.(phase := Recovering(listed, {}));
    hide Apply;
    SplitRun(s, [Restart(listed)] + steps, [RecoverDone]);
    SplitRun(s, [Restart(listed)], steps);
    ExecJoin(s, [Restart(listed)] + steps, [RecoverDone]);
    ExecJoin(s, [Restart(listed)], steps);
    OneStep(s, Restart(listed));
    RecoveryRows(restarted, listed, saves);
    OneStep(Exec(restarted, steps), RecoverDone);
    DoneLeavesRows(Exec(restarted, steps));
  }

  /** The record of the job at position `i` of the listing. */
  predicate PausedIf(saved: bool, before: Row, after: Row) {
    if saved then after.doc == before.doc.(status := Paused) else after == before
  }

  /** A whole recovery: a job that was stored as running is paused if its save goes through, and every other record,
      queued ones included, stays as it is. */
  lemma RecoveryPausesRunning(s: State, listed: seq<Job>, saves: seq<bool>, id: string)
    requires Consistent(s) && IsRun(s, WholeRecovery(listed, saves)) && id in s.rows
    ensures var rows := Exec(s, WholeRecovery(listed, saves)).rows;
            && |saves| == |listed| && id in rows
            && (!Stored(s, id, Running) ==> rows[id] == s.rows[id])
            && (Stored(s, id, Running) ==>
                  exists i :: 0 <= i < |listed| && listed[i] == s.rows[id].doc
                    && PausedIf(saves[i], s.rows[id], rows[id]))
  {
    hide IsRun, Exec, Apply, Enabled, PausedRows, WholeRecovery, Consistent;
    WholeRecoveryRows(s, listed, saves);
    RestartLists(s, listed);
    PausedRowsAt(s.rows, listed, saves, id);
    if Stored(s, id, Running) {
      var i :| 0 <= i < |listed| && listed[i] == s.rows[id].doc;
      OnlyListedOnce(listed, i);
      assert PausedIf(saves[i], s.rows[id], PausedRows(s.rows, listed, saves)[id]);
    }
  }

  lemma OnlyListedOnce(listed: seq<Job>, i: nat)
    requires Distinct(JobIds(listed)) && i < |listed|
    ensures forall j :: 0 <= j < |listed| && listed[j].id == listed[i].id ==> j == i
  {
    assert JobIds(listed)[i] == listed[i].id;
    assert forall j :: 0 <= j < |listed| ==> JobIds(listed)[j] == listed[j].id;
  }

  lemma RestartLists(s: State, listed: seq<Job>)
    requires Consistent(s) && Enabled(s, Restart(listed))
    ensures Apply(s, Restart(listed)) == s.(phase := Recovering(listed, {}))
    ensures Distinct(JobIds(listed)) && (forall j :: j in listed ==> Stored(s, j.id, Running) && s.rows[j.id].doc == j)
    ensures forall id :: Stored(s, id, Running) ==> s.rows[id].doc in listed && s.rows[id].doc.id == id
  {
    StepKeepsConsistent(s, Restart(listed));
  }

  lemma DoneLeavesRows(s: State)
    requires Enabled(s, RecoverDone)
    ensures Apply(s, RecoverDone).rows == s.rows && s.phase.Recovering? && s.phase.todo == []
  {
  }

  // ----- a cancelled run is silent -----

  predicate HasRun(w: Worker, run: nat) {
    (w.Registered? || w.Executing? || w.Finishing?) && w.run == run
  }

  /** Run `run` is over or its context is done. */
  predicate Silent(s: State, run: nat) {
    run < s.nextRun && (HasRun(s.worker, run) ==> ContextIsDone(s, run))
  }

  lemma SilentStep(s: State, e: Event, run: nat)
    requires Silent(s, run) && Enabled(s, e)
    ensures Silent(Apply(s, e), run)
  {
    if !IsWorkerEvent(e) && !IsSystemEvent(e) {
      assert Apply(s, e).worker == s.worker && Apply(s, e).nextRun == s.nextRun && s.cancelled <= Apply(s, e).cancelled;
    }
  }

  lemma {:induction false} StaysSilent(s: State, events: seq<Event>, run: nat)
    requires Silent(s, run) && IsRun(s, events)
    ensures Silent(Exec(s, events), run)
  {
    hide Silent, Apply, Enabled;
    if events == [] {
    } else {
      StaysSilent(s, events[..|events| - 1], run);
      SilentStep(Exec(s, events[..|events| - 1]), events[|events| - 1], run);
    }
  }

  lemma DoneContextWritesNothing(s: State, e: Event)
    requires IsWorkerEvent(e)
             && ((s.worker.Registered? || s.worker.Executing? || s.worker.Finishing?) ==>
                ContextIsDone(s, s.worker.run))
    ensures Apply(s, e).rows == s.rows && Apply(s, e).logs == s.logs
  {
  }

  /** Once its context is done, no later step of a run changes the store, whatever happens in between. */
  lemma CancelledRunIsSilent(s: State, events: seq<Event>, run: nat, e: Event)
    requires run < s.nextRun && ContextIsDone(s, run)
    requires IsRun(s, events) && IsWorkerEvent(e)
    requires HasRun(Exec(s, events).worker, run)
    ensures var now := Exec(s, events); Apply(now, e).rows == now.rows && Apply(now, e).logs == now.logs
  {
    hide Apply, Enabled, IsRun, Exec;
    StaysSilent(s, events, run);
    DoneContextWritesNothing(Exec(s, events), e);
  }
}
