/** When the engine loses a job: the record says queued, and nothing will ever take it up. */
module EngineLosses {
  import opened Sequences
  import opened Jobs
  import opened JobStore
  import opened EngineMachine
  import opened EngineInvariant
  import opened EngineRuns
  import opened EngineRecords

  /** Stored as queued, but not in the queue, in no call, and not with a worker that can still save it. */
  predicate Lost(s: State, id: string) {
    Stored(s, id, Queued) && OutOfDanger(s, id)
  }

  /** The worker has the job and its next save goes through. */
  predicate Held(s: State, id: string) {
    MayWrite(s, id) && !s.parentDone
  }

  /** The step leaves the record as queued and takes away the last thing that still had the job: a call that fails at
      its last write, a run that cannot save its end, a context that is done before the run has saved anything, a
      crash. */
  predicate Loses(s: State, e: Event, id: string) {
    Stored(s, id, Queued) && id !in JobIds(s.queue) &&
    match e
    case SaveFailedSubmission(ok) => !ok && ApiTouches(s, id) && !Held(s, id)
    case ResumeEnqueue(ok) => !ok && ApiTouches(s, id) && !Held(s, id)
    case CancelSave(_, ok) => !ok && ApiTouches(s, id) && !Held(s, id)
    case Finish(_, _, ok) => !ok && Held(s, id) && !ApiTouches(s, id)
    case FailCreation(_, _, ok) => !ok && Held(s, id) && !ApiTouches(s, id)
    case CancelParent => !ApiTouches(s, id)
    case ForceCancel => id in s.runningJobs && !ApiTouches(s, id)
    case Crash => true
    case _ => false
  }

  ghost predicate LosesNothing(s: State, e: Event) {
    forall id :: !Loses(s, e, id)
  }

  // ----- one step -----

  lemma StillHeld(s: State, e: Event, id: string)
    requires WorkerConsistent(s) && Enabled(s, e) && IsWorkerEvent(e) && !e.Dequeue?
    requires !Lost(s, id)
    ensures Lost(Apply(s, e), id) <==> Loses(s, e, id)
  {
  }

  lemma DequeueHolds(s: State, id: string)
    requires Enabled(s, Dequeue) && !Lost(s, id)
    ensures !Lost(Apply(s, Dequeue), id)
  {
    assert JobIds(s.queue) == [s.queue[0].id] + JobIds(s.queue[1..]);
  }

  lemma StopLoses(s: State, e: Event, id: string)
    requires WorkerConsistent(s) && (e.CancelParent? || e.ForceCancel? || e.Crash?)
    requires !Lost(s, id)
    ensures Lost(Apply(s, e), id) <==> Loses(s, e, id)
  {
    if e.ForceCancel? && id in s.runningJobs {
      assert s.runningJobs[id] in Apply(s, e).cancelled;
    }
  }

  lemma RestartLoses(s: State, e: Event, id: string)
    requires Enabled(s, e) && IsSystemEvent(e) && !e.CancelParent? && !e.ForceCancel? && !e.Crash?
    requires !Lost(s, id)
    ensures Lost(Apply(s, e), id) <==> Loses(s, e, id)
  {
    hide IsListing;
  }

  lemma QueueCallLoses(s: State, e: Event, id: string)
    requires ApiConsistent(s) && Enabled(s, e) && (e.EnqueueSubmitted? || e.ResumeEnqueue?)
    requires !Lost(s, id)
    ensures Lost(Apply(s, e), id) <==> Loses(s, e, id)
  {
    assert JobIds(s.queue + [s.api.job]) == JobIds(s.queue) + [s.api.job.id];
  }

  lemma CancelActHolds(s: State, e: Event, id: string)
    requires Distinct(JobIds(s.queue)) && WorkerConsistent(s) && Enabled(s, e) && e.CancelAct? && !Lost(s, id)
    ensures !Lost(Apply(s, e), id)
  {
    WithoutKeepsOthers(s.queue, s.api.job.id);
  }

  lemma SaveLoses(s: State, e: Event, id: string)
    requires ApiConsistent(s) && Enabled(s, e) && IsApiWrite(e)
    requires !Lost(s, id)
    ensures Lost(Apply(s, e), id) <==> Loses(s, e, id)
  {
    if !ApiTouches(s, id) && id in s.rows {
      CallWritesItsJob(s, e, id);
      hide Apply;
    }
  }

  lemma CallHolds(s: State, e: Event, id: string)
    requires ColumnsAgree(s.rows) && WorkerConsistent(s) && Enabled(s, e)
    requires e.Submit? || e.BeginCancel? || e.BeginPause? || e.BeginResume? || e.PauseAct?
    requires !Lost(s, id)
    ensures !Lost(Apply(s, e), id)
  {
  }

  /** These are all the steps that lose a job. */
  lemma StepLoses(s: State, e: Event, id: string)
    requires Consistent(s) && Enabled(s, e) && !Lost(s, id)
    ensures Lost(Apply(s, e), id) <==> Loses(s, e, id)
  {
    hide Lost, Apply, Enabled, ColumnsAgree, ApiConsistent, WorkerConsistent, QueueConsistent, PhaseConsistent;
    if e.Dequeue? {
      DequeueHolds(s, id);
    } else if IsWorkerEvent(e) {
      StillHeld(s, e, id);
    } else if e.CancelParent? || e.ForceCancel? || e.Crash? {
      StopLoses(s, e, id);
    } else if IsSystemEvent(e) {
      RestartLoses(s, e, id);
    } else if e.EnqueueSubmitted? || e.ResumeEnqueue? {
      QueueCallLoses(s, e, id);
    } else if e.CancelAct? {
      CancelActHolds(s, e, id);
    } else if IsApiWrite(e) {
      SaveLoses(s, e, id);
    } else {
      CallHolds(s, e, id);
    }
  }

  // ----- whole runs -----

  ghost predicate NeverLoses(s: State, events: seq<Event>) {
    events == [] ||
    (NeverLoses(s, events[..|events| - 1]) && LosesNothing(Exec(s, events[..|events| - 1]), events[|events| - 1]))
  }

  /** After every step of the run no job is stuck in the store. */
  ghost predicate NothingEverStuck(s: State, events: seq<Event>) {
    (forall id :: Stored(Exec(s, events), id, Queued) ==> !Stuck(Exec(s, events), id)) &&
    (events != [] ==> NothingEverStuck(s, events[..|events| - 1]))
  }

  ghost predicate NothingLost(s: State) {
    forall id :: !Lost(s, id)
  }

  lemma LostIsStuck(s: State)
    requires Consistent(s)
    ensures NothingLost(s) <==> forall id :: Stored(s, id, Queued) ==> !Stuck(s, id)
  {
    hide Consistent, Stored, OutOfDanger, Stuck;
    forall id | Stored(s, id, Queued)
      ensures Stuck(s, id) <==> Lost(s, id)
    {
      QueuedJobIsStuck(s, id);
    }
  }

  lemma StepKeepsNothingLost(s: State, e: Event)
    requires Consistent(s) && Enabled(s, e) && NothingLost(s)
    ensures NothingLost(Apply(s, e)) <==> LosesNothing(s, e)
  {
    hide Consistent, Apply, Enabled, Lost, Loses;
    forall id
      ensures Lost(Apply(s, e), id) <==> Loses(s, e, id)
    {
      StepLoses(s, e, id);
    }
  }

  lemma {:induction false} NoJobIsLostFrom(s: State, events: seq<Event>)
    requires Consistent(s) && NothingLost(s) && IsRun(s, events)
    ensures NothingEverStuck(s, events) <==> NeverLoses(s, events)
    ensures NeverLoses(s, events) ==> NothingLost(Exec(s, events))
  {
    hide Consistent, NothingLost, Apply, Enabled, LosesNothing, Stored, Stuck;
    RunKeepsConsistent(s, events);
    LostIsStuck(Exec(s, events));
    if events == [] {
    } else {
      var front := events[..|events| - 1];
      NoJobIsLostFrom(s, front);
      if NeverLoses(s, front) {
        RunKeepsConsistent(s, front);
        StepKeepsNothingLost(Exec(s, front), events[|events| - 1]);
      }
    }
  }

  /** No job is ever left stored as queued with nothing to take it up, exactly when none of the losing steps happens. */
  lemma NoJobIsLost(events: seq<Event>)
    requires IsRun(INITIAL, events)
    ensures NothingEverStuck(INITIAL, events) <==> NeverLoses(INITIAL, events)
  {
    hide IsRun, NothingEverStuck, NeverLoses, Lost;
    InitialConsistent();
    assert NothingLost(INITIAL) by {
      NothingLostAtFirst();
    }
    NoJobIsLostFrom(INITIAL, events);
  }

  lemma NothingLostAtFirst()
    ensures NothingLost(INITIAL)
  {
  }

  // ----- crashes and shutdown -----

  /** A crash loses exactly the jobs that are stored as queued and not in the queue: those in the worker's hand or in
      a call. Recovery does not bring them back. */
  lemma CrashLosesJob(s: State, id: string)
    requires Consistent(s) && !Lost(s, id)
    ensures Stuck(Apply(s, Crash), id) && Stored(s, id, Queued) <==>
            Stored(s, id, Queued) && id !in JobIds(s.queue) && (ApiTouches(s, id) || Held(s, id))
  {
    hide Consistent, Stuck;
    StepLoses(s, Crash, id);
    StepKeepsConsistent(s, Crash);
    if Stored(s, id, Queued) {
      QueuedJobIsStuck(Apply(s, Crash), id);
    }
  }

  /** The forced cancel at the end of a shutdown loses a job whose run has not saved anything yet. */
  lemma ForcedCancelLosesJob(s: State, id: string)
    requires Consistent(s) && Exposed(s, id) && !s.worker.Dequeued?
    ensures Stored(Apply(s, ForceCancel), id, Queued) && Stuck(Apply(s, ForceCancel), id)
  {
    hide Consistent, Stuck;
    StepKeepsConsistent(s, ForceCancel);
    ForcedOutOfReach(s, id);
    QueuedJobIsStuck(Apply(s, ForceCancel), id);
  }

  lemma ForcedOutOfReach(s: State, id: string)
    requires Consistent(s) && Exposed(s, id) && !s.worker.Dequeued?
    ensures Lost(Apply(s, ForceCancel), id)
  {
    hide ColumnsAgree, ApiConsistent, PhaseConsistent;
    assert s.runningJobs[id] == s.worker.run && s.worker.run in Apply(s, ForceCancel).cancelled;
  }

  /** A step that loses a job in the worker's hand, by the stage that its run has reached. */
  predicate Stops(w: Worker, stop: Event) {
    match stop
    case Crash => true
    case CancelParent => true
    case ForceCancel => !w.Dequeued?
    case Finish(_, _, ok) => w.Executing? && !ok
    case FailCreation(_, _, ok) => w.Executing? && !ok
    case _ => false
  }

  /** They all happen: a job is submitted and taken by the worker, and is lost before, at and after the start of its
      run, by a crash, a forced cancel, the end of the parent context, or a last save that fails after a first one
      that failed. */
  lemma LossesAreReached(req: JobRequest, id: string, now: int, k: nat, stop: Event)
    requires id != "" && 4 <= k <= 6
    requires Stops(Exec(INITIAL, IntoWindow(req, id, now)[..k]).worker, stop)
    ensures var run := IntoWindow(req, id, now)[..k] + [stop];
            && IsRun(INITIAL, run) && Stored(Exec(INITIAL, run), id, Queued) && Stuck(Exec(INITIAL, run), id)
  {
    hide IsRun, Exec, Stuck, Exposed, Stops;
    var run := IntoWindow(req, id, now);
    WindowIsReached(req, id, now);
    assert run[..k] + run[k..] == run;
    SplitRun(INITIAL, run[..k], run[k..]);
    assert k == 4 || k == 5 || run[..k] == run;
    LostOnTheWay(run[..k], id, stop);
  }

  lemma LostOnTheWay(events: seq<Event>, id: string, stop: Event)
    requires IsRun(INITIAL, events) && Exposed(Exec(INITIAL, events), id)
    requires Stops(Exec(INITIAL, events).worker, stop)
    ensures IsRun(INITIAL, events + [stop]) && Stored(Exec(INITIAL, events + [stop]), id, Queued)
            && Stuck(Exec(INITIAL, events + [stop]), id)
  {
    hide IsRun, Exec, Stuck, Consistent, Enabled, Apply, Loses, Stops, OutOfDanger, Exposed;
    var s := Exec(INITIAL, events);
    ReachableConsistent(events);
    StepOn(INITIAL, events, stop);
    ExposedIsOutOfQueue(s, id);
    StopLosesExposed(s, stop, id);
    StepLoses(s, stop, id);
    StepKeepsConsistent(s, stop);
    QueuedJobIsStuck(Apply(s, stop), id);
  }

  lemma StopLosesExposed(s: State, stop: Event, id: string)
    requires WorkerConsistent(s) && Exposed(s, id) && id !in JobIds(s.queue) && Stops(s.worker, stop)
    ensures Enabled(s, stop) && Loses(s, stop, id)
  {
  }

  lemma ExposedIsOutOfQueue(s: State, id: string)
    requires Consistent(s) && Exposed(s, id)
    ensures Held(s, id) && id !in JobIds(s.queue) && !Lost(s, id) && WorkerConsistent(s)
  {
  }
}
