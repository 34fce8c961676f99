/** The job engine itself: every method drives the transition system by the steps it is listed with. */
module JobEngine {
  import opened Sequences
  import opened Jobs
  import JobStore
  import JobQueue
  import opened EngineMachine
  import opened EngineInvariant
  import opened EngineRuns
  import opened EngineCalls
  import opened EngineOutcomes

  datatype EngineError =
    | NotStarted
    | AlreadyStarted
    | LoadFailed(load: JobStore.StoreError)
    | SaveFailed(save: JobStore.StoreError)
    | EnqueueRefused(enqueue: JobQueue.QueueError)
    | AlreadyTerminal(id: string, status: JobStatus)
    | NotRunning(id: string, status: JobStatus)
    | NotPaused(id: string, status: JobStatus)

  datatype StopOutcome = NothingToStop | Waits | Panics

  /** What the engine asks of the broadcaster. */
  datatype BroadcasterCall = Publish(job: string, progress: JobProgress) | CleanUp(job: string)

  /** What a handler does while it runs. */
  datatype Callback = OnProgress(progress: JobProgress) | OnLog(entry: JobLog, now: int)

  /** What the factory gives for a job, and what the handler then does and returns. */
  datatype Handler = CreationFails(cause: string) | Missing | Runs(callbacks: seq<Callback>, err: Option<string>)

  // ----- recovery -----

  function RecoverySaveSteps(lives: nat, n: nat): seq<Event> {
    if n == 0 then [] else RecoverySaveSteps(lives, n - 1) + [RecoverSave(n < lives)]
  }

  function RecoverySteps(lives: nat, listed: seq<Job>): seq<Event> {
    [Restart(listed)] + RecoverySaveSteps(lives, |listed|) + [RecoverDone]
  }

  /** The context of a start is also the worker's: it is done at the end when it did not survive both listings and all
      the saves. */
  function StartSteps(lives: nat, listed: seq<Job>): seq<Event> {
    RecoverySteps(lives, listed) + if lives < |listed| + 2 then [CancelParent] else []
  }

  lemma RecoveryJoined(events: seq<Event>, lives: nat, listed: seq<Job>)
    ensures events + [Restart(listed)] + RecoverySaveSteps(lives, |listed|) + [RecoverDone]
            == events + RecoverySteps(lives, listed)
  {
  }

  // ----- answers; `lives` counts the store and queue calls that a call's context survives -----

  /** What a call answers that loads its job first and then wants `status` to satisfy a guard. */
  function LoadAnswer(lives: nat, status: Option<JobStatus>, id: string): Result<JobStatus, EngineError> {
    if lives == 0 then Err(LoadFailed(JobStore.ContextDone))
    else if status.None? then Err(LoadFailed(JobStore.JobNotFound(id)))
    else Ok(status.value)
  }

  function CancelAnswer(lives: nat, status: Option<JobStatus>, id: string): Result<(), EngineError> {
    match LoadAnswer(lives, status, id)
    case Err(e) => Err(e)
    case Ok(found) =>
      if found.IsTerminal() then Err(AlreadyTerminal(id, found))
      else if CancelSaves(lives, found) then Ok(())
      else Err(SaveFailed(JobStore.ContextDone))
  }

  function PauseAnswer(lives: nat, status: Option<JobStatus>, id: string): Result<(), EngineError> {
    match LoadAnswer(lives, status, id)
    case Err(e) => Err(e)
    case Ok(found) =>
      if found != Running then Err(NotRunning(id, found))
      else if lives >= 2 then Ok(())
      else Err(SaveFailed(JobStore.ContextDone))
  }

  function ResumeAnswer(lives: nat, status: Option<JobStatus>, queued: bool, id: string): Result<(), EngineError> {
    match LoadAnswer(lives, status, id)
    case Err(e) => Err(e)
    case Ok(found) =>
      if found != Paused then Err(NotPaused(id, found))
      else if lives == 1 then Err(SaveFailed(JobStore.ContextDone))
      else if lives == 2 then Err(EnqueueRefused(JobQueue.ContextDone))
      else if queued then Err(EnqueueRefused(JobQueue.AlreadyQueued(id)))
      else Ok(())
  }

  function CallbackSteps(callbacks: seq<Callback>): (steps: seq<Event>)
    ensures |steps| == |callbacks|
  {
    seq(|callbacks|, i requires 0 <= i < |callbacks| =>
      match callbacks[i]
      case OnProgress(progress) => Progress(progress, true)
      case OnLog(entry, now) => AppendLog(JobStore.Stamped(entry, now), true))
  }

  function HandlerSteps(job: Job, handler: Handler, now: int): seq<Event> {
    match handler
    case CreationFails(cause) => [FailCreation(now, CreateHandlerFailed(cause), true)]
    case Missing => [FailCreation(now, NoHandler(job.jobType, job.id), true)]
    case Runs(callbacks, err) => CallbackSteps(callbacks) + [Finish(err, now, true)]
  }

  // ----- the broadcaster calls of a run -----

  /** What a cancel publishes of the job's progress. */
  function ShortProgress(progress: JobProgress): (short: JobProgress)
    ensures short.currentStep == progress.currentStep && short.totalSteps == progress.totalSteps
    ensures short.percentage == progress.percentage
    ensures short.currentName == "" && short.bytesDone == 0 && short.bytesTotal == 0 && short.speedBPS == 0
    ensures short.eta == 0
  {
    NO_PROGRESS.(currentStep := progress.currentStep, totalSteps := progress.totalSteps,
      percentage := progress.percentage)
  }

  function CallbackCalls(id: string, callbacks: seq<Callback>): seq<BroadcasterCall> {
    if callbacks == [] then []
    else
      CallbackCalls(id, callbacks[..|callbacks| - 1]) +
      match callbacks[|callbacks| - 1]
      case OnProgress(progress) => [Publish(id, progress)]
      case OnLog(_, _) => []
  }

  function LastProgress(progress: JobProgress, callbacks: seq<Callback>): JobProgress {
    if callbacks == [] then progress
    else
      match callbacks[|callbacks| - 1]
      case OnProgress(latest) => latest
      case OnLog(_, _) => LastProgress(progress, callbacks[..|callbacks| - 1])
  }

  /** The lines that the callbacks add to the log of the job. */
  function CallbackLogs(id: string, callbacks: seq<Callback>): seq<(string, JobLog)> {
    if callbacks == [] then []
    else
      CallbackLogs(id, callbacks[..|callbacks| - 1]) +
      match callbacks[|callbacks| - 1]
      case OnProgress(_) => []
      case OnLog(entry, now) =>
        [(id, JobLog(Some(entry.timestamp.GetOr(now)), entry.level, entry.step, entry.message))]
  }

  function HandlerLogs(id: string, handler: Handler): seq<(string, JobLog)> {
    if handler.Runs? then CallbackLogs(id, handler.callbacks) else []
  }

  /** The record of a run that was not interrupted. */
  ghost predicate IsOutcome(doc: Job, job: Job, handler: Handler, startTime: int, endTime: int) {
    && Carried(doc, job) && doc.startedAt == Some(startTime) && doc.finishedAt == Some(endTime)
    && match handler
       case CreationFails(cause) =>
         doc.status == Failed && doc.error == CreateHandlerFailed(cause) && doc.progress == job.progress
       case Missing =>
         doc.status == Failed && doc.error == NoHandler(job.jobType, job.id) && doc.progress == job.progress
       case Runs(callbacks, None) =>
         && doc.status == JobStatus.Done && doc.error == job.error && doc.progress.percentage == 100.0
         && doc.progress == LastProgress(job.progress, callbacks).(percentage := 100.0)
       case Runs(callbacks, Some(cause)) =>
         doc.status == Failed && doc.error == HandlerFailed(cause)
           && doc.progress == LastProgress(job.progress, callbacks)
  }

  /** All that comes from the request. */
  predicate Carried(doc: Job, job: Job) {
    && doc.id == job.id && doc.createdAt == job.createdAt && doc.jobType == job.jobType && doc.planId == job.planId
    && doc.migrationId == job.migrationId && doc.sourceId == job.sourceId && doc.targetId == job.targetId
  }

  /** The last progress that was reported, or the one from before. */
  lemma {:induction false} LastProgressIsLast(progress: JobProgress, callbacks: seq<Callback>)
    ensures forall k :: 0 <= k < |callbacks| && callbacks[k].OnProgress?
                        && (forall m :: k < m < |callbacks| ==> callbacks[m].OnLog?) ==>
              LastProgress(progress, callbacks) == callbacks[k].progress
    ensures (forall m :: 0 <= m < |callbacks| ==> callbacks[m].OnLog?) ==> LastProgress(progress, callbacks) == progress
  {
    if callbacks == [] {
    } else if callbacks[|callbacks| - 1].OnLog? {
      LastProgressIsLast(progress, callbacks[..|callbacks| - 1]);
    }
  }

  lemma NoCallbacks(id: string, progress: JobProgress)
    ensures LastProgress(progress, []) == progress && CallbackLogs(id, []) == [] && CallbackCalls(id, []) == []
    ensures CallbackSteps([]) == []
  {
  }

  lemma OneMoreCallback(id: string, progress: JobProgress, callbacks: seq<Callback>, callback: Callback)
    ensures LastProgress(progress, callbacks + [callback])
            == LastProgress(LastProgress(progress, callbacks), [callback])
    ensures CallbackLogs(id, callbacks + [callback]) == CallbackLogs(id, callbacks) + CallbackLogs(id, [callback])
    ensures CallbackCalls(id, callbacks + [callback]) == CallbackCalls(id, callbacks) + CallbackCalls(id, [callback])
    ensures CallbackSteps(callbacks + [callback]) == CallbackSteps(callbacks) + CallbackSteps([callback])
  {
    assert (callbacks + [callback])[..|callbacks|] == callbacks && [callback][..0] == [];
  }

  /** A progress report is published and a log line is kept, under the time of the call when it has none. */
  lemma CallbackEffect(id: string, callbacks: seq<Callback>, callback: Callback)
    ensures CallbackCalls(id, callbacks + [callback])
            == CallbackCalls(id, callbacks)
               + if callback.OnProgress? then [Publish(id, callback.progress)] else []
    ensures var logs := CallbackLogs(id, callbacks + [callback]);
            && (callback.OnProgress? ==> logs == CallbackLogs(id, callbacks))
            && (callback.OnLog? ==>
                  && |logs| == |CallbackLogs(id, callbacks)| + 1 && CallbackLogs(id, callbacks) <= logs
                  && var (owner, line) := logs[|logs| - 1];
                    && owner == id && line.level == callback.entry.level && line.step == callback.entry.step
                    && line.message == callback.entry.message
                    && line.timestamp == if callback.entry.timestamp.None? then Some(callback.now)
                                         else callback.entry.timestamp)
  {
    assert (callbacks + [callback])[..|callbacks|] == callbacks;
  }

  /** Every progress report is published, in order, and a log line is not. */
  lemma {:induction false} ReportsArePublished(id: string, callbacks: seq<Callback>)
    ensures (forall i :: 0 <= i < |callbacks| ==> callbacks[i].OnProgress?) ==>
              |CallbackCalls(id, callbacks)| == |callbacks|
              && forall i :: 0 <= i < |callbacks| ==>
                 CallbackCalls(id, callbacks)[i] == Publish(id, callbacks[i].progress)
    ensures (forall i :: 0 <= i < |callbacks| ==> callbacks[i].OnLog?) ==> CallbackCalls(id, callbacks) == []
  {
    if callbacks == [] {
    } else {
      ReportsArePublished(id, callbacks[..|callbacks| - 1]);
    }
  }

  /** A job that gets no handler leaves its subscribers where they are. */
  function HandlerCalls(job: Job, handler: Handler): seq<BroadcasterCall> {
    match handler
    case CreationFails(_) => []
    case Missing => []
    case Runs(callbacks, err) =>
      var last := LastProgress(job.progress, callbacks);
      CallbackCalls(job.id, callbacks)
      + [Publish(job.id, if err.None? then last.(percentage := 100.0) else last), CleanUp(job.id)]
  }

  /** What becomes of a job does not depend on its being marked as running. */
  lemma HandledAlike(job: Job, handler: Handler, startTime: int, endTime: int)
    ensures var running := job.(status := Running, startedAt := Some(startTime));
            && HandlerSteps(running, handler, endTime) == HandlerSteps(job, handler, endTime)
            && HandlerCalls(running, handler) == HandlerCalls(job, handler)
            && forall doc :: IsOutcome(doc, running, handler, startTime, endTime) ==>
                 IsOutcome(doc, job, handler, startTime, endTime)
  {
  }

  /** A reader that has the job's last update when its channel is closed: for every job that got a handler. */
  lemma RunEndsWithCleanUp(job: Job, handler: Handler)
    ensures var calls := HandlerCalls(job, handler);
            && (handler.Runs? <==> CleanUp(job.id) in calls)
            && (handler.Runs? ==> calls[|calls| - 1] == CleanUp(job.id) && calls[|calls| - 2].Publish?)
            && (handler.Runs? ==> forall i :: 0 <= i < |calls| - 1 ==> calls[i] != CleanUp(job.id))
  {
    if handler.Runs? {
      NoCleanUpBefore(job.id, handler.callbacks);
    }
  }

  lemma {:induction false} NoCleanUpBefore(id: string, callbacks: seq<Callback>)
    ensures forall call :: call in CallbackCalls(id, callbacks) ==> call.Publish? && call.job == id
  {
    if callbacks == [] {
    } else {
      NoCleanUpBefore(id, callbacks[..|callbacks| - 1]);
    }
  }

  function Current(trace: seq<State>): State {
    if trace == [] then INITIAL else trace[|trace| - 1]
  }

  /** `trace` lists the state after each of the events; each was possible when it came, and none saved a cancelled
      record for a job that was still queued. */
  ghost predicate Ran(events: seq<Event>, trace: seq<State>)
    decreases |events|
  {
    && |events| == |trace|
    && (events != [] ==>
          var n := |events| - 1;
          && Ran(events[..n], trace[..n])
          && Enabled(Current(trace[..n]), events[n]) && !BadSave(Current(trace[..n]), events[n])
          && trace[n] == Apply(Current(trace[..n]), events[n]))
  }

  lemma ExtendRun(events: seq<Event>, trace: seq<State>, e: Event)
    requires Ran(events, trace) && Enabled(Current(trace), e) && !BadSave(Current(trace), e)
    ensures Ran(events + [e], trace + [Apply(Current(trace), e)])
  {
    assert (events + [e])[..|events|] == events && (trace + [Apply(Current(trace), e)])[..|trace|] == trace;
  }

  /** Such a trace is a run of the machine, and lists all its states. */
  lemma {:induction false} RanIsRun(events: seq<Event>, trace: seq<State>)
    requires Ran(events, trace)
    ensures IsRun(INITIAL, events) && NoBadSave(INITIAL, events) && Current(trace) == Exec(INITIAL, events)
    decreases |events|
  {
    if events == [] {
    } else {
      var n := |events| - 1;
      RanIsRun(events[..n], trace[..n]);
    }
  }

  class ShutdownManager {
    var runningJobs: map<string, nat>

    constructor ()
      ensures runningJobs == map[]
    {
      runningJobs := map[];
    }

    method Register(id: string, run: nat)
      modifies this
      ensures runningJobs == old(runningJobs)[id := run]
    {
      runningJobs := runningJobs[id := run];
    }

    method Unregister(id: string)
      modifies this
      ensures runningJobs == old(runningJobs) - {id}
    {
      runningJobs := runningJobs - {id};
    }

    /** The cancel functions that run when the timeout is reached. */
    method ForceCancel() returns (count: nat, runs: set<nat>)
      ensures count == |runningJobs| && runs == runningJobs.Values
    {
      count, runs := |runningJobs|, {};
      var rest := runningJobs.Keys;
      while rest != {}
        invariant rest <= runningJobs.Keys
        invariant runs <= runningJobs.Values
        invariant forall id :: id in runningJobs.Keys - rest ==> runningJobs[id] in runs
      {
        var id :| id in rest;
        runs := runs + {runningJobs[id]};
        rest := rest - {id};
      }
    }
  }

  class Engine {
    const store: JobStore.SQLiteJobStore
    const queue: JobQueue.SQLiteJobQueue
    const shutdown: ShutdownManager
    var started: bool
    var stopping: bool
    var cancels: map<string, nat>
    var cancelled: set<nat>
    var nextRun: nat
    var parentDone: bool
    var published: seq<BroadcasterCall>

    ghost var worker: Worker
    ghost var api: Api
    ghost var phase: Phase
    ghost var events: seq<Event>
    ghost var trace: seq<State>

    ghost function View(): State
      reads this, store, queue, shutdown
    {
      State(store.rows, store.logs, queue.Contents, worker, api, phase, cancels, shutdown.runningJobs, cancelled,
        nextRun, parentDone)
    }

    /** The states seen so far, one after each write, are those of a run from an empty database. */
    ghost predicate Recorded()
      reads this, store, queue, shutdown
    {
      && queue.Valid()
      && Ran(events, trace) && View() == Current(trace)
      && JobStore.ColumnsAgree(store.rows) && "" !in store.rows
    }

    ghost predicate Valid()
      reads this, store, queue, shutdown
    {
      && Recorded()
      && api.Ready? && !phase.Recovering? && (started <==> phase.Up?) && (stopping ==> started)
    }

    /** An engine over the database that an earlier process left behind. */
    constructor (store: JobStore.SQLiteJobStore, queue: JobQueue.SQLiteJobQueue, nextRun: nat,
                 ghost past: seq<Event>, ghost states: seq<State>)
      requires queue.Valid() && JobStore.ColumnsAgree(store.rows) && "" !in store.rows && Ran(past, states)
      requires Current(states)
               == State(store.rows, store.logs, queue.Contents, Idle, Ready, Down, map[], map[], {}, nextRun, false)
      ensures Valid() && !started && published == [] && events == past && this.store == store && this.queue == queue
              && fresh(shutdown)
    {
      this.store, this.queue, this.nextRun := store, queue, nextRun;
      shutdown := new ShutdownManager();
      started, stopping, cancels, cancelled, parentDone := false, false, map[], {}, false;
      published := [];
      worker, api, phase, events, trace := Idle, Ready, Down, past, states;
    }

    ghost method Log(e: Event)
      requires queue.Valid() && JobStore.ColumnsAgree(store.rows) && "" !in store.rows && Ran(events, trace)
      requires Enabled(Current(trace), e) && !BadSave(Current(trace), e) && View() == Apply(Current(trace), e)
      modifies this`events, this`trace
      ensures Recorded() && View() == old(View())
      ensures events == old(events) + [e]
    {
      hide Ran;
      ExtendRun(events, trace, e);
      events, trace := events + [e], trace + [View()];
    }

    // ----- submitting -----

    method Submit(lives: nat, req: JobRequest, id: string, now: int) returns (r: Result<Job, EngineError>)
      requires Valid() && id != "" && id !in store.rows
      modifies this`api, this`events, this`trace, store`rows, queue
      ensures Valid()
      ensures events == old(events)
              + if started then SubmitSteps(lives, id in JobIds(old(queue.Contents)), req, id, now) else []
      ensures r.Ok? <==> started && lives >= 2 && id !in JobIds(old(queue.Contents))
      ensures r.Ok? ==> r.value == NewJob(req, id, now) && Carries(r.value, id, req, now)
      ensures r.Ok? ==> var job := r.value;
                        && job.status == Queued && job.startedAt == None && job.finishedAt == None
                           && job.error == NoFailure
                        && job.sourceId == req.sourceId && job.targetId == req.targetId
                        && JobStore.ChangesOnly(old(store.rows), store.rows, id) && store.rows[id].doc == job
                        && queue.Contents == old(queue.Contents) + [job]
      ensures r.Err? ==> queue.Contents == old(queue.Contents)
      ensures !started || lives == 0 ==> store.rows == old(store.rows)
      ensures r.Err? && started && lives > 0 ==>
                JobStore.ChangesOnly(old(store.rows), store.rows, id)
                && Carries(store.rows[id].doc, id, req, now)
                && store.rows[id].doc.status == if lives >= 3 then Failed else Queued
      ensures r == Err(NotStarted) <==> !started
      ensures r.Err? && r.error.SaveFailed? <==> started && lives == 0
    {
      hide Ran, Enabled, Apply, JobStore.ColumnsAgree, JobQueue.Refines, JobIds;
      if !started {
        return Err(NotStarted);
      }
      var job := Job(id, req.jobType, Queued, now, None, None, req.planId, req.migrationId, req.sourceId, req.targetId,
        NO_PROGRESS, NoFailure);
      var saved := SaveSubmitted(lives == 0, req, job);
      if saved.Err? {
        return Err(SaveFailed(saved.error));
      }
      r := EnqueueOrFail(lives, job);
    }

    method EnqueueOrFail(lives: nat, job: Job) returns (r: Result<Job, EngineError>)
      requires Recorded() && started && phase.Up? && lives > 0 && api == SubmitSaved(job) && job.id != ""
      modifies this`api, this`events, this`trace, store`rows, queue
      ensures Valid()
      ensures r.Ok? <==> lives >= 2 && job.id !in JobIds(old(queue.Contents))
      ensures if r.Ok? then r.value == job else r.error.EnqueueRefused?
      ensures r.Ok? ==> store.rows == old(store.rows) && queue.Contents == old(queue.Contents) + [job]
      ensures r.Err? ==> queue.Contents == old(queue.Contents)
                         && store.rows == if lives < 3 then old(store.rows)
                                          else JobStore.Saved(old(store.rows),
                                            job.(status := Failed, error := EnqueueFailed))
      ensures events == old(events)
              + if r.Ok? then [EnqueueSubmitted(true)] else [EnqueueSubmitted(false), SaveFailedSubmission(lives >= 3)]
    {
      hide Ran, Enabled, Apply, JobStore.ColumnsAgree, JobQueue.Refines, JobIds;
      var enqueued := EnqueueSubmittedJob(lives <= 1, job);
      if enqueued.Err? {
        SaveFailedSubmit(lives <= 2, job.(status := Failed, error := EnqueueFailed));
        return Err(EnqueueRefused(enqueued.error));
      }
      r := Ok(job);
    }

    method SaveSubmitted(contextDone: bool, ghost req: JobRequest, job: Job)
        returns (r: Result<(), JobStore.StoreError>)
      requires Valid() && started && job.id != "" && job.id !in store.rows && job == NewJob(req, job.id, job.createdAt)
      modifies this`api, this`events, this`trace, store`rows
      ensures Recorded() && api == (if contextDone then Ready else SubmitSaved(job))
      ensures events == old(events) + [EngineMachine.Submit(req, job.id, job.createdAt, !contextDone)]
      ensures r.Ok? <==> !contextDone
      ensures store.rows == if contextDone then old(store.rows) else JobStore.Saved(old(store.rows), job)
    {
      hide Ran;
      r := store.SaveJob(contextDone, job);
      if r.Ok? {
        api := SubmitSaved(job);
      }
      Log(EngineMachine.Submit(req, job.id, job.createdAt, !contextDone));
    }

    method EnqueueSubmittedJob(contextDone: bool, job: Job) returns (r: Result<(), JobQueue.QueueError>)
      requires Recorded() && api == SubmitSaved(job) && job.id != ""
      modifies this`api, this`events, this`trace, queue
      ensures Recorded()
      ensures r.Ok? <==> !contextDone && job.id !in JobIds(old(queue.Contents))
      ensures api == if r.Ok? then Ready else SubmitFailed(job.(status := Failed, error := EnqueueFailed))
      ensures queue.Contents == if r.Ok? then old(queue.Contents) + [job] else old(queue.Contents)
      ensures events == old(events) + [EnqueueSubmitted(r.Ok?)]
    {
      hide Ran, JobStore.ColumnsAgree, JobQueue.Refines, JobQueue.TableStep;
      r := queue.Enqueue(contextDone, job);
      api := if r.Ok? then Ready else SubmitFailed(job.(status := Failed, error := EnqueueFailed));
      Log(EnqueueSubmitted(r.Ok?));
    }

    method SaveFailedSubmit(contextDone: bool, job: Job)
      requires Recorded() && api == SubmitFailed(job) && job.id != ""
      modifies this`api, this`events, this`trace, store`rows
      ensures Recorded() && api == Ready
      ensures store.rows == if contextDone then old(store.rows) else JobStore.Saved(old(store.rows), job)
      ensures events == old(events) + [SaveFailedSubmission(!contextDone)]
    {
      hide Ran;
      var saved := store.SaveJob(contextDone, job);
      api := Ready;
      Log(SaveFailedSubmission(!contextDone));
    }

    // ----- cancelling -----

    method Cancel(lives: nat, id: string, now: int) returns (r: Result<(), EngineError>)
      requires Valid()
      modifies this`api, this`cancelled, this`events, this`trace, this`published, store`rows, queue
      ensures Valid()
      ensures events == old(events) + CancelSteps(lives, StatusOf(old(store.rows), id), id, now)
      ensures r == CancelAnswer(lives, StatusOf(old(store.rows), id), id)
      ensures r.Ok? <==>
                || (StatusOf(old(store.rows), id) == Some(Queued) && lives >= 3)
                || (StatusOf(old(store.rows), id) in {Some(Running), Some(Paused)} && lives >= 2)
      ensures r.Err? ==> store.rows == old(store.rows) && published == old(published)
      ensures r.Ok? ==> var was := old(store.rows)[id].doc;
                        && JobStore.ChangesOnly(old(store.rows), store.rows, id)
                        && store.rows[id].doc == was.(status := Cancelled, finishedAt := Some(now))
                        && id !in JobIds(queue.Contents)
                        && published == old(published) + [Publish(id, ShortProgress(was.progress))]
      ensures queue.Contents == if StatusOf(old(store.rows), id) == Some(Queued) && lives >= 2
                                then Without(old(queue.Contents), id) else old(queue.Contents)
      ensures StatusOf(old(store.rows), id) == Some(Running) && lives >= 1 && id in cancels ==> cancels[id] in cancelled
    {
      hide Ran, Enabled, Apply, JobIds, Without, JobQueue.Refines;
      var loaded := LoadForCancel(lives, id);
      if loaded.Err? {
        return Err(loaded.error);
      }
      r := CancelLoadedJob(lives, loaded.value, now);
    }

    method CancelLoadedJob(lives: nat, job: Job, now: int) returns (r: Result<(), EngineError>)
      requires Recorded() && api == CancelLoaded(job) && job.id != ""
      modifies this`api, this`cancelled, this`events, this`trace, this`published, store`rows, queue
      ensures Recorded() && api == Ready
      ensures events == old(events)
              + [CancelAct(job.status.Queued? ==> lives >= 2), CancelSave(now, CancelSaves(lives, job.status))]
      ensures r == if CancelSaves(lives, job.status) then Ok(()) else Err(SaveFailed(JobStore.ContextDone))
      ensures published == old(published) + if r.Ok? then [Publish(job.id, ShortProgress(job.progress))] else []
      ensures store.rows == if r.Err? then old(store.rows)
                            else JobStore.Saved(old(store.rows), job.(status := Cancelled, finishedAt := Some(now)))
      ensures queue.Contents == if job.status == Queued && lives >= 2 then Without(old(queue.Contents), job.id)
                                else old(queue.Contents)
      ensures r.Ok? ==> job.id !in JobIds(queue.Contents)
      ensures job.status == Running && job.id in cancels ==> cancels[job.id] in cancelled
    {
      hide Ran, Enabled, Apply, JobIds, Without, JobStore.ColumnsAgree, JobQueue.Refines;
      NotQueuedUnlessLoadedSo(this, job);
      StopJob(lives <= 1, job);
      r := SaveCancelled(!CancelSaves(lives, job.status), job, now);
    }

    method LoadForCancel(lives: nat, id: string) returns (r: Result<Job, EngineError>)
      requires Valid()
      modifies this`api, this`events, this`trace
      ensures Recorded() && api == if r.Ok? then CancelLoaded(r.value) else Ready
      ensures r.Ok? <==> lives > 0 && id in store.rows && !store.rows[id].doc.status.IsTerminal()
      ensures if r.Ok? then r.value == store.rows[id].doc && r.value.id != ""
              else CancelAnswer(lives, StatusOf(store.rows, id), id) == Err(r.error)
      ensures events == old(events) + if lives == 0 || id !in store.rows then [] else [BeginCancel(id)]
    {
      hide Ran;
      var loaded := store.LoadJob(lives == 0, id);
      if loaded.Err? {
        return Err(LoadFailed(loaded.error));
      }
      var job := loaded.value;
      if job.status.IsTerminal() {
        Log(BeginCancel(id));
        return Err(AlreadyTerminal(id, job.status));
      }
      api := CancelLoaded(job);
      Log(BeginCancel(id));
      r := Ok(job);
    }

    method CancelRun(id: string)
      modifies this`cancelled
      ensures cancelled == CancelRunOf(old(View()), id)
    {
      if id in cancels {
        cancelled := cancelled + {cancels[id]};
      }
    }

    method StopJob(contextDone: bool, job: Job)
      requires Recorded() && api == CancelLoaded(job)
      modifies this`api, this`cancelled, this`events, this`trace, queue
      ensures Recorded() && api == CancelActed(job)
      ensures queue.Contents == if job.status == Queued && !contextDone then Without(old(queue.Contents), job.id)
                                else old(queue.Contents)
      ensures job.status == Running && job.id in cancels ==> cancels[job.id] in cancelled
      ensures events == old(events) + [CancelAct(job.status.Queued? ==> !contextDone)]
    {
      hide Ran, JobStore.ColumnsAgree, JobQueue.Refines, JobQueue.TableStep;
      if job.status == Queued {
        var removed := queue.Remove(contextDone, job.id);
      }
      if job.status == Running {
        CancelRun(job.id);
      }
      api := CancelActed(job);
      Log(CancelAct(job.status.Queued? ==> !contextDone));
    }

    method SaveCancelled(contextDone: bool, job: Job, now: int) returns (r: Result<(), EngineError>)
      requires Recorded() && api == CancelActed(job) && job.id != ""
      requires !contextDone ==> job.id !in JobIds(queue.Contents)
      modifies this`api, this`events, this`trace, this`published, store`rows
      ensures Recorded() && api == Ready
      ensures events == old(events) + [CancelSave(now, !contextDone)]
      ensures r == if contextDone then Err(SaveFailed(JobStore.ContextDone)) else Ok(())
      ensures store.rows == if contextDone then old(store.rows)
                            else JobStore.Saved(old(store.rows), job.(status := Cancelled, finishedAt := Some(now)))
      ensures published == old(published) + if r.Ok? then [Publish(job.id, ShortProgress(job.progress))] else []
    {
      hide Ran;
      var saved := store.SaveJob(contextDone, job.(status := Cancelled, finishedAt := Some(now)));
      api := Ready;
      Log(CancelSave(now, !contextDone));
      if contextDone {
        return Err(SaveFailed(JobStore.ContextDone));
      }
      published := published + [Publish(job.id, ShortProgress(job.progress))];
      r := Ok(());
    }

    // ----- pausing and resuming -----

    method Pause(lives: nat, id: string) returns (r: Result<(), EngineError>)
      requires Valid()
      modifies this`api, this`cancelled, this`events, this`trace, store`rows
      ensures Valid()
      ensures events == old(events) + PauseSteps(lives, StatusOf(old(store.rows), id), id)
      ensures r.Ok? <==> StatusOf(old(store.rows), id) == Some(Running) && lives >= 2
      ensures r.Err? ==> store.rows == old(store.rows)
      ensures r.Ok? ==> JobStore.ChangesOnly(old(store.rows), store.rows, id)
                        && store.rows[id].doc == old(store.rows)[id].doc.(status := Paused)
      ensures StatusOf(old(store.rows), id) == Some(Running) && lives >= 1 && id in cancels ==> cancels[id] in cancelled
      ensures r == PauseAnswer(lives, StatusOf(old(store.rows), id), id)
    {
      hide Ran, Enabled, Apply;
      var loaded := LoadForPause(lives, id);
      if loaded.Err? {
        return Err(loaded.error);
      }
      r := PauseRunning(lives <= 1, loaded.value);
    }

    method PauseRunning(contextDone: bool, job: Job) returns (r: Result<(), EngineError>)
      requires Recorded() && api == PauseLoaded(job) && job.id != ""
      modifies this`api, this`cancelled, this`events, this`trace, store`rows
      ensures Recorded() && api == Ready
      ensures events == old(events) + [PauseAct, PauseSave(!contextDone)]
      ensures store.rows
              == if contextDone then old(store.rows) else JobStore.Saved(old(store.rows), job.(status := Paused))
      ensures job.id in cancels ==> cancels[job.id] in cancelled
      ensures r == if contextDone then Err(SaveFailed(JobStore.ContextDone)) else Ok(())
    {
      hide Ran, Enabled, Apply;
      StopForPause(job);
      r := SavePaused(contextDone, job);
    }

    method LoadForPause(lives: nat, id: string) returns (r: Result<Job, EngineError>)
      requires Valid()
      modifies this`api, this`events, this`trace
      ensures Recorded() && api == if r.Ok? then PauseLoaded(r.value) else Ready
      ensures r.Ok? <==> lives > 0 && id in store.rows && store.rows[id].doc.status == Running
      ensures if r.Ok? then r.value == store.rows[id].doc && r.value.id != ""
              else PauseAnswer(lives, StatusOf(store.rows, id), id) == Err(r.error)
      ensures events == old(events) + if lives == 0 || id !in store.rows then [] else [BeginPause(id)]
    {
      hide Ran;
      var loaded := store.LoadJob(lives == 0, id);
      if loaded.Err? {
        return Err(LoadFailed(loaded.error));
      }
      var job := loaded.value;
      if job.status != Running {
        Log(BeginPause(id));
        return Err(NotRunning(id, job.status));
      }
      api := PauseLoaded(job);
      Log(BeginPause(id));
      r := Ok(job);
    }

    method StopForPause(job: Job)
      requires Recorded() && api == PauseLoaded(job)
      modifies this`api, this`cancelled, this`events, this`trace
      ensures Recorded() && api == PauseActed(job)
      ensures job.id in cancels ==> cancels[job.id] in cancelled
      ensures events == old(events) + [PauseAct]
    {
      hide Ran;
      CancelRun(job.id);
      api := PauseActed(job);
      Log(PauseAct);
    }

    method SavePaused(contextDone: bool, job: Job) returns (r: Result<(), EngineError>)
      requires Recorded() && api == PauseActed(job) && job.id != ""
      modifies this`api, this`events, this`trace, store`rows
      ensures Recorded() && api == Ready
      ensures events == old(events) + [PauseSave(!contextDone)]
      ensures store.rows
              == if contextDone then old(store.rows) else JobStore.Saved(old(store.rows), job.(status := Paused))
      ensures r == if contextDone then Err(SaveFailed(JobStore.ContextDone)) else Ok(())
    {
      hide Ran;
      var saved := store.SaveJob(contextDone, job.(status := Paused));
      api := Ready;
      Log(PauseSave(!contextDone));
      r := if contextDone then Err(SaveFailed(JobStore.ContextDone)) else Ok(());
    }

    method Resume(lives: nat, id: string) returns (r: Result<(), EngineError>)
      requires Valid()
      modifies this`api, this`events, this`trace, store`rows, queue
      ensures Valid()
      ensures events == old(events)
              + ResumeSteps(lives, StatusOf(old(store.rows), id), id in JobIds(old(queue.Contents)), id)
      ensures r.Ok? <==>
                StatusOf(old(store.rows), id) == Some(Paused) && lives >= 3 && id !in JobIds(old(queue.Contents))
      ensures StatusOf(old(store.rows), id) == Some(Paused) && lives >= 2 ==>
                && JobStore.ChangesOnly(old(store.rows), store.rows, id)
                && store.rows[id].doc == old(store.rows)[id].doc.(status := Queued)
      ensures !(StatusOf(old(store.rows), id) == Some(Paused) && lives >= 2) ==> store.rows == old(store.rows)
      ensures queue.Contents == if r.Ok? then old(queue.Contents) + [store.rows[id].doc] else old(queue.Contents)
      ensures r == ResumeAnswer(lives, StatusOf(old(store.rows), id), id in JobIds(old(queue.Contents)), id)
    {
      hide Ran, Enabled, Apply, JobIds, JobQueue.Refines;
      var loaded := LoadForResume(lives, id);
      if loaded.Err? {
        return Err(loaded.error);
      }
      r := Requeue(lives, loaded.value.(status := Queued));
    }

    method Requeue(lives: nat, job: Job) returns (r: Result<(), EngineError>)
      requires Recorded() && lives > 0 && api.ResumeLoaded? && job == api.job.(status := Queued) && job.id != ""
      modifies this`api, this`events, this`trace, store`rows, queue
      ensures Recorded() && api == Ready
      ensures events == old(events) + if lives == 1 then [ResumeSave(false)]
                                      else [ResumeSave(true),
                                        ResumeEnqueue(lives >= 3 && job.id !in JobIds(old(queue.Contents)))]
      ensures store.rows == if lives == 1 then old(store.rows) else JobStore.Saved(old(store.rows), job)
      ensures queue.Contents == if r.Ok? then old(queue.Contents) + [job] else old(queue.Contents)
      ensures r == ResumeAnswer(lives, Some(Paused), job.id in JobIds(old(queue.Contents)), job.id)
    {
      hide Ran, Enabled, Apply;
      var saved := SaveResumed(lives <= 1, job);
      if saved.Err? {
        return Err(SaveFailed(saved.error));
      }
      r := EnqueueResumed(lives <= 2, job);
    }

    method LoadForResume(lives: nat, id: string) returns (r: Result<Job, EngineError>)
      requires Valid()
      modifies this`api, this`events, this`trace
      ensures Recorded() && api == if r.Ok? then ResumeLoaded(r.value) else Ready
      ensures r.Ok? <==> lives > 0 && id in store.rows && store.rows[id].doc.status == Paused
      ensures if r.Ok? then r.value == store.rows[id].doc && r.value.id == id && id != ""
              else ResumeAnswer(lives, StatusOf(store.rows, id), id in JobIds(queue.Contents), id) == Err(r.error)
      ensures events == old(events) + if lives == 0 || id !in store.rows then [] else [BeginResume(id)]
    {
      hide Ran;
      var loaded := store.LoadJob(lives == 0, id);
      if loaded.Err? {
        return Err(LoadFailed(loaded.error));
      }
      var job := loaded.value;
      if job.status != Paused {
        Log(BeginResume(id));
        return Err(NotPaused(id, job.status));
      }
      api := ResumeLoaded(job);
      Log(BeginResume(id));
      r := Ok(job);
    }

    method SaveResumed(contextDone: bool, job: Job) returns (r: Result<(), JobStore.StoreError>)
      requires Recorded() && api.ResumeLoaded? && job == api.job.(status := Queued) && job.id != ""
      modifies this`api, this`events, this`trace, store`rows
      ensures Recorded() && api == if contextDone then Ready else ResumeSaved(job)
      ensures events == old(events) + [ResumeSave(!contextDone)]
      ensures store.rows == if contextDone then old(store.rows) else JobStore.Saved(old(store.rows), job)
      ensures r == if contextDone then Err(JobStore.ContextDone) else Ok(())
    {
      hide Ran;
      r := store.SaveJob(contextDone, job);
      api := if contextDone then Ready else ResumeSaved(job);
      Log(ResumeSave(!contextDone));
      if contextDone {
        r := Err(JobStore.ContextDone);
      }
    }

    method EnqueueResumed(contextDone: bool, job: Job) returns (r: Result<(), EngineError>)
      requires Recorded() && api == ResumeSaved(job) && job.id != ""
      modifies this`api, this`events, this`trace, queue
      ensures Recorded() && api == Ready
      ensures events == old(events) + [ResumeEnqueue(!contextDone && job.id !in JobIds(old(queue.Contents)))]
      ensures queue.Contents == if r.Ok? then old(queue.Contents) + [job] else old(queue.Contents)
      ensures r == if contextDone then Err(EnqueueRefused(JobQueue.ContextDone))
                   else if job.id in JobIds(old(queue.Contents))
                     then Err(EnqueueRefused(JobQueue.AlreadyQueued(job.id)))
                   else Ok(())
    {
      hide Ran, JobStore.ColumnsAgree, JobQueue.Refines, JobQueue.TableStep;
      var enqueued := queue.Enqueue(contextDone, job);
      api := Ready;
      Log(ResumeEnqueue(enqueued.Ok?));
      r := if enqueued.Ok? then Ok(()) else Err(EnqueueRefused(enqueued.error));
    }

    // ----- the worker -----

    /** One turn of the worker loop, up to the job it takes. The dequeue may fail, at the latest when its wait times
        out; then nothing is taken. */
    method TakeJob(fails: bool) returns (over: bool, job: Option<Job>)
      requires Recorded() && phase.Up? && worker.Idle?
      modifies this`worker, this`events, this`trace, queue
      ensures Recorded()
      ensures over == (stopping || parentDone)
      ensures job == if over || fails || old(queue.Contents) == [] then None else Some(old(queue.Contents)[0])
      ensures worker == if job.Some? then Dequeued(job.value) else Idle
      ensures events == old(events) + if job.Some? then [Dequeue] else []
    {
      hide Ran;
      if stopping || parentDone {
        return true, None;
      }
      var front := queue.Dequeue(fails);
      if front.Err? {
        return parentDone, None;
      }
      over, job := false, front.value;
      if job.Some? {
        worker := Dequeued(job.value);
        Log(Dequeue);
      }
    }

    predicate Done(run: nat)
      reads this
    {
      parentDone || run in cancelled
    }

    /** Makes the context of the run and registers its cancel function twice. */
    method RegisterRun(job: Job) returns (run: nat)
      requires Recorded() && worker == Dequeued(job)
      modifies this`worker, this`nextRun, this`cancels, this`events, this`trace, shutdown
      ensures Recorded() && worker == Registered(job, run)
      ensures run !in cancelled
      ensures events == old(events) + [Register]
    {
      hide Ran;
      FreshRun(this);
      run := nextRun;
      nextRun := nextRun + 1;
      shutdown.Register(job.id, run);
      cancels := cancels[job.id := run];
      worker := Registered(job, run);
      Log(Register);
    }

    method MarkJobRunning(run: nat, job: Job, now: int)
      requires Recorded() && job.id != "" && worker.Registered? && worker.run == run
      requires job == worker.job.(status := Running, startedAt := Some(now))
      modifies this`worker, this`events, this`trace, store`rows
      ensures Recorded() && worker == Executing(job, run)
      ensures store.rows == if Done(run) then old(store.rows) else JobStore.Saved(old(store.rows), job)
      ensures events == old(events) + [MarkRunning(now, true)]
    {
      hide Ran;
      var saved := store.SaveJob(Done(run), job);
      worker := Executing(job, run);
      Log(MarkRunning(now, true));
    }

    method ReportProgress(run: nat, job: Job, progress: JobProgress)
      requires Recorded() && worker.Executing? && worker.run == run && job == worker.job.(progress := progress)
      modifies this`worker, this`events, this`trace, this`published, store`rows
      ensures Recorded() && worker == Executing(job, run)
      ensures store.rows
              == if Done(run) then old(store.rows) else JobStore.Progressed(old(store.rows), job.id, progress)
      ensures events == old(events) + [Progress(progress, true)]
              && published == old(published) + [Publish(job.id, progress)]
    {
      hide Ran;
      var saved := store.UpdateProgress(Done(run), job.id, progress);
      worker := Executing(job, run);
      Log(Progress(progress, true));
      published := published + [Publish(job.id, progress)];
    }

    method ReportLog(run: nat, job: Job, entry: JobLog, now: int)
      requires Recorded() && worker == Executing(job, run)
      modifies this`events, this`trace, store`logs
      ensures Recorded() && worker == Executing(job, run)
      ensures store.logs == old(store.logs)
              + if Done(run) then []
                else [(job.id, JobLog(Some(entry.timestamp.GetOr(now)), entry.level, entry.step, entry.message))]
      ensures events == old(events) + [EngineMachine.AppendLog(JobStore.Stamped(entry, now), true)]
    {
      hide Ran;
      var saved := store.AppendLog(Done(run), job.id, entry, now);
      Log(EngineMachine.AppendLog(JobStore.Stamped(entry, now), true));
    }

    method FailJob(run: nat, job: Job, cause: Failure, now: int)
      requires Recorded() && worker == Executing(job, run) && job.id != ""
      modifies this`worker, this`events, this`trace, store`rows
      ensures Recorded() && worker == Finishing(job.(status := Failed, error := cause, finishedAt := Some(now)), run)
      ensures store.rows == if Done(run) then old(store.rows)
                            else JobStore.Saved(old(store.rows),
                              job.(status := Failed, error := cause, finishedAt := Some(now)))
      ensures events == old(events) + [FailCreation(now, cause, true)]
    {
      hide Ran;
      var failed := job.(status := Failed, error := cause, finishedAt := Some(now));
      var saved := store.SaveJob(Done(run), failed);
      worker := Finishing(failed, run);
      Log(FailCreation(now, cause, true));
    }

    /** What the worker stores once the handler has returned, and what it tells the subscribers. */
    method FinishJob(run: nat, handled: Job, err: Option<string>, now: int)
      requires Recorded() && worker == Executing(handled, run) && handled.id != ""
      modifies this`worker, this`events, this`trace, this`published, store`rows
      ensures Recorded() && worker == Finishing(FinalJob(handled, err, Done(run), now), run)
      ensures Done(run) ==> store.rows == old(store.rows)
      ensures !Done(run) ==>
                var last := match err
                            case None => handled.(status := JobStatus.Done, finishedAt := Some(now),
                                                  progress := handled.progress.(percentage := 100.0))
                            case Some(cause) => handled.(status := Failed, finishedAt := Some(now),
                                                         error := HandlerFailed(cause));
                JobStore.ChangesOnly(old(store.rows), store.rows, handled.id) && store.rows[handled.id].doc == last
      ensures events == old(events) + [Finish(err, now, true)]
      ensures published == old(published)
              + if err.Some? && Done(run) && handled.status == Paused then []
                else
                  var last := if err.None? then handled.progress.(percentage := 100.0) else handled.progress;
                  [Publish(handled.id, last), CleanUp(handled.id)]
    {
      hide Ran, Enabled, Apply;
      var job := handled.(finishedAt := Some(now));
      if err.Some? {
        if Done(run) {
          if job.status != Paused {
            job := job.(status := Cancelled, error := ContextCancelled);
          }
        } else {
          job := job.(status := Failed, error := HandlerFailed(err.value));
        }
      } else {
        job := job.(status := JobStatus.Done, progress := job.progress.(percentage := 100.0));
      }
      SaveFinal(run, handled, err, now, job);
      if err.Some? && Done(run) && job.status == Paused {
        return;
      }
      published := published + [Publish(job.id, job.progress), CleanUp(job.id)];
    }

    method SaveFinal(run: nat, ghost handled: Job, ghost err: Option<string>, ghost now: int, job: Job)
      requires Recorded() && worker == Executing(handled, run) && job.id != ""
      requires job == FinalJob(handled, err, Done(run), now)
      modifies this`worker, this`events, this`trace, store`rows
      ensures Recorded() && worker == Finishing(job, run)
      ensures store.rows == if Done(run) then old(store.rows) else JobStore.Saved(old(store.rows), job)
      ensures events == old(events) + [Finish(err, now, true)]
    {
      hide Ran, FinalJob;
      var saved := store.SaveJob(Done(run), job);
      worker := Finishing(job, run);
      Log(Finish(err, now, true));
    }

    /** The deferred clean-up of a run. */
    method RetireRun(run: nat, id: string)
      requires Recorded() && worker.Finishing? && worker.run == run && worker.job.id == id
      modifies this`worker, this`cancels, this`cancelled, this`events, this`trace, shutdown
      ensures Recorded() && worker.Idle?
      ensures events == old(events) + [Retire]
    {
      hide Ran;
      cancels := cancels - {id};
      shutdown.Unregister(id);
      cancelled := cancelled + {run};
      worker := Idle;
      Log(Retire);
    }

    method RunCallback(run: nat, before: Job, callback: Callback) returns (job: Job)
      requires Recorded() && worker == Executing(before, run)
      modifies this`worker, this`events, this`trace, this`published, store
      ensures Recorded() && worker == Executing(job, run)
      ensures job == before.(progress := LastProgress(before.progress, [callback]))
      ensures store.rows == old(store.rows)
              || (!Done(run) && JobStore.ChangesOnly(old(store.rows), store.rows, before.id))
      ensures store.logs == old(store.logs) + if Done(run) then [] else CallbackLogs(before.id, [callback])
      ensures published == old(published) + CallbackCalls(before.id, [callback])
      ensures events == old(events) + CallbackSteps([callback])
    {
      hide Ran, Enabled, Apply;
      assert [callback][..0] == [];
      job := before;
      match callback {
        case OnProgress(progress) =>
          job := job.(progress := progress);
          ReportProgress(run, job, progress);
        case OnLog(entry, now) =>
          ReportLog(run, job, entry, now);
      }
    }

    method RunCallbacks(run: nat, started: Job, callbacks: seq<Callback>) returns (job: Job)
      requires Recorded() && worker == Executing(started, run)
      modifies this`worker, this`events, this`trace, this`published, store
      ensures Recorded() && worker == Executing(job, run)
      ensures job == started.(progress := LastProgress(started.progress, callbacks))
      ensures store.rows == old(store.rows)
              || (!Done(run) && JobStore.ChangesOnly(old(store.rows), store.rows, started.id))
      ensures store.logs == old(store.logs) + if Done(run) then [] else CallbackLogs(started.id, callbacks)
      ensures published == old(published) + CallbackCalls(started.id, callbacks)
      ensures events == old(events) + CallbackSteps(callbacks)
    {
      hide Ran, Enabled, Apply, CallbackSteps, CallbackLogs, CallbackCalls, LastProgress, Recorded;
      job := started;
      NoCallbacks(started.id, started.progress);
      for i := 0 to |callbacks|
        invariant Recorded() && worker == Executing(job, run)
        invariant job == started.(progress := LastProgress(started.progress, callbacks[..i]))
        invariant store.rows == old(store.rows)
                  || (!Done(run) && JobStore.ChangesOnly(old(store.rows), store.rows, started.id))
        invariant store.logs == old(store.logs) + if Done(run) then [] else CallbackLogs(started.id, callbacks[..i])
        invariant published == old(published) + CallbackCalls(started.id, callbacks[..i])
        invariant events == old(events) + CallbackSteps(callbacks[..i])
      {
        OneMoreCallback(started.id, started.progress, callbacks[..i], callbacks[i]);
        assert callbacks[..i + 1] == callbacks[..i] + [callbacks[i]];
        job := RunCallback(run, job, callbacks[i]);
      }
      assert callbacks[..|callbacks|] == callbacks;
    }

    method ExecuteJob(dequeued: Job, handler: Handler, startTime: int, endTime: int)
      requires Recorded() && worker == Dequeued(dequeued) && dequeued.id != ""
      modifies this`worker, this`nextRun, this`cancels, this`cancelled, this`events, this`trace, this`published, store,
        shutdown
      ensures Recorded() && worker.Idle?
      ensures parentDone ==> store.rows == old(store.rows) && store.logs == old(store.logs)
      ensures !parentDone ==> JobStore.ChangesOnly(old(store.rows), store.rows, dequeued.id)
                              && IsOutcome(store.rows[dequeued.id].doc, dequeued, handler, startTime, endTime)
                              && store.logs == old(store.logs) + HandlerLogs(dequeued.id, handler)
      ensures published == old(published) + HandlerCalls(dequeued, handler)
      ensures events == old(events) + [Register, MarkRunning(startTime, true)]
              + HandlerSteps(dequeued, handler, endTime) + [Retire]
    {
      hide Ran, Enabled, Apply, HandlerLogs, HandlerCalls, HandlerSteps, IsOutcome;
      HandledAlike(dequeued, handler, startTime, endTime);
      var run, job := BeginJob(dequeued, startTime);
      RunHandler(run, job, handler, endTime);
      RetireRun(run, job.id);
    }

    method BeginJob(dequeued: Job, now: int) returns (run: nat, job: Job)
      requires Recorded() && worker == Dequeued(dequeued) && dequeued.id != ""
      modifies this`worker, this`nextRun, this`cancels, this`events, this`trace, store`rows, shutdown
      ensures Recorded() && worker == Executing(job, run)
      ensures job == dequeued.(status := Running, startedAt := Some(now))
      ensures run !in cancelled
      ensures store.rows == if parentDone then old(store.rows) else JobStore.Saved(old(store.rows), job)
      ensures events == old(events) + [Register, MarkRunning(now, true)]
    {
      hide Ran, Enabled, Apply;
      run := RegisterRun(dequeued);
      job := dequeued.(status := Running, startedAt := Some(now));
      MarkJobRunning(run, job, now);
    }

    method RunHandler(run: nat, job: Job, handler: Handler, endTime: int)
      requires Recorded() && worker == Executing(job, run)
      requires job.id != "" && job.status == Running && job.startedAt.Some?
      modifies this`worker, this`events, this`trace, this`published, store
      ensures Recorded() && worker.Finishing? && worker.run == run && worker.job.id == job.id
      ensures Done(run) ==> store.rows == old(store.rows) && store.logs == old(store.logs)
      ensures !Done(run) ==> JobStore.ChangesOnly(old(store.rows), store.rows, job.id)
                             && IsOutcome(store.rows[job.id].doc, job, handler, job.startedAt.value, endTime)
                             && store.logs == old(store.logs) + HandlerLogs(job.id, handler)
      ensures published == old(published) + HandlerCalls(job, handler)
      ensures events == old(events) + HandlerSteps(job, handler, endTime)
    {
      hide Ran, Enabled, Apply, Recorded, CallbackSteps, CallbackLogs, CallbackCalls, LastProgress;
      match handler {
        case CreationFails(cause) =>
          FailJob(run, job, CreateHandlerFailed(cause), endTime);
        case Missing =>
          FailJob(run, job, NoHandler(job.jobType, job.id), endTime);
        case Runs(callbacks, err) =>
          var handled := RunCallbacks(run, job, callbacks);
          FinishJob(run, handled, err, endTime);
      }
    }

    // ----- start, recovery and shutdown -----

    method Start(lives: nat) returns (r: Result<(), EngineError>)
      requires Valid() && (!started ==> worker.Idle?)
      modifies this`started, this`phase, this`parentDone, this`events, this`trace, store`rows
      ensures Valid() && started
      ensures r == if old(started) then Err(AlreadyStarted) else Ok(())
      ensures old(started) ==> events == old(events)
      ensures !old(started) && lives == 0 ==> events == old(events) + [RestartBlind, CancelParent] && parentDone
      ensures !old(started) && lives > 0 ==>
        exists listed :: JobStore.IsListing(old(store.rows), JobFilter(None, Some(Running), 0), listed)
                         && events == old(events) + StartSteps(lives, listed)
                         && parentDone == (old(parentDone) || lives < |listed| + 2)
    {
      hide Ran, Enabled, Apply;
      if started {
        return Err(AlreadyStarted);
      }
      started := true;
      var contextDone := RecoverJobs(lives);
      if contextDone {
        CancelParentContext();
      }
      r := Ok(());
    }

    method RecoverJobs(lives: nat) returns (contextDone: bool)
      requires Recorded() && api.Ready? && phase.Down?
      modifies this`phase, this`events, this`trace, store`rows
      ensures Recorded() && phase.Up?
      ensures lives == 0 ==> contextDone && events == old(events) + [RestartBlind]
      ensures lives > 0 ==>
        exists listed :: JobStore.IsListing(old(store.rows), JobFilter(None, Some(Running), 0), listed)
                         && events == old(events) + RecoverySteps(lives, listed)
                         && contextDone == (lives < |listed| + 2)
    {
      hide Ran, Enabled, Apply;
      var listed := store.ListJobs(lives == 0, JobFilter(None, Some(Running), 0));
      if listed.Err? {
        SkipRecovery();
        return true;
      }
      BeginRecovery(listed.value);
      PauseAll(lives, listed.value);
      var queued := store.ListJobs(|listed.value| + 1 >= lives, JobFilter(None, Some(Queued), 0));
      contextDone := queued.Err?;
      EndRecovery();
      RecoveryJoined(old(events), lives, listed.value);
    }

    method SkipRecovery()
      requires Recorded() && phase.Down? && api.Ready?
      modifies this`phase, this`events, this`trace
      ensures Recorded() && phase.Up? && events == old(events) + [RestartBlind]
    {
      hide Ran;
      phase := Up;
      Log(RestartBlind);
    }

    method BeginRecovery(jobs: seq<Job>)
      requires Recorded() && phase.Down? && api.Ready?
               && JobStore.IsListing(store.rows, JobFilter(None, Some(Running), 0), jobs)
      modifies this`phase, this`events, this`trace
      ensures Recorded() && phase == Recovering(jobs, {}) && events == old(events) + [Restart(jobs)]
      ensures forall j :: j in jobs ==> j.id != ""
    {
      hide Ran;
      phase := Recovering(jobs, {});
      Log(Restart(jobs));
    }

    method EndRecovery()
      requires Recorded() && phase.Recovering? && phase.todo == []
      modifies this`phase, this`events, this`trace
      ensures Recorded() && phase.Up? && events == old(events) + [RecoverDone]
    {
      hide Ran;
      phase := Up;
      Log(RecoverDone);
    }

    method PauseAll(lives: nat, jobs: seq<Job>)
      requires Recorded() && phase == Recovering(jobs, {})
      requires forall j :: j in jobs ==> j.id != ""
      modifies this`phase, this`events, this`trace, store`rows
      ensures Recorded() && phase.Recovering? && phase.todo == []
      ensures events == old(events) + RecoverySaveSteps(lives, |jobs|)
    {
      hide Ran, Enabled, Apply;
      for i := 0 to |jobs|
        invariant Recorded() && phase.Recovering? && phase.todo == jobs[i..]
        invariant events == old(events) + RecoverySaveSteps(lives, i)
      {
        PauseRecovered(i + 1 >= lives, jobs[i]);
      }
    }

    method PauseRecovered(contextDone: bool, listed: Job)
      requires Recorded() && phase.Recovering? && phase.todo != [] && phase.todo[0] == listed && listed.id != ""
      modifies this`phase, this`events, this`trace, store`rows
      ensures Recorded() && phase.Recovering? && phase.todo == old(phase.todo)[1..]
      ensures events == old(events) + [RecoverSave(!contextDone)]
    {
      hide Ran;
      var job := listed.(status := Paused);
      var saved := store.SaveJob(contextDone, job);
      phase := Recovering(phase.todo[1..], if contextDone then phase.missed + {job.id} else phase.missed);
      Log(RecoverSave(!contextDone));
    }

    method CancelParentContext()
      requires Recorded() && phase.Up?
      modifies this`parentDone, this`events, this`trace
      ensures Recorded() && parentDone && events == old(events) + [CancelParent]
    {
      hide Ran;
      parentDone := true;
      Log(CancelParent);
    }

    /** A stop tells the worker to take no further job; calls are still served. A second stop before the first has ended
        closes a closed channel. */
    method BeginStop() returns (outcome: StopOutcome)
      requires Valid()
      modifies this`stopping
      ensures Valid() && stopping == started
      ensures outcome == if !started then NothingToStop else if old(stopping) then Panics else Waits
    {
      if !started {
        return NothingToStop;
      }
      if stopping {
        return Panics;
      }
      stopping := true;
      outcome := Waits;
    }

    /** The rest of a stop, once the worker has left its loop. */
    method EndStop()
      requires Valid() && stopping && worker.Idle?
      modifies this`started, this`stopping, this`phase, this`parentDone, this`events, this`trace
      ensures Valid() && !started && !stopping && events == old(events) + [Halt]
    {
      hide Ran;
      started, stopping := false, false;
      phase, parentDone := Down, false;
      Log(Halt);
    }

    /** What a stop does to the jobs that are still running when its timeout is reached. */
    method ForceCancelJobs() returns (count: nat)
      requires Recorded() && phase.Up?
      modifies this`cancelled, this`events, this`trace
      ensures Recorded() && events == old(events) + [EngineMachine.ForceCancel]
      ensures count == |shutdown.runningJobs| && shutdown.runningJobs.Values <= cancelled
    {
      hide Ran;
      var runs;
      count, runs := shutdown.ForceCancel();
      cancelled := cancelled + runs;
      Log(EngineMachine.ForceCancel);
    }
  }

  lemma CurrentConsistent(events: seq<Event>, trace: seq<State>)
    requires Ran(events, trace)
    ensures Consistent(Current(trace)) && QueueExact(Current(trace))
  {
    hide Ran, Consistent, QueueExact, NoBadSave;
    RanIsRun(events, trace);
    InitialConsistent();
    RunKeepsConsistent(INITIAL, events);
    QueueExactExactly(INITIAL, events);
  }

  lemma FreshRun(e: Engine)
    requires e.Recorded()
    ensures e.nextRun !in e.cancelled
  {
    hide Ran;
    CurrentConsistent(e.events, e.trace);
  }

  lemma NotQueuedUnlessLoadedSo(e: Engine, job: Job)
    requires e.Recorded() && e.api == CancelLoaded(job)
    ensures Distinct(JobIds(e.queue.Contents))
    ensures job.id !in JobIds(Without(e.queue.Contents, job.id))
    ensures job.status != Queued ==> job.id !in JobIds(e.queue.Contents)
  {
    hide Ran;
    CurrentConsistent(e.events, e.trace);
    WithoutKeepsOthers(e.queue.Contents, job.id);
  }

  /** Whatever is called in whatever order, and whenever a call's context ends, the queue of an engine holds each of
      its jobs once and only jobs that are stored as queued. */
  lemma EngineQueueHoldsQueued(e: Engine)
    requires e.Recorded()
    ensures Distinct(JobIds(e.queue.Contents))
    ensures forall id :: id in JobIds(e.queue.Contents) ==> id in e.store.rows && e.store.rows[id].doc.status == Queued
  {
    hide Ran;
    CurrentConsistent(e.events, e.trace);
  }

  /** Between any two writes of any call too, which is where a crash can fall. */
  lemma {:induction false} EveryWriteIsConsistent(events: seq<Event>, trace: seq<State>, i: nat)
    requires Ran(events, trace) && i < |trace|
    ensures Consistent(trace[i]) && QueueExact(trace[i])
    decreases |events|
  {
    hide Consistent, QueueExact;
    var n := |events| - 1;
    if i < n {
      EveryWriteIsConsistent(events[..n], trace[..n], i);
    } else {
      CurrentConsistent(events, trace);
    }
  }
}
