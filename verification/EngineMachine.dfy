/** The job engine as a transition system: the persistent store and queue, one worker, at
    most one API call in progress, and a step for every persistent write. */
module EngineMachine {
  import opened Sequences
  import opened Jobs
  import opened JobStore

  /** How far the worker is with the job it took from the queue. */
  datatype Worker =
    | Idle
    | Dequeued(job: Job)
    | Registered(job: Job, run: nat)
    | Executing(job: Job, run: nat)
    | Finishing(job: Job, run: nat)

  /** How far the API call in progress is; the job is the copy that the call loaded. */
  datatype Api =
    | Ready
    | SubmitSaved(job: Job)
    | SubmitFailed(job: Job)
    | CancelLoaded(job: Job)
    | CancelActed(job: Job)
    | PauseLoaded(job: Job)
    | PauseActed(job: Job)
    | ResumeLoaded(job: Job)
    | ResumeSaved(job: Job)

  datatype Phase = Down | Recovering(todo: seq<Job>, missed: set<string>) | Up

  datatype State = State(
    rows: Rows, logs: seq<(string, JobLog)>, queue: seq<Job>, worker: Worker, api: Api, phase: Phase,
    cancels: map<string, nat>, runningJobs: map<string, nat>, cancelled: set<nat>, nextRun: nat, parentDone: bool)

  /** `ok` says that the write of the step succeeds; a step with `ok == false` is a store or queue fault.
      Halt ends a stop of the engine; RestartBlind is a start whose recovery could not list the running jobs. */
  datatype Event =
    | Submit(req: JobRequest, id: string, now: int, ok: bool)
    | EnqueueSubmitted(ok: bool)
    | SaveFailedSubmission(ok: bool)
    | BeginCancel(id: string)
    | CancelAct(ok: bool)
    | CancelSave(now: int, ok: bool)
    | BeginPause(id: string)
    | PauseAct
    | PauseSave(ok: bool)
    | BeginResume(id: string)
    | ResumeSave(ok: bool)
    | ResumeEnqueue(ok: bool)
    | Dequeue
    | Register
    | MarkRunning(now: int, ok: bool)
    | FailCreation(now: int, cause: Failure, ok: bool)
    | Progress(progress: JobProgress, ok: bool)
    | AppendLog(entry: JobLog, ok: bool)
    | Finish(err: Option<string>, now: int, ok: bool)
    | Retire
    | CancelParent
    | ForceCancel
    | Halt
    | Crash
    | Restart(listed: seq<Job>)
    | RestartBlind
    | RecoverSave(ok: bool)
    | RecoverDone

  const INITIAL := State(map[], [], [], Idle, Ready, Down, map[], map[], {}, 0, false)

  // ----- pieces of the steps -----

  function NewJob(req: JobRequest, id: string, now: int): Job {
    Job(id, req.jobType, Queued, now, None, None, req.planId, req.migrationId, req.sourceId, req.targetId, NO_PROGRESS,
      NoFailure)
  }

  /** ctx.Err() != nil inside run `run` */
  predicate ContextIsDone(s: State, run: nat) {
    s.parentDone || run in s.cancelled
  }

  /** The document that the last save of a run writes. */
  function FinalJob(job: Job, err: Option<string>, contextDone: bool, now: int): Job {
    var finished := job.(finishedAt := Some(now));
    match err
    case None => finished.(status := Done, progress := job.progress.(percentage := 100.0))
    case Some(cause) =>
      if contextDone then
        if job.status == Paused then finished else finished.(status := Cancelled, error := ContextCancelled)
      else finished.(status := Failed, error := HandlerFailed(cause))
  }

  /** A save inside run `run`: nothing happens when its context is done. */
  function RunSave(s: State, run: nat, job: Job, ok: bool): Rows {
    if ok && !ContextIsDone(s, run) then Saved(s.rows, job) else s.rows
  }

  function CancelRunOf(s: State, id: string): set<nat> {
    if id in s.cancels then s.cancelled + {s.cancels[id]} else s.cancelled
  }

  predicate IsWorkerEvent(e: Event) {
    e.Dequeue? || e.Register? || e.MarkRunning? || e.FailCreation? || e.Progress? || e.AppendLog? || e.Finish?
      || e.Retire?
  }

  // ----- when a step can happen -----

  ghost predicate Enabled(s: State, e: Event) {
    match e
    case Submit(_, id, _, _) => s.phase.Up? && s.api.Ready? && id != "" && id !in s.rows
    case EnqueueSubmitted(_) => s.api.SubmitSaved?
    case SaveFailedSubmission(_) => s.api.SubmitFailed?
    case BeginCancel(_) => !s.phase.Recovering? && s.api.Ready?
    case CancelAct(_) => s.api.CancelLoaded?
    case CancelSave(_, _) => s.api.CancelActed?
    case BeginPause(_) => !s.phase.Recovering? && s.api.Ready?
    case PauseAct => s.api.PauseLoaded?
    case PauseSave(_) => s.api.PauseActed?
    case BeginResume(_) => !s.phase.Recovering? && s.api.Ready?
    case ResumeSave(_) => s.api.ResumeLoaded?
    case ResumeEnqueue(_) => s.api.ResumeSaved?
    case Dequeue => s.phase.Up? && s.worker.Idle? && !s.parentDone && s.queue != []
    case Register => s.worker.Dequeued?
    case MarkRunning(_, _) => s.worker.Registered?
    case FailCreation(_, _, _) => s.worker.Executing?
    case Progress(_, _) => s.worker.Executing?
    case AppendLog(_, _) => s.worker.Executing?
    case Finish(_, _, _) => s.worker.Executing?
    case Retire => s.worker.Finishing?
    case CancelParent => s.phase.Up?
    case ForceCancel => s.phase.Up?
    case Halt => s.phase.Up? && s.worker.Idle?
    case Crash => true
    case Restart(listed) => s.phase.Down? && s.api.Ready?
      && IsListing(s.rows, JobFilter(None, Some(Running), 0), listed)
    case RestartBlind => s.phase.Down? && s.api.Ready?
    case RecoverSave(_) => s.phase.Recovering? && s.phase.todo != []
    case RecoverDone => s.phase.Recovering? && s.phase.todo == []
  }

  // ----- the API -----

  function ApplyApi(s: State, e: Event): State {
    match e
    case Submit(req, id, now, ok) =>
      var job := NewJob(req, id, now);
      if ok then s.(rows := Saved(s.rows, job), api := SubmitSaved(job)) else s
    case EnqueueSubmitted(ok) =>
      if !s.api.SubmitSaved? then s
      else if ok then s.(queue := s.queue + [s.api.job], api := Ready)
      else s.(api := SubmitFailed(s.api.job.(status := Failed, error := EnqueueFailed)))
    case SaveFailedSubmission(ok) =>
      if !s.api.SubmitFailed? then s
      else s.(rows := if ok then Saved(s.rows, s.api.job) else s.rows, api := Ready)
    case BeginCancel(id) =>
      if id !in s.rows || s.rows[id].doc.status.IsTerminal() then s else s.(api := CancelLoaded(s.rows[id].doc))
    case CancelAct(ok) =>
      if !s.api.CancelLoaded? then s
      else
        var job := s.api.job;
        s.(queue := if job.status == Queued && ok then Without(s.queue, job.id) else s.queue,
           cancelled := if job.status == Running then CancelRunOf(s, job.id) else s.cancelled,
           api := CancelActed(job))
    case CancelSave(now, ok) =>
      if !s.api.CancelActed? then s
      else
        var job := s.api.job.(status := Cancelled, finishedAt := Some(now));
        s.(rows := if ok then Saved(s.rows, job) else s.rows, api := Ready)
    case BeginPause(id) =>
      if id !in s.rows || s.rows[id].doc.status != Running then s else s.(api := PauseLoaded(s.rows[id].doc))
    case PauseAct =>
      if !s.api.PauseLoaded? then s else s.(cancelled := CancelRunOf(s, s.api.job.id), api := PauseActed(s.api.job))
    case PauseSave(ok) =>
      if !s.api.PauseActed? then s
      else s.(rows := if ok then Saved(s.rows, s.api.job.(status := Paused)) else s.rows, api := Ready)
    case BeginResume(id) =>
      if id !in s.rows || s.rows[id].doc.status != Paused then s else s.(api := ResumeLoaded(s.rows[id].doc))
    case ResumeSave(ok) =>
      if !s.api.ResumeLoaded? then s
      else
        var job := s.api.job.(status := Queued);
        if ok then s.(rows := Saved(s.rows, job), api := ResumeSaved(job)) else s.(api := Ready)
    case ResumeEnqueue(ok) =>
      if !s.api.ResumeSaved? then s
      else s.(queue := if ok then s.queue + [s.api.job] else s.queue, api := Ready)
    case _ => s
  }

  // ----- the worker -----

  function ApplyWorker(s: State, e: Event): State {
    match e
    case Dequeue =>
      if s.queue == [] then s else s.(queue := s.queue[1..], worker := Dequeued(s.queue[0]))
    case Register =>
      if !s.worker.Dequeued? then s
      else
        var job, run := s.worker.job, s.nextRun;
        s.(runningJobs := s.runningJobs[job.id := run], cancels := s.cancels[job.id := run],
           nextRun := run + 1, worker := Registered(job, run))
    case MarkRunning(now, ok) =>
      if !s.worker.Registered? then s
      else
        var job := s.worker.job.(status := Running, startedAt := Some(now));
        s.(rows := RunSave(s, s.worker.run, job, ok), worker := Executing(job, s.worker.run))
    case FailCreation(now, cause, ok) =>
      if !s.worker.Executing? then s
      else
        var job := s.worker.job.(status := Failed, error := cause, finishedAt := Some(now));
        s.(rows := RunSave(s, s.worker.run, job, ok), worker := Finishing(job, s.worker.run))
    case Progress(progress, ok) =>
      if !s.worker.Executing? then s
      else
        s.(rows := if ok && !ContextIsDone(s, s.worker.run) then Progressed(s.rows, s.worker.job.id, progress)
                   else s.rows,
           worker := Executing(s.worker.job.(progress := progress), s.worker.run))
    case AppendLog(entry, ok) =>
      if !s.worker.Executing? then s
      else s.(logs := if ok && !ContextIsDone(s, s.worker.run) then s.logs + [(s.worker.job.id, entry)] else s.logs)
    case Finish(err, now, ok) =>
      if !s.worker.Executing? then s
      else
        var job := FinalJob(s.worker.job, err, ContextIsDone(s, s.worker.run), now);
        s.(rows := RunSave(s, s.worker.run, job, ok), worker := Finishing(job, s.worker.run))
    case Retire =>
      if !s.worker.Finishing? then s
      else
        s.(cancels := s.cancels - {s.worker.job.id}, runningJobs := s.runningJobs - {s.worker.job.id},
           cancelled := s.cancelled + {s.worker.run}, worker := Idle)
    case _ => s
  }

  // ----- shutdown, crashes and recovery -----

  function ApplySystem(s: State, e: Event): State {
    match e
    case CancelParent => s.(parentDone := true)
    case ForceCancel => s.(cancelled := s.cancelled + s.runningJobs.Values)
    case Halt => s.(phase := Down, parentDone := false)
    case Crash =>
      s.(worker := Idle, api := Ready, phase := Down, cancels := map[], runningJobs := map[], cancelled := {},
        parentDone := false)
    case Restart(listed) => s.(phase := Recovering(listed, {}))
    case RestartBlind => s.(phase := Up)
    case RecoverSave(ok) =>
      if !s.phase.Recovering? || s.phase.todo == [] then s
      else
        var job := s.phase.todo[0].(status := Paused);
        s.(rows := if ok then Saved(s.rows, job) else s.rows,
           phase := Recovering(s.phase.todo[1..], if ok then s.phase.missed else s.phase.missed + {job.id}))
    case RecoverDone => s.(phase := Up)
    case _ => s
  }

  predicate IsSystemEvent(e: Event) {
    e.CancelParent? || e.ForceCancel? || e.Halt? || e.Crash? || e.Restart? || e.RestartBlind? || e.RecoverSave?
      || e.RecoverDone?
  }

  function Apply(s: State, e: Event): State {
    if IsWorkerEvent(e) then ApplyWorker(s, e)
    else if IsSystemEvent(e) then ApplySystem(s, e)
    else ApplyApi(s, e)
  }

  // ----- runs -----

  function Exec(s: State, events: seq<Event>): State {
    if events == [] then s else Apply(Exec(s, events[..|events| - 1]), events[|events| - 1])
  }

  /** Each event was possible when it came. */
  ghost predicate IsRun(s: State, events: seq<Event>) {
    events == [] ||
    (IsRun(s, events[..|events| - 1]) && Enabled(Exec(s, events[..|events| - 1]), events[|events| - 1]))
  }
}
