/** The invariant that every step of the job engine keeps, crashes and store faults included. */
module EngineInvariant {
  import opened Sequences
  import opened Jobs
  import opened JobStore
  import opened EngineMachine

  /** The worker can still write job `id`: it holds it and its run has not been cancelled. */
  predicate MayWrite(s: State, id: string) {
    match s.worker
    case Dequeued(job) => job.id == id
    case Registered(job, run) => job.id == id && run !in s.cancelled
    case Executing(job, run) => job.id == id && run !in s.cancelled
    case _ => false
  }

  /** The worker has taken job `id` and has not yet tried to save it as running. */
  predicate BeforeMark(s: State, id: string) {
    (s.worker.Dequeued? || s.worker.Registered?) && s.worker.job.id == id
  }

  predicate Stored(s: State, id: string, status: JobStatus) {
    id in s.rows && s.rows[id].doc.status == status
  }

  predicate OutOfReach(s: State, id: string) {
    id in s.rows && id !in JobIds(s.queue) && !MayWrite(s, id) && !BeforeMark(s, id)
  }

  ghost predicate QueueConsistent(s: State) {
    forall id :: id in JobIds(s.queue) ==>
      (Stored(s, id, Queued) || Stored(s, id, Cancelled)) && !MayWrite(s, id) && !BeforeMark(s, id)
  }

  function RunMap(w: Worker): map<string, nat> {
    if w.Idle? || w.Dequeued? then map[] else map[w.job.id := w.run]
  }

  ghost predicate WorkerConsistent(s: State) {
    && s.cancels == RunMap(s.worker) && s.runningJobs == RunMap(s.worker)
    && (forall run :: run in s.cancelled ==> run < s.nextRun)
    && (!s.worker.Idle? && !s.worker.Dequeued? ==> s.worker.run < s.nextRun)
    && (!s.worker.Idle? ==>
          var id := s.worker.job.id;
          && s.phase.Up? && id in s.rows
          && (MayWrite(s, id) ==> !Stored(s, id, Paused))
          && (BeforeMark(s, id) ==> Stored(s, id, Queued) || Stored(s, id, Cancelled)))
  }

  ghost predicate ApiConsistent(s: State) {
    && (!s.api.Ready? ==> !s.phase.Recovering? && s.api.job.id in s.rows)
    && match s.api
       case Ready => true
       case SubmitSaved(job) => OutOfReach(s, job.id) && job.status == Queued && Stored(s, job.id, Queued)
       case SubmitFailed(job) => OutOfReach(s, job.id) && job.status == Failed && Stored(s, job.id, Queued)
       case CancelLoaded(job) =>
         && !job.status.IsTerminal()
         && (job.status != Queued ==> job.id !in JobIds(s.queue) && !BeforeMark(s, job.id))
         && (job.status == Paused ==> !MayWrite(s, job.id))
       case CancelActed(job) => job.status != Queued ==> OutOfReach(s, job.id)
       case PauseLoaded(job) => job.id !in JobIds(s.queue) && !BeforeMark(s, job.id) && !Stored(s, job.id, Queued)
       case PauseActed(job) => OutOfReach(s, job.id) && !Stored(s, job.id, Queued)
       case ResumeLoaded(job) => OutOfReach(s, job.id) && Stored(s, job.id, Paused)
       case ResumeSaved(job) => OutOfReach(s, job.id) && job.status == Queued && Stored(s, job.id, Queued)
  }

  ghost predicate PhaseConsistent(s: State) {
    s.phase.Recovering? ==>
      && (forall j :: j in s.phase.todo ==> Stored(s, j.id, Running))
      && (forall id :: id in s.phase.missed ==> Stored(s, id, Running))
      && (forall id :: Stored(s, id, Running) ==> id in JobIds(s.phase.todo) || id in s.phase.missed)
      && Distinct(JobIds(s.phase.todo))
      && (forall id :: id in s.phase.missed ==> id !in JobIds(s.phase.todo))
  }

  ghost predicate Consistent(s: State) {
    && ColumnsAgree(s.rows)
    && Distinct(JobIds(s.queue))
    && QueueConsistent(s)
    && WorkerConsistent(s)
    && ApiConsistent(s)
    && PhaseConsistent(s)
  }

  // ----- every step keeps it -----

  lemma QueueAppend(queue: seq<Job>, job: Job)
    requires Distinct(JobIds(queue)) && job.id !in JobIds(queue)
    ensures Distinct(JobIds(queue + [job]))
    ensures forall id :: id in JobIds(queue + [job]) <==> id in JobIds(queue) || id == job.id
  {
    assert JobIds(queue + [job]) == JobIds(queue) + [job.id];
  }

  lemma QueueFront(queue: seq<Job>)
    requires Distinct(JobIds(queue)) && queue != []
    ensures Distinct(JobIds(queue[1..])) && queue[0].id !in JobIds(queue[1..]) && queue[0].id in JobIds(queue)
    ensures forall id :: id in JobIds(queue[1..]) ==> id in JobIds(queue)
  {
    assert JobIds(queue)[0] == queue[0].id;
    assert JobIds(queue[1..]) == JobIds(queue)[1..];
  }

  lemma SubmitStep(s: State, e: Event)
    requires Consistent(s) && Enabled(s, e) && e.Submit?
    ensures Consistent(Apply(s, e))
  {
    hide ColumnsAgree;
    var job := NewJob(e.req, e.id, e.now);
    WritesKeepColumns(s.rows, job, job.id, job.progress);
  }

  lemma EnqueueSubmittedStep(s: State, e: Event)
    requires Consistent(s) && Enabled(s, e) && e.EnqueueSubmitted?
    ensures Consistent(Apply(s, e))
  {
    hide ColumnsAgree, IsListing;
    QueueAppend(s.queue, s.api.job);
  }

  lemma EnqueueResumedStep(s: State, e: Event)
    requires Consistent(s) && Enabled(s, e) && e.ResumeEnqueue?
    ensures Consistent(Apply(s, e))
  {
    hide ColumnsAgree, IsListing;
    QueueAppend(s.queue, s.api.job);
  }

  lemma FailedSubmissionStep(s: State, e: Event)
    requires Consistent(s) && Enabled(s, e) && e.SaveFailedSubmission?
    ensures Consistent(Apply(s, e))
  {
  }

  lemma BeginCancelStep(s: State, e: Event)
    requires Consistent(s) && Enabled(s, e) && e.BeginCancel?
    ensures Consistent(Apply(s, e))
  {
  }

  lemma CancelActStep(s: State, e: Event)
    requires Consistent(s) && Enabled(s, e) && e.CancelAct?
    ensures Consistent(Apply(s, e))
  {
    hide ColumnsAgree, IsListing, Without, JobIds;
    WithoutKeepsOthers(s.queue, s.api.job.id);
  }

  lemma CancelSaveStep(s: State, e: Event)
    requires Consistent(s) && Enabled(s, e) && e.CancelSave?
    ensures Consistent(Apply(s, e))
  {
    hide ColumnsAgree;
    var job := s.api.job.(status := Cancelled, finishedAt := Some(e.now));
    WritesKeepColumns(s.rows, job, job.id, job.progress);
  }

  lemma BeginPauseStep(s: State, e: Event)
    requires Consistent(s) && Enabled(s, e) && e.BeginPause?
    ensures Consistent(Apply(s, e))
  {
  }

  lemma PauseActStep(s: State, e: Event)
    requires Consistent(s) && Enabled(s, e) && e.PauseAct?
    ensures Consistent(Apply(s, e))
  {
    hide ColumnsAgree, IsListing;
  }

  lemma PauseSaveStep(s: State, e: Event)
    requires Consistent(s) && Enabled(s, e) && e.PauseSave?
    ensures Consistent(Apply(s, e))
  {
    hide ColumnsAgree;
    var job := s.api.job.(status := Paused);
    WritesKeepColumns(s.rows, job, job.id, job.progress);
  }

  lemma BeginResumeStep(s: State, e: Event)
    requires Consistent(s) && Enabled(s, e) && e.BeginResume?
    ensures Consistent(Apply(s, e))
  {
  }

  lemma ResumeSaveStep(s: State, e: Event)
    requires Consistent(s) && Enabled(s, e) && e.ResumeSave?
    ensures Consistent(Apply(s, e))
  {
    var job := s.api.job.(status := Queued);
    if e.ok {
      assert Apply(s, e) == s.(rows := Saved(s.rows, job), api := ResumeSaved(job));
      hide Apply, Enabled;
      ResumeSavedKeeps(s, job);
    } else {
      assert Apply(s, e) == s.(api := Ready);
      hide Apply, Enabled, ColumnsAgree;
    }
  }

  lemma ResumeSavedKeeps(s: State, job: Job)
    requires Consistent(s) && s.api.ResumeLoaded? && job == s.api.job.(status := Queued)
    ensures Consistent(s.(rows := Saved(s.rows, job), api := ResumeSaved(job)))
  {
    hide ColumnsAgree;
    WritesKeepColumns(s.rows, job, job.id, job.progress);
  }

  lemma DequeueStep(s: State, e: Event)
    requires Consistent(s) && Enabled(s, e) && e.Dequeue?
    ensures Consistent(Apply(s, e))
  {
    hide ColumnsAgree, IsListing;
    QueueFront(s.queue);
  }

  lemma RegisterStep(s: State, e: Event)
    requires Consistent(s) && Enabled(s, e) && e.Register?
    ensures Consistent(Apply(s, e))
  {
    hide ColumnsAgree, IsListing;
  }

  lemma MarkRunningStep(s: State, e: Event)
    requires Consistent(s) && Enabled(s, e) && e.MarkRunning?
    ensures Consistent(Apply(s, e))
  {
    hide ColumnsAgree;
    var job := s.worker.job.(status := Running, startedAt := Some(e.now));
    WritesKeepColumns(s.rows, job, job.id, job.progress);
  }

  lemma ProgressStep(s: State, e: Event)
    requires Consistent(s) && Enabled(s, e) && e.Progress?
    ensures Consistent(Apply(s, e))
  {
    hide ColumnsAgree;
    WritesKeepColumns(s.rows, s.worker.job, s.worker.job.id, e.progress);
  }

  lemma AppendLogStep(s: State, e: Event)
    requires Consistent(s) && Enabled(s, e) && e.AppendLog?
    ensures Consistent(Apply(s, e))
  {
    hide ColumnsAgree, IsListing;
  }

  /** A run that ends writes nothing, or its finished record while it is live. */
  ghost predicate EndsRun(s: State, t: State) {
    && s.worker.Executing? && t.worker.Finishing?
    && t == s.(rows := t.rows, worker := Finishing(t.worker.job, s.worker.run)) && t.worker.job.id == s.worker.job.id
    && (t.rows == s.rows
        || (MayWrite(s, s.worker.job.id) && t.worker.job.status.IsTerminal() && t.rows == Saved(s.rows, t.worker.job)))
  }

  lemma RunEndKeeps(s: State, t: State)
    requires Consistent(s) && EndsRun(s, t)
    ensures Consistent(t)
  {
    hide ColumnsAgree;
    WritesKeepColumns(s.rows, t.worker.job, t.worker.job.id, t.worker.job.progress);
  }

  lemma FailCreationStep(s: State, e: Event)
    requires Consistent(s) && Enabled(s, e) && e.FailCreation?
    ensures Consistent(Apply(s, e))
  {
    assert EndsRun(s, Apply(s, e)) by {
      hide Consistent;
    }
    hide Apply, Enabled, EndsRun;
    RunEndKeeps(s, Apply(s, e));
  }

  lemma FinishStep(s: State, e: Event)
    requires Consistent(s) && Enabled(s, e) && e.Finish?
    ensures Consistent(Apply(s, e))
  {
    assert EndsRun(s, Apply(s, e)) by {
      hide Consistent;
    }
    hide Apply, Enabled, EndsRun;
    RunEndKeeps(s, Apply(s, e));
  }

  lemma RetireStep(s: State)
    requires Consistent(s) && Enabled(s, Retire)
    ensures Consistent(Apply(s, Retire))
  {
    hide ColumnsAgree, IsListing;
  }

  lemma StopStep(s: State, e: Event)
    requires Consistent(s) && Enabled(s, e)
    requires e.CancelParent? || e.ForceCancel? || e.Halt? || e.Crash? || e.RestartBlind? || e.RecoverDone?
    ensures Consistent(Apply(s, e))
  {
    hide ColumnsAgree, IsListing;
  }

  lemma RestartStep(s: State, e: Event)
    requires Consistent(s) && Enabled(s, e) && e.Restart?
    ensures Consistent(Apply(s, e))
  {
    var listed := e.listed;
    forall i, j | 0 <= i < j < |listed|
      ensures JobIds(listed)[i] != JobIds(listed)[j]
    {
      assert listed[i] in listed && listed[j] in listed && listed[i] != listed[j];
      assert s.rows[listed[i].id].doc == listed[i] && s.rows[listed[j].id].doc == listed[j];
    }
    forall id | Stored(s, id, Running)
      ensures id in JobIds(listed)
    {
      var i :| 0 <= i < |listed| && listed[i] == s.rows[id].doc;
      assert JobIds(listed)[i] == id;
    }
  }

  lemma RecoverStep(s: State, e: Event)
    requires Consistent(s) && Enabled(s, e) && e.RecoverSave?
    ensures Consistent(Apply(s, e))
  {
    hide ColumnsAgree;
    var job := s.phase.todo[0].(status := Paused);
    WritesKeepColumns(s.rows, job, job.id, job.progress);
    QueueFront(s.phase.todo);
  }

  /** Whatever happens, crashes and failing writes included, every step keeps the invariant. */
  lemma StepKeepsConsistent(s: State, e: Event)
    requires Consistent(s) && Enabled(s, e)
    ensures Consistent(Apply(s, e))
  {
    hide Consistent, Enabled, Apply;
    match e
    case Submit(_, _, _, _) => SubmitStep(s, e);
    case EnqueueSubmitted(_) => EnqueueSubmittedStep(s, e);
    case SaveFailedSubmission(_) => FailedSubmissionStep(s, e);
    case BeginCancel(_) => BeginCancelStep(s, e);
    case CancelAct(_) => CancelActStep(s, e);
    case CancelSave(_, _) => CancelSaveStep(s, e);
    case BeginPause(_) => BeginPauseStep(s, e);
    case PauseAct => PauseActStep(s, e);
    case PauseSave(_) => PauseSaveStep(s, e);
    case BeginResume(_) => BeginResumeStep(s, e);
    case ResumeSave(_) => ResumeSaveStep(s, e);
    case ResumeEnqueue(_) => EnqueueResumedStep(s, e);
    case Dequeue => DequeueStep(s, e);
    case Register => RegisterStep(s, e);
    case MarkRunning(_, _) => MarkRunningStep(s, e);
    case FailCreation(_, _, _) => FailCreationStep(s, e);
    case Progress(_, _) => ProgressStep(s, e);
    case AppendLog(_, _) => AppendLogStep(s, e);
    case Finish(_, _, _) => FinishStep(s, e);
    case Retire => RetireStep(s);
    case CancelParent => StopStep(s, e);
    case ForceCancel => StopStep(s, e);
    case Halt => StopStep(s, e);
    case Crash => StopStep(s, e);
    case Restart(_) => RestartStep(s, e);
    case RestartBlind => StopStep(s, e);
    case RecoverSave(_) => RecoverStep(s, e);
    case RecoverDone => StopStep(s, e);
  }

  // ----- the queue holds queued jobs -----

  /** Every job in the queue is stored as queued. */
  ghost predicate QueueExact(s: State) {
    forall id :: id in JobIds(s.queue) ==> Stored(s, id, Queued)
  }

  /** A cancel that saves its record although the job is still in the queue. */
  predicate BadSave(s: State, e: Event) {
    e.CancelSave? && e.ok && s.api.CancelActed? && s.api.job.id in JobIds(s.queue)
  }

  lemma QueueExactApiStep(s: State, e: Event)
    requires Consistent(s) && QueueExact(s) && Enabled(s, e) && !IsWorkerEvent(e) && !IsSystemEvent(e) && !e.CancelSave?
    ensures QueueExact(Apply(s, e))
  {
    hide ColumnsAgree, IsListing;
    if e.EnqueueSubmitted? || e.ResumeEnqueue? {
      QueueAppend(s.queue, s.api.job);
    } else if e.CancelAct? {
      WithoutKeepsOthers(s.queue, s.api.job.id);
    }
  }

  lemma QueueExactWorkerStep(s: State, e: Event)
    requires Distinct(JobIds(s.queue)) && QueueConsistent(s) && QueueExact(s) && Enabled(s, e) && IsWorkerEvent(e)
    ensures QueueExact(Apply(s, e))
  {
    if e.Dequeue? {
      QueueFront(s.queue);
    }
  }

  lemma QueueExactSystemStep(s: State, e: Event)
    requires PhaseConsistent(s) && QueueExact(s) && Enabled(s, e) && IsSystemEvent(e)
    ensures QueueExact(Apply(s, e))
  {
    hide IsListing;
    if e.RecoverSave? {
      assert s.phase.todo[0] in s.phase.todo;
    }
  }

  lemma QueueExactCancelSave(s: State, e: Event)
    requires QueueExact(s) && Enabled(s, e) && e.CancelSave?
    ensures QueueExact(Apply(s, e)) <==> !BadSave(s, e)
  {
    if BadSave(s, e) {
      assert s.api.job.id in JobIds(Apply(s, e).queue) && !Stored(Apply(s, e), s.api.job.id, Queued);
    }
  }

  /** Of all steps, only that save takes it away. */
  lemma StepKeepsQueueExact(s: State, e: Event)
    requires Consistent(s) && QueueExact(s) && Enabled(s, e)
    ensures QueueExact(Apply(s, e)) <==> !BadSave(s, e)
  {
    hide QueueExact, Apply, Enabled, PhaseConsistent, QueueConsistent;
    if e.CancelSave? {
      QueueExactCancelSave(s, e);
    } else if IsWorkerEvent(e) {
      QueueExactWorkerStep(s, e);
    } else if IsSystemEvent(e) {
      QueueExactSystemStep(s, e);
    } else {
      QueueExactApiStep(s, e);
    }
  }
}
