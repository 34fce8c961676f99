/** What a stored record says: where its status comes from, and whose request it carries. */
module EngineOutcomes {
  import opened Sequences
  import opened Jobs
  import opened JobStore
  import opened EngineMachine
  import opened EngineInvariant
  import opened EngineRuns

  // ----- the steps that write a status -----

  /** The worker runs the job, and its context is not done. */
  predicate RunsLive(s: State, id: string) {
    s.worker.Executing? && s.worker.job.id == id && !ContextIsDone(s, s.worker.run)
  }

  predicate InCall(s: State, id: string) {
    !s.api.Ready? && s.api.job.id == id
  }

  /** The step writes the record of `id` with this status. */
  predicate Writes(s: State, e: Event, id: string, status: JobStatus) {
    match status
    case Queued => (e.Submit? && e.ok && e.id == id) || (e.ResumeSave? && e.ok && InCall(s, id))
    case Running =>
      e.MarkRunning? && e.ok && s.worker.Registered? && s.worker.job.id == id && !ContextIsDone(s, s.worker.run)
    case Paused =>
      || (e.PauseSave? && e.ok && InCall(s, id))
      || (e.RecoverSave? && e.ok && s.phase.Recovering? && s.phase.todo != [] && s.phase.todo[0].id == id)
    case Done => e.Finish? && e.ok && e.err.None? && RunsLive(s, id)
    case Failed =>
      || (e.Finish? && e.ok && e.err.Some? && RunsLive(s, id))
      || (e.FailCreation? && e.ok && RunsLive(s, id))
      || (e.SaveFailedSubmission? && e.ok && InCall(s, id))
    case Cancelled => e.CancelSave? && e.ok && InCall(s, id)
  }

  predicate WritesStatus(s: State, e: Event, id: string) {
    || Writes(s, e, id, Queued) || Writes(s, e, id, Running) || Writes(s, e, id, Paused)
    || Writes(s, e, id, Done) || Writes(s, e, id, Failed) || Writes(s, e, id, Cancelled)
  }

  /** The steps of a call that write a record. */
  predicate CallWrites(e: Event) {
    e.Submit? || e.SaveFailedSubmission? || e.CancelSave? || e.PauseSave? || e.ResumeSave?
  }

  lemma StatusAfterSave(s: State, e: Event, id: string, status: JobStatus)
    requires ApiConsistent(s) && Enabled(s, e) && (e.SaveFailedSubmission? || e.CancelSave?)
    ensures Stored(Apply(s, e), id, status) <==>
            Writes(s, e, id, status) || (Stored(s, id, status) && !WritesStatus(s, e, id))
  {
  }

  lemma StatusAfterSubmit(s: State, e: Event, id: string, status: JobStatus)
    requires Enabled(s, e) && e.Submit?
    ensures Stored(Apply(s, e), id, status) <==>
            Writes(s, e, id, status) || (Stored(s, id, status) && !WritesStatus(s, e, id))
  {
  }

  lemma StatusAfterPause(s: State, e: Event, id: string, status: JobStatus)
    requires Enabled(s, e) && e.PauseSave?
    ensures Stored(Apply(s, e), id, status) <==>
            Writes(s, e, id, status) || (Stored(s, id, status) && !WritesStatus(s, e, id))
  {
  }

  lemma StatusAfterResume(s: State, e: Event, id: string, status: JobStatus)
    requires Enabled(s, e) && e.ResumeSave?
    ensures Stored(Apply(s, e), id, status) <==>
            Writes(s, e, id, status) || (Stored(s, id, status) && !WritesStatus(s, e, id))
  {
  }

  lemma StatusAfterCall(s: State, e: Event, id: string, status: JobStatus)
    requires Enabled(s, e) && !IsWorkerEvent(e) && !IsSystemEvent(e) && !CallWrites(e)
    ensures Apply(s, e).rows == s.rows && !WritesStatus(s, e, id) && !Writes(s, e, id, status)
  {
  }

  /** The steps of a run that write a status. */
  predicate RunWrites(e: Event) {
    e.MarkRunning? || e.FailCreation? || e.Finish?
  }

  lemma StatusAfterRunSave(s: State, e: Event, id: string, status: JobStatus)
    requires Enabled(s, e) && RunWrites(e)
    ensures Stored(Apply(s, e), id, status) <==>
            Writes(s, e, id, status) || (Stored(s, id, status) && !WritesStatus(s, e, id))
  {
  }

  lemma StatusAfterRun(s: State, e: Event, id: string, status: JobStatus)
    requires Enabled(s, e) && IsWorkerEvent(e) && !RunWrites(e)
    ensures Stored(Apply(s, e), id, status) <==> Stored(s, id, status)
    ensures !WritesStatus(s, e, id) && !Writes(s, e, id, status)
  {
  }

  lemma StatusAfterRecovery(s: State, e: Event, id: string, status: JobStatus)
    requires Enabled(s, e) && e.RecoverSave?
    ensures Stored(Apply(s, e), id, status) <==>
            Writes(s, e, id, status) || (Stored(s, id, status) && !WritesStatus(s, e, id))
  {
  }

  lemma StatusAfterStop(s: State, e: Event, id: string, status: JobStatus)
    requires Enabled(s, e) && IsSystemEvent(e) && !e.RecoverSave?
    ensures Apply(s, e).rows == s.rows && !WritesStatus(s, e, id) && !Writes(s, e, id, status)
  {
    hide IsListing;
  }

  /** After any step, a record has the status that the step wrote, and else the one that it had. */
  lemma StatusAfter(s: State, e: Event, id: string, status: JobStatus)
    requires Consistent(s) && Enabled(s, e)
    ensures Stored(Apply(s, e), id, status) <==>
            Writes(s, e, id, status) || (Stored(s, id, status) && !WritesStatus(s, e, id))
  {
    hide Writes, WritesStatus, Apply, Enabled, ApiConsistent, ColumnsAgree, QueueConsistent, WorkerConsistent,
      PhaseConsistent;
    if RunWrites(e) {
      StatusAfterRunSave(s, e, id, status);
    } else if IsWorkerEvent(e) {
      StatusAfterRun(s, e, id, status);
    } else if e.RecoverSave? {
      StatusAfterRecovery(s, e, id, status);
    } else if IsSystemEvent(e) {
      StatusAfterStop(s, e, id, status);
    } else if e.SaveFailedSubmission? || e.CancelSave? {
      StatusAfterSave(s, e, id, status);
    } else if e.Submit? {
      StatusAfterSubmit(s, e, id, status);
    } else if e.PauseSave? {
      StatusAfterPause(s, e, id, status);
    } else if e.ResumeSave? {
      StatusAfterResume(s, e, id, status);
    } else {
      StatusAfterCall(s, e, id, status);
    }
  }

  /** The step at `i` wrote this status, and the record has had it ever since. */
  ghost predicate WrittenAt(events: seq<Event>, i: nat, id: string, status: JobStatus)
    requires i < |events|
  {
    && Writes(Exec(INITIAL, events[..i]), events[i], id, status)
    && forall j :: i < j <= |events| ==> Stored(Exec(INITIAL, events[..j]), id, status)
  }

  /** Every stored status was written by one of the steps above: a job is stored as done only after a run of it whose
      handler returned no error, as failed only after an error or a missing handler, as cancelled only by a cancel. */
  lemma {:induction false} StatusOrigin(events: seq<Event>, id: string, status: JobStatus)
    requires IsRun(INITIAL, events) && Stored(Exec(INITIAL, events), id, status)
    ensures exists i: nat :: i < |events| && WrittenAt(events, i, id, status)
  {
    hide Writes, WritesStatus, Apply, Enabled, Consistent;
    if events == [] {
      assert false;
    } else {
      var n := |events| - 1;
      var front := events[..n];
      ReachableConsistent(front);
      StatusAfter(Exec(INITIAL, front), events[n], id, status);
      if Writes(Exec(INITIAL, front), events[n], id, status) {
        assert events[..n + 1] == events;
        assert WrittenAt(events, n, id, status);
      } else {
        StatusOrigin(front, id, status);
        var i: nat :| i < n && WrittenAt(front, i, id, status);
        WrittenLonger(events, i, id, status);
      }
    }
  }

  lemma WrittenLonger(events: seq<Event>, i: nat, id: string, status: JobStatus)
    requires i < |events| - 1 && WrittenAt(events[..|events| - 1], i, id, status)
    requires Stored(Exec(INITIAL, events), id, status)
    ensures WrittenAt(events, i, id, status)
  {
    hide Writes, Stored, Exec;
    var front := events[..|events| - 1];
    assert front[..i] == events[..i];
    forall j | i < j <= |events|
      ensures Stored(Exec(INITIAL, events[..j]), id, status)
    {
      if j < |events| {
        assert front[..j] == events[..j];
      } else {
        assert events[..j] == events;
      }
    }
  }

  /** What the last save of a live run leaves behind. */
  lemma RunOutcome(s: State, e: Event)
    requires Enabled(s, e) && (e.Finish? || e.FailCreation?) && e.ok && RunsLive(s, s.worker.job.id)
    ensures var id := s.worker.job.id;
            id in Apply(s, e).rows &&
            var doc := Apply(s, e).rows[id].doc;
            && doc.finishedAt == Some(e.now) && doc.startedAt == s.worker.job.startedAt
            && (e.Finish? && e.err.None? ==>
                  doc.status == Done && doc.progress.percentage == 100.0 && doc.error == s.worker.job.error)
            && (e.Finish? && e.err.Some? ==>
                  doc.status == Failed && doc.error == HandlerFailed(e.err.value)
                    && doc.progress == s.worker.job.progress)
            && (e.FailCreation? ==>
                  doc.status == Failed && doc.error == e.cause && doc.progress == s.worker.job.progress)
  {
  }

  // ----- whose request a job carries -----

  /** The job has the id, the time and every field of the request. */
  predicate Carries(job: Job, id: string, req: JobRequest, now: int) {
    && job.id == id && job.createdAt == now && job.jobType == req.jobType && job.planId == req.planId
    && job.migrationId == req.migrationId && job.sourceId == req.sourceId && job.targetId == req.targetId
  }

  ghost predicate AllCarry(jobs: seq<Job>, id: string, req: JobRequest, now: int) {
    forall j :: j in jobs && j.id == id ==> Carries(j, id, req, now)
  }

  /** Its record, its entries in the queue and in a recovery, and the copies of the worker and of a call. */
  ghost predicate CarriedEverywhere(s: State, id: string, req: JobRequest, now: int) {
    && id in s.rows && Carries(s.rows[id].doc, id, req, now)
    && s.rows[id].createdAt == now && s.rows[id].jobType == req.jobType
    && AllCarry(s.queue, id, req, now)
    && (!s.worker.Idle? && s.worker.job.id == id ==> Carries(s.worker.job, id, req, now))
    && (InCall(s, id) ==> Carries(s.api.job, id, req, now))
    && (s.phase.Recovering? ==> AllCarry(s.phase.todo, id, req, now))
  }

  lemma SubmitCarries(s: State, e: Event)
    requires Consistent(s) && Enabled(s, e) && e.Submit? && e.ok
    ensures CarriedEverywhere(Apply(s, e), e.id, e.req, e.now)
  {
    hide ColumnsAgree;
    forall j | j in s.queue
      ensures j.id != e.id
    {
      var i :| 0 <= i < |s.queue| && s.queue[i] == j;
      assert JobIds(s.queue)[i] == j.id && j.id in JobIds(s.queue);
    }
  }

  lemma CarriedByWorker(s: State, e: Event, id: string, req: JobRequest, now: int)
    requires Enabled(s, e) && IsWorkerEvent(e) && CarriedEverywhere(s, id, req, now)
    ensures CarriedEverywhere(Apply(s, e), id, req, now)
  {
  }

  lemma CarriedByRecovery(s: State, e: Event, id: string, req: JobRequest, now: int)
    requires Enabled(s, e) && e.RecoverSave? && CarriedEverywhere(s, id, req, now)
    ensures CarriedEverywhere(Apply(s, e), id, req, now)
  {
    assert s.phase.todo[0] in s.phase.todo;
  }

  lemma CarriedByRestart(s: State, e: Event, id: string, req: JobRequest, now: int)
    requires ColumnsAgree(s.rows) && Enabled(s, e) && e.Restart? && CarriedEverywhere(s, id, req, now)
    ensures CarriedEverywhere(Apply(s, e), id, req, now)
  {
    hide Carries;
  }

  lemma CarriedByStop(s: State, e: Event, id: string, req: JobRequest, now: int)
    requires Enabled(s, e) && IsSystemEvent(e) && !e.RecoverSave? && !e.Restart? && CarriedEverywhere(s, id, req, now)
    ensures CarriedEverywhere(Apply(s, e), id, req, now)
  {
    hide Carries, AllCarry;
  }

  lemma CarriedByQueueStep(s: State, e: Event, id: string, req: JobRequest, now: int)
    requires Enabled(s, e) && (e.EnqueueSubmitted? || e.ResumeEnqueue? || e.CancelAct?)
    requires Distinct(JobIds(s.queue)) && CarriedEverywhere(s, id, req, now)
    ensures CarriedEverywhere(Apply(s, e), id, req, now)
  {
    if e.CancelAct? {
      WithoutKeepsOthers(s.queue, s.api.job.id);
    }
  }

  lemma CarriedBySave(s: State, e: Event, id: string, req: JobRequest, now: int)
    requires Enabled(s, e) && CallWrites(e) && CarriedEverywhere(s, id, req, now)
    ensures CarriedEverywhere(Apply(s, e), id, req, now)
  {
    hide AllCarry;
  }

  lemma CarriedByCall(s: State, e: Event, id: string, req: JobRequest, now: int)
    requires ColumnsAgree(s.rows) && Enabled(s, e) && CarriedEverywhere(s, id, req, now)
    requires e.BeginCancel? || e.BeginPause? || e.BeginResume? || e.PauseAct?
    ensures CarriedEverywhere(Apply(s, e), id, req, now)
  {
    hide AllCarry, Carries;
  }

  lemma StepCarries(s: State, e: Event, id: string, req: JobRequest, now: int)
    requires Consistent(s) && Enabled(s, e) && CarriedEverywhere(s, id, req, now)
    ensures CarriedEverywhere(Apply(s, e), id, req, now)
  {
    hide CarriedEverywhere, Apply, Enabled, ColumnsAgree, QueueConsistent, WorkerConsistent, ApiConsistent,
      PhaseConsistent;
    if IsWorkerEvent(e) {
      CarriedByWorker(s, e, id, req, now);
    } else if e.RecoverSave? {
      CarriedByRecovery(s, e, id, req, now);
    } else if e.Restart? {
      CarriedByRestart(s, e, id, req, now);
    } else if IsSystemEvent(e) {
      CarriedByStop(s, e, id, req, now);
    } else if CallWrites(e) {
      CarriedBySave(s, e, id, req, now);
    } else if e.EnqueueSubmitted? || e.ResumeEnqueue? || e.CancelAct? {
      CarriedByQueueStep(s, e, id, req, now);
    } else {
      CarriedByCall(s, e, id, req, now);
    }
  }

  /** Only a submission makes a record. */
  lemma NewRowIsSubmitted(s: State, e: Event, id: string)
    requires Consistent(s) && Enabled(s, e)
    ensures id in Apply(s, e).rows ==> id in s.rows || (e.Submit? && e.ok && e.id == id)
  {
    hide ColumnsAgree, IsListing;
    assert e.RecoverSave? ==> s.phase.todo[0] in s.phase.todo;
  }

  /** Through faults, crashes, recoveries, pauses and resumes, every record and every copy of a job carries the request
      that was submitted under its id, field by field. */
  lemma {:induction false} RequestIsKept(events: seq<Event>, id: string)
    requires IsRun(INITIAL, events) && id in Exec(INITIAL, events).rows
    ensures exists i: nat :: i < |events| && events[i].Submit? && events[i].ok && events[i].id == id
                             && CarriedEverywhere(Exec(INITIAL, events), id, events[i].req, events[i].now)
  {
    hide CarriedEverywhere, Apply, Enabled, Consistent;
    if events == [] {
      assert false;
    } else {
      var n := |events| - 1;
      var front := events[..n];
      var s := Exec(INITIAL, front);
      ReachableConsistent(front);
      if id in s.rows {
        RequestIsKept(front, id);
        var i: nat :| i < n && front[i].Submit? && front[i].ok && front[i].id == id
                      && CarriedEverywhere(s, id, front[i].req, front[i].now);
        StepCarries(s, events[n], id, front[i].req, front[i].now);
        assert events[i] == front[i];
      } else {
        NewRowIsSubmitted(s, events[n], id);
        SubmitCarries(s, events[n]);
      }
    }
  }

  /** And only ids with a record occur in the queue, in the worker's hand or in a call. */
  lemma EveryJobHasARecord(events: seq<Event>)
    requires IsRun(INITIAL, events)
    ensures var s := Exec(INITIAL, events);
            && (forall id :: id in JobIds(s.queue) ==> id in s.rows)
            && (!s.worker.Idle? ==> s.worker.job.id in s.rows) && (!s.api.Ready? ==> s.api.job.id in s.rows)
  {
    hide Exec, IsRun, ColumnsAgree, PhaseConsistent;
    ReachableConsistent(events);
  }
}
