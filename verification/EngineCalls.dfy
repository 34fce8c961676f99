/** The steps of a whole call, by the number of store and queue calls that its context survives, and when such a call
    loses its job. */
module EngineCalls {
  import opened Sequences
  import opened Jobs
  import opened JobStore
  import opened EngineMachine
  import opened EngineInvariant
  import opened EngineRuns
  import opened EngineRecords
  import opened EngineLosses

  function SubmitSteps(lives: nat, queued: bool, req: JobRequest, id: string, now: int): seq<Event> {
    if lives == 0 then [Submit(req, id, now, false)]
    else if lives >= 2 && !queued then [Submit(req, id, now, true), EnqueueSubmitted(true)]
    else [Submit(req, id, now, true), EnqueueSubmitted(false), SaveFailedSubmission(lives >= 3)]
  }

  function StatusOf(rows: Rows, id: string): Option<JobStatus> {
    if id in rows then Some(rows[id].doc.status) else None
  }

  /** Taking a queued job out of the queue is a call of its own. */
  function CancelSteps(lives: nat, status: Option<JobStatus>, id: string, now: int): seq<Event> {
    if lives == 0 || status.None? then []
    else if status.value.IsTerminal() then [BeginCancel(id)]
    else [BeginCancel(id), CancelAct(status.value.Queued? ==> lives >= 2),
      CancelSave(now, CancelSaves(lives, status.value))]
  }

  predicate CancelSaves(lives: nat, status: JobStatus) {
    lives >= if status.Queued? then 3 else 2
  }

  function PauseSteps(lives: nat, status: Option<JobStatus>, id: string): seq<Event> {
    if lives == 0 || status.None? then []
    else if status.value != Running then [BeginPause(id)]
    else [BeginPause(id), PauseAct, PauseSave(lives >= 2)]
  }

  function ResumeSteps(lives: nat, status: Option<JobStatus>, queued: bool, id: string): seq<Event> {
    if lives == 0 || status.None? then []
    else if status.value != Paused then [BeginResume(id)]
    else if lives == 1 then [BeginResume(id), ResumeSave(false)]
    else [BeginResume(id), ResumeSave(true), ResumeEnqueue(lives >= 3 && !queued)]
  }

  /** Stored as queued, and no later step but one of a cancel changes that. */
  ghost predicate IsLost(s: State, id: string) {
    Stored(s, id, Queued) && Stuck(s, id)
  }

  lemma LostExactly(s: State, id: string)
    requires Consistent(s)
    ensures IsLost(s, id) <==> Lost(s, id)
  {
    hide Consistent, Stuck, OutOfDanger;
    if Stored(s, id, Queued) {
      QueuedJobIsStuck(s, id);
    }
  }

  lemma NoSteps(s: State)
    ensures IsRun(s, []) && Exec(s, []) == s
  {
  }

  // ----- submitting -----

  lemma SubmitSaves(s: State, req: JobRequest, id: string, now: int, ok: bool)
    requires s.phase.Up? && s.api.Ready? && id != "" && id !in s.rows
    ensures var job, save := NewJob(req, id, now), Submit(req, id, now, ok);
            && Enabled(s, save)
            && Apply(s, save) == if ok then s.(rows := Saved(s.rows, job), api := SubmitSaved(job)) else s
  {
  }

  lemma SubmitEnqueues(s: State)
    requires s.api.SubmitSaved?
    ensures var refused := Apply(s, EnqueueSubmitted(false));
            && Enabled(s, EnqueueSubmitted(true)) && Enabled(s, EnqueueSubmitted(false))
            && Apply(s, EnqueueSubmitted(true)) == s.(queue := s.queue + [s.api.job], api := Ready)
            && Enabled(refused, SaveFailedSubmission(false))
               && Apply(refused, SaveFailedSubmission(false)) == s.(api := Ready)
  {
  }

  lemma SubmitRuns(s: State, lives: nat, req: JobRequest, id: string, now: int)
    requires s.phase.Up? && s.api.Ready? && id != "" && id !in s.rows
    ensures var job, call := NewJob(req, id, now), SubmitSteps(lives, false, req, id, now);
            && IsRun(s, call)
            && Exec(s, call) == if lives == 0 then s
                                else if lives == 1 then s.(rows := Saved(s.rows, job))
                                else s.(rows := Saved(s.rows, job), queue := s.queue + [job])
  {
    hide Apply, Enabled, Exec, IsRun;
    var save := Submit(req, id, now, lives > 0);
    SubmitSaves(s, req, id, now, lives > 0);
    OneStep(s, save);
    if lives > 0 {
      SubmitEnqueues(Apply(s, save));
      TwoSteps(s, save, EnqueueSubmitted(true));
      ThreeSteps(s, save, EnqueueSubmitted(false), SaveFailedSubmission(false));
    }
  }

  /** A submission loses its job exactly when its context ends after the first save: then neither the queue takes the
      job nor does the second save mark it as failed. */
  lemma SubmitLosesJob(s: State, lives: nat, req: JobRequest, id: string, now: int)
    requires Consistent(s) && s.phase.Up? && s.api.Ready? && id != "" && id !in s.rows
    ensures var call := SubmitSteps(lives, id in JobIds(s.queue), req, id, now);
            IsRun(s, call) && (IsLost(Exec(s, call), id) <==> lives == 1)
  {
    hide IsRun, Exec, IsLost;
    var call := SubmitSteps(lives, false, req, id, now);
    NewIsNotQueued(s, id);
    SubmitRuns(s, lives, req, id, now);
    RunKeepsConsistent(s, call);
    LostExactly(Exec(s, call), id);
    if lives >= 2 {
      assert JobIds(s.queue + [NewJob(req, id, now)])[|s.queue|] == id;
    }
  }

  lemma NewIsNotQueued(s: State, id: string)
    requires Consistent(s) && id !in s.rows
    ensures id !in JobIds(s.queue) && !MayWrite(s, id)
  {
  }

  // ----- resuming -----

  lemma ResumeLoads(s: State, id: string)
    requires !s.phase.Recovering? && s.api.Ready? && Stored(s, id, Paused)
    ensures Enabled(s, BeginResume(id)) && Apply(s, BeginResume(id)) == s.(api := ResumeLoaded(s.rows[id].doc))
  {
  }

  lemma ResumeSaves(s: State, ok: bool)
    requires s.api.ResumeLoaded?
    ensures var job := s.api.job.(status := Queued);
            && Enabled(s, ResumeSave(ok))
            && Apply(s, ResumeSave(ok))
               == if ok then s.(rows := Saved(s.rows, job), api := ResumeSaved(job)) else s.(api := Ready)
  {
  }

  lemma ResumeEnqueues(s: State, ok: bool)
    requires s.api.ResumeSaved?
    ensures Enabled(s, ResumeEnqueue(ok))
    ensures Apply(s, ResumeEnqueue(ok)) == s.(api := Ready, queue := if ok then s.queue + [s.api.job] else s.queue)
  {
  }

  lemma ResumeRuns(s: State, lives: nat, id: string)
    requires ColumnsAgree(s.rows) && !s.phase.Recovering? && s.api.Ready? && Stored(s, id, Paused)
    ensures var job, call := s.rows[id].doc.(status := Queued), ResumeSteps(lives, Some(Paused), false, id);
            && IsRun(s, call)
            && Exec(s, call) == if lives <= 1 then s
                                else if lives == 2 then s.(rows := Saved(s.rows, job))
                                else s.(rows := Saved(s.rows, job), queue := s.queue + [job])
  {
    hide Apply, Enabled, Exec, IsRun;
    ResumeLoads(s, id);
    var loaded := Apply(s, BeginResume(id));
    ResumeSaves(loaded, lives >= 2);
    OneStep(s, BeginResume(id));
    TwoSteps(s, BeginResume(id), ResumeSave(false));
    ThreeSteps(s, BeginResume(id), ResumeSave(true), ResumeEnqueue(lives >= 3));
    if lives >= 2 {
      ResumeEnqueues(Apply(loaded, ResumeSave(true)), lives >= 3);
    } else if lives == 0 {
      NoSteps(s);
    }
  }

  /** A resume loses its job exactly when its context ends between the save and the enqueue. */
  lemma ResumeLosesJob(s: State, lives: nat, id: string)
    requires Consistent(s) && !s.phase.Recovering? && s.api.Ready? && Stored(s, id, Paused)
    ensures var call := ResumeSteps(lives, StatusOf(s.rows, id), id in JobIds(s.queue), id);
            IsRun(s, call) && (IsLost(Exec(s, call), id) <==> lives == 2)
  {
    hide IsRun, Exec, IsLost;
    var call := ResumeSteps(lives, Some(Paused), false, id);
    PausedIsOutOfDanger(s, id);
    PausedIsNotHeld(s, id);
    RecordsCarryTheirId(s, id);
    ResumeRuns(s, lives, id);
    RunKeepsConsistent(s, call);
    LostExactly(Exec(s, call), id);
    if lives >= 3 {
      assert JobIds(s.queue + [s.rows[id].doc.(status := Queued)])[|s.queue|] == id;
    }
  }

  lemma PausedIsNotHeld(s: State, id: string)
    requires WorkerConsistent(s) && Stored(s, id, Paused)
    ensures !MayWrite(s, id)
  {
  }

  // ----- cancelling -----

  lemma CancelRuns(s: State, lives: nat, id: string, now: int)
    requires ColumnsAgree(s.rows) && !s.phase.Recovering? && s.api.Ready? && Stored(s, id, Queued)
    ensures var call := CancelSteps(lives, Some(Queued), id, now);
            && IsRun(s, call)
            && (lives > 0 ==> call == CancelCall(id, lives >= 2, now, lives >= 3))
  {
    if lives > 0 {
      CancelQueued(s, id, lives >= 2, now, lives >= 3);
    }
  }

  /** A cancel loses a queued job, in place of cancelling it, exactly when its context ends between the removal from
      the queue and the save; a job that the worker has taken stays with the worker. */
  lemma CancelLosesJob(s: State, lives: nat, id: string, now: int)
    requires Consistent(s) && !s.phase.Recovering? && s.api.Ready? && Stored(s, id, Queued) && !IsLost(s, id)
    ensures var call := CancelSteps(lives, StatusOf(s.rows, id), id, now);
            IsRun(s, call) && (IsLost(Exec(s, call), id) <==> lives == 2 && id in JobIds(s.queue))
  {
    hide IsRun, Exec, IsLost;
    var call := CancelSteps(lives, Some(Queued), id, now);
    LostExactly(s, id);
    CancelRuns(s, lives, id, now);
    RunKeepsConsistent(s, call);
    LostExactly(Exec(s, call), id);
    if lives > 0 {
      CancelQueued(s, id, lives >= 2, now, lives >= 3);
      WithoutKeepsOthers(s.queue, id);
      RecordsCarryTheirId(s, id);
      QueuedIsNotHeld(s, id);
    } else {
      assert call == [];
      NoSteps(s);
    }
  }

  lemma QueuedIsNotHeld(s: State, id: string)
    requires QueueConsistent(s)
    ensures id in JobIds(s.queue) ==> !MayWrite(s, id)
  {
  }

  // ----- all three happen -----

  function IntoPause(req: JobRequest, id: string, now: int): seq<Event> {
    IntoWindow(req, id, now)[..5] + [MarkRunning(now, true), BeginPause(id), PauseAct, PauseSave(true)]
  }

  lemma PauseGoesThrough(s: State)
    requires s.api.PauseLoaded? && s.phase.Up?
    ensures var acted := Apply(s, PauseAct);
            var saved := Apply(acted, PauseSave(true));
            && Enabled(s, PauseAct) && Enabled(acted, PauseSave(true))
            && saved.api.Ready? && saved.phase.Up? && Stored(saved, s.api.job.id, Paused)
  {
  }

  lemma PausedIsReached(req: JobRequest, id: string, now: int)
    requires id != ""
    ensures var run := IntoPause(req, id, now);
            var s := Exec(INITIAL, run);
            IsRun(INITIAL, run) && s.api.Ready? && s.phase.Up? && Stored(s, id, Paused)
  {
    hide Apply, Enabled, Exec, IsRun, Stored;
    var before, job := IntoWindow(req, id, now)[..5], NewJob(req, id, now);
    RegisteredIsReached(req, id, now);
    PauseLoads(job, now);
    var running := RunningState(job, now);
    var loaded := running.(api := PauseLoaded(running.worker.job));
    PauseGoesThrough(loaded);
    var steps := [MarkRunning(now, true), BeginPause(id), PauseAct, PauseSave(true)];
    assert before + steps == before + [steps[0]] + [steps[1]] + [steps[2]] + [steps[3]];
    StepOn(INITIAL, before, steps[0]);
    StepOn(INITIAL, before + [steps[0]], steps[1]);
    StepOn(INITIAL, before + [steps[0]] + [steps[1]], steps[2]);
    StepOn(INITIAL, before + [steps[0]] + [steps[1]] + [steps[2]], steps[3]);
  }

  lemma RegisteredIsReached(req: JobRequest, id: string, now: int)
    requires id != ""
    ensures var before := IntoWindow(req, id, now)[..5];
            IsRun(INITIAL, before) && Exec(INITIAL, before) == RegisteredState(NewJob(req, id, now))
  {
    hide Apply, Enabled, Exec, IsRun, Exposed;
    var run, job := IntoWindow(req, id, now), NewJob(req, id, now);
    SubmittedIsReached(req, id, now);
    WindowSteps(job, now);
    assert run[..4] == run[..3] + [Dequeue] && run[..5] == run[..4] + [Register];
    StepOn(INITIAL, run[..3], Dequeue);
    StepOn(INITIAL, run[..4], Register);
  }

  lemma CallAfter(before: seq<Event>, call: seq<Event>, id: string)
    requires IsRun(INITIAL, before) && IsRun(Exec(INITIAL, before), call)
    requires IsLost(Exec(Exec(INITIAL, before), call), id)
    ensures IsRun(INITIAL, before + call) && IsLost(Exec(INITIAL, before + call), id)
  {
    hide IsRun, Exec, IsLost;
    JoinRuns(INITIAL, before, call);
    ExecJoin(INITIAL, before, call);
  }

  /** A submission, a cancel and a resume that lose the job, each in a run from an empty database. */
  lemma CallLossesAreReached(req: JobRequest, id: string, now: int)
    requires id != ""
    ensures var submit := [RestartBlind] + SubmitSteps(1, false, req, id, now);
            IsRun(INITIAL, submit) && IsLost(Exec(INITIAL, submit), id)
    ensures var cancel := IntoWindow(req, id, now)[..3] + CancelSteps(2, Some(Queued), id, now);
            IsRun(INITIAL, cancel) && IsLost(Exec(INITIAL, cancel), id)
    ensures var resume := IntoPause(req, id, now) + ResumeSteps(2, Some(Paused), false, id);
            IsRun(INITIAL, resume) && IsLost(Exec(INITIAL, resume), id)
  {
    hide IsRun, Exec, IsLost;
    SubmitLossIsReached(req, id, now);
    CancelLossIsReached(req, id, now);
    ResumeLossIsReached(req, id, now);
  }

  lemma SubmitLossIsReached(req: JobRequest, id: string, now: int)
    requires id != ""
    ensures var submit := [RestartBlind] + SubmitSteps(1, false, req, id, now);
            IsRun(INITIAL, submit) && IsLost(Exec(INITIAL, submit), id)
  {
    hide IsRun, Exec, IsLost, Consistent;
    var up := Apply(INITIAL, RestartBlind);
    assert up == INITIAL.(phase := Up) && Enabled(INITIAL, RestartBlind) && JobIds(up.queue) == [];
    OneStep(INITIAL, RestartBlind);
    ReachableConsistent([RestartBlind]);
    SubmitLosesJob(up, 1, req, id, now);
    CallAfter([RestartBlind], SubmitSteps(1, false, req, id, now), id);
  }

  lemma CancelLossIsReached(req: JobRequest, id: string, now: int)
    requires id != ""
    ensures var cancel := IntoWindow(req, id, now)[..3] + CancelSteps(2, Some(Queued), id, now);
            IsRun(INITIAL, cancel) && IsLost(Exec(INITIAL, cancel), id)
  {
    hide IsRun, Exec, IsLost, Consistent;
    var before := IntoWindow(req, id, now)[..3];
    var s := Exec(INITIAL, before);
    SubmittedIsReached(req, id, now);
    ReachableConsistent(before);
    assert JobIds(s.queue)[0] == id;
    LostExactly(s, id);
    CancelLosesJob(s, 2, id, now);
    CallAfter(before, CancelSteps(2, Some(Queued), id, now), id);
  }

  lemma ResumeLossIsReached(req: JobRequest, id: string, now: int)
    requires id != ""
    ensures var resume := IntoPause(req, id, now) + ResumeSteps(2, Some(Paused), false, id);
            IsRun(INITIAL, resume) && IsLost(Exec(INITIAL, resume), id)
  {
    hide IsRun, Exec, IsLost, Consistent, IntoPause;
    var before := IntoPause(req, id, now);
    var s := Exec(INITIAL, before);
    PausedIsReached(req, id, now);
    ReachableConsistent(before);
    ResumeLosesJob(s, 2, id);
    PausedIsNotQueued(s, id);
    CallAfter(before, ResumeSteps(2, Some(Paused), false, id), id);
  }

  lemma PausedIsNotQueued(s: State, id: string)
    requires Consistent(s) && Stored(s, id, Paused)
    ensures id !in JobIds(s.queue)
  {
  }
}
