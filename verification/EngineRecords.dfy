/** Which stored records stay as they are, whatever the engine does next. */
module EngineRecords {
  import opened Sequences
  import opened Jobs
  import opened JobStore
  import opened EngineMachine
  import opened EngineInvariant
  import opened EngineRuns

  predicate IsFinal(s: State, id: string) {
    id in s.rows && s.rows[id].doc.status.IsTerminal()
  }

  /** A record that is stored, and not as running. */
  predicate AtRest(s: State, id: string) {
    id in s.rows && s.rows[id].doc.status != Running
  }

  predicate ApiTouches(s: State, id: string) {
    !s.api.Ready? && s.api.job.id == id
  }

  /** No call works on the record, the queue does not hold the job, and the worker cannot write it. */
  predicate OutOfDanger(s: State, id: string) {
    !ApiTouches(s, id) && id !in JobIds(s.queue) && (MayWrite(s, id) ==> s.parentDone)
  }

  /** The start of a call that could change a queued or paused record. */
  predicate Reopens(e: Event, id: string) {
    (e.BeginCancel? || e.BeginResume?) && e.id == id
  }

  ghost predicate NoneReopens(events: seq<Event>, id: string) {
    forall e :: e in events ==> !Reopens(e, id)
  }

  predicate SameRecord(s: State, t: State, id: string) {
    id in s.rows && id in t.rows && s.rows[id] == t.rows[id]
  }

  // ----- a record out of danger stays -----

  lemma QuietWorkerStep(s: State, e: Event, id: string)
    requires AtRest(s, id) && OutOfDanger(s, id) && Enabled(s, e) && IsWorkerEvent(e) && !e.Dequeue?
    ensures SameRecord(s, Apply(s, e), id) && OutOfDanger(Apply(s, e), id)
  {
  }

  lemma QuietDequeue(s: State, id: string)
    requires AtRest(s, id) && OutOfDanger(s, id) && Enabled(s, Dequeue)
    ensures SameRecord(s, Apply(s, Dequeue), id) && OutOfDanger(Apply(s, Dequeue), id)
  {
    assert JobIds(s.queue)[0] == s.queue[0].id && JobIds(s.queue[1..]) == JobIds(s.queue)[1..];
  }

  lemma QuietSystemStep(s: State, e: Event, id: string)
    requires AtRest(s, id) && OutOfDanger(s, id) && Enabled(s, e) && IsSystemEvent(e) && !e.RecoverSave?
    ensures SameRecord(s, Apply(s, e), id) && OutOfDanger(Apply(s, e), id)
  {
    hide IsListing;
  }

  lemma QuietRecovery(s: State, e: Event, id: string)
    requires PhaseConsistent(s) && AtRest(s, id) && OutOfDanger(s, id) && Enabled(s, e) && e.RecoverSave?
    ensures SameRecord(s, Apply(s, e), id) && OutOfDanger(Apply(s, e), id)
  {
    hide IsListing;
    assert s.phase.todo[0] in s.phase.todo;
  }

  lemma QuietQueueStep(s: State, e: Event, id: string)
    requires AtRest(s, id) && OutOfDanger(s, id) && Enabled(s, e) && (e.EnqueueSubmitted? || e.ResumeEnqueue?)
    ensures SameRecord(s, Apply(s, e), id) && OutOfDanger(Apply(s, e), id)
  {
    assert JobIds(s.queue + [s.api.job]) == JobIds(s.queue) + [s.api.job.id];
  }

  lemma QuietCancelAct(s: State, e: Event, id: string)
    requires Distinct(JobIds(s.queue)) && AtRest(s, id) && OutOfDanger(s, id) && Enabled(s, e) && e.CancelAct?
    ensures SameRecord(s, Apply(s, e), id) && OutOfDanger(Apply(s, e), id)
  {
    WithoutKeepsOthers(s.queue, s.api.job.id);
    assert Apply(s, e).worker == s.worker && s.cancelled <= Apply(s, e).cancelled;
  }

  lemma QuietBegin(s: State, e: Event, id: string)
    requires AtRest(s, id) && OutOfDanger(s, id) && (e.BeginCancel? || e.BeginPause? || e.BeginResume?)
    requires e.id in s.rows ==> s.rows[e.id].doc.id == e.id
    requires Reopens(e, id) ==> IsFinal(s, id)
    ensures SameRecord(s, Apply(s, e), id) && OutOfDanger(Apply(s, e), id)
  {
  }

  /** The steps that write a record on behalf of a call. */
  predicate IsApiWrite(e: Event) {
    e.SaveFailedSubmission? || e.CancelSave? || e.PauseSave? || e.ResumeSave?
  }

  lemma CallWritesItsJob(s: State, e: Event, id: string)
    requires Enabled(s, e) && IsApiWrite(e) && !ApiTouches(s, id) && id in s.rows
    ensures var t := Apply(s, e);
            t == s.(rows := t.rows, api := t.api) && !ApiTouches(t, id) && SameRecord(s, t, id)
  {
  }

  lemma QuietApiWrite(s: State, e: Event, id: string)
    requires AtRest(s, id) && OutOfDanger(s, id) && Enabled(s, e) && IsApiWrite(e)
    ensures SameRecord(s, Apply(s, e), id) && OutOfDanger(Apply(s, e), id)
  {
    hide Apply, Enabled, ApiTouches, SameRecord;
    CallWritesItsJob(s, e, id);
  }

  lemma QuietSubmit(s: State, e: Event, id: string)
    requires AtRest(s, id) && OutOfDanger(s, id) && Enabled(s, e) && e.Submit?
    ensures SameRecord(s, Apply(s, e), id) && OutOfDanger(Apply(s, e), id)
  {
  }

  lemma QuietPauseAct(s: State, id: string)
    requires AtRest(s, id) && OutOfDanger(s, id) && Enabled(s, PauseAct)
    ensures SameRecord(s, Apply(s, PauseAct), id) && OutOfDanger(Apply(s, PauseAct), id)
  {
  }

  lemma QuietStep(s: State, e: Event, id: string)
    requires Consistent(s) && AtRest(s, id) && OutOfDanger(s, id) && Enabled(s, e)
    requires Reopens(e, id) ==> IsFinal(s, id)
    ensures SameRecord(s, Apply(s, e), id) && OutOfDanger(Apply(s, e), id)
  {
    hide AtRest, OutOfDanger, SameRecord, Apply, Enabled, PhaseConsistent, WorkerConsistent, ApiConsistent,
      QueueConsistent;
    if e.Dequeue? {
      QuietDequeue(s, id);
    } else if IsWorkerEvent(e) {
      QuietWorkerStep(s, e, id);
    } else if e.RecoverSave? {
      QuietRecovery(s, e, id);
    } else if IsSystemEvent(e) {
      QuietSystemStep(s, e, id);
    } else if e.BeginCancel? || e.BeginPause? || e.BeginResume? {
      QuietBegin(s, e, id);
    } else if e.EnqueueSubmitted? || e.ResumeEnqueue? {
      QuietQueueStep(s, e, id);
    } else if e.CancelAct? {
      QuietCancelAct(s, e, id);
    } else if e.Submit? {
      QuietSubmit(s, e, id);
    } else if e.PauseAct? {
      QuietPauseAct(s, id);
    } else {
      QuietApiWrite(s, e, id);
    }
  }

  lemma {:induction false} QuietRun(s: State, events: seq<Event>, id: string)
    requires Consistent(s) && AtRest(s, id) && OutOfDanger(s, id) && IsRun(s, events)
    requires IsFinal(s, id) || NoneReopens(events, id)
    ensures SameRecord(s, Exec(s, events), id) && OutOfDanger(Exec(s, events), id)
  {
    hide Consistent, Apply, Enabled, OutOfDanger;
    if events == [] {
    } else {
      var front := events[..|events| - 1];
      QuietRun(s, front, id);
      RunKeepsConsistent(s, front);
      QuietStep(Exec(s, front), events[|events| - 1], id);
    }
  }

  lemma PausedIsOutOfDanger(s: State, id: string)
    requires Consistent(s) && Stored(s, id, Paused) && !ApiTouches(s, id)
    ensures OutOfDanger(s, id)
  {
  }

  /** A paused record stays as it is, whatever fails or crashes, until a call cancels or resumes that job. */
  lemma PausedRecordStays(before: seq<Event>, after: seq<Event>, id: string)
    requires IsRun(INITIAL, before) && IsRun(Exec(INITIAL, before), after)
    requires Stored(Exec(INITIAL, before), id, Paused) && !ApiTouches(Exec(INITIAL, before), id)
    requires NoneReopens(after, id)
    ensures SameRecord(Exec(INITIAL, before), Exec(Exec(INITIAL, before), after), id)
  {
    hide Apply, Enabled, IsRun, Exec, OutOfDanger, SameRecord;
    ReachableConsistent(before);
    PausedIsOutOfDanger(Exec(INITIAL, before), id);
    QuietRun(Exec(INITIAL, before), after, id);
  }

  // ----- when a finished record survives -----

  /** No run from here changes the record. */
  ghost predicate Survives(s: State, id: string) {
    forall events: seq<Event> :: IsRun(s, events) ==> SameRecord(s, Exec(s, events), id)
  }

  /** No run from here changes the record unless a call cancels or resumes that job. */
  ghost predicate Stuck(s: State, id: string) {
    forall events: seq<Event> :: IsRun(s, events) && NoneReopens(events, id) ==> SameRecord(s, Exec(s, events), id)
  }

  ghost predicate Overwrites(s: State, events: seq<Event>, id: string) {
    IsRun(s, events) && NoneReopens(events, id) && !SameRecord(s, Exec(s, events), id)
  }

  /** A time that the record does not carry yet. */
  function OtherTime(s: State, id: string): int {
    if id in s.rows && s.rows[id].doc.finishedAt.Some? then s.rows[id].doc.finishedAt.value + 1 else 0
  }

  lemma CancelOverwrites(s: State, id: string) returns (events: seq<Event>)
    requires id in s.rows && ApiTouches(s, id) && (s.api.CancelLoaded? || s.api.CancelActed?)
    ensures Overwrites(s, events, id)
  {
    hide IsRun, Exec;
    var now := OtherTime(s, id);
    var save := CancelSave(now, true);
    if s.api.CancelLoaded? {
      var acted := Apply(s, CancelAct(true));
      assert Enabled(s, CancelAct(true)) && acted.api == CancelActed(s.api.job) && acted.rows == s.rows;
      events := [CancelAct(true), save];
      hide Apply, Enabled;
      CancelSaved(acted, now, true);
      TwoSteps(s, CancelAct(true), save);
    } else {
      events := [save];
      hide Apply, Enabled;
      CancelSaved(s, now, true);
      OneStep(s, save);
    }
  }

  lemma PauseSaves(s: State)
    requires s.api.PauseActed?
    ensures Enabled(s, PauseSave(true)) && Stored(Apply(s, PauseSave(true)), s.api.job.id, Paused)
  {
  }

  lemma PauseOverwrites(s: State, id: string) returns (events: seq<Event>)
    requires AtRest(s, id) && !Stored(s, id, Paused) && ApiTouches(s, id) && (s.api.PauseLoaded? || s.api.PauseActed?)
    ensures Overwrites(s, events, id)
  {
    hide IsRun, Exec;
    var acted := Apply(s, PauseAct);
    if s.api.PauseLoaded? {
      assert Enabled(s, PauseAct) && acted.api == PauseActed(s.api.job);
      events := [PauseAct, PauseSave(true)];
      hide Apply, Enabled;
      PauseSaves(acted);
      TwoSteps(s, PauseAct, PauseSave(true));
    } else {
      events := [PauseSave(true)];
      hide Apply, Enabled;
      PauseSaves(s);
      OneStep(s, PauseSave(true));
    }
  }

  lemma RefusedSubmitSaves(s: State)
    requires s.api.SubmitFailed?
    ensures Enabled(s, SaveFailedSubmission(true))
            && Apply(s, SaveFailedSubmission(true)).rows == Saved(s.rows, s.api.job)
  {
  }

  lemma SubmitOverwrites(s: State, id: string) returns (events: seq<Event>)
    requires ApiConsistent(s) && ApiTouches(s, id) && (s.api.SubmitSaved? || s.api.SubmitFailed?)
    ensures Overwrites(s, events, id)
  {
    hide IsRun, Exec;
    if s.api.SubmitSaved? {
      var refused := Apply(s, EnqueueSubmitted(false));
      assert Enabled(s, EnqueueSubmitted(false)) && refused.rows == s.rows
             && refused.api == SubmitFailed(s.api.job.(status := Failed, error := EnqueueFailed));
      events := [EnqueueSubmitted(false), SaveFailedSubmission(true)];
      hide Apply, Enabled;
      RefusedSubmitSaves(refused);
      TwoSteps(s, EnqueueSubmitted(false), SaveFailedSubmission(true));
    } else {
      events := [SaveFailedSubmission(true)];
      hide Apply, Enabled;
      RefusedSubmitSaves(s);
      OneStep(s, SaveFailedSubmission(true));
    }
  }

  lemma MarkSaves(s: State)
    requires s.worker.Registered? && !ContextIsDone(s, s.worker.run)
    ensures Enabled(s, MarkRunning(0, true)) && Stored(Apply(s, MarkRunning(0, true)), s.worker.job.id, Running)
  {
  }

  lemma FinishSaves(s: State, now: int)
    requires s.worker.Executing? && !ContextIsDone(s, s.worker.run)
    ensures var t := Apply(s, Finish(None, now, true));
            Enabled(s, Finish(None, now, true)) && s.worker.job.id in t.rows
              && t.rows[s.worker.job.id].doc.finishedAt == Some(now)
  {
  }

  lemma WorkerOverwrites(s: State, id: string) returns (events: seq<Event>)
    requires WorkerConsistent(s) && MayWrite(s, id) && !s.parentDone
    ensures Overwrites(s, events, id)
  {
    hide IsRun, Exec;
    match s.worker
    case Dequeued(_) =>
      var registered := Apply(s, Register);
      assert Enabled(s, Register) && registered.worker == Registered(s.worker.job, s.nextRun)
             && registered.rows == s.rows;
      assert !ContextIsDone(registered, s.nextRun);
      events := [Register, MarkRunning(0, true)];
      hide Apply, Enabled;
      MarkSaves(registered);
      TwoSteps(s, Register, MarkRunning(0, true));
    case Registered(_, _) =>
      events := [MarkRunning(0, true)];
      hide Apply, Enabled;
      MarkSaves(s);
      OneStep(s, MarkRunning(0, true));
    case Executing(_, _) =>
      var now := OtherTime(s, id);
      events := [Finish(None, now, true)];
      hide Apply, Enabled;
      FinishSaves(s, now);
      OneStep(s, Finish(None, now, true));
  }

  lemma QueueOverwrites(s: State, id: string) returns (events: seq<Event>)
    requires Consistent(s) && s.phase.Up? && s.api.Ready? && s.worker.Idle? && !s.parentDone
    requires id in JobIds(s.queue)
    ensures Overwrites(s, events, id)
    decreases |s.queue|
  {
    var taken := Apply(s, Dequeue);
    StepKeepsConsistent(s, Dequeue);
    if s.queue[0].id == id {
      var rest := WorkerOverwrites(taken, id);
      events := [Dequeue] + rest;
      RunAfterStep(s, Dequeue, rest, id);
    } else {
      FrontDropped(s, id);
      var dropped := Apply(Apply(taken, Crash), RestartBlind);
      StepKeepsConsistent(taken, Crash);
      StepKeepsConsistent(Apply(taken, Crash), RestartBlind);
      var rest := QueueOverwrites(dropped, id);
      RunAfterStep(Apply(taken, Crash), RestartBlind, rest, id);
      RunAfterStep(taken, Crash, [RestartBlind] + rest, id);
      RunAfterStep(s, Dequeue, [Crash] + ([RestartBlind] + rest), id);
      events := [Dequeue] + ([Crash] + ([RestartBlind] + rest));
    }
  }

  lemma TailHolds(queue: seq<Job>, id: string)
    requires id in JobIds(queue) && queue[0].id != id
    ensures id in JobIds(queue[1..])
  {
    assert JobIds(queue) == [queue[0].id] + JobIds(queue[1..]);
  }

  /** A crash with another job in the worker's hand leaves a shorter queue. */
  lemma FrontDropped(s: State, id: string)
    requires s.phase.Up? && s.api.Ready? && s.worker.Idle? && !s.parentDone
    requires id in JobIds(s.queue) && s.queue[0].id != id
    ensures var t := Apply(Apply(Apply(s, Dequeue), Crash), RestartBlind);
            && t.rows == s.rows && t.phase.Up? && t.api.Ready? && t.worker.Idle? && !t.parentDone
            && t.queue == s.queue[1..] && id in JobIds(t.queue)
  {
    hide IsListing, JobIds;
    var taken := Apply(s, Dequeue);
    assert taken == s.(queue := s.queue[1..], worker := Dequeued(s.queue[0]));
    var crashed := Apply(taken, Crash);
    assert crashed.queue == taken.queue && crashed.rows == s.rows && crashed.worker.Idle? && crashed.api.Ready?
           && !crashed.parentDone;
    assert Apply(crashed, RestartBlind) == crashed.(phase := Up);
    hide Apply;
    assert id in JobIds(s.queue[1..]) by {
      TailHolds(s.queue, id);
    }
  }

  lemma RunAfterStep(s: State, e: Event, events: seq<Event>, id: string)
    requires Enabled(s, e) && !Reopens(e, id)
    requires Apply(s, e).rows == s.rows && Overwrites(Apply(s, e), events, id)
    ensures Overwrites(s, [e] + events, id)
  {
    hide Apply, Enabled;
    OneStep(s, e);
    ExecJoin(s, [e], events);
    JoinRuns(s, [e], events);
  }

  lemma FreshStart(s: State)
    requires Consistent(s)
    ensures var t := Apply(Apply(s, Crash), RestartBlind);
            && Enabled(s, Crash) && Enabled(Apply(s, Crash), RestartBlind) && Consistent(t)
            && Apply(s, Crash).rows == s.rows && t.rows == s.rows && t.queue == s.queue
            && t.phase.Up? && t.api.Ready? && t.worker.Idle? && !t.parentDone
  {
    hide Consistent;
    StepKeepsConsistent(s, Crash);
    StepKeepsConsistent(Apply(s, Crash), RestartBlind);
  }

  /** The queue outlives a crash, and the worker comes to the job. */
  lemma QueuedOverwrites(s: State, id: string) returns (events: seq<Event>)
    requires Consistent(s) && id in JobIds(s.queue)
    ensures Overwrites(s, events, id)
  {
    hide Apply, Enabled, Consistent, Overwrites;
    FreshStart(s);
    var rest := QueueOverwrites(Apply(Apply(s, Crash), RestartBlind), id);
    RunAfterStep(Apply(s, Crash), RestartBlind, rest, id);
    RunAfterStep(s, Crash, [RestartBlind] + rest, id);
    events := [Crash] + ([RestartBlind] + rest);
  }

  lemma ResumeOverwrites(s: State, id: string) returns (events: seq<Event>)
    requires Consistent(s) && ApiTouches(s, id) && s.api.ResumeSaved?
    ensures Overwrites(s, events, id)
  {
    hide Consistent, Overwrites;
    var e := ResumeEnqueue(true);
    StepKeepsConsistent(s, e);
    assert JobIds(s.queue + [s.api.job])[|s.queue|] == id;
    var rest := QueuedOverwrites(Apply(s, e), id);
    RunAfterStep(s, e, rest, id);
    events := [e] + rest;
  }

  lemma CallOverwrites(s: State, id: string) returns (events: seq<Event>)
    requires Consistent(s) && (IsFinal(s, id) || Stored(s, id, Queued)) && ApiTouches(s, id)
    ensures Overwrites(s, events, id)
  {
    hide Overwrites;
    if s.api.CancelLoaded? || s.api.CancelActed? {
      events := CancelOverwrites(s, id);
    } else if s.api.PauseLoaded? || s.api.PauseActed? {
      events := PauseOverwrites(s, id);
    } else if s.api.SubmitSaved? || s.api.SubmitFailed? {
      events := SubmitOverwrites(s, id);
    } else {
      events := ResumeOverwrites(s, id);
    }
  }

  lemma DangerOverwrites(s: State, id: string) returns (events: seq<Event>)
    requires Consistent(s) && (IsFinal(s, id) || Stored(s, id, Queued)) && !OutOfDanger(s, id)
    ensures Overwrites(s, events, id)
  {
    hide Overwrites;
    if ApiTouches(s, id) {
      events := CallOverwrites(s, id);
    } else if id in JobIds(s.queue) {
      events := QueuedOverwrites(s, id);
    } else {
      events := WorkerOverwrites(s, id);
    }
  }

  /** A finished record survives everything that can happen exactly when it is out of danger. */
  lemma FinalRecordSurvives(s: State, id: string)
    requires Consistent(s) && IsFinal(s, id)
    ensures Survives(s, id) <==> OutOfDanger(s, id)
  {
    hide IsRun, Exec, SameRecord, OutOfDanger, Consistent;
    if OutOfDanger(s, id) {
      forall events: seq<Event> | IsRun(s, events)
        ensures SameRecord(s, Exec(s, events), id)
      {
        QuietRun(s, events, id);
      }
    } else {
      var events := DangerOverwrites(s, id);
    }
  }

  /** A job stored as queued is stuck exactly when no call works on it, the queue does not hold it, and the worker
      cannot write it. */
  lemma QueuedJobIsStuck(s: State, id: string)
    requires Consistent(s) && Stored(s, id, Queued)
    ensures Stuck(s, id) <==> OutOfDanger(s, id)
  {
    hide IsRun, Exec, SameRecord, OutOfDanger, Consistent, NoneReopens;
    if OutOfDanger(s, id) {
      forall events: seq<Event> | IsRun(s, events) && NoneReopens(events, id)
        ensures SameRecord(s, Exec(s, events), id)
      {
        QuietRun(s, events, id);
      }
    } else {
      var events := DangerOverwrites(s, id);
    }
  }

  // ----- which steps put a finished record in danger -----

  /** Every finished record stays as it is from here on. */
  ghost predicate FinalSafe(s: State) {
    forall id :: IsFinal(s, id) ==> OutOfDanger(s, id)
  }

  /** A cancel that saves its record while the queue still holds the job or the worker can still write it. */
  predicate CancelsTooEarly(s: State, e: Event) {
    e.CancelSave? && e.ok && s.api.CancelActed? &&
    (s.api.job.id in JobIds(s.queue) || (MayWrite(s, s.api.job.id) && !s.parentDone))
  }

  /** A run that saves its end while a call that loaded the job before is still on its way. */
  predicate OvertakesCall(s: State, e: Event) {
    (e.Finish? || e.FailCreation?) && e.ok && s.worker.Executing? && !ContextIsDone(s, s.worker.run) &&
    ApiTouches(s, s.worker.job.id)
  }

  predicate Endangers(s: State, e: Event) {
    CancelsTooEarly(s, e) || OvertakesCall(s, e)
  }

  lemma EarlyCancelEndangers(s: State, e: Event)
    requires CancelsTooEarly(s, e)
    ensures !FinalSafe(Apply(s, e))
  {
    assert IsFinal(Apply(s, e), s.api.job.id) && !OutOfDanger(Apply(s, e), s.api.job.id);
  }

  lemma OvertakenCallEndangers(s: State, e: Event)
    requires OvertakesCall(s, e)
    ensures !FinalSafe(Apply(s, e))
  {
    assert IsFinal(Apply(s, e), s.api.job.id) && !OutOfDanger(Apply(s, e), s.api.job.id);
  }

  lemma NewlyFinalIsSaved(s: State, e: Event, id: string)
    requires ColumnsAgree(s.rows) && ApiConsistent(s)
    requires Enabled(s, e) && !IsWorkerEvent(e) && !IsSystemEvent(e)
    requires !IsFinal(s, id) && IsFinal(Apply(s, e), id)
    ensures (e.SaveFailedSubmission? || e.CancelSave?) && e.ok && ApiTouches(s, id)
    ensures Apply(s, e) == s.(rows := Apply(s, e).rows, api := Ready)
  {
  }

  lemma NewlyFinalByCall(s: State, e: Event, id: string)
    requires ColumnsAgree(s.rows) && ApiConsistent(s)
    requires Enabled(s, e) && !IsWorkerEvent(e) && !IsSystemEvent(e) && !Endangers(s, e)
    requires !IsFinal(s, id) && IsFinal(Apply(s, e), id)
    ensures OutOfDanger(Apply(s, e), id)
  {
    NewlyFinalIsSaved(s, e, id);
    hide Apply, ColumnsAgree;
  }

  lemma NewlyFinalByRun(s: State, e: Event, id: string)
    requires QueueConsistent(s) && WorkerConsistent(s)
    requires Enabled(s, e) && IsWorkerEvent(e) && !Endangers(s, e)
    requires !IsFinal(s, id) && IsFinal(Apply(s, e), id)
    ensures OutOfDanger(Apply(s, e), id)
  {
  }

  lemma NewlyFinal(s: State, e: Event, id: string)
    requires Consistent(s) && Enabled(s, e) && !Endangers(s, e)
    requires !IsFinal(s, id) && IsFinal(Apply(s, e), id)
    ensures OutOfDanger(Apply(s, e), id)
  {
    hide Endangers, OutOfDanger, Enabled, ColumnsAgree, QueueConsistent, ApiConsistent, WorkerConsistent;
    if IsWorkerEvent(e) {
      NewlyFinalByRun(s, e, id);
    } else if IsSystemEvent(e) {
      assert false;
    } else {
      NewlyFinalByCall(s, e, id);
    }
  }

  lemma FinalIsAtRest(s: State, id: string)
    requires IsFinal(s, id)
    ensures AtRest(s, id)
  {
  }

  /** Those are all the steps that do. */
  lemma StepKeepsFinalSafe(s: State, e: Event)
    requires Consistent(s) && FinalSafe(s) && Enabled(s, e)
    ensures FinalSafe(Apply(s, e)) <==> !Endangers(s, e)
  {
    hide Consistent, Enabled, Apply, OutOfDanger, CancelsTooEarly, OvertakesCall, IsFinal;
    if Endangers(s, e) {
      if CancelsTooEarly(s, e) {
        EarlyCancelEndangers(s, e);
      } else {
        OvertakenCallEndangers(s, e);
      }
    } else {
      forall id | IsFinal(Apply(s, e), id)
        ensures OutOfDanger(Apply(s, e), id)
      {
        if IsFinal(s, id) {
          FinalIsAtRest(s, id);
          QuietStep(s, e, id);
        } else {
          NewlyFinal(s, e, id);
        }
      }
    }
  }

  ghost predicate NothingEndangered(s: State, events: seq<Event>) {
    events == [] ||
    (NothingEndangered(s, events[..|events| - 1]) && !Endangers(Exec(s, events[..|events| - 1]), events[|events| - 1]))
  }

  /** After every step of the run, nothing that can follow changes a finished record. */
  ghost predicate FinishedAlwaysSurvive(s: State, events: seq<Event>) {
    (forall id :: IsFinal(Exec(s, events), id) ==> Survives(Exec(s, events), id)) &&
    (events != [] ==> FinishedAlwaysSurvive(s, events[..|events| - 1]))
  }

  lemma FinalSafeIsSurvival(s: State)
    requires Consistent(s)
    ensures FinalSafe(s) <==> forall id :: IsFinal(s, id) ==> Survives(s, id)
  {
    hide Consistent, IsFinal, OutOfDanger, Survives;
    forall id | IsFinal(s, id)
      ensures Survives(s, id) <==> OutOfDanger(s, id)
    {
      FinalRecordSurvives(s, id);
    }
  }

  lemma {:induction false} FinishedRecordsStayFrom(s: State, events: seq<Event>)
    requires Consistent(s) && FinalSafe(s) && IsRun(s, events)
    ensures FinishedAlwaysSurvive(s, events) <==> NothingEndangered(s, events)
    ensures NothingEndangered(s, events) ==> FinalSafe(Exec(s, events))
  {
    hide Consistent, FinalSafe, Apply, Enabled, Endangers, Survives, IsFinal;
    RunKeepsConsistent(s, events);
    FinalSafeIsSurvival(Exec(s, events));
    if events == [] {
    } else {
      var front := events[..|events| - 1];
      FinishedRecordsStayFrom(s, front);
      if NothingEndangered(s, front) {
        RunKeepsConsistent(s, front);
        StepKeepsFinalSafe(Exec(s, front), events[|events| - 1]);
      }
    }
  }

  /** Done, failed and cancelled records stay for good, through crashes, faults and interleaved calls, exactly when no
      cancel saves its record too early and no run ends while a call on its job is on its way. */
  lemma FinishedRecordsStay(events: seq<Event>)
    requires IsRun(INITIAL, events)
    ensures FinishedAlwaysSurvive(INITIAL, events) <==> NothingEndangered(INITIAL, events)
  {
    hide IsRun, FinishedAlwaysSurvive, NothingEndangered;
    InitialConsistent();
    FinishedRecordsStayFrom(INITIAL, events);
  }

  // ----- cancels -----

  /** The record that a cancel saves survives exactly when neither the queue nor the worker has the job any more; for
      a job that was loaded as running or paused that is always so. */
  lemma CancelledRecordSurvives(s: State, now: int)
    requires Consistent(s) && s.api.CancelActed?
    ensures var id, after := s.api.job.id, Apply(s, CancelSave(now, true));
            && Stored(after, id, Cancelled)
            && (Survives(after, id) <==> id !in JobIds(s.queue) && (MayWrite(s, id) ==> s.parentDone))
            && (s.api.job.status != Queued ==> Survives(after, id))
  {
    hide Survives, Consistent;
    var after := Apply(s, CancelSave(now, true));
    StepKeepsConsistent(s, CancelSave(now, true));
    FinalRecordSurvives(after, s.api.job.id);
    assert s.api.job.status != Queued ==> OutOfReach(s, s.api.job.id) by {
      assert ApiConsistent(s) by {
        CallsAreConsistent(s);
      }
    }
  }

  lemma CallsAreConsistent(s: State)
    requires Consistent(s)
    ensures ApiConsistent(s)
  {
    hide ApiConsistent;
  }

  lemma RecordsCarryTheirId(s: State, id: string)
    requires ColumnsAgree(s.rows) && id in s.rows
    ensures s.rows[id].doc.id == id
  {
  }

  /** A cancel of a job that is stored as queued, with no other step in between: what it takes for the record to
      last. */
  lemma CancelSurvives(s: State, id: string, removed: bool, now: int)
    requires Consistent(s) && !s.phase.Recovering? && s.api.Ready? && Stored(s, id, Queued)
    ensures var after := Exec(s, CancelCall(id, removed, now, true));
            && IsRun(s, CancelCall(id, removed, now, true)) && Stored(after, id, Cancelled)
            && (Survives(after, id) <==> (removed || id !in JobIds(s.queue)) && (!MayWrite(s, id) || s.parentDone))
  {
    hide IsRun, Exec, Survives, QueueConsistent, WorkerConsistent, ApiConsistent, PhaseConsistent, ColumnsAgree;
    var call := CancelCall(id, removed, now, true);
    CancelQueued(s, id, removed, now, true);
    WithoutKeepsOthers(s.queue, id);
    assert s.rows[id].doc.id == id by {
      RecordsCarryTheirId(s, id);
    }
    RunKeepsConsistent(s, call);
    FinalRecordSurvives(Exec(s, call), id);
  }

  lemma CancelAfter(before: seq<Event>, id: string, removed: bool, now: int)
    requires IsRun(INITIAL, before)
    requires var s := Exec(INITIAL, before); !s.phase.Recovering? && s.api.Ready? && Stored(s, id, Queued)
    ensures var s, run := Exec(INITIAL, before), before + CancelCall(id, removed, now, true);
            && IsRun(INITIAL, run) && Stored(Exec(INITIAL, run), id, Cancelled)
            && (Survives(Exec(INITIAL, run), id) <==>
               (removed || id !in JobIds(s.queue)) && (!MayWrite(s, id) || s.parentDone))
  {
    hide IsRun, Exec, Survives, Consistent, MayWrite;
    ReachableConsistent(before);
    CancelSurvives(Exec(INITIAL, before), id, removed, now);
    JoinRuns(INITIAL, before, CancelCall(id, removed, now, true));
    ExecJoin(INITIAL, before, CancelCall(id, removed, now, true));
  }

  /** Such cancels exist: one whose removal fails, and one in each stage of the worker up to the first save. */
  lemma LostCancelsAreReached(req: JobRequest, id: string, now: int, k: nat)
    requires id != "" && 3 <= k <= 6
    ensures var run := IntoWindow(req, id, now)[..k] + CancelCall(id, k > 3, now, true);
            IsRun(INITIAL, run) && Stored(Exec(INITIAL, run), id, Cancelled) && !Survives(Exec(INITIAL, run), id)
  {
    hide IsRun, Exec, Survives, Exposed;
    var run := IntoWindow(req, id, now);
    WindowIsReached(req, id, now);
    assert run[..6] == run;
    assert run[..k] + run[k..] == run;
    SplitRun(INITIAL, run[..k], run[k..]);
    var s := Exec(INITIAL, run[..k]);
    if k == 3 {
      SubmittedIsReached(req, id, now);
      assert JobIds(s.queue)[0] == id;
    } else {
      assert k == 4 || k == 5 || run[..k] == run;
      ExposedToWorker(s, id);
    }
    CancelAfter(run[..k], id, k > 3, now);
  }

  lemma ExposedToWorker(s: State, id: string)
    requires Exposed(s, id)
    ensures s.phase.Up? && s.api.Ready? && Stored(s, id, Queued) && MayWrite(s, id) && !s.parentDone
  {
  }

  // ----- a pause that comes too late -----

  function StalePause(req: JobRequest, id: string, now: int): (run: seq<Event>)
    ensures |run| == 10
  {
    [RestartBlind, Submit(req, id, now, true), EnqueueSubmitted(true), Dequeue, Register, MarkRunning(now, true),
     BeginPause(id), Finish(None, now, true), PauseAct, PauseSave(true)]
  }

  function RunningState(job: Job, now: int): State {
    var running := job.(status := Running, startedAt := Some(now));
    UnsavedState(job, now).(rows := Saved(Saved(map[], job), running))
  }

  lemma PauseLoads(job: Job, now: int)
    requires job.id != "" && job.status == Queued
    ensures var s, t := RegisteredState(job), RunningState(job, now);
            && Enabled(s, MarkRunning(now, true)) && Apply(s, MarkRunning(now, true)) == t
            && Enabled(t, BeginPause(job.id)) && Apply(t, BeginPause(job.id)) == t.(api := PauseLoaded(t.worker.job))
  {
  }

  lemma PauseComesLate(s: State, now: int)
    requires s.api.PauseLoaded? && s.worker.Executing? && s.worker.job.id == s.api.job.id
             && !ContextIsDone(s, s.worker.run)
    ensures var t := Apply(s, Finish(None, now, true));
            var u := Apply(t, PauseAct);
            && Enabled(s, Finish(None, now, true)) && OvertakesCall(s, Finish(None, now, true))
            && Stored(t, s.api.job.id, Done)
            && Enabled(t, PauseAct) && Enabled(u, PauseSave(true))
               && Stored(Apply(u, PauseSave(true)), s.api.job.id, Paused)
  {
  }

  /** Such a run exists: a pause loads the running job, the run ends and saves it as done, and the pause saves its
      copy. */
  lemma StalePauseOverwrites(req: JobRequest, id: string, now: int)
    requires id != ""
    ensures var run := StalePause(req, id, now);
            && IsRun(INITIAL, run)
            && OvertakesCall(Exec(INITIAL, run[..7]), run[7])
            && Stored(Exec(INITIAL, run[..8]), id, Done) && Stored(Exec(INITIAL, run), id, Paused)
  {
    hide Apply, Enabled, Exec, IsRun, Stored, OvertakesCall;
    var run, job := StalePause(req, id, now), NewJob(req, id, now);
    SubmittedIsReached(req, id, now);
    WindowSteps(job, now);
    PauseLoads(job, now);
    PauseComesLate(RunningState(job, now).(api := PauseLoaded(RunningState(job, now).worker.job)), now);
    assert run[..3] == IntoWindow(req, id, now)[..3];
    assert run[..4] == run[..3] + [Dequeue] && run[..5] == run[..4] + [Register];
    assert run[..6] == run[..5] + [MarkRunning(now, true)] && run[..7] == run[..6] + [BeginPause(id)];
    assert run[..8] == run[..7] + [Finish(None, now, true)] && run[..9] == run[..8] + [PauseAct]
           && run == run[..9] + [PauseSave(true)];
    StepOn(INITIAL, run[..3], Dequeue);
    StepOn(INITIAL, run[..4], Register);
    StepOn(INITIAL, run[..5], MarkRunning(now, true));
    StepOn(INITIAL, run[..6], BeginPause(id));
    StepOn(INITIAL, run[..7], Finish(None, now, true));
    StepOn(INITIAL, run[..8], PauseAct);
    StepOn(INITIAL, run[..9], PauseSave(true));
  }
}
