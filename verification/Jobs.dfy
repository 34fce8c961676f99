/** Jobs, their statuses and the records that hold them. */
module Jobs {
  import opened Sequences

  datatype JobType = Migration | Discovery | CompatCheck

  datatype JobStatus = Queued | Running | Paused | Done | Failed | Cancelled {
    predicate IsTerminal() {
      Done? || Failed? || Cancelled?
    }
  }

  datatype JobProgress = JobProgress(
    currentStep: int, totalSteps: int, currentName: string, percentage: real,
    bytesDone: int, bytesTotal: int, speedBPS: int, eta: int)

  datatype LogLevel = Info | Warn | ErrorLevel

  /** A log entry whose time may be unset. */
  datatype JobLog = JobLog(timestamp: Option<int>, level: LogLevel, step: string, message: string)

  /** The error text of a job; formatting is not modelled. */
  datatype Failure =
    | NoFailure
    | EnqueueFailed
    | CreateHandlerFailed(cause: string)
    | NoHandler(jobType: JobType, jobId: string)
    | HandlerFailed(cause: string)
    | ContextCancelled

  datatype Job = Job(
    id: string, jobType: JobType, status: JobStatus, createdAt: int, startedAt: Option<int>, finishedAt: Option<int>,
    planId: string, migrationId: int, sourceId: int, targetId: int, progress: JobProgress, error: Failure)

  datatype JobRequest = JobRequest(jobType: JobType, planId: string, sourceId: int, targetId: int, migrationId: int)

  datatype JobFilter = JobFilter(jobType: Option<JobType>, status: Option<JobStatus>, limit: int)

  const NO_PROGRESS := JobProgress(0, 0, "", 0.0, 0, 0, 0, 0)

  function JobIds(jobs: seq<Job>): (ids: seq<string>)
    ensures |ids| == |jobs|
    ensures forall i :: 0 <= i < |jobs| ==> ids[i] == jobs[i].id
  {
    seq(|jobs|, i requires 0 <= i < |jobs| => jobs[i].id)
  }

  /** `jobs` without the first entry that has this id. */
  function Without(jobs: seq<Job>, id: string): (rest: seq<Job>)
    ensures |rest| == if id in JobIds(jobs) then |jobs| - 1 else |jobs|
  {
    if jobs == [] then []
    else if jobs[0].id == id then jobs[1..]
    else [jobs[0]] + Without(jobs[1..], id)
  }

  lemma {:induction false} AbsentUnchanged(jobs: seq<Job>, id: string)
    requires id !in JobIds(jobs)
    ensures Without(jobs, id) == jobs
  {
    if jobs == [] {
    } else {
      assert JobIds(jobs)[0] == jobs[0].id;
      assert forall i :: 0 <= i < |jobs| - 1 ==> JobIds(jobs[1..])[i] == JobIds(jobs)[i + 1];
      AbsentUnchanged(jobs[1..], id);
    }
  }

  /** `rest` is `q` without the entry at position `k`. */
  ghost predicate Skips<T>(q: seq<T>, k: int, rest: seq<T>) {
    && 0 <= k < |q| && |rest| == |q| - 1
    && (forall i :: 0 <= i < k ==> rest[i] == q[i])
    && (forall i :: k <= i < |rest| ==> rest[i] == q[i + 1])
  }

  lemma SkipsCons<T>(x: T, q: seq<T>, k: int, rest: seq<T>)
    requires Skips(q, k, rest)
    ensures Skips([x] + q, k + 1, [x] + rest)
  {
  }

  lemma SkipsAsSlices<T>(q: seq<T>, k: nat, rest: seq<T>)
    requires Skips(q, k, rest)
    ensures rest == q[..k] + q[k + 1..]
  {
  }

  lemma {:induction false} SplitAtFirst(jobs: seq<Job>, id: string, i: nat)
    requires i < |jobs| && jobs[i].id == id && forall k :: 0 <= k < i ==> jobs[k].id != id
    ensures id in JobIds(jobs) && Skips(jobs, i, Without(jobs, id))
  {
    assert JobIds(jobs)[i] == id;
    if i > 0 {
      SplitAtFirst(jobs[1..], id, i - 1);
      SkipsCons(jobs[0], jobs[1..], i - 1, Without(jobs[1..], id));
      assert [jobs[0]] + jobs[1..] == jobs;
    }
  }

  lemma WithoutSkips(jobs: seq<Job>, id: string) returns (k: nat)
    requires id in JobIds(jobs)
    ensures Skips(jobs, k, Without(jobs, id)) && jobs[k].id == id
  {
    var found :| 0 <= found < |jobs| && JobIds(jobs)[found] == id;
    k := 0;
    while jobs[k].id != id
      invariant k <= found && forall j :: 0 <= j < k ==> jobs[j].id != id
      decreases |jobs| - k
    {
      k := k + 1;
    }
    SplitAtFirst(jobs, id, k);
  }

  /** With distinct ids, removing one id removes that entry and keeps the others in order. */
  lemma WithoutKeepsOthers(jobs: seq<Job>, id: string)
    requires Distinct(JobIds(jobs))
    ensures Distinct(JobIds(Without(jobs, id)))
    ensures forall x :: x in JobIds(Without(jobs, id)) <==> x in JobIds(jobs) && x != id
    ensures forall j :: j in Without(jobs, id) ==> j in jobs
  {
    if id in JobIds(jobs) {
      var k := WithoutSkips(jobs, id);
      SkipsKeepsOthers(jobs, k, Without(jobs, id));
    } else {
      AbsentUnchanged(jobs, id);
    }
  }

  lemma SkipsKeepsOthers(jobs: seq<Job>, k: nat, rest: seq<Job>)
    requires Distinct(JobIds(jobs)) && Skips(jobs, k, rest)
    ensures Distinct(JobIds(rest))
    ensures forall x :: x in JobIds(rest) <==> x in JobIds(jobs) && x != jobs[k].id
    ensures forall j :: j in rest ==> j in jobs
  {
    var ids, kept := JobIds(jobs), JobIds(rest);
    assert forall i :: 0 <= i < |kept| ==> kept[i] == ids[if i < k then i else i + 1];
    forall x | x in ids && x != jobs[k].id
      ensures x in kept
    {
      var i :| 0 <= i < |ids| && ids[i] == x;
      assert kept[if i < k then i else i - 1] == x;
    }
    forall j | j in rest
      ensures j in jobs
    {
      var i :| 0 <= i < |rest| && rest[i] == j;
      assert j == jobs[if i < k then i else i + 1];
    }
  }
}
