/** The persistent job store: one row per job, with the status kept in a column and
    again inside the stored document. */
module JobStore {
  import opened Sequences
  import opened Jobs

  /** The columns that queries use, and the document that loads return. */
  datatype Row = Row(jobType: JobType, status: JobStatus, createdAt: int, doc: Job)

  type Rows = map<string, Row>

  datatype StoreError = JobIdEmpty | JobNotFound(id: string) | ContextDone

  /** SaveJob's upsert, which leaves the time of creation as it is. */
  function Saved(rows: Rows, job: Job): Rows {
    rows[job.id := Row(job.jobType, job.status, if job.id in rows then rows[job.id].createdAt else job.createdAt, job)]
  }

  /** UpdateProgress rewrites the document only. */
  function Progressed(rows: Rows, id: string, progress: JobProgress): Rows {
    if id in rows then rows[id := rows[id].(doc := rows[id].doc.(progress := progress))] else rows
  }

  /** The write of an UpdateProgress that has loaded `loaded` before. */
  function ProgressWritten(rows: Rows, loaded: Job, progress: JobProgress): Rows {
    if loaded.id in rows then rows[loaded.id := rows[loaded.id].(doc := loaded.(progress := progress))] else rows
  }

  /** Row `id` is there now, and every other row is as it was. */
  predicate ChangesOnly(before: Rows, after: Rows, id: string) {
    id in after && after == before[id := after[id]]
  }

  function Stamped(entry: JobLog, now: int): JobLog {
    if entry.timestamp.Some? then entry else entry.(timestamp := Some(now))
  }

  predicate Matches(row: Row, filter: JobFilter) {
    && (filter.jobType.None? || row.jobType == filter.jobType.value)
    && (filter.status.None? || row.status == filter.status.value)
  }

  /** Every matching row's document, each once. */
  ghost predicate IsListing(rows: Rows, filter: JobFilter, jobs: seq<Job>) {
    && (forall j :: j in jobs ==> exists id :: id in rows && Matches(rows[id], filter) && j == rows[id].doc)
    && (forall id :: id in rows && Matches(rows[id], filter) ==> rows[id].doc in jobs)
    && Distinct(jobs)
  }

  function Created(rows: Rows, job: Job): int {
    if job.id in rows then rows[job.id].createdAt else 0
  }

  ghost predicate NewestFirst(rows: Rows, jobs: seq<Job>) {
    forall i, j :: 0 <= i < j < |jobs| ==> Created(rows, jobs[i]) >= Created(rows, jobs[j])
  }

  function Limited(jobs: seq<Job>, limit: int): seq<Job> {
    if 0 < limit < |jobs| then jobs[..limit] else jobs
  }

  /** `jobs` with one more, behind those that are not older. */
  function Inserted(rows: Rows, jobs: seq<Job>, job: Job): seq<Job> {
    if jobs != [] && Created(rows, jobs[|jobs| - 1]) < Created(rows, job)
    then Inserted(rows, jobs[..|jobs| - 1], job) + [jobs[|jobs| - 1]]
    else jobs + [job]
  }

  ghost predicate NoneOlder(rows: Rows, jobs: seq<Job>, job: Job) {
    forall j :: j in jobs ==> Created(rows, j) >= Created(rows, job)
  }

  lemma OneOlder(rows: Rows, jobs: seq<Job>, job: Job)
    requires NewestFirst(rows, jobs) && Distinct(jobs) && job !in jobs && NoneOlder(rows, jobs, job)
    ensures NewestFirst(rows, jobs + [job]) && Distinct(jobs + [job])
    ensures forall j :: j in jobs + [job] <==> j in jobs || j == job
  {
    hide Created;
    assert forall i :: 0 <= i < |jobs| ==> jobs[i] in jobs;
  }

  lemma LastIsOldest(rows: Rows, jobs: seq<Job>)
    requires NewestFirst(rows, jobs) && Distinct(jobs) && jobs != []
    ensures var front, last := jobs[..|jobs| - 1], jobs[|jobs| - 1];
            && NewestFirst(rows, front) && Distinct(front) && last !in front && NoneOlder(rows, front, last)
            && forall j :: j in jobs <==> j in front || j == last
  {
    hide Created;
    assert jobs == jobs[..|jobs| - 1] + [jobs[|jobs| - 1]];
  }

  lemma {:induction false} InsertedIsNewestFirst(rows: Rows, jobs: seq<Job>, job: Job)
    requires NewestFirst(rows, jobs) && Distinct(jobs) && job !in jobs
    ensures var more := Inserted(rows, jobs, job);
            NewestFirst(rows, more) && Distinct(more) && forall j :: j in more <==> j in jobs || j == job
  {
    hide Created, NewestFirst, Distinct;
    if jobs != [] {
      LastIsOldest(rows, jobs);
    }
    if jobs != [] && Created(rows, jobs[|jobs| - 1]) < Created(rows, job) {
      var front, last := jobs[..|jobs| - 1], jobs[|jobs| - 1];
      InsertedIsNewestFirst(rows, front, job);
      OneOlder(rows, Inserted(rows, front, job), last);
    } else {
      OneOlder(rows, jobs, job);
    }
  }

  /** The columns agree with the document, and the key is the document's id. */
  ghost predicate ColumnsAgree(rows: Rows) {
    forall id :: id in rows ==>
      rows[id].doc.id == id && rows[id].status == rows[id].doc.status && rows[id].jobType == rows[id].doc.jobType
  }

  lemma WritesKeepColumns(rows: Rows, job: Job, id: string, progress: JobProgress)
    requires ColumnsAgree(rows)
    ensures ColumnsAgree(Saved(rows, job)) && ColumnsAgree(Progressed(rows, id, progress))
  {
  }

  /** A save between the two halves of a progress update is undone in the document: the columns still agree with it
      exactly when the save kept status and type, and nothing is lost exactly when it changed the progress only. */
  lemma SaveInsideProgress(rows: Rows, job: Job, progress: JobProgress)
    requires ColumnsAgree(rows) && job.id in rows
    ensures var loaded := rows[job.id].doc;
            var after := ProgressWritten(Saved(rows, job), loaded, progress);
            && (ColumnsAgree(after) <==> job.status == loaded.status && job.jobType == loaded.jobType)
            && (after == Progressed(Saved(rows, job), job.id, progress) <==>
                job.(progress := loaded.progress) == loaded)
            && ProgressWritten(rows, loaded, progress) == Progressed(rows, job.id, progress)
  {
    var loaded := rows[job.id].doc;
    var after := ProgressWritten(Saved(rows, job), loaded, progress);
    assert after[job.id].doc == loaded.(progress := progress) && after[job.id].status == job.status;
    assert Progressed(Saved(rows, job), job.id, progress)[job.id].doc == job.(progress := progress);
  }

  class SQLiteJobStore {
    var rows: Rows
    var logs: seq<(string, JobLog)>

    constructor ()
      ensures rows == map[] && logs == []
    {
      rows, logs := map[], [];
    }

    /** Writes nothing once the context is done. */
    method SaveJob(contextDone: bool, job: Job) returns (r: Result<(), StoreError>)
      modifies this`rows
      ensures r == if job.id == "" then Err(JobIdEmpty) else if contextDone then Err(ContextDone) else Ok(())
      ensures rows == if r.Ok? then Saved(old(rows), job) else old(rows)
    {
      if job.id == "" {
        return Err(JobIdEmpty);
      }
      if contextDone {
        return Err(ContextDone);
      }
      var createdAt := job.createdAt;
      if job.id in rows {
        createdAt := rows[job.id].createdAt;
      }
      rows := rows[job.id := Row(job.jobType, job.status, createdAt, job)];
      r := Ok(());
    }

    method LoadJob(contextDone: bool, id: string) returns (r: Result<Job, StoreError>)
      ensures r == if contextDone then Err(ContextDone) else if id in rows then Ok(rows[id].doc)
              else Err(JobNotFound(id))
    {
      if contextDone {
        return Err(ContextDone);
      }
      if id !in rows {
        return Err(JobNotFound(id));
      }
      r := Ok(rows[id].doc);
    }

    /** The matching jobs, newest first, and no more of them than the limit if there is one. */
    method ListJobs(contextDone: bool, filter: JobFilter) returns (r: Result<seq<Job>, StoreError>)
      requires ColumnsAgree(rows)
      ensures contextDone ==> r == Err(ContextDone)
      ensures !contextDone ==> r.Ok? && exists all :: IsListing(rows, filter, all) && NewestFirst(rows, all)
                                                      && r.value == Limited(all, filter.limit)
      ensures !contextDone ==> forall j :: j in r.value ==>
                && j.id in rows && j == rows[j.id].doc
                && (filter.jobType.Some? ==> rows[j.id].jobType == filter.jobType.value)
                && (filter.status.Some? ==> rows[j.id].status == filter.status.value)
      ensures !contextDone && filter.limit <= 0 ==> forall id :: id in rows && rows[id].doc !in r.value ==>
                || (filter.jobType.Some? && rows[id].jobType != filter.jobType.value)
                || (filter.status.Some? && rows[id].status != filter.status.value)
      ensures !contextDone && filter.limit > 0 ==> |r.value| <= filter.limit
    {
      if contextDone {
        return Err(ContextDone);
      }
      var jobs: seq<Job> := [];
      var rest := rows.Keys;
      while rest != {}
        invariant rest <= rows.Keys
        invariant forall j :: j in jobs ==>
                  j.id in rows.Keys - rest && Matches(rows[j.id], filter) && j == rows[j.id].doc
        invariant forall id :: id in rows.Keys - rest && Matches(rows[id], filter) ==> rows[id].doc in jobs
        invariant Distinct(jobs) && NewestFirst(rows, jobs)
      {
        var id :| id in rest;
        if Matches(rows[id], filter) {
          InsertedIsNewestFirst(rows, jobs, rows[id].doc);
          jobs := Inserted(rows, jobs, rows[id].doc);
        }
        rest := rest - {id};
      }
      r := Ok(Limited(jobs, filter.limit));
    }

    /** An entry without a time gets the current one. */
    method AppendLog(contextDone: bool, id: string, entry: JobLog, now: int) returns (r: Result<(), StoreError>)
      modifies this`logs
      ensures r.Ok? <==> !contextDone
      ensures logs == if contextDone then old(logs) else old(logs) + [(id, Stamped(entry, now))]
      ensures !contextDone ==> var (owner, added) := logs[|logs| - 1];
                               && owner == id && added.timestamp == Some(entry.timestamp.GetOr(now))
                               && added.level == entry.level && added.step == entry.step
                                  && added.message == entry.message
    {
      if contextDone {
        return Err(ContextDone);
      }
      var time := entry.timestamp;
      if time.None? {
        time := Some(now);
      }
      logs := logs + [(id, JobLog(time, entry.level, entry.step, entry.message))];
      r := Ok(());
    }

    method UpdateProgress(contextDone: bool, id: string, progress: JobProgress) returns (r: Result<(), StoreError>)
      modifies this`rows
      ensures r.Ok? <==> !contextDone && id in old(rows)
      ensures r.Ok? ==> var was := old(rows)[id];
                        && ChangesOnly(old(rows), rows, id) && rows[id].doc == was.doc.(progress := progress)
                        && rows[id].status == was.status && rows[id].jobType == was.jobType
                        && rows[id].createdAt == was.createdAt
      ensures r.Err? ==> rows == old(rows)
      ensures rows == if contextDone then old(rows) else Progressed(old(rows), id, progress)
    {
      if contextDone {
        return Err(ContextDone);
      }
      if id !in rows {
        return Err(JobNotFound(id));
      }
      var job := rows[id].doc;
      job := job.(progress := progress);
      rows := rows[id := rows[id].(doc := job)];
      r := Ok(());
    }
  }
}
