/**
 * The two tables: `jobs` and `alert_logs`, with the constraints the schema
 * declares on them (unique `job_link`, unique primary keys, every alert log
 * owned by an existing job).
 */
module Models {
  import opened Wrappers
  import opened IsoDate

  /** A row of `jobs`. `createdAt` is the UTC insertion time, as an ordered count. */
  datatype Job = Job(
    id: int,
    title: string,
    company: Option<string>,
    location: Option<string>,
    postedDate: Option<Date>,
    jobLink: string,
    experienceLevel: Option<string>,
    jobType: Option<string>,
    keywords: Option<string>,
    createdAt: int)

  /** A row of `alert_logs`: the audit record of one delivery attempt. */
  datatype AlertLog = AlertLog(
    id: int,
    jobId: int,
    channel: string,
    status: string,
    message: Option<string>,
    createdAt: int)

  /** The `uq_jobs_job_link` constraint. */
  ghost predicate LinksUnique(jobs: seq<Job>) {
    forall i, j :: 0 <= i < j < |jobs| ==> jobs[i].jobLink != jobs[j].jobLink
  }

  ghost predicate JobIdsUnique(jobs: seq<Job>) {
    forall i, j :: 0 <= i < j < |jobs| ==> jobs[i].id != jobs[j].id
  }

  ghost predicate LogIdsUnique(logs: seq<AlertLog>) {
    forall i, j :: 0 <= i < j < |logs| ==> logs[i].id != logs[j].id
  }

  predicate HasJobId(jobs: seq<Job>, id: int) {
    exists k :: 0 <= k < |jobs| && jobs[k].id == id
  }

  /** The foreign key `alert_logs.job_id -> jobs.id`. */
  ghost predicate LogsReferenceJobs(logs: seq<AlertLog>, jobs: seq<Job>) {
    forall i :: 0 <= i < |logs| ==> HasJobId(jobs, logs[i].jobId)
  }

  /** Appending rows to `jobs` keeps every reference to it valid. */
  lemma LogsReferenceAppended(logs: seq<AlertLog>, jobs: seq<Job>, added: seq<Job>)
    requires LogsReferenceJobs(logs, jobs)
    ensures LogsReferenceJobs(logs, jobs + added)
  {
    forall i | 0 <= i < |logs|
      ensures HasJobId(jobs + added, logs[i].jobId)
    {
      var k :| 0 <= k < |jobs| && jobs[k].id == logs[i].jobId;
      assert (jobs + added)[k] == jobs[k];
    }
  }

  ghost predicate StoreInvariant(jobs: seq<Job>, logs: seq<AlertLog>) {
    && LinksUnique(jobs)
    && JobIdsUnique(jobs)
    && LogIdsUnique(logs)
    && LogsReferenceJobs(logs, jobs)
  }

  function JobsWithout(jobs: seq<Job>, id: int): (r: seq<Job>)
    ensures forall j :: j in r <==> j in jobs && j.id != id
  {
    if jobs == [] then []
    else (if jobs[0].id == id then [] else [jobs[0]]) + JobsWithout(jobs[1..], id)
  }

  /** `ondelete="CASCADE"` / `delete-orphan`: the logs left once job `id` is gone. */
  function LogsWithout(logs: seq<AlertLog>, jobId: int): (r: seq<AlertLog>)
    ensures forall l :: l in r <==> l in logs && l.jobId != jobId
  {
    if logs == [] then []
    else (if logs[0].jobId == jobId then [] else [logs[0]]) + LogsWithout(logs[1..], jobId)
  }

  /** Dropping rows in order keeps every pairwise-distinctness fact. */
  lemma JobsWithoutSubsequence(jobs: seq<Job>, id: int)
    requires LinksUnique(jobs) && JobIdsUnique(jobs)
    ensures LinksUnique(JobsWithout(jobs, id)) && JobIdsUnique(JobsWithout(jobs, id))
  {
    JobsWithoutLinks(jobs, id);
    JobsWithoutIds(jobs, id);
  }

  lemma {:induction false} JobsWithoutLinks(jobs: seq<Job>, id: int)
    requires LinksUnique(jobs)
    ensures LinksUnique(JobsWithout(jobs, id))
  {
    if jobs != [] {
      JobsWithoutLinks(jobs[1..], id);
      var rest := JobsWithout(jobs[1..], id);
      forall k | 0 <= k < |rest|
        ensures rest[k].jobLink != jobs[0].jobLink
      {
        assert rest[k] in jobs[1..];
        var m :| 0 <= m < |jobs[1..]| && jobs[1..][m] == rest[k];
        assert jobs[m + 1] == rest[k];
      }
    }
  }

  lemma {:induction false} JobsWithoutIds(jobs: seq<Job>, id: int)
    requires JobIdsUnique(jobs)
    ensures JobIdsUnique(JobsWithout(jobs, id))
  {
    if jobs != [] {
      JobsWithoutIds(jobs[1..], id);
      var rest := JobsWithout(jobs[1..], id);
      forall k | 0 <= k < |rest|
        ensures rest[k].id != jobs[0].id
      {
        assert rest[k] in jobs[1..];
        var m :| 0 <= m < |jobs[1..]| && jobs[1..][m] == rest[k];
        assert jobs[m + 1] == rest[k];
      }
    }
  }

  lemma {:induction false} LogsWithoutSubsequence(logs: seq<AlertLog>, jobId: int)
    requires LogIdsUnique(logs)
    ensures LogIdsUnique(LogsWithout(logs, jobId))
  {
    if logs != [] {
      LogsWithoutSubsequence(logs[1..], jobId);
      var rest := LogsWithout(logs[1..], jobId);
      forall k | 0 <= k < |rest|
        ensures rest[k].id != logs[0].id
      {
        assert rest[k] in logs[1..];
        var m :| 0 <= m < |logs[1..]| && logs[1..][m] == rest[k];
        assert logs[m + 1] == rest[k];
      }
    }
  }

  /** Deleting a job together with all of its alert logs keeps every constraint. */
  lemma CascadeKeepsInvariant(jobs: seq<Job>, logs: seq<AlertLog>, id: int)
    requires StoreInvariant(jobs, logs)
    ensures StoreInvariant(JobsWithout(jobs, id), LogsWithout(logs, id))
  {
    JobsWithoutSubsequence(jobs, id);
    LogsWithoutSubsequence(logs, id);
    var js, ls := JobsWithout(jobs, id), LogsWithout(logs, id);
    forall i | 0 <= i < |ls|
      ensures HasJobId(js, ls[i].jobId)
    {
      assert ls[i] in logs;
      var m :| 0 <= m < |logs| && logs[m] == ls[i];
      var k :| 0 <= k < |jobs| && jobs[k].id == ls[i].jobId;
      assert jobs[k] in js;
      var k' :| 0 <= k' < |js| && js[k'] == jobs[k];
    }
  }
}
