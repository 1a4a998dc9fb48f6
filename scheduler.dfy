/**
 * The daily scrape and the background scheduler that runs it: a run scrapes
 * three pages of the basic search and ingests every record as the scrape
 * route does, but alerts nobody; the scheduler is created, given its one
 * cron job and started on the first call only.
 */
module Scheduler {
  import opened Wrappers
  import opened Crud
  import opened Browser
  import opened Ingestion
  import opened LinkedinSearch
  import opened Scraper

  // ---------------------------------------------------------------------------
  // The daily run

  /** The page budget of a daily run. */
  const DailyPages := 3

  /** The records a daily run ingests: the basic crawl of the search, three pages at most. */
  function DailyResults(keywords: string, location: string, site: string -> seq<Page>): seq<RawRecord> {
    Crawl(keywords, site(BasicSearchUrl(keywords, location)), 0, DailyPages)
  }

  /** A database session over the store; `close` ends it. */
  class Session {
    const store: JobStore
    var closed: bool

    constructor (store: JobStore)
      ensures this.store == store && !closed
    {
      this.store := store;
      closed := false;
    }

    method Close()
      modifies this
      ensures closed
    {
      closed := true;
    }
  }

  /**
   * `run_daily_scrape`: a session is opened, the records are ingested one by
   * one until the first that fails validation, and the session is closed on
   * either path. Nothing is alerted and no alert log is written.
   */
  method RunDailyScrape(store: JobStore, keywords: string, location: string, site: string -> seq<Page>)
    returns (db: Session, error: Option<string>)
    requires store.Valid()
    modifies store
    ensures fresh(db) && db.store == store && db.closed
    ensures store.Valid() && store.logs == old(store.logs)
    ensures store.clock == old(store.clock) + |store.jobs| - |old(store.jobs)|
    ensures var run := Ingest(old(store.jobs), DailyResults(keywords, location, site), old(store.clock));
      store.jobs == old(store.jobs) + run.created && error == run.error
  {
    db := new Session(store);
    var results, driver := ScrapeLinkedinJobs(keywords, location, DailyPages, site);
    var created;
    created, error := IngestRecords(db.store, results);
    db.Close();
  }

  // ---------------------------------------------------------------------------
  // The background scheduler

  /** The cron expression used when none is configured. */
  const DefaultCron := "0 8 * * *"

  /** The one job the scheduler is given, and the search it runs. */
  const DailyJobId := "daily_scrape"
  const DailyKeywords := "Software Engineer"
  const DailyLocation := "Remote"

  /** A registered job: its id, its crontab and the search its run is called with. */
  datatype CronJob = CronJob(id: string, cron: string, keywords: string, location: string)

  /** No two registered jobs share an id. */
  predicate UniqueIds(jobs: seq<CronJob>) {
    forall i, j :: 0 <= i < j < |jobs| ==> jobs[i].id != jobs[j].id
  }

  /** `add_job(..., replace_existing=True)`: a job with the same id is replaced where it stands, otherwise the job is added at the end. */
  function WithJob(jobs: seq<CronJob>, job: CronJob): seq<CronJob> {
    if exists i :: 0 <= i < |jobs| && jobs[i].id == job.id
    then seq(|jobs|, i requires 0 <= i < |jobs| => if jobs[i].id == job.id then job else jobs[i])
    else jobs + [job]
  }

  /**
   * Adding with replacement keeps the ids unique, leaves exactly one job
   * under the new id — the new one — and every job under another id as it was.
   */
  lemma WithJobSound(jobs: seq<CronJob>, job: CronJob)
    requires UniqueIds(jobs)
    ensures var r := WithJob(jobs, job);
      && UniqueIds(r)
      && (exists i :: 0 <= i < |r| && r[i] == job)
      && (forall i :: 0 <= i < |r| && r[i].id == job.id ==> r[i] == job)
      && (forall c :: c in jobs && c.id != job.id ==> c in r)
      && (forall c :: c in r && c.id != job.id ==> c in jobs)
  {
    var r := WithJob(jobs, job);
    if exists i :: 0 <= i < |jobs| && jobs[i].id == job.id {
      var i :| 0 <= i < |jobs| && jobs[i].id == job.id;
      assert r[i] == job;
      forall c | c in jobs && c.id != job.id
        ensures c in r
      {
        var k :| 0 <= k < |jobs| && jobs[k] == c;
        assert r[k] == c;
      }
    } else {
      assert r[|jobs|] == job;
    }
  }

  /** An APScheduler `BackgroundScheduler`: its registered jobs and whether it was started. */
  class BackgroundScheduler {
    var jobs: seq<CronJob>
    var running: bool

    ghost predicate Valid()
      reads this
    {
      UniqueIds(jobs)
    }

    constructor ()
      ensures Valid() && jobs == [] && !running
    {
      jobs := [];
      running := false;
    }

    /** `add_job` with `replace_existing=True`. */
    method AddJob(job: CronJob)
      requires Valid()
      modifies this
      ensures Valid() && jobs == WithJob(old(jobs), job) && running == old(running)
    {
      WithJobSound(jobs, job);
      jobs := WithJob(jobs, job);
    }

    /** `start`: the scheduler starts running its jobs; starting it twice is an error, so a caller starts it once. */
    method Start()
      requires !running
      modifies this
      ensures running && jobs == old(jobs)
    {
      running := true;
    }
  }

  /** The job `start_scheduler` registers for the configured crontab. */
  function DailyJob(cron: string): CronJob {
    CronJob(DailyJobId, cron, DailyKeywords, DailyLocation)
  }

  /** The module-level `scheduler` handle, `None` until the first start. */
  class SchedulerModule {
    var scheduler: Option<BackgroundScheduler>

    constructor ()
      ensures scheduler.None?
    {
      scheduler := None;
    }

    /**
     * `start_scheduler`: with a handle already set, that handle comes back
     * and nothing is registered or started again; otherwise a new scheduler
     * gets the daily job as its only job, is started and becomes the handle.
     */
    method StartScheduler(cron: string) returns (handle: BackgroundScheduler)
      modifies this
      ensures scheduler == Some(handle)
      ensures old(scheduler).Some? ==> handle == old(scheduler).value && unchanged(handle)
      ensures old(scheduler).None? ==> fresh(handle) && handle.Valid() && handle.running && handle.jobs == [DailyJob(cron)]
    {
      if scheduler.Some? {
        return scheduler.value;
      }
      handle := new BackgroundScheduler();
      handle.AddJob(DailyJob(cron));
      handle.Start();
      scheduler := Some(handle);
    }
  }

  /** Two starts in a row give the same handle, with the daily job registered once. */
  method StartTwice(m: SchedulerModule, cron: string) returns (first: BackgroundScheduler, second: BackgroundScheduler)
    requires m.scheduler.None?
    modifies m
    ensures first == second && second.running && second.jobs == [DailyJob(cron)]
  {
    first := m.StartScheduler(cron);
    second := m.StartScheduler(cron);
  }
}
