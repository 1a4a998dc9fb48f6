/**
 * The two job routes: `GET /jobs`, which clamps the page parameters and
 * lists, and `POST /scrape`, which scrapes, ingests every record and alerts
 * the jobs that were new, answering with how many records were found and
 * how many jobs were created.
 */
module JobsRouter {
  import opened Wrappers
  import opened Text
  import opened Models
  import opened Schemas
  import opened Crud
  import opened Sorting
  import opened Alerts
  import opened Browser
  import opened Ingestion
  import opened LinkedinSearch
  import opened Scraper

  // ---------------------------------------------------------------------------
  // GET /jobs

  const MaxPageSize := 200

  /** `min(max(limit, 1), 200)`. */
  function ClampLimit(limit: int): (r: int)
    ensures 1 <= r <= MaxPageSize
    ensures 1 <= limit <= MaxPageSize ==> r == limit
    ensures limit < 1 ==> r == 1
    ensures limit > MaxPageSize ==> r == MaxPageSize
  {
    Min(Max(limit, 1), MaxPageSize)
  }

  /** `max(offset, 0)`. */
  function ClampOffset(offset: int): (r: int)
    ensures r >= 0
    ensures offset >= 0 ==> r == offset
    ensures offset < 0 ==> r == 0
  {
    Max(offset, 0)
  }

  /**
   * The `JobFilter` of `get_jobs`: the three criteria and the sort key as
   * given, the page clamped. The date parameters are accepted and dropped.
   */
  function GetJobsFilter(keyword: Option<string>, company: Option<string>, location: Option<string>,
                         dateFrom: Option<string>, dateTo: Option<string>,
                         limit: int, offset: int, orderBy: Option<string>): (f: JobFilter)
    ensures f.keyword == keyword && f.company == company && f.location == location && f.orderBy == orderBy
    ensures f.dateFrom.None? && f.dateTo.None?
    ensures 1 <= f.limit <= MaxPageSize && f.offset >= 0
    ensures f.limit == ClampLimit(limit) && f.offset == ClampOffset(offset)
  {
    JobFilter(keyword, company, None, None, location, ClampLimit(limit), ClampOffset(offset), orderBy)
  }

  /**
   * `get_jobs`: at most 200 rows; exactly as many as the matches left after
   * the clamped offset, up to the clamped limit.
   */
  function GetJobs(jobs: seq<Job>, keyword: Option<string>, company: Option<string>, location: Option<string>,
                   dateFrom: Option<string>, dateTo: Option<string>,
                   limit: int, offset: int, orderBy: Option<string>): (r: seq<Job>)
    ensures |r| <= MaxPageSize
    ensures var f := GetJobsFilter(keyword, company, location, dateFrom, dateTo, limit, offset, orderBy);
      |r| == Min(ClampLimit(limit), Max(0, CountJobs(jobs, f) - ClampOffset(offset)))
  {
    var f := GetJobsFilter(keyword, company, location, dateFrom, dateTo, limit, offset, orderBy);
    ListJobsLength(jobs, f);
    ListJobs(jobs, f)
  }

  /** Every row `get_jobs` returns is stored and passes the criteria, and the rows follow the sort key. */
  lemma GetJobsSound(jobs: seq<Job>, keyword: Option<string>, company: Option<string>, location: Option<string>,
                     dateFrom: Option<string>, dateTo: Option<string>,
                     limit: int, offset: int, orderBy: Option<string>)
    ensures var f := GetJobsFilter(keyword, company, location, dateFrom, dateTo, limit, offset, orderBy);
      var r := GetJobs(jobs, keyword, company, location, dateFrom, dateTo, limit, offset, orderBy);
      && (forall k :: 0 <= k < |r| ==> r[k] in jobs && Matches(r[k], f))
      && SortedBy(r, JobOrder(OrderClause(orderBy)))
  {
    ListJobsSound(jobs, GetJobsFilter(keyword, company, location, dateFrom, dateTo, limit, offset, orderBy));
  }

  /** `date_from` and `date_to` never reach the query: any values list the same rows. */
  lemma DateParamsIgnored(jobs: seq<Job>, keyword: Option<string>, company: Option<string>, location: Option<string>,
                          dateFrom: Option<string>, dateTo: Option<string>,
                          limit: int, offset: int, orderBy: Option<string>)
    ensures GetJobs(jobs, keyword, company, location, dateFrom, dateTo, limit, offset, orderBy)
         == GetJobs(jobs, keyword, company, location, None, None, limit, offset, orderBy)
  {
  }

  // ---------------------------------------------------------------------------
  // Alert texts

  const SubjectPrefix := "New Job:"

  /** `"New Job: {title} at {company or ''}"`, before stripping. */
  function Headline(j: Job): string {
    "New Job: " + j.title + " at " + OrEmpty(j.company)
  }

  /** The e-mail subject: the headline with outer whitespace stripped. */
  function Subject(j: Job): string {
    Strip(Headline(j))
  }

  /**
   * The headline starts with a letter, so stripping only removes trailing
   * blanks: the subject is a prefix of the headline, keeps `New Job:`, and
   * everything cut off is whitespace.
   */
  lemma SubjectShape(j: Job)
    ensures var r, h := Subject(j), Headline(j);
      && StartsWith(h, r) && StartsWith(r, SubjectPrefix)
      && forall k :: |r| <= k < |h| ==> IsSpace(h[k])
  {
    var h := Headline(j);
    assert h[0] == 'N' && h[7] == ':';
    assert !IsSpace(h[0]) && !IsSpace(h[7]);
    var r := Strip(h);
    StripSound(h);
    var a := |h| - |TrimStart(h)|;
    assert a == 0;
    assert |r| >= 8;
    assert r[..8] == h[..8];
  }

  /** The e-mail's HTML body: title, company, location and a link to the posting. */
  function EmailBody(j: Job): string {
    "<b>" + j.title + "</b> at " + OrEmpty(j.company) + "<br/>" + OrEmpty(j.location)
      + "<br/><a href='" + j.jobLink + "'>Open</a>"
  }

  /** The Telegram message: the unstripped headline, the location, and the link last. */
  function TelegramText(j: Job): string {
    Headline(j) + "\n" + OrEmpty(j.location) + "\n" + j.jobLink
  }

  /** The Telegram message opens with the full headline on its own line and ends with the link. */
  lemma TelegramTextShape(j: Job)
    ensures var t := TelegramText(j);
      && StartsWith(t, Headline(j) + "\n")
      && |t| >= |j.jobLink| && t[|t| - |j.jobLink|..] == j.jobLink
  {
    var t := TelegramText(j);
    assert t[..|Headline(j) + "\n"|] == Headline(j) + "\n";
  }

  // ---------------------------------------------------------------------------
  // The alert loop

  /** The audit rows the alert loop writes for one new job: e-mail first, then Telegram. */
  function JobAttempts(s: Settings, j: Job, mail: MailOutcome, http: HttpOutcome): seq<Attempt> {
    AttemptOf(j.id, EmailDelivery(s, Subject(j), mail)) + AttemptOf(j.id, TelegramDelivery(s, TelegramText(j), http))
  }

  /** The rows of `n` blocks laid end to end: block 0, then block 1, ... */
  function Concat<T>(f: nat -> seq<T>, n: nat): seq<T> {
    if n == 0 then [] else Concat(f, n - 1) + f(n - 1)
  }

  /** Job `k`'s block of rows, attempted with `mail(k)` and `http(k)`. */
  function PerJob(s: Settings, jobs: seq<Job>, mail: nat -> MailOutcome, http: nat -> HttpOutcome): nat -> seq<Attempt> {
    (k: nat) => if k < |jobs| then JobAttempts(s, jobs[k], mail(k), http(k)) else []
  }

  /** The audit rows for the first `n` new jobs, job after job. */
  function AlertAttempts(s: Settings, jobs: seq<Job>, mail: nat -> MailOutcome, http: nat -> HttpOutcome, n: nat)
    : seq<Attempt>
  {
    Concat(PerJob(s, jobs, mail, http), n)
  }

  /** One more job appends its block. */
  lemma AlertAttemptsStep(s: Settings, jobs: seq<Job>, mail: nat -> MailOutcome, http: nat -> HttpOutcome, i: nat)
    requires i < |jobs|
    ensures AlertAttempts(s, jobs, mail, http, i + 1)
         == AlertAttempts(s, jobs, mail, http, i) + JobAttempts(s, jobs[i], mail(i), http(i))
  {
  }

  /** How many channels pass their gate: the rows each new job gets. */
  function Channels(s: Settings): (w: nat)
    ensures w <= 2
  {
    (if EmailConfigured(s) then 1 else 0) + (if TelegramConfigured(s) then 1 else 0)
  }

  /**
   * Each new job gets one row per channel that passes its gate: an `email`
   * row first when e-mail is configured, a `telegram` row last when Telegram
   * is, both for that job.
   */
  lemma JobAttemptsShape(s: Settings, j: Job, mail: MailOutcome, http: HttpOutcome)
    ensures var a := JobAttempts(s, j, mail, http);
      && |a| == Channels(s)
      && (forall i :: 0 <= i < |a| ==> a[i].jobId == j.id)
      && (EmailConfigured(s) ==> a[0].entry == EmailDelivery(s, Subject(j), mail).entry.value
                                 && a[0].entry.channel == "email")
      && (TelegramConfigured(s) ==> a[|a| - 1].entry == TelegramDelivery(s, TelegramText(j), http).entry.value
                                    && a[|a| - 1].entry.channel == "telegram")
  {
    var e := EmailDelivery(s, Subject(j), mail);
    var t := TelegramDelivery(s, TelegramText(j), http);
    var a := JobAttempts(s, j, mail, http);
    assert a == AttemptOf(j.id, e) + AttemptOf(j.id, t);
    forall i | 0 <= i < |a|
      ensures a[i].jobId == j.id
    {
      if i < |AttemptOf(j.id, e)| {
        assert a[i] == AttemptOf(j.id, e)[i];
      } else {
        assert a[i] == AttemptOf(j.id, t)[i - |AttemptOf(j.id, e)|];
      }
    }
  }

  /** One row per channel that passes its gate. */
  lemma JobAttemptsWidth(s: Settings, j: Job, mail: MailOutcome, http: HttpOutcome)
    ensures |JobAttempts(s, j, mail, http)| == Channels(s)
  {
    var e := EmailDelivery(s, Subject(j), mail);
    var t := TelegramDelivery(s, TelegramText(j), http);
    assert |AttemptOf(j.id, e)| == if EmailConfigured(s) then 1 else 0;
    assert |AttemptOf(j.id, t)| == if TelegramConfigured(s) then 1 else 0;
  }

  /** The length of `n` blocks of `w` rows: `w * n`, computed by repeated addition. */
  function Blocks(w: nat, n: nat): nat {
    if n == 0 then 0 else Blocks(w, n - 1) + w
  }

  /** When every block has `w` rows, `n` blocks have `Blocks(w, n)` rows. */
  lemma {:induction false} ConcatLength<T>(f: nat -> seq<T>, w: nat, n: nat)
    requires forall k: nat :: k < n ==> |f(k)| == w
    ensures |Concat(f, n)| == Blocks(w, n)
  {
    if n > 0 {
      ConcatLength(f, w, n - 1);
    }
  }

  /** When every block has `w` rows, row `i` of block `k` sits at `Blocks(w, k) + i`. */
  lemma {:induction false} ConcatAt<T>(f: nat -> seq<T>, w: nat, n: nat, k: nat, i: nat)
    requires forall k: nat :: k < n ==> |f(k)| == w
    requires k < n && i < w
    ensures Blocks(w, k) + i < |Concat(f, n)| && Concat(f, n)[Blocks(w, k) + i] == f(k)[i]
  {
    var prev := Concat(f, n - 1);
    ConcatLength(f, w, n - 1);
    if k < n - 1 {
      ConcatAt(f, w, n - 1, k, i);
      assert (prev + f(n - 1))[Blocks(w, k) + i] == prev[Blocks(w, k) + i];
    } else {
      assert (prev + f(n - 1))[Blocks(w, k) + i] == f(k)[i];
    }
  }

  /** Every job's block has one row per channel that passes its gate. */
  lemma PerJobWidths(s: Settings, jobs: seq<Job>, mail: nat -> MailOutcome, http: nat -> HttpOutcome, n: nat)
    requires n <= |jobs|
    ensures forall k: nat :: k < n ==> |PerJob(s, jobs, mail, http)(k)| == Channels(s)
  {
    forall k: nat | k < n
      ensures |PerJob(s, jobs, mail, http)(k)| == Channels(s)
    {
      JobAttemptsWidth(s, jobs[k], mail(k), http(k));
    }
  }

  /**
   * Row `i` of job `k`'s attempts is row `Blocks(Channels(s), k) + i` of the
   * rows written for the first `n` jobs.
   */
  lemma AlertAttemptAt(s: Settings, jobs: seq<Job>, mail: nat -> MailOutcome, http: nat -> HttpOutcome,
                       n: nat, k: nat, i: nat)
    requires n <= |jobs| && k < n && i < Channels(s)
    ensures |JobAttempts(s, jobs[k], mail(k), http(k))| == Channels(s)
    ensures Blocks(Channels(s), k) + i < |AlertAttempts(s, jobs, mail, http, n)|
    ensures AlertAttempts(s, jobs, mail, http, n)[Blocks(Channels(s), k) + i]
         == JobAttempts(s, jobs[k], mail(k), http(k))[i]
  {
    var f, w := PerJob(s, jobs, mail, http), Channels(s);
    var b := JobAttempts(s, jobs[k], mail(k), http(k));
    JobAttemptsWidth(s, jobs[k], mail(k), http(k));
    PerJobWidths(s, jobs, mail, http, n);
    ConcatAt(f, w, n, k, i);
    assert Concat(f, n)[Blocks(w, k) + i] == f(k)[i];
    assert f(k) == b;
  }

  /**
   * The jobs' blocks fill the rows and nothing else is written: `n` jobs
   * get `n` blocks of `Channels(s)` rows (with `AlertAttemptAt`: exactly one
   * attempt per gated-in channel per job, in job order).
   */
  lemma AlertAttemptsLength(s: Settings, jobs: seq<Job>, mail: nat -> MailOutcome,
                            http: nat -> HttpOutcome, n: nat)
    requires n <= |jobs|
    ensures |AlertAttempts(s, jobs, mail, http, n)| == Blocks(Channels(s), n) == Channels(s) * n
  {
    PerJobWidths(s, jobs, mail, http, n);
    ConcatLength(PerJob(s, jobs, mail, http), Channels(s), n);
    BlocksProduct(Channels(s), n);
  }

  /** `n` blocks of `w` rows are `w * n` rows. */
  lemma {:induction false} BlocksProduct(w: nat, n: nat)
    ensures Blocks(w, n) == w * n
  {
    if n > 0 {
      BlocksProduct(w, n - 1);
      assert w * (n - 1) + w == w * n;
    }
  }

  /** Every row the loop writes belongs to one of the jobs it was given. */
  lemma AlertAttemptsForJobs(s: Settings, jobs: seq<Job>, mail: nat -> MailOutcome,
                             http: nat -> HttpOutcome, n: nat)
    requires n <= |jobs|
    ensures forall a :: a in AlertAttempts(s, jobs, mail, http, n) ==>
      exists k :: 0 <= k < n && jobs[k].id == a.jobId
  {
    var f := PerJob(s, jobs, mail, http);
    var owned := (a: Attempt) => exists k :: 0 <= k < n && jobs[k].id == a.jobId;
    forall k: nat, i | k < n && 0 <= i < |f(k)|
      ensures owned(f(k)[i])
    {
      JobAttemptsShape(s, jobs[k], mail(k), http(k));
    }
    ConcatAll(f, n, owned);
  }

  /** Every row records a delivered message. */
  predicate AllSent(a: seq<Attempt>) {
    forall i :: 0 <= i < |a| ==> a[i].entry.status == "sent"
  }

  /** Every one of the first `n` jobs' e-mails and Telegram posts goes through. */
  ghost predicate AllDelivering(mail: nat -> MailOutcome, http: nat -> HttpOutcome, n: nat) {
    forall k: nat :: k < n ==> mail(k) == Delivered && http(k) == Reply(true)
  }

  /** What holds of every row of every block holds of every row of their concatenation. */
  lemma {:induction false} ConcatAll<T>(f: nat -> seq<T>, n: nat, p: T -> bool)
    requires forall k: nat, i :: k < n && 0 <= i < |f(k)| ==> p(f(k)[i])
    ensures forall i :: 0 <= i < |Concat(f, n)| ==> p(Concat(f, n)[i])
  {
    if n > 0 {
      ConcatAll(f, n - 1, p);
      var prev, last := Concat(f, n - 1), f(n - 1);
      forall i | 0 <= i < |prev + last|
        ensures p((prev + last)[i])
      {
        if i >= |prev| {
          assert (prev + last)[i] == last[i - |prev|];
        }
      }
    }
  }

  /** Status follows the outcome: when every channel delivers, every row is `sent`. */
  lemma AllDeliveredAllSent(s: Settings, jobs: seq<Job>, mail: nat -> MailOutcome,
                            http: nat -> HttpOutcome, n: nat)
    requires n <= |jobs|
    requires AllDelivering(mail, http, n)
    ensures AllSent(AlertAttempts(s, jobs, mail, http, n))
  {
    var f := PerJob(s, jobs, mail, http);
    var sent := (a: Attempt) => a.entry.status == "sent";
    forall k: nat, i | k < n && 0 <= i < |f(k)|
      ensures sent(f(k)[i])
    {
      DeliveredJobSent(s, jobs[k], mail(k), http(k));
    }
    ConcatAll(f, n, sent);
  }

  /** A job whose channels all deliver gets only `sent` rows. */
  lemma DeliveredJobSent(s: Settings, j: Job, mail: MailOutcome, http: HttpOutcome)
    requires mail == Delivered && http == Reply(true)
    ensures AllSent(JobAttempts(s, j, mail, http))
  {
    var e := EmailDelivery(s, Subject(j), mail);
    var t := TelegramDelivery(s, TelegramText(j), http);
    assert OkIffSent(e) && OkIffSent(t);
    assert JobAttempts(s, j, mail, http) == AttemptOf(j.id, e) + AttemptOf(j.id, t);
  }

  /** With e-mail off and Telegram configured, each new job gets exactly one row, a `telegram` one. */
  lemma TelegramOnly(s: Settings, jobs: seq<Job>, mail: nat -> MailOutcome, http: nat -> HttpOutcome)
    requires !EmailConfigured(s) && TelegramConfigured(s)
    ensures var a := AlertAttempts(s, jobs, mail, http, |jobs|);
      |a| == |jobs| && forall k :: 0 <= k < |jobs| ==> a[k].jobId == jobs[k].id && a[k].entry.channel == "telegram"
  {
    var a := AlertAttempts(s, jobs, mail, http, |jobs|);
    AlertAttemptsLength(s, jobs, mail, http, |jobs|);
    forall k | 0 <= k < |jobs|
      ensures a[k].jobId == jobs[k].id && a[k].entry.channel == "telegram"
    {
      AlertAttemptAt(s, jobs, mail, http, |jobs|, k, 0);
      BlocksProduct(1, k);
      JobAttemptsShape(s, jobs[k], mail(k), http(k));
    }
  }

  /**
   * With both channels configured, the rows alternate: job `k`'s e-mail row
   * at `2k`, its Telegram row at `2k + 1`.
   */
  lemma BothChannels(s: Settings, jobs: seq<Job>, mail: nat -> MailOutcome, http: nat -> HttpOutcome, k: nat)
    requires EmailConfigured(s) && TelegramConfigured(s) && k < |jobs|
    ensures var a := AlertAttempts(s, jobs, mail, http, |jobs|);
      && |a| == 2 * |jobs|
      && a[2 * k] == Attempt(jobs[k].id, EmailDelivery(s, Subject(jobs[k]), mail(k)).entry.value)
      && a[2 * k + 1] == Attempt(jobs[k].id, TelegramDelivery(s, TelegramText(jobs[k]), http(k)).entry.value)
  {
    var a := AlertAttempts(s, jobs, mail, http, |jobs|);
    var e := EmailDelivery(s, Subject(jobs[k]), mail(k));
    var t := TelegramDelivery(s, TelegramText(jobs[k]), http(k));
    var block := JobAttempts(s, jobs[k], mail(k), http(k));
    assert block == [Attempt(jobs[k].id, e.entry.value), Attempt(jobs[k].id, t.entry.value)];
    assert Channels(s) == 2;
    AlertAttemptsLength(s, jobs, mail, http, |jobs|);
    BlocksProduct(2, |jobs|);
    BlocksProduct(2, k);
    AlertAttemptAt(s, jobs, mail, http, |jobs|, k, 0);
    AlertAttemptAt(s, jobs, mail, http, |jobs|, k, 1);
    assert a[2 * k] == block[0] && a[2 * k + 1] == block[1];
  }

  /**
   * The alert loop of `trigger_scrape`: for each new job in order, one
   * e-mail attempt, then one Telegram attempt, each row at its own instant.
   */
  method SendAlerts(store: JobStore, s: Settings, jobs: seq<Job>, mail: nat -> MailOutcome,
                    http: nat -> HttpOutcome)
    requires store.Valid()
    requires forall k :: 0 <= k < |jobs| ==> HasJobId(store.jobs, jobs[k].id)
    modifies store
    ensures store.Valid() && store.jobs == old(store.jobs)
    ensures |store.logs| >= |old(store.logs)| && store.logs[..|old(store.logs)|] == old(store.logs)
    ensures store.clock == old(store.clock) + (|store.logs| - |old(store.logs)|)
    ensures Logged(store.logs[|old(store.logs)|..], AlertAttempts(s, jobs, mail, http, |jobs|), old(store.clock))
  {
    ghost var n0, c0 := |store.logs|, store.clock;
    var i := 0;
    while i < |jobs|
      invariant 0 <= i <= |jobs|
      invariant store.Valid() && store.jobs == old(store.jobs)
      invariant |store.logs| >= n0 && store.logs[..n0] == old(store.logs)
      invariant store.clock == c0 + (|store.logs| - n0)
      invariant Logged(store.logs[n0..], AlertAttempts(s, jobs, mail, http, i), c0)
    {
      ghost var before := store.logs;
      AlertJob(store, s, jobs[i], mail(i), http(i));
      LoggedExtend(n0, before, store.logs, AlertAttempts(s, jobs, mail, http, i),
                   JobAttempts(s, jobs[i], mail(i), http(i)), c0);
      AlertAttemptsStep(s, jobs, mail, http, i);
      i := i + 1;
    }
  }

  /**
   * One job of the alert loop: the e-mail attempt, then the Telegram
   * attempt, which is written after it and so carries the later instant.
   */
  method AlertJob(store: JobStore, s: Settings, j: Job, mail: MailOutcome, http: HttpOutcome)
    requires store.Valid() && HasJobId(store.jobs, j.id)
    modifies store
    ensures store.Valid() && store.jobs == old(store.jobs)
    ensures |store.logs| >= |old(store.logs)| && store.logs[..|old(store.logs)|] == old(store.logs)
    ensures store.clock == old(store.clock) + (|store.logs| - |old(store.logs)|)
    ensures Logged(store.logs[|old(store.logs)|..], JobAttempts(s, j, mail, http), old(store.clock))
  {
    ghost var before := store.logs;
    var emailed := SendEmailAlert(store, s, j.id, Subject(j), EmailBody(j), mail);
    ghost var middle := store.logs;
    var messaged := SendTelegramAlert(store, s, j.id, TelegramText(j), http);
    ghost var first := AttemptOf(j.id, EmailDelivery(s, Subject(j), mail));
    ghost var second := AttemptOf(j.id, TelegramDelivery(s, TelegramText(j), http));
    assert Logged(middle[|before|..], first, old(store.clock));
    LoggedExtend(|before|, middle, store.logs, first, second, old(store.clock));
  }

  /** Rows appended after the rows logged since `n0` record their attempts after the earlier ones. */
  lemma LoggedExtend(n0: nat, before: seq<AlertLog>, after: seq<AlertLog>,
                     done: seq<Attempt>, more: seq<Attempt>, now: int)
    requires n0 <= |before| <= |after| && after[..|before|] == before
    requires Logged(before[n0..], done, now) && Logged(after[|before|..], more, now + (|before| - n0))
    ensures after[..n0] == before[..n0]
    ensures Logged(after[n0..], done + more, now)
  {
    assert after[n0..] == before[n0..] + after[|before|..];
    LoggedAppend(before[n0..], done, after[|before|..], more, now);
  }

  /**
   * One job alerted on both channels: the Telegram row is written after the
   * e-mail row, so `list_alert_logs` shows it first.
   */
  lemma BothChannelsListedTelegramFirst(s: Settings, j: Job, mail: MailOutcome, http: HttpOutcome,
                                        rows: seq<AlertLog>, now: int)
    requires EmailConfigured(s) && TelegramConfigured(s)
    requires Logged(rows, JobAttempts(s, j, mail, http), now)
    ensures |rows| == 2 && rows[0].channel == "email" && rows[1].channel == "telegram"
    ensures ListAlertLogs(rows, AlertLogsDefaultLimit, 0) == [rows[1], rows[0]]
  {
    JobAttemptsShape(s, j, mail, http);
    assert WrittenInOrder(rows);
    NewestFirstReversesWrites(rows);
    assert Reversed(rows) == [rows[1], rows[0]];
  }

  // ---------------------------------------------------------------------------
  // POST /scrape

  /** `trigger_scrape` loads at most three result pages. */
  const ScrapePages := 3

  /** What the basic scraper returns for a query, given the pages each URL shows. */
  function ScrapeResults(keywords: string, location: string, site: string -> seq<Page>): seq<RawRecord> {
    Crawl(keywords, site(BasicSearchUrl(keywords, location)), 0, ScrapePages)
  }

  datatype ScrapeSummary = ScrapeSummary(found: nat, created: nat)

  /**
   * `trigger_scrape`: scrape, ingest the records in order, then alert the
   * jobs that were created and answer `{found, created}`. A record whose
   * link the validator rejects aborts the request: the jobs inserted before
   * it stay, and no alert is sent.
   */
  method TriggerScrape(store: JobStore, s: Settings, keywords: string, location: string,
                       site: string -> seq<Page>, mail: nat -> MailOutcome, http: nat -> HttpOutcome)
    returns (response: Result<ScrapeSummary, string>)
    requires store.Valid()
    modifies store
    ensures store.Valid()
    ensures var run := Ingest(old(store.jobs), ScrapeResults(keywords, location, site), old(store.clock));
      && store.jobs == old(store.jobs) + run.created
      && (run.error.Some? ==> response == Err(run.error.value) && store.logs == old(store.logs))
      && (run.error.None? ==>
            && response == Ok(ScrapeSummary(|ScrapeResults(keywords, location, site)|, |run.created|))
            && |store.logs| >= |old(store.logs)| && store.logs[..|old(store.logs)|] == old(store.logs)
            && Logged(store.logs[|old(store.logs)|..], AlertAttempts(s, run.created, mail, http, |run.created|),
                      old(store.clock) + |run.created|))
    ensures response.Ok? ==> response.value.created <= response.value.found
    ensures store.clock == old(store.clock) + (|store.jobs| - |old(store.jobs)|) + (|store.logs| - |old(store.logs)|)
  {
    var results, driver := ScrapeLinkedinJobs(keywords, location, ScrapePages, site);
    var newJobs, error := IngestRecords(store, results);
    if error.Some? {
      return Err(error.value);
    }
    CreatedAtMostFound(old(store.jobs), results, old(store.clock));
    forall k | 0 <= k < |newJobs|
      ensures HasJobId(store.jobs, newJobs[k].id)
    {
      assert store.jobs[|old(store.jobs)| + k] == newJobs[k];
    }
    SendAlerts(store, s, newJobs, mail, http);
    response := Ok(ScrapeSummary(|results|, |newJobs|));
  }

  /**
   * Jobs already in the store are never alerted: every row a scrape writes
   * names a job that was not there before it.
   */
  lemma AlertsOnlyNewJobs(jobs: seq<Job>, records: seq<RawRecord>, now: int, s: Settings,
                          mail: nat -> MailOutcome, http: nat -> HttpOutcome)
    requires LinksUnique(jobs) && JobIdsUnique(jobs)
    ensures var created := Ingest(jobs, records, now).created;
      forall a :: a in AlertAttempts(s, created, mail, http, |created|) ==> !HasJobId(jobs, a.jobId)
  {
    var created := Ingest(jobs, records, now).created;
    IngestKeepsUnique(jobs, records, now);
    AlertAttemptsForJobs(s, created, mail, http, |created|);
    var after := jobs + created;
    forall a | a in AlertAttempts(s, created, mail, http, |created|)
      ensures !HasJobId(jobs, a.jobId)
    {
      var k :| 0 <= k < |created| && created[k].id == a.jobId;
      forall m | 0 <= m < |jobs|
        ensures jobs[m].id != a.jobId
      {
        assert after[m] == jobs[m] && after[|jobs| + k] == created[k];
      }
    }
  }
}
