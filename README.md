# A verified model of the job-scraper backend

This project is a Dafny model of the backend of a LinkedIn job scraper.

- **Store and queries.** A store of jobs and alert-log rows, with:
  - an insert-if-absent keyed on the job link;
  - a filtered, ordered, paginated listing of jobs, and a count over the same filters;
  - the newest-first listing of alert logs.
- **Request shapes.** `JobCreate` with its link validator, and `JobFilter` with its defaults.
- **Alert dispatch.** E-mail and Telegram delivery. Each is gated on its settings and writes one audit row per attempt.
- **The two routes.** `GET /jobs` clamps the page and lists. `POST /scrape` scrapes, normalises and ingests each record, alerts only the jobs it created, and answers `{found, created}`.
- **The scheduler.** A daily run does the same ingestion without alerts. The scheduler handle is created, given its one cron job and started on the first call only.
- **The basic scraper.** Pages through the search with the `Next` button; a card becomes a record only when it has all five elements; no deduplication.
- **The advanced scraper.**
  - Result pages are addressed by a `start` offset of 25 per page.
  - A card is kept when it has a link.
  - Listings are deduplicated by link, keeping the first occurrence.
  - Each listing can be enriched from its detail page: description, criteria, and the first employment type mentioned.
  - The export's file names are derived from the query and the time.

The database is the class `Crud.JobStore`, which holds the two tables as sequences. Its constraints are its invariant `Valid()`:
- `job_link` is unique;
- ids are unique;
- every alert log references a stored job.

State-changing operations are methods on it, or methods that take it. Each such method is specified by a pure function of the old state, and the properties are proved as lemmas about those functions. The loops of the source are `while` loops. Each loop is proved against an accumulating form of its specification function, and a lemma connects that form to the recursive one.

The browser is an abstract page source (module `Browser`). Each loaded page has:
- a card-wait timeout flag;
- its successive scroll-height readings;
- its cards, each with optional elements;
- its pagination button.

A URL-to-pages function stands for the site. SMTP and the Telegram POST become parameters. `datetime.utcnow()`, which stamps every row, is the store's clock: each write carries the current instant and moves the clock on, so rows written later are strictly newer.

Where the two disagree, the model follows the code:
- The scrape route and the daily job call the *basic* scraper. So their records are not deduplicated, and a scrape that sees the same link on two pages reports both in `found`.
- `date.fromisoformat` is modelled as the strict `YYYY-MM-DD` reader (ISO 8601 extended calendar date, section 5.2.1.1 of ISO 8601:2004). Anything else gives `None`.
- `backend/app/services/scraper.py` does not compile as written: line 65 is indented with tabs and line 66, the `while` of the page loop, with eight spaces, which Python 3 rejects with a `TabError`. `backend/app/routers/jobs.py` and `backend/app/scheduler.py` import it, so they cannot load either. The model follows the evident intent: scrolling, the card loop and pagination all happen inside the `while`, which sits inside the `try`.

## Model

| member | source | states |
|---|---|---|
| Text.ContainsSound | backend/app/services/linkedin_scraper_advanced.py:176 | `needle in haystack` holds exactly when some window of the haystack equals the needle |
| Text.OrEmpty | backend/app/routers/jobs.py:50 | `x or ""` is the string when it is present and non-empty, and `""` otherwise |
| Text.StripSound | backend/app/services/scraper.py:92-94 | `strip()` removes only whitespace, and only at the two ends; the result neither starts nor ends with whitespace |
| Text.BeforeFirstSound | backend/app/services/scraper.py:104 | `split("T")[0]` is a prefix without `T`, and is followed by `T` whenever it is shorter than the string |
| Text.TakeSound | backend/app/services/alerts.py:51 | `text[:n]` is the first `n` characters, or the whole text when it is shorter |
| Text.DecimalValue | backend/app/services/linkedin_scraper_advanced.py:103 | `str(start)` is a string of decimal digits that reads back as `start`, with no leading zero |
| Text.DecimalInjective | backend/app/services/linkedin_scraper_advanced.py:103 | distinct offsets are written differently |
| IsoDate.FormatParse | backend/app/routers/jobs.py:46 | a string that `fromisoformat` accepts denotes a valid date, and is exactly that date's ISO form |
| IsoDate.ParseFormat | backend/app/routers/jobs.py:46 | every valid date reads back from its ISO form |
| UrlEncode.QuotePlusEncoded | backend/app/services/linkedin_scraper_advanced.py:51-54 | `quote_plus` writes only unreserved characters, `+` and `%` escapes, so never `&` or `=` |
| UrlEncode.QuotePlusUnreserved | backend/app/services/linkedin_scraper_advanced.py:51-54 | a string of unreserved characters is encoded as itself |
| UrlEncode.UrlencodeStructure | backend/app/services/linkedin_scraper_advanced.py:51-54 | the query splits at `&` into one field per parameter, in order, and each field splits at `=` into the encoded name and the encoded value |
| LinkedinSearch.SearchUrlPrefix | backend/app/services/scraper.py:39 | both scrapers' URLs begin with the search base followed by `?` |
| LinkedinSearch.BasicSearchUrlQuery | backend/app/services/scraper.py:31-39 | the basic query has exactly two fields, keywords then location, each value encoded |
| LinkedinSearch.PagedSearchUrlQuery | backend/app/services/linkedin_scraper_advanced.py:100-104 | the paged query is keywords, then location, then `start=<decimal>` exactly when `start` is not 0 |
| LinkedinSearch.FirstPageIsBasicSearch | backend/app/services/linkedin_scraper_advanced.py:102-103 | with `start` 0, the advanced URL equals the basic scraper's URL |
| LinkedinSearch.PagedSearchUrlInjective | backend/app/services/linkedin_scraper_advanced.py:100-104 | different offsets give different URLs: the offset can be read back from the query |
| Sorting.SortByPerm | backend/app/crud.py:57 | `ORDER BY` only reorders: the sorted rows are a permutation of the input |
| Sorting.SortBySorted | backend/app/crud.py:57 | the sorted rows are ordered by the sort key |
| Models.LogsReferenceAppended | backend/app/models.py:31 | inserting jobs keeps every alert log's foreign key valid |
| Models.JobsWithout | backend/app/models.py:24 | deleting a job keeps exactly the rows with another id |
| Models.LogsWithout | backend/app/models.py:31 | the cascade keeps exactly the logs of other jobs |
| Models.JobsWithoutSubsequence | backend/app/models.py:10 | deleting rows keeps links and ids unique |
| Models.LogsWithoutSubsequence | backend/app/models.py:30 | deleting logs keeps their ids unique |
| Models.CascadeKeepsInvariant | backend/app/models.py:24-31 | deleting a job together with its logs keeps every constraint, including the foreign key |
| Schemas.ValidateJobLinkSound | backend/app/schemas.py:16-22 | a link passes, unchanged, if and only if its first four characters are `http`; otherwise the validator's message is raised |
| Schemas.PrefixOnly | backend/app/schemas.py:20-21 | the check is only a prefix test: `httpx` passes; the empty link and `HTTP://…` fail |
| Schemas.NewJobCreateSound | backend/app/schemas.py:6-26 | a `JobCreate` exists if and only if its link validates, and then it holds exactly the given fields |
| Schemas.JobCreateWithDefaults | backend/app/schemas.py:6-14 | only the title and link are required; the other six fields default to None |
| Schemas.DefaultJobFilter | backend/app/schemas.py:37-45 | the filter defaults: no criteria, limit 50, offset 0, `-created_at` |
| Crud.ColumnNamedSound | backend/app/crud.py:15 | `getattr` finds a column exactly when some column has that name, and then finds that column |
| Crud.ColumnNamedOfName | backend/app/crud.py:15 | looking up a column's own name finds that column |
| Crud.StripSigns | backend/app/crud.py:13 | `lstrip("+-")` leaves a suffix that does not start with a sign, and removes only signs |
| Crud.OrderClauseCases | backend/app/crud.py:10-16 | no key, an empty key or an unknown column gives `created_at` descending; a known column is sorted on, descending if and only if the key starts with `-` |
| Crud.OrderClauseOfSignedColumn | backend/app/crud.py:13-14 | any run of signs before a column name strips to that column, and the first sign alone sets the direction |
| Crud.SignedNameStrips | backend/app/crud.py:13 | stripping the signs off a signed column name leaves the name |
| Crud.JobOrderTotal | backend/app/crud.py:57 | every sort key orders rows by a total preorder, with SQLite's NULLs-first rule |
| Crud.SelectSound | backend/app/crud.py:44-56 | a row is selected if and only if it is stored and passes every filter that is set |
| Crud.SelectCount | backend/app/crud.py:62-77 | `count_jobs` counts exactly the rows that the listing's filters select |
| Crud.OrderedMatchesLength | backend/app/crud.py:57 | ordering keeps one row per match |
| Crud.OrderedMatchesSound | backend/app/crud.py:42-57 | the ordered matches are a permutation of the matching rows, sorted by the parsed key |
| Crud.ListJobs | backend/app/crud.py:42-59 | the page length is the window of the match count under the offset and limit |
| Crud.ListJobsSound | backend/app/crud.py:42-59 | every listed row is stored and passes the filters, and the page follows the sort key |
| Crud.ListJobsLength | backend/app/crud.py:57-77 | `len(list_jobs) = min(limit, max(0, count - offset))` |
| Crud.OrderedMatchesOfPage | backend/app/crud.py:57 | offset and limit change neither which rows match nor their order |
| Crud.ListJobsOffset | backend/app/crud.py:57 | offset K skips exactly the first K rows of the unpaginated listing |
| Crud.UnpagedListing | backend/app/crud.py:57 | offset 0 with no limit lists every ordered match |
| Crud.UnknownSortKeyFallsBack | backend/app/crud.py:15-16 | a key naming no column lists exactly as no key does |
| Crud.LogsNewestFirst | backend/app/crud.py:89 | every log appears exactly as often as it is stored, and the logs are ordered newest first |
| Crud.ListAlertLogs | backend/app/crud.py:88-90 | `list_alert_logs` is the window of the newest-first listing that starts after `offset` rows and holds at most `limit`; every row is stored, and the page is newest first |
| Crud.UnpagedAlertLogs | backend/app/crud.py:88-90 | offset 0 with limit -1 is the newest-first listing, a permutation of every log |
| Crud.ListAlertLogsOffset | backend/app/crud.py:89 | offset K skips exactly the first K rows of the unpaged newest-first listing |
| Crud.NewestFirstReversesWrites | backend/app/crud.py:89 | rows written one after another are listed in the reverse of their writing order |
| Crud.FindByLinkSound | backend/app/crud.py:21-23 | the lookup finds a row exactly when a stored row has the link, and the row it finds has that link |
| Crud.NextJobIdAbove | backend/app/crud.py:36-38 | a new row's id is positive and above every stored id |
| Crud.NextLogId | backend/app/crud.py:82-84 | a new log's id is positive and above every stored log id |
| Crud.InsertIfAbsentSound | backend/app/crud.py:19-39 | nothing is inserted exactly when the link is already stored; a new row holds the eight fields, `created_at = now` and an id above every stored one |
| Crud.InsertKeepsUnique | backend/app/crud.py:19-39 | an insert keeps links and ids unique |
| Crud.InsertIdempotent | backend/app/crud.py:21-25 | a second insert of the same link adds nothing, and afterwards exactly one row has that link |
| Crud.JobStore.CreateJobIfNotExists | backend/app/crud.py:19-39 | the store grows by the new row or not at all; a new row carries the current instant, which then moves on; the logs are untouched, and the constraints still hold |
| Crud.JobStore.CreateAlertLog | backend/app/crud.py:80-85 | exactly one log is appended, with the given job, channel, status and message, a fresh id and the current instant, which then moves on; the jobs are untouched |
| Crud.JobStore.DeleteJob | backend/app/models.py:24-31 | deleting a job removes it and all its logs, and keeps the constraints |
| Crud.JobStore.constructor | backend/app/models.py:7-35 | an empty database, whose clock starts at the given instant |
| Alerts.EmailDelivery | backend/app/services/alerts.py:14-36 | disabled or unconfigured: False and no row; otherwise one `email` row, `sent` with the subject or `failed` with the error; the call succeeds if and only if the row says `sent` |
| Alerts.TelegramDelivery | backend/app/services/alerts.py:39-55 | disabled or unconfigured: False and no row; on a response, one `telegram` row whose status follows `ok`, with the text cut to 180; on a network error, `failed` with the error; the call succeeds if and only if the row says `sent` |
| Alerts.TelegramMessageBounded | backend/app/services/alerts.py:51 | a logged message is a prefix of the text, at most 180 long, and is the whole text when the text is short enough |
| Alerts.WriteEntry | backend/app/services/alerts.py:32-35 | the delivery's row, if it has one, is appended at the current instant, the clock moves on once per row, and nothing else changes |
| Alerts.SendEmailAlert | backend/app/services/alerts.py:14-36 | the store gains exactly the row `EmailDelivery` gives, stamped with the current instant, and the result is its `ok` |
| Alerts.LoggedLater | backend/app/models.py:35 | rows of a run that starts where an earlier run left the clock are all strictly newer than that run's rows |
| Alerts.SendTelegramAlert | backend/app/services/alerts.py:39-55 | the store gains exactly the row `TelegramDelivery` gives, stamped with the current instant, and the result is its `ok` |
| Browser.Driver.Quit | backend/app/services/scraper.py:122 | the driver is quit |
| Browser.Settle | backend/app/services/linkedin_scraper_advanced.py:106-114 | `_human_scroll`, and the identical loop of the basic scraper (scraper.py lines 73-80), takes at most `steps` steps and stops after the first step whose reading equals the previous one, starting from 0 |
| Ingestion.ParsePostedDate | backend/app/routers/jobs.py:43-48 | an absent or empty `posted_date` gives None |
| Ingestion.ParsePostedDateSound | backend/app/routers/jobs.py:43-48 | a kept date is valid, and the string it came from is its ISO form |
| Ingestion.PostedDateRoundTrip | backend/app/routers/jobs.py:46 | every date written `YYYY-MM-DD` is read back as itself |
| Ingestion.MalformedDatesDropped | backend/app/routers/jobs.py:45-48 | `yesterday` and `2024-02-30` become None |
| Ingestion.LeapDayKept | backend/app/routers/jobs.py:46 | `2024-02-29` is kept as that date |
| Ingestion.NormaliseSound | backend/app/routers/jobs.py:49-58 | a record becomes a job if and only if its link validates; the job carries the record's fields, with a missing title becoming `""` |
| Ingestion.MissingLinkRejected | backend/app/routers/jobs.py:54 | a missing or empty link makes the record fail validation |
| Ingestion.CreatedAtMostFound | backend/app/routers/jobs.py:71 | no more jobs are created than records were scraped |
| Ingestion.IngestKeepsUnique | backend/app/routers/jobs.py:42-61 | links and ids stay unique after a run |
| Ingestion.IngestCoversRecords | backend/app/routers/jobs.py:42-61 | after a run that is not cut short, every record's link is stored |
| Ingestion.IngestNothingNew | backend/app/routers/jobs.py:59-61 | when every record's link is already stored, nothing is created |
| Ingestion.IngestIdempotent | backend/app/routers/jobs.py:42-61 | re-ingesting the same records creates nothing |
| Ingestion.IngestStamped | backend/app/models.py:22 | every insert reads the clock anew: the k-th job a run creates is stamped k instants after the first |
| Ingestion.IngestOne | backend/app/routers/jobs.py:43-61 | one turn: a rejected link raises and inserts nothing; otherwise insert-if-absent |
| Ingestion.IngestRecords | backend/app/routers/jobs.py:42-61 | the loop appends exactly the created jobs, in record order, each at its own instant; it stops at the first rejected link and leaves the logs alone |
| JobsRouter.ClampLimit | backend/app/routers/jobs.py:31 | the limit is clamped into [1, 200] and kept when already inside |
| JobsRouter.ClampOffset | backend/app/routers/jobs.py:32 | the offset is clamped to at least 0 and kept when already non-negative |
| JobsRouter.GetJobsFilter | backend/app/routers/jobs.py:27-34 | the filter carries the criteria and sort key as given, no date bounds, and the clamped page |
| JobsRouter.GetJobs | backend/app/routers/jobs.py:16-35 | at most 200 rows: exactly the matches left after the clamped offset, up to the clamped limit |
| JobsRouter.GetJobsSound | backend/app/routers/jobs.py:16-35 | every returned row is stored, passes the criteria, and follows the sort key |
| JobsRouter.DateParamsIgnored | backend/app/routers/jobs.py:20-34 | `date_from` and `date_to` have no effect on the result |
| JobsRouter.SubjectShape | backend/app/routers/jobs.py:65 | the subject is the headline with only trailing whitespace cut, and starts with `New Job:` |
| JobsRouter.TelegramTextShape | backend/app/routers/jobs.py:68 | the Telegram text opens with the headline on its own line and ends with the job link |
| JobsRouter.JobAttemptsShape | backend/app/routers/jobs.py:64-69 | each new job gets one row per configured channel: e-mail first, Telegram last, both for that job |
| JobsRouter.AlertAttemptAt | backend/app/routers/jobs.py:64-69 | job k's rows sit together, in job order, at position `k * channels` |
| JobsRouter.AlertAttemptsLength | backend/app/routers/jobs.py:64-69 | n jobs get exactly `channels * n` rows |
| JobsRouter.AlertAttemptsForJobs | backend/app/routers/jobs.py:64-69 | every row belongs to one of the jobs being alerted |
| JobsRouter.AllDeliveredAllSent | backend/app/routers/jobs.py:64-69 | when every channel delivers, every row is `sent` |
| JobsRouter.TelegramOnly | backend/app/routers/jobs.py:64-69 | with e-mail off, each job gets exactly one `telegram` row, in order |
| JobsRouter.BothChannels | backend/app/routers/jobs.py:64-69 | with both channels on, job k's e-mail row is at 2k and its Telegram row at 2k+1 |
| JobsRouter.SendAlerts | backend/app/routers/jobs.py:63-69 | the loop appends exactly the rows the attempts call for, row i at i instants after the start, and leaves the jobs unchanged |
| JobsRouter.AlertJob | backend/app/routers/jobs.py:65-69 | one job's e-mail row, then its Telegram row one instant later |
| JobsRouter.BothChannelsListedTelegramFirst | backend/app/routers/jobs.py:64-69 | with both channels on, a job's Telegram row is written after its e-mail row, so `list_alert_logs` shows it first |
| JobsRouter.TriggerScrape | backend/app/routers/jobs.py:38-71 | ingest, then alert the created jobs and answer `{found, created}` with `created <= found`; the jobs, then the alert rows, each carry their own instant from the store clock, which ends advanced by one per row written, so a later request's rows are newer; a rejected link aborts with the jobs before it kept and no alert sent |
| JobsRouter.AlertsOnlyNewJobs | backend/app/routers/jobs.py:59-64 | a job that was already stored is never alerted |
| Scheduler.Session.Close | backend/app/scheduler.py:41 | the session is closed |
| Scheduler.RunDailyScrape | backend/app/scheduler.py:18-41 | the same ingestion as the scrape route over a three-page scrape, each created job at its own instant; no alert row is written, and the session ends closed |
| Scheduler.WithJobSound | backend/app/scheduler.py:54 | `replace_existing=True` leaves exactly one job under the id, the new one, and keeps the other jobs |
| Scheduler.BackgroundScheduler.AddJob | backend/app/scheduler.py:54 | the registered jobs become `WithJob` of the old ones, with ids still unique |
| Scheduler.BackgroundScheduler.Start | backend/app/scheduler.py:55 | the scheduler is running, and its jobs are unchanged |
| Scheduler.SchedulerModule.constructor | backend/app/scheduler.py:15 | the handle starts out unset |
| Scheduler.SchedulerModule.StartScheduler | backend/app/scheduler.py:44-56 | a set handle is returned untouched; otherwise a fresh scheduler gets exactly the `daily_scrape` job for "Software Engineer" in "Remote", is started, and becomes the handle |
| Scheduler.StartTwice | backend/app/scheduler.py:44-47 | two starts give the same handle, with the daily job registered once |
| Scraper.PostedDateOfSound | backend/app/services/scraper.py:102-104 | an empty `datetime` gives None; otherwise the date is the attribute's prefix before its first `T` |
| Scraper.ParseCardSound | backend/app/services/scraper.py:84-108 | a card is skipped exactly when one of its five elements is missing; a kept card's record has stripped texts, the `href`, the query keywords, and no level or type |
| Scraper.CardRecordsFromCards | backend/app/services/scraper.py:83-108 | every record comes from a complete card, and there are at most as many records as cards |
| Scraper.CardRecordsAppend | backend/app/services/scraper.py:106 | there is no deduplication: two runs of cards give their records back to back |
| Scraper.CollectCards | backend/app/services/scraper.py:83-108 | the card loop yields the records of the complete cards, in card order |
| Scraper.CrawlReadsBudget | backend/app/services/scraper.py:66 | only the first `max_pages` pages are ever read |
| Scraper.CrawlFromCards | backend/app/services/scraper.py:58-123 | every scraped record comes from a complete card of a page |
| Scraper.ScrapeLinkedinJobs | backend/app/services/scraper.py:58-123 | the records are the crawl of the search URL's pages, and the driver ends up quit |
| Scraper.CrawlPages | backend/app/services/scraper.py:65-120 | the page loop yields the crawl: it stops on a timeout, on the budget, or without an enabled `Next` |
| AdvancedScraper.PostedOfSound | backend/app/services/linkedin_scraper_advanced.py:139-144 | there is a date exactly when the attribute is non-empty, and it is the attribute's prefix before its first `T` |
| AdvancedScraper.CardListing | backend/app/services/linkedin_scraper_advanced.py:119-153 | a card is kept if and only if its link is non-empty; a missing title becomes `""`, a missing company or location None |
| AdvancedScraper.CardListingsLinked | backend/app/services/linkedin_scraper_advanced.py:146-154 | every listing has a link, and a page yields none exactly when no card has a link |
| AdvancedScraper.CollectCardsOnPage | backend/app/services/linkedin_scraper_advanced.py:116-154 | the card loop yields the linked cards' listings, in card order |
| AdvancedScraper.FirstOccurrencesAreFirsts | backend/app/services/linkedin_scraper_advanced.py:202-210 | each kept listing is the first with its link |
| AdvancedScraper.FirstOccurrencesDistinct | backend/app/services/linkedin_scraper_advanced.py:202-210 | no two kept listings share a link |
| AdvancedScraper.FirstOccurrencesComplete | backend/app/services/linkedin_scraper_advanced.py:202-210 | every collected link is kept |
| AdvancedScraper.Dedupe | backend/app/services/linkedin_scraper_advanced.py:202-210 | the `seen` loop keeps exactly the first occurrences, in order |
| AdvancedScraper.PageUrlsDistinct | backend/app/services/linkedin_scraper_advanced.py:185-200 | every result page has its own URL, so no page is loaded twice |
| AdvancedScraper.RawCollectReadsOnly | backend/app/services/linkedin_scraper_advanced.py:186-188 | only the URLs of pages below `max_pages` are ever loaded |
| AdvancedScraper.SearchAndCollect | backend/app/services/linkedin_scraper_advanced.py:183-210 | the result is the deduplicated collection of the result pages |
| AdvancedScraper.CollectResultPages | backend/app/services/linkedin_scraper_advanced.py:184-201 | the page loop collects up to `max_pages` pages at offsets 0, 25, 50, …, stopping at a timeout or an empty batch |
| AdvancedScraper.FirstMentioned | backend/app/services/linkedin_scraper_advanced.py:174-178 | the result is the first key mentioned in the text, or None when none is |
| AdvancedScraper.InferEmploymentType | backend/app/services/linkedin_scraper_advanced.py:174-178 | the loop picks the first of the five employment types that the description mentions |
| AdvancedScraper.Details | backend/app/services/linkedin_scraper_advanced.py:156-181 | an unreachable page gives `{}`; a loaded one has the description and criteria keys, plus `employment_type` exactly when a type is mentioned |
| AdvancedScraper.DetailKeys | backend/app/services/linkedin_scraper_advanced.py:166-177 | the details have no keys besides the description, criteria and employment-type keys |
| AdvancedScraper.ExtractDetails | backend/app/services/linkedin_scraper_advanced.py:156-181 | `_extract_details` returns `Details(page)` |
| AdvancedScraper.AsRecord | backend/app/services/linkedin_scraper_advanced.py:147-153 | a listing's dictionary has exactly the five keys: its title and link, and its company, location and date, each `None` when absent |
| AdvancedScraper.AsRecords | backend/app/services/linkedin_scraper_advanced.py:247 | without enrichment, each listing becomes its dictionary, one for one |
| AdvancedScraper.EnrichedSound | backend/app/services/linkedin_scraper_advanced.py:215-216 | a listing without a link is unchanged; otherwise the result has the listing's keys and the detail keys, and a detail value wins a clash |
| AdvancedScraper.EnrichedKeepsLink | backend/app/services/linkedin_scraper_advanced.py:216 | enrichment never changes `job_link` |
| AdvancedScraper.EnrichOne | backend/app/services/linkedin_scraper_advanced.py:215-216 | one turn visits the detail page only for a listing with a link |
| AdvancedScraper.EnrichDetails | backend/app/services/linkedin_scraper_advanced.py:212-218 | one record out per listing in, in order, each one enriched |
| AdvancedScraper.Strftime | backend/app/services/linkedin_scraper_advanced.py:226 | the stamp is 15 characters: digits, with `-` at position 8 |
| AdvancedScraper.StrftimeInjective | backend/app/services/linkedin_scraper_advanced.py:226 | distinct instants give distinct stamps |
| AdvancedScraper.PathJoin | backend/app/services/linkedin_scraper_advanced.py:227 | the joined path ends with the file name |
| AdvancedScraper.ExportStem | backend/app/services/linkedin_scraper_advanced.py:227-228 | the shared stem ends with `{base}-{ts}` |
| AdvancedScraper.ExportPaths | backend/app/services/linkedin_scraper_advanced.py:224-233 | both files share one stem and differ only by `.csv` and `.json` |
| AdvancedScraper.ExportsAtDistinctTimes | backend/app/services/linkedin_scraper_advanced.py:226-228 | exports at different seconds never share a file name |
| AdvancedScraper.DefaultScrapeConfig | backend/app/services/linkedin_scraper_advanced.py:64 | the default page budget is 10 |
| AdvancedScraper.BaseName | backend/app/services/linkedin_scraper_advanced.py:248 | the base name is the keywords, `-`, then the location, character for character, with every space turned into `_` |
| AdvancedScraper.RunAdvancedScrape | backend/app/services/linkedin_scraper_advanced.py:242-255 | `found` and `exported` are both the number of distinct links; the records are enriched or plain as asked; the file names follow the query and the time; the driver ends up quit |

## Left out

- Selenium driver construction, Chrome options, the user agent, proxies, waits, sleeps and `implicitly_wait` are not modelled; the browser is an abstract page source.
- BeautifulSoup parsing is not modelled: a detail page carries its description HTML and text and its criteria texts as given.
- SMTP and the Telegram HTTP call are not modelled: each attempt's outcome is an input. The store's own writes never fail, so the path where `create_alert_log` itself raises inside the `try` is not modelled.
- The CSV and JSON contents, `os.makedirs`, and the clock are not modelled: `export` is reduced to its file names, and the instant is a parameter.
- Sessions, `commit` and `refresh` are not modelled: the store's sequences change in place, one call at a time.
- The column default `status = "sent"` of `alert_logs` is not modelled: every write passes its status explicitly.
- The time between writes is not modelled: the clock is a count that each write moves on by one, which keeps only the order of the stamps.
- The check-then-insert race between concurrent requests is left out. It is concurrency, and the unique constraint on `job_link` closes it.
- APScheduler's background thread, its cron parsing and its clock are left out. A scheduler is its registered jobs and a running flag.
- `backend/app/config.py` is not part of this model beyond the values it supplies: the alert settings (record `Alerts.Settings`), the cron expression (a parameter, default `Scheduler.DefaultCron`) and the page budgets.
- `backend/app/main.py`, `backend/app/routers/alerts.py` and the frontend are not part of this model.
- Crud.SelectSound: `%` and `_` inside the keyword are matched literally. SQL `LIKE` treats them as wildcards.
- Crud.SelectSound: case-insensitive matching folds ASCII letters only, as SQLite's `LIKE` does.
- Crud.OrderedMatchesSound: rows with equal sort keys keep their store order. SQL leaves that order unspecified, so this is one of the orders it allows.
- Crud.ColumnNamedSound: `getattr` on the model class can also find attributes that are not columns. The model accepts column names only.
- Crud.JobStore.CreateAlertLog: requires the job id to be stored. This is the foreign key; every caller passes the id of a job it has just stored.
- AdvancedScraper.FirstMentioned: lower-casing is ASCII-only, whereas Python's `str.lower` folds all of Unicode.
- IsoDate.FormatParse: `fromisoformat` is modelled as the strict `YYYY-MM-DD` reader; the extra formats that newer Pythons accept give None here.
- Scraper.ScrapeLinkedinJobs: exceptions other than the card-wait timeout are not modelled, so the driver is quit on the paths the model has.
- Scheduler.SchedulerModule.StartScheduler: the crontab string is stored as given; an invalid one, which `CronTrigger.from_crontab` would reject, is not modelled.
- Scheduler.BackgroundScheduler.Start: requires a scheduler that is not yet running, since APScheduler refuses a second start; `start_scheduler` only starts a fresh one.
