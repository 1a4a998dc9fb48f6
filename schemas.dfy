/** The validated request shapes: `JobCreate` (with its link check) and `JobFilter`. */
module Schemas {
  import opened Wrappers
  import opened Text
  import opened IsoDate

  /** `JobCreate`: a job as it is handed to the store, before it has an id. */
  datatype JobCreate = JobCreate(
    title: string,
    company: Option<string>,
    location: Option<string>,
    postedDate: Option<Date>,
    jobLink: string,
    experienceLevel: Option<string>,
    jobType: Option<string>,
    keywords: Option<string>)

  const JobLinkError := "job_link must be a URL"

  /** `JobBase.validate_job_link`: the link passes unchanged or is refused with the validator's message. */
  function ValidateJobLink(v: string): Result<string, string> {
    if StartsWith(v, "http") then Ok(v) else Err(JobLinkError)
  }

  /** The link passes, unchanged, exactly when it starts with `http`. */
  lemma ValidateJobLinkSound(v: string)
    ensures var r := ValidateJobLink(v);
      && (r.Ok? <==> |v| >= 4 && v[0] == 'h' && v[1] == 't' && v[2] == 't' && v[3] == 'p')
      && (r.Ok? ==> r.value == v)
      && (r.Err? ==> r.error == JobLinkError)
  {
    if |v| >= 4 && v[0] == 'h' && v[1] == 't' && v[2] == 't' && v[3] == 'p' {
      assert v[..4] == "http";
    }
  }

  /** The prefix test is all there is: `httpx` passes, the empty link and `HTTP://...` do not. */
  lemma PrefixOnly()
    ensures ValidateJobLink("httpx").Ok?
    ensures ValidateJobLink("").Err?
    ensures ValidateJobLink("HTTP://example.com").Err?
  {
    ValidateJobLinkSound("httpx");
    ValidateJobLinkSound("HTTP://example.com");
  }

  /**
   * `JobCreate(...)`: building the model runs the link validator; a rejected
   * link raises (here: `Err`) and no JobCreate exists.
   */
  function NewJobCreate(
    title: string, company: Option<string>, location: Option<string>, postedDate: Option<Date>,
    jobLink: string, experienceLevel: Option<string>, jobType: Option<string>, keywords: Option<string>)
    : Result<JobCreate, string>
  {
    match ValidateJobLink(jobLink)
    case Ok(link) => Ok(JobCreate(title, company, location, postedDate, link, experienceLevel, jobType, keywords))
    case Err(e) => Err(e)
  }

  /** The model exists exactly when the link passes, and then holds the given fields. */
  lemma NewJobCreateSound(
    title: string, company: Option<string>, location: Option<string>, postedDate: Option<Date>,
    jobLink: string, experienceLevel: Option<string>, jobType: Option<string>, keywords: Option<string>)
    ensures var r := NewJobCreate(title, company, location, postedDate, jobLink, experienceLevel, jobType, keywords);
      && (r.Ok? <==> ValidateJobLink(jobLink).Ok?)
      && (r.Err? ==> r.error == JobLinkError)
      && (r.Ok? ==> r.value == JobCreate(title, company, location, postedDate, jobLink, experienceLevel, jobType, keywords))
  {
    ValidateJobLinkSound(jobLink);
  }

  /** Only `title` and `job_link` are required: every other field defaults to None. */
  function JobCreateWithDefaults(title: string, jobLink: string): (r: Result<JobCreate, string>)
    ensures r.Ok? <==> ValidateJobLink(jobLink).Ok?
    ensures r.Ok? ==> r.value.title == title && r.value.jobLink == jobLink
    ensures r.Ok? ==> r.value.company.None? && r.value.location.None? && r.value.postedDate.None?
    ensures r.Ok? ==> r.value.experienceLevel.None? && r.value.jobType.None? && r.value.keywords.None?
  {
    NewJobCreateSound(title, None, None, None, jobLink, None, None, None);
    NewJobCreate(title, None, None, None, jobLink, None, None, None)
  }

  /** `JobFilter`: the query parameters of the job listing. No range checks on `limit`/`offset`. */
  datatype JobFilter = JobFilter(
    keyword: Option<string>,
    company: Option<string>,
    dateFrom: Option<Date>,
    dateTo: Option<Date>,
    location: Option<string>,
    limit: int,
    offset: int,
    orderBy: Option<string>)

  /** `JobFilter()` with every default: no filters, 50 rows from the first, newest first. */
  function DefaultJobFilter(): (f: JobFilter)
    ensures f.keyword.None? && f.company.None? && f.location.None?
    ensures f.dateFrom.None? && f.dateTo.None?
    ensures f.limit == 50 && f.offset == 0 && f.orderBy == Some("-created_at")
  {
    JobFilter(None, None, None, None, None, 50, 0, Some("-created_at"))
  }
}
