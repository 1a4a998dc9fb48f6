/**
 * The ingestion loop shared by the scrape endpoint and the daily job: each
 * scraped record becomes a `JobCreate` (title and link default to the empty
 * string, `posted_date` is parsed as a calendar date or dropped) and is
 * inserted unless its link is already stored. A link the validator rejects
 * raises out of the loop: the records before it stay inserted, the rest are
 * never looked at.
 */
module Ingestion {
  import opened Wrappers
  import opened Text
  import opened IsoDate
  import opened Models
  import opened Schemas
  import opened Crud

  /** A scraped record: every key may be absent (`r.get(...)` gives None). */
  datatype RawRecord = RawRecord(
    title: Option<string>,
    company: Option<string>,
    location: Option<string>,
    postedDate: Option<string>,
    jobLink: Option<string>,
    experienceLevel: Option<string>,
    jobType: Option<string>,
    keywords: Option<string>)

  /**
   * `posted_date`: an absent or empty string is None; otherwise
   * `date.fromisoformat`, with a string that does not parse becoming None.
   */
  function ParsePostedDate(raw: Option<string>): (d: Option<Date>)
    ensures !Truthy(raw) ==> d.None?
  {
    if Truthy(raw) then ParseIsoDate(raw.value) else None
  }

  /** A kept date is a valid date, and the string it came from is its ISO form. */
  lemma ParsePostedDateSound(raw: Option<string>)
    ensures var d := ParsePostedDate(raw);
      d.Some? ==> ValidDate(d.value) && raw == Some(FormatIsoDate(d.value))
  {
    if Truthy(raw) {
      FormatParse(raw.value);
    }
  }

  /** Every calendar date written as `YYYY-MM-DD` is read back as itself. */
  lemma PostedDateRoundTrip(d: Date)
    requires ValidDate(d)
    ensures ParsePostedDate(Some(FormatIsoDate(d))) == Some(d)
  {
    ParseFormat(d);
  }

  /** A string that is not a well-formed date, such as `"yesterday"` or `"2024-02-30"`, is dropped. */
  lemma MalformedDatesDropped()
    ensures ParsePostedDate(Some("yesterday")).None?
    ensures ParsePostedDate(Some("2024-02-30")).None?
  {
    assert |"yesterday"| != 10;
    var bad := "2024-02-30";
    assert bad[5..7] == "02" && bad[8..] == "30";
    assert DigitsValue("02") == 2 by {
      assert "02"[..1] == "0";
    }
    assert DigitsValue("30") == 30 by {
      assert "30"[..1] == "3";
    }
    assert DaysInMonth(DigitsValue(bad[..4]), 2) <= 29;
  }

  /** A leap day is a date like any other. */
  lemma LeapDayKept()
    ensures ParsePostedDate(Some("2024-02-29")) == Some(Date(2024, 2, 29))
  {
    PostedDateRoundTrip(Date(2024, 2, 29));
    assert FormatIsoDate(Date(2024, 2, 29)) == "2024-02-29" by {
      assert Digits(2024, 4) == "2024";
      assert Digits(2, 2) == "02" && Digits(29, 2) == "29";
    }
  }

  /** The `JobCreate(...)` call: the eight fields mapped, then the link validated. */
  function Normalise(r: RawRecord): Result<JobCreate, string>
  {
    NewJobCreate(OrEmpty(r.title), r.company, r.location, ParsePostedDate(r.postedDate),
                 OrEmpty(r.jobLink), r.experienceLevel, r.jobType, r.keywords)
  }

  /**
   * A record is kept exactly when its link passes the validator; a kept record
   * carries its fields over, a missing title becoming the empty string.
   */
  lemma NormaliseSound(r: RawRecord)
    ensures var res := Normalise(r);
      && (res.Ok? <==> ValidateJobLink(OrEmpty(r.jobLink)).Ok?)
      && (res.Err? ==> res.error == JobLinkError)
      && (res.Ok? ==> && res.value.title == OrEmpty(r.title)
                      && Some(res.value.jobLink) == r.jobLink
                      && res.value.company == r.company && res.value.location == r.location
                      && res.value.postedDate == ParsePostedDate(r.postedDate)
                      && res.value.experienceLevel == r.experienceLevel
                      && res.value.jobType == r.jobType && res.value.keywords == r.keywords)
  {
    NewJobCreateSound(OrEmpty(r.title), r.company, r.location, ParsePostedDate(r.postedDate),
                      OrEmpty(r.jobLink), r.experienceLevel, r.jobType, r.keywords);
  }

  /** A record without a link, or with an empty one, cannot become a job. */
  lemma MissingLinkRejected(r: RawRecord)
    requires !Truthy(r.jobLink)
    ensures Normalise(r).Err?
  {
    NormaliseSound(r);
  }

  /** The jobs an ingestion run created, in record order, and the error that stopped it, if any. */
  datatype IngestResult = IngestResult(created: seq<Job>, error: Option<string>)

  /** Each record as the loop turns it into a `JobCreate`, or the validation error it raises. */
  function NormaliseAll(records: seq<RawRecord>): (items: seq<Result<JobCreate, string>>)
    ensures |items| == |records|
  {
    if records == [] then [] else [Normalise(records[0])] + NormaliseAll(records[1..])
  }

  lemma {:induction false} NormaliseAllAt(records: seq<RawRecord>, i: nat)
    requires i < |records|
    ensures NormaliseAll(records)[i] == Normalise(records[i])
    decreases |records|
  {
    if i > 0 {
      NormaliseAllAt(records[1..], i - 1);
      assert records[1..][i - 1] == records[i];
    }
  }

  /**
   * The loop over the normalised records: insert each one if absent, stop at
   * the first error. `now` is the instant the next created job is stamped with.
   */
  function IngestItems(jobs: seq<Job>, items: seq<Result<JobCreate, string>>, now: int): IngestResult
    decreases |items|
  {
    if items == [] then IngestResult([], None)
    else
      match items[0]
      case Err(e) => IngestResult([], Some(e))
      case Ok(c) =>
        var inserted := InsertIfAbsent(jobs, c, now).ToSeq();
        var rest := IngestItems(jobs + inserted, items[1..], now + |inserted|);
        IngestResult(inserted + rest.created, rest.error)
  }

  /**
   * The run as the loop performs it: `jobs` is the table so far, `created` the
   * jobs created so far, `i` the next item, `now` the instant the next created job carries.
   */
  function IngestFrom(jobs: seq<Job>, created: seq<Job>, items: seq<Result<JobCreate, string>>, i: nat, now: int)
    : IngestResult
    decreases |items| - i
  {
    if i >= |items| then IngestResult(created, None)
    else
      match items[i]
      case Err(e) => IngestResult(created, Some(e))
      case Ok(c) =>
        var inserted := InsertIfAbsent(jobs, c, now).ToSeq();
        IngestFrom(jobs + inserted, created + inserted, items, i + 1, now + |inserted|)
  }

  /** The loop's run from item `i` is the created prefix followed by the run of the remaining items. */
  lemma {:induction false} IngestFromItems(jobs: seq<Job>, created: seq<Job>, items: seq<Result<JobCreate, string>>, i: nat, now: int)
    requires i <= |items|
    ensures var rest := IngestItems(jobs, items[i..], now);
      IngestFrom(jobs, created, items, i, now) == IngestResult(created + rest.created, rest.error)
    decreases |items| - i
  {
    if i == |items| {
      assert items[i..] == [];
    } else {
      assert items[i..][0] == items[i];
      assert items[i..][1..] == items[i + 1..];
      if items[i].Ok? {
        var inserted := InsertIfAbsent(jobs, items[i].value, now).ToSeq();
        IngestFromItems(jobs + inserted, created + inserted, items, i + 1, now + |inserted|);
        var rest := IngestItems(jobs + inserted, items[i + 1..], now + |inserted|);
        assert created + (inserted + rest.created) == (created + inserted) + rest.created;
      }
    }
  }

  /** One turn of the loop over an accepted item: insert if absent, and move the clock on by what was inserted. */
  lemma IngestFromStep(jobs: seq<Job>, created: seq<Job>, items: seq<Result<JobCreate, string>>, i: nat, now: int)
    requires i < |items| && items[i].Ok?
    ensures var inserted := InsertIfAbsent(jobs, items[i].value, now).ToSeq();
      IngestFrom(jobs, created, items, i, now) == IngestFrom(jobs + inserted, created + inserted, items, i + 1, now + |inserted|)
  {
  }

  /** The ingestion loop as a function of the store's job table before the run. */
  function Ingest(jobs: seq<Job>, records: seq<RawRecord>, now: int): IngestResult {
    IngestFrom(jobs, [], NormaliseAll(records), 0, now)
  }

  /** The loop's run over the records is the recursive run over their normalised items. */
  lemma IngestAsItems(jobs: seq<Job>, records: seq<RawRecord>, now: int)
    ensures Ingest(jobs, records, now) == IngestItems(jobs, NormaliseAll(records), now)
  {
    var items := NormaliseAll(records);
    IngestFromItems(jobs, [], items, 0, now);
    assert items[0..] == items;
    assert [] + IngestItems(jobs, items, now).created == IngestItems(jobs, items, now).created;
  }

  lemma {:induction false} ItemsCreatedAtMost(jobs: seq<Job>, items: seq<Result<JobCreate, string>>, now: int)
    ensures |IngestItems(jobs, items, now).created| <= |items|
    decreases |items|
  {
    if items != [] && items[0].Ok? {
      var inserted := InsertIfAbsent(jobs, items[0].value, now).ToSeq();
      ItemsCreatedAtMost(jobs + inserted, items[1..], now + |inserted|);
    }
  }

  /** No more jobs are created than records were scraped. */
  lemma CreatedAtMostFound(jobs: seq<Job>, records: seq<RawRecord>, now: int)
    ensures |Ingest(jobs, records, now).created| <= |records|
  {
    IngestAsItems(jobs, records, now);
    ItemsCreatedAtMost(jobs, NormaliseAll(records), now);
  }

  lemma {:induction false} ItemsKeepUnique(jobs: seq<Job>, items: seq<Result<JobCreate, string>>, now: int)
    requires LinksUnique(jobs) && JobIdsUnique(jobs)
    ensures var after := jobs + IngestItems(jobs, items, now).created;
      LinksUnique(after) && JobIdsUnique(after)
    decreases |items|
  {
    if items != [] && items[0].Ok? {
      var c := items[0].value;
      var inserted := InsertIfAbsent(jobs, c, now).ToSeq();
      InsertKeepsUnique(jobs, c, now);
      ItemsKeepUnique(jobs + inserted, items[1..], now + |inserted|);
      var rest := IngestItems(jobs + inserted, items[1..], now + |inserted|);
      assert jobs + (inserted + rest.created) == (jobs + inserted) + rest.created;
    }
  }

  /** The store's link and id constraints hold after a run, whatever it created. */
  lemma IngestKeepsUnique(jobs: seq<Job>, records: seq<RawRecord>, now: int)
    requires LinksUnique(jobs) && JobIdsUnique(jobs)
    ensures var after := jobs + Ingest(jobs, records, now).created;
      LinksUnique(after) && JobIdsUnique(after)
  {
    IngestAsItems(jobs, records, now);
    ItemsKeepUnique(jobs, NormaliseAll(records), now);
  }

  lemma {:induction false} ItemsCovered(jobs: seq<Job>, items: seq<Result<JobCreate, string>>, now: int)
    requires IngestItems(jobs, items, now).error.None?
    ensures forall i :: 0 <= i < |items| ==>
      items[i].Ok? && HasLink(jobs + IngestItems(jobs, items, now).created, items[i].value.jobLink)
    decreases |items|
  {
    if items != [] {
      var c := items[0].value;
      var inserted := InsertIfAbsent(jobs, c, now).ToSeq();
      var rest := IngestItems(jobs + inserted, items[1..], now + |inserted|);
      var after := jobs + IngestItems(jobs, items, now).created;
      assert after == (jobs + inserted) + rest.created;
      ItemsCovered(jobs + inserted, items[1..], now + |inserted|);
      InsertIfAbsentSound(jobs, c, now);
      assert HasLink(after, c.jobLink) by {
        if inserted == [] {
          var k :| 0 <= k < |jobs| && jobs[k].jobLink == c.jobLink;
          assert after[k] == jobs[k];
        } else {
          assert after[|jobs|] == inserted[0];
        }
      }
      forall i | 1 <= i < |items|
        ensures items[i].Ok? && HasLink(after, items[i].value.jobLink)
      {
        assert items[i] == items[1..][i - 1];
      }
    }
  }

  /** After a run that was not cut short, the store holds the link of every record. */
  lemma IngestCoversRecords(jobs: seq<Job>, records: seq<RawRecord>, now: int)
    requires Ingest(jobs, records, now).error.None?
    ensures forall i :: 0 <= i < |records| ==>
      Normalise(records[i]).Ok? && HasLink(jobs + Ingest(jobs, records, now).created, Normalise(records[i]).value.jobLink)
  {
    IngestAsItems(jobs, records, now);
    ItemsCovered(jobs, NormaliseAll(records), now);
    forall i | 0 <= i < |records|
      ensures Normalise(records[i]) == NormaliseAll(records)[i]
    {
      NormaliseAllAt(records, i);
    }
  }

  lemma {:induction false} ItemsNothingNew(jobs: seq<Job>, items: seq<Result<JobCreate, string>>, now: int)
    requires forall i :: 0 <= i < |items| ==> items[i].Ok? && HasLink(jobs, items[i].value.jobLink)
    ensures IngestItems(jobs, items, now) == IngestResult([], None)
    decreases |items|
  {
    if items != [] {
      InsertIfAbsentSound(jobs, items[0].value, now);
      forall i | 0 <= i < |items[1..]|
        ensures items[1..][i].Ok? && HasLink(jobs, items[1..][i].value.jobLink)
      {
        assert items[1..][i] == items[i + 1];
      }
      ItemsNothingNew(jobs, items[1..], now);
      assert jobs + [] == jobs;
    }
  }

  /** Once every record's link is stored, a run creates nothing and raises nothing. */
  lemma IngestNothingNew(jobs: seq<Job>, records: seq<RawRecord>, now: int)
    requires forall i :: 0 <= i < |records| ==>
      Normalise(records[i]).Ok? && HasLink(jobs, Normalise(records[i]).value.jobLink)
    ensures Ingest(jobs, records, now) == IngestResult([], None)
  {
    var items := NormaliseAll(records);
    forall i | 0 <= i < |items|
      ensures items[i].Ok? && HasLink(jobs, items[i].value.jobLink)
    {
      NormaliseAllAt(records, i);
    }
    ItemsNothingNew(jobs, items, now);
    IngestAsItems(jobs, records, now);
  }

  /** Re-running the same records, at any later time, creates no job. */
  lemma IngestIdempotent(jobs: seq<Job>, records: seq<RawRecord>, now: int, later: int)
    requires Ingest(jobs, records, now).error.None?
    ensures Ingest(jobs + Ingest(jobs, records, now).created, records, later) == IngestResult([], None)
  {
    IngestCoversRecords(jobs, records, now);
    IngestNothingNew(jobs + Ingest(jobs, records, now).created, records, later);
  }

  lemma {:induction false} ItemsStamped(jobs: seq<Job>, items: seq<Result<JobCreate, string>>, now: int)
    ensures forall k :: 0 <= k < |IngestItems(jobs, items, now).created| ==>
      IngestItems(jobs, items, now).created[k].createdAt == now + k
    decreases |items|
  {
    if items != [] && items[0].Ok? {
      var c := items[0].value;
      var inserted := InsertIfAbsent(jobs, c, now).ToSeq();
      var rest := IngestItems(jobs + inserted, items[1..], now + |inserted|).created;
      InsertIfAbsentSound(jobs, c, now);
      ItemsStamped(jobs + inserted, items[1..], now + |inserted|);
      var created := inserted + rest;
      forall k | 0 <= k < |created|
        ensures created[k].createdAt == now + k
      {
        if k >= |inserted| {
          assert created[k] == rest[k - |inserted|];
        } else {
          assert inserted == [InsertIfAbsent(jobs, c, now).value];
          assert created[k] == inserted[0];
        }
      }
    }
  }

  /**
   * Every insert reads the clock anew: the `k`-th job a run creates is stamped
   * `k` instants after the first, so a run's jobs are strictly newer one after
   * the other.
   */
  lemma IngestStamped(jobs: seq<Job>, records: seq<RawRecord>, now: int)
    ensures var created := Ingest(jobs, records, now).created;
      forall k :: 0 <= k < |created| ==> created[k].createdAt == now + k
  {
    IngestAsItems(jobs, records, now);
    ItemsStamped(jobs, NormaliseAll(records), now);
  }

  /** One turn of the loop: normalise the record, then insert it unless its link is stored. */
  method IngestOne(store: JobStore, r: RawRecord) returns (inserted: seq<Job>, error: Option<string>)
    requires store.Valid()
    modifies store
    ensures store.Valid() && store.logs == old(store.logs)
    ensures store.jobs == old(store.jobs) + inserted && store.clock == old(store.clock) + |inserted|
    ensures Normalise(r).Err? ==> inserted == [] && error == Some(Normalise(r).error)
    ensures Normalise(r).Ok? ==>
      error.None? && inserted == InsertIfAbsent(old(store.jobs), Normalise(r).value, old(store.clock)).ToSeq()
  {
    var job := Normalise(r);
    if job.Err? {
      return [], Some(job.error);
    }
    var c := store.CreateJobIfNotExists(job.value);
    return c.ToSeq(), None;
  }

  /**
   * The loop over the scraped records: normalise, insert if absent, keep the
   * jobs that were created. Stops at the first record whose link is rejected.
   * The created jobs carry the store's clock, one instant each.
   */
  method IngestRecords(store: JobStore, records: seq<RawRecord>)
    returns (created: seq<Job>, error: Option<string>)
    requires store.Valid()
    modifies store
    ensures store.Valid() && store.logs == old(store.logs)
    ensures IngestResult(created, error) == Ingest(old(store.jobs), records, old(store.clock))
    ensures store.jobs == old(store.jobs) + created && store.clock == old(store.clock) + |created|
  {
    ghost var items := NormaliseAll(records);
    created, error := [], None;
    var i := 0;
    while i < |records|
      invariant 0 <= i <= |records|
      invariant store.Valid() && store.logs == old(store.logs)
      invariant store.jobs == old(store.jobs) + created && store.clock == old(store.clock) + |created|
      invariant IngestFrom(store.jobs, created, items, i, store.clock)
             == IngestFrom(old(store.jobs), [], items, 0, old(store.clock))
      decreases |records| - i
    {
      NormaliseAllAt(records, i);
      ghost var jobs0, clock0 := store.jobs, store.clock;
      var inserted, stop := IngestOne(store, records[i]);
      if stop.Some? {
        error := stop;
        return;
      }
      IngestFromStep(jobs0, created, items, i, clock0);
      created := created + inserted;
      i := i + 1;
    }
  }
}
