/**
 * The advanced LinkedIn scraper: result pages addressed by a `start` offset,
 * link-keyed deduplication, optional enrichment from each job's detail page
 * (description, criteria, employment type), and export to a CSV and a JSON
 * file named after the query and the time. A card's five-key dictionary is a
 * `Listing`; once enrichment merges detail keys into it, it is a map from key
 * to value.
 */
module AdvancedScraper {
  import opened Wrappers
  import opened Text
  import opened IsoDate
  import opened LinkedinSearch
  import opened Browser

  /** The values the scraper stores: a string, None, or a list of strings. */
  datatype Value = Str(s: string) | Null | Strs(items: seq<string>)

  type Record = map<string, Value>

  /** LinkedIn pages its results 25 at a time. */
  const PageStride := 25
  const ResultScrollSteps := 8
  const DetailScrollSteps := 4

  // ---------------------------------------------------------------------------
  // Search URLs

  /** The URL of the `page`-th result page (from 0). */
  function PageUrl(keywords: string, location: string, page: nat): string {
    PagedSearchUrl(keywords, location, PageStride * page)
  }

  // ---------------------------------------------------------------------------
  // Cards

  /**
   * The five-key dictionary a card yields: `title`, `company`, `location`,
   * `job_link` and `posted_date`, None written as `None`.
   */
  datatype Listing = Listing(title: string, company: Option<string>, location: Option<string>,
                             jobLink: string, postedDate: Option<string>)

  /** The link a card yields: its `href`, or "" when the link element or the attribute is missing. */
  function CardLink(c: Card): string {
    if c.link.Found? && c.link.attr.Some? then c.link.attr.value else ""
  }

  /** A located element's stripped text, or None when the element is missing. */
  function StrippedText(e: Element): Option<string> {
    if e.Found? then Some(Strip(e.text)) else None
  }

  /** `posted`: the `datetime` attribute up to its first `T` when it is non-empty, else None. */
  function PostedOf(e: Element): Option<string> {
    if e.Found? && Truthy(e.attr) then Some(BeforeFirst(e.attr.value, 'T')) else None
  }

  /** There is a date part exactly when the attribute is non-empty: its prefix before the first `T`. */
  lemma PostedOfSound(e: Element)
    ensures var posted := PostedOf(e);
      && (posted.Some? <==> e.Found? && Truthy(e.attr))
      && (posted.Some? ==> StartsWith(e.attr.value, posted.value) && 'T' !in posted.value)
  {
    if e.Found? && Truthy(e.attr) {
      BeforeFirstSound(e.attr.value, 'T');
    }
  }

  /**
   * One card of `_collect_cards_on_page`: kept iff its link is non-empty.
   * A missing title becomes "", a missing company or location None.
   */
  function CardListing(c: Card): (r: Option<Listing>)
    ensures r.Some? <==> CardLink(c) != ""
    ensures r.Some? ==> r.value.jobLink == CardLink(c) && r.value.postedDate == PostedOf(c.time)
    ensures r.Some? ==> r.value.title == (if c.title.Found? then Strip(c.title.text) else "")
    ensures r.Some? ==> r.value.company == StrippedText(c.company) && r.value.location == StrippedText(c.location)
  {
    var link := CardLink(c);
    if link == "" then None
    else Some(Listing(if c.title.Found? then Strip(c.title.text) else "",
                      StrippedText(c.company), StrippedText(c.location), link, PostedOf(c.time)))
  }

  function CardListings(cards: seq<Card>): seq<Listing> {
    if cards == [] then [] else CardListing(cards[0]).ToSeq() + CardListings(cards[1..])
  }

  /** Every collected listing has a link; a page yields none exactly when none of its cards has one. */
  lemma {:induction false} CardListingsLinked(cards: seq<Card>)
    ensures |CardListings(cards)| <= |cards|
    ensures forall r :: r in CardListings(cards) ==> r.jobLink != ""
    ensures CardListings(cards) == [] <==> forall k :: 0 <= k < |cards| ==> CardLink(cards[k]) == ""
  {
    if cards != [] {
      CardListingsLinked(cards[1..]);
      assert forall k :: 1 <= k < |cards| ==> cards[k] == cards[1..][k - 1];
    }
  }

  /** `_collect_cards_on_page`. */
  method CollectCardsOnPage(cards: seq<Card>) returns (jobs: seq<Listing>)
    ensures jobs == CardListings(cards)
  {
    jobs := [];
    var i := 0;
    while i < |cards|
      invariant 0 <= i <= |cards|
      invariant jobs + CardListings(cards[i..]) == CardListings(cards)
    {
      assert cards[i..][1..] == cards[i + 1..];
      jobs := jobs + CardListing(cards[i]).ToSeq();
      i := i + 1;
    }
    assert cards[i..] == [];
  }

  // ---------------------------------------------------------------------------
  // Deduplication by link

  /** Listing `j` is the first with its (non-empty) link. */
  predicate FirstOfLink(records: seq<Listing>, j: nat)
    requires j < |records|
  {
    records[j].jobLink != "" && forall k :: 0 <= k < j ==> records[k].jobLink != records[j].jobLink
  }

  /** Of the first `n` listings, those that are first with their link, in order. */
  function FirstOccurrences(records: seq<Listing>, n: nat): seq<Listing>
    requires n <= |records|
  {
    if n == 0 then []
    else FirstOccurrences(records, n - 1) + (if FirstOfLink(records, n - 1) then [records[n - 1]] else [])
  }

  /** The non-empty links among the first `n` listings. */
  function LinksSeen(records: seq<Listing>, n: nat): set<string>
    requires n <= |records|
  {
    set k | 0 <= k < n && records[k].jobLink != "" :: records[k].jobLink
  }

  /** The output holds first occurrences only, each from among the first `n`. */
  lemma {:induction false} FirstOccurrencesAreFirsts(records: seq<Listing>, n: nat)
    requires n <= |records|
    ensures forall x :: x in FirstOccurrences(records, n) ==>
      exists j :: 0 <= j < n && records[j] == x && FirstOfLink(records, j)
  {
    if n > 0 {
      FirstOccurrencesAreFirsts(records, n - 1);
    }
  }

  /** No two listings of `u` share a link. */
  predicate LinksDistinct(u: seq<Listing>) {
    forall i, j :: 0 <= i < j < |u| ==> u[i].jobLink != u[j].jobLink
  }

  /** No two kept listings share a link. */
  lemma {:induction false} FirstOccurrencesDistinct(records: seq<Listing>, n: nat)
    requires n <= |records|
    ensures LinksDistinct(FirstOccurrences(records, n))
  {
    if n > 0 {
      FirstOccurrencesDistinct(records, n - 1);
      var prev := FirstOccurrences(records, n - 1);
      if FirstOfLink(records, n - 1) {
        var last := records[n - 1];
        FirstOccurrencesAreFirsts(records, n - 1);
        forall i | 0 <= i < |prev|
          ensures prev[i].jobLink != last.jobLink
        {
          assert prev[i] in prev;
          var j :| 0 <= j < n - 1 && records[j] == prev[i] && FirstOfLink(records, j);
        }
        var u := prev + [last];
        assert FirstOccurrences(records, n) == u;
        forall i, j | 0 <= i < j < |u|
          ensures u[i].jobLink != u[j].jobLink
        {
          if j < |prev| {
            assert u[i] == prev[i] && u[j] == prev[j];
            assert prev[i].jobLink != prev[j].jobLink;
          } else {
            assert u[i] == prev[i] && u[j] == last;
          }
        }
      } else {
        assert FirstOccurrences(records, n) == prev + [];
        assert prev + [] == prev;
      }
    }
  }

  /** Every link among the first `n` listings is kept, by some listing. */
  lemma {:induction false} FirstOccurrencesComplete(records: seq<Listing>, n: nat)
    requires n <= |records|
    ensures forall k :: 0 <= k < n && records[k].jobLink != "" ==>
      exists x :: x in FirstOccurrences(records, n) && x.jobLink == records[k].jobLink
  {
    if n > 0 {
      FirstOccurrencesComplete(records, n - 1);
      var prev := FirstOccurrences(records, n - 1);
      var u := FirstOccurrences(records, n);
      assert forall x :: x in prev ==> x in u;
      forall k | 0 <= k < n && records[k].jobLink != ""
        ensures exists x :: x in u && x.jobLink == records[k].jobLink
      {
        if k < n - 1 {
          var x :| x in prev && x.jobLink == records[k].jobLink;
          assert x in u;
        } else if FirstOfLink(records, n - 1) {
          assert u == prev + [records[n - 1]];
          assert records[k] in u;
        } else {
          var m :| 0 <= m < n - 1 && records[m].jobLink == records[k].jobLink;
          var x :| x in prev && x.jobLink == records[m].jobLink;
          assert x in u;
        }
      }
    }
  }

  /** A link is among the first `n` links seen iff some listing before `n` has it. */
  lemma LinksSeenMember(records: seq<Listing>, n: nat, link: string)
    requires n <= |records| && link != ""
    ensures link in LinksSeen(records, n) <==> exists m :: 0 <= m < n && records[m].jobLink == link
  {
  }

  /** One more listing adds its link, if it has one. */
  lemma LinksSeenStep(records: seq<Listing>, n: nat)
    requires n < |records|
    ensures LinksSeen(records, n + 1)
      == LinksSeen(records, n) + (if records[n].jobLink != "" then {records[n].jobLink} else {})
  {
  }

  /** The `seen` loop of `search_and_collect`. */
  method Dedupe(records: seq<Listing>) returns (unique: seq<Listing>)
    ensures unique == FirstOccurrences(records, |records|)
  {
    var seen: set<string> := {};
    unique := [];
    var i := 0;
    while i < |records|
      invariant 0 <= i <= |records|
      invariant unique == FirstOccurrences(records, i)
      invariant seen == LinksSeen(records, i)
    {
      var k := records[i].jobLink;
      LinksSeenStep(records, i);
      if k != "" {
        LinksSeenMember(records, i, k);
      }
      if k != "" && k !in seen {
        unique := unique + [records[i]];
        seen := seen + {k};
      } else {
        assert FirstOccurrences(records, i + 1) == unique + [];
      }
      i := i + 1;
    }
  }

  // ---------------------------------------------------------------------------
  // Paging through the results

  /** The result pages of a search by index: page `i` is loaded from `PageUrl(keywords, location, i)`. */
  function ResultPages(keywords: string, location: string, site: string -> Page): nat -> Page {
    (i: nat) => site(PageUrl(keywords, location, i))
  }

  /** Page `i` is the one at offset `25 * i`. */
  lemma ResultPageAt(keywords: string, location: string, site: string -> Page, i: nat)
    ensures ResultPages(keywords, location, site)(i) == site(PagedSearchUrl(keywords, location, PageStride * i))
  {
    assert ResultPages(keywords, location, site)(i) == site(PageUrl(keywords, location, i));
  }

  /** Every result page has its own URL, so no page is loaded twice. */
  lemma PageUrlsDistinct(keywords: string, location: string, i: nat, j: nat)
    requires i != j
    ensures PageUrl(keywords, location, i) != PageUrl(keywords, location, j)
  {
    if PageUrl(keywords, location, i) == PageUrl(keywords, location, j) {
      PagedSearchUrlInjective(keywords, location, PageStride * i, PageStride * j);
    }
  }

  /**
   * The records of result pages `page`, `page + 1`, ... before deduplication:
   * none once `maxPages` pages were loaded, on a timeout, or on a page
   * without any linked card.
   */
  function Collected(pages: nat -> Page, page: nat, maxPages: int): seq<Listing>
    decreases if page < maxPages then maxPages - page else 0
  {
    if page >= maxPages then []
    else
      var p := pages(page);
      if p.timedOut then []
      else
        var batch := CardListings(p.cards);
        if batch == [] then [] else batch + Collected(pages, page + 1, maxPages)
  }

  /** The records of a search from result page `page` on. */
  function RawCollect(keywords: string, location: string, site: string -> Page, page: nat, maxPages: int): seq<Listing> {
    Collected(ResultPages(keywords, location, site), page, maxPages)
  }

  lemma {:induction false} CollectedReadsOnly(pages: nat -> Page, other: nat -> Page, page: nat, maxPages: int)
    requires forall p: nat :: page <= p < maxPages ==> pages(p) == other(p)
    ensures Collected(pages, page, maxPages) == Collected(other, page, maxPages)
    decreases if page < maxPages then maxPages - page else 0
  {
    if page < maxPages {
      CollectedReadsOnly(pages, other, page + 1, maxPages);
    }
  }

  /** Only the URLs of result pages `page` .. `maxPages - 1` are ever loaded. */
  lemma RawCollectReadsOnly(keywords: string, location: string, site: string -> Page,
                            other: string -> Page, page: nat, maxPages: int)
    requires forall p: nat :: page <= p < maxPages ==>
      site(PageUrl(keywords, location, p)) == other(PageUrl(keywords, location, p))
    ensures RawCollect(keywords, location, site, page, maxPages) == RawCollect(keywords, location, other, page, maxPages)
  {
    CollectedReadsOnly(ResultPages(keywords, location, site), ResultPages(keywords, location, other), page, maxPages);
  }

  /**
   * The loop's view of the same run: `acc` holds the records collected before
   * page `page`; the result is everything collected when the loop ends.
   */
  function CollectInto(pages: nat -> Page, page: nat, maxPages: int, acc: seq<Listing>): seq<Listing>
    decreases if page < maxPages then maxPages - page else 0
  {
    if page >= maxPages then acc
    else
      var p := pages(page);
      if p.timedOut then acc
      else
        var batch := CardListings(p.cards);
        if batch == [] then acc else CollectInto(pages, page + 1, maxPages, acc + batch)
  }

  /** Collecting into `acc` appends the records of the remaining pages to it. */
  lemma {:induction false} CollectIntoRaw(pages: nat -> Page, page: nat, maxPages: int, acc: seq<Listing>)
    ensures CollectInto(pages, page, maxPages, acc) == acc + Collected(pages, page, maxPages)
    decreases if page < maxPages then maxPages - page else 0
  {
    if page < maxPages {
      var p := pages(page);
      var batch := CardListings(p.cards);
      if p.timedOut || batch == [] {
        assert acc + [] == acc;
      } else {
        var rest := Collected(pages, page + 1, maxPages);
        CollectIntoRaw(pages, page + 1, maxPages, acc + batch);
        assert (acc + batch) + rest == acc + (batch + rest);
      }
    } else {
      assert acc + [] == acc;
    }
  }

  /** `search_and_collect`: page through the results, then keep the first record of each link. */
  method SearchAndCollect(keywords: string, location: string, maxPages: int, site: string -> Page)
    returns (unique: seq<Listing>)
    ensures var raw := RawCollect(keywords, location, site, 0, maxPages);
      unique == FirstOccurrences(raw, |raw|)
  {
    var results := CollectResultPages(keywords, location, maxPages, site);
    unique := Dedupe(results);
  }

  /**
   * The page loop of `search_and_collect`: load the page at offset `start`,
   * stop on a timeout or an empty batch, else scroll, collect and move on
   * by 25.
   */
  method CollectResultPages(keywords: string, location: string, maxPages: int, site: string -> Page)
    returns (results: seq<Listing>)
    ensures results == RawCollect(keywords, location, site, 0, maxPages)
  {
    ghost var pages := ResultPages(keywords, location, site);
    results := [];
    var start: nat := 0;
    var page: nat := 0;
    CollectIntoRaw(pages, 0, maxPages, []);
    assert [] + Collected(pages, 0, maxPages) == Collected(pages, 0, maxPages);
    while page < maxPages
      invariant start == PageStride * page
      invariant CollectInto(pages, page, maxPages, results) == CollectInto(pages, 0, maxPages, [])
      decreases maxPages - page
    {
      var p := site(PagedSearchUrl(keywords, location, start));
      ResultPageAt(keywords, location, site, page);
      if p.timedOut {
        return;
      }
      var scrolled := Settle(p.heights, ResultScrollSteps);
      var batch := CollectCardsOnPage(p.cards);
      if batch == [] {
        return;
      }
      results := results + batch;
      start := start + PageStride;
      page := page + 1;
    }
  }

  // ---------------------------------------------------------------------------
  // Detail pages

  /** The description block: its HTML and its text. */
  datatype Description = Description(html: string, text: string)

  /**
   * A job's detail page: `Unreachable` when loading it or waiting for its body
   * raised a WebDriverException, else its scroll readings, its description
   * block if it has one, and the texts of its criteria items.
   */
  datatype DetailPage = Unreachable | Loaded(heights: seq<int>, description: Option<Description>, criteria: seq<string>)

  const EmploymentTypes := ["Full-time", "Part-time", "Contract", "Internship", "Temporary"]

  /** The lower-cased key occurs in the lower-cased text. */
  predicate Mentions(text: string, key: string) {
    Contains(Lower(text), Lower(key))
  }

  /** The first key mentioned in the text, if any. */
  function FirstMentioned(keys: seq<string>, text: string): (r: Option<string>)
    ensures r.None? ==> forall i :: 0 <= i < |keys| ==> !Mentions(text, keys[i])
    ensures r.Some? ==> exists i :: 0 <= i < |keys| && keys[i] == r.value && Mentions(text, keys[i])
                                    && (forall j :: 0 <= j < i ==> !Mentions(text, keys[j]))
  {
    if keys == [] then None
    else if Mentions(text, keys[0]) then Some(keys[0])
    else
      var r := FirstMentioned(keys[1..], text);
      assert forall i :: 1 <= i < |keys| ==> keys[i] == keys[1..][i - 1];
      if r.Some? then
        var i :| 0 <= i < |keys[1..]| && keys[1..][i] == r.value && Mentions(text, keys[1..][i])
                 && (forall j :: 0 <= j < i ==> !Mentions(text, keys[1..][j]));
        assert keys[i + 1] == r.value;
        r
      else r
  }

  /** The employment-type loop: the first of the five types the text mentions. */
  method InferEmploymentType(text: string) returns (kind: Option<string>)
    ensures kind == FirstMentioned(EmploymentTypes, text)
  {
    var keys := EmploymentTypes;
    kind := None;
    var i := 0;
    while i < |keys|
      invariant 0 <= i <= |keys|
      invariant FirstMentioned(keys[i..], text) == FirstMentioned(keys, text)
    {
      assert keys[i..][1..] == keys[i + 1..];
      if Mentions(text, keys[i]) {
        kind := Some(keys[i]);
        return;
      }
      i := i + 1;
    }
    assert keys[i..] == [];
  }

  /** The three keys `_extract_details` always sets on a loaded page. */
  function DetailFields(page: DetailPage): Record
    requires page.Loaded?
  {
    var description := page.description;
    map["description_html" := if description.Some? then Str(description.value.html) else Null,
        "description_text" := if description.Some? then Str(Strip(description.value.text)) else Null,
        "criteria" := Strs(page.criteria)]
  }

  /** `data.get("description_text") or ""`. */
  function DescriptionText(page: DetailPage): string
    requires page.Loaded?
  {
    if page.description.Some? then Strip(page.description.value.text) else ""
  }

  /** What `_extract_details` returns for a page. */
  function Details(page: DetailPage): (data: Record)
    ensures page.Unreachable? ==> data == map[]
    ensures page.Loaded? ==> {"description_html", "description_text", "criteria"} <= data.Keys
    ensures page.Loaded? ==> data["criteria"] == Strs(page.criteria)
    ensures "employment_type" in data <==>
      page.Loaded? && FirstMentioned(EmploymentTypes, DescriptionText(page)).Some?
    ensures "employment_type" in data ==>
      data["employment_type"] == Str(FirstMentioned(EmploymentTypes, DescriptionText(page)).value)
  {
    if page.Unreachable? then map[]
    else
      var kind := FirstMentioned(EmploymentTypes, DescriptionText(page));
      if kind.Some? then DetailFields(page)["employment_type" := Str(kind.value)] else DetailFields(page)
  }

  /** `_extract_details` sets only the description, criteria and employment-type keys. */
  lemma DetailKeys(page: DetailPage)
    ensures Details(page).Keys <= {"description_html", "description_text", "criteria", "employment_type"}
  {
  }

  /** `_extract_details`. */
  method ExtractDetails(page: DetailPage) returns (data: Record)
    ensures data == Details(page)
  {
    if page.Unreachable? {
      return map[];
    }
    var scrolled := Settle(page.heights, DetailScrollSteps);
    data := DetailFields(page);
    var kind := InferEmploymentType(DescriptionText(page));
    if kind.Some? {
      data := data["employment_type" := Str(kind.value)];
    }
  }

  // ---------------------------------------------------------------------------
  // Enrichment

  /** A listing as the dictionary the scraper holds. */
  function AsRecord(l: Listing): (r: Record)
    ensures r.Keys == {"title", "company", "location", "job_link", "posted_date"}
    ensures r["title"] == Str(l.title) && r["job_link"] == Str(l.jobLink)
    ensures l.company.Some? ==> r["company"] == Str(l.company.value)
    ensures l.company.None? <==> r["company"] == Null
    ensures l.location.Some? ==> r["location"] == Str(l.location.value)
    ensures l.location.None? <==> r["location"] == Null
    ensures l.postedDate.Some? ==> r["posted_date"] == Str(l.postedDate.value)
    ensures l.postedDate.None? <==> r["posted_date"] == Null
  {
    map["title" := Str(l.title),
        "company" := if l.company.Some? then Str(l.company.value) else Null,
        "location" := if l.location.Some? then Str(l.location.value) else Null,
        "job_link" := Str(l.jobLink),
        "posted_date" := if l.postedDate.Some? then Str(l.postedDate.value) else Null]
  }

  /** The listings as dictionaries, one for one. */
  function AsRecords(listings: seq<Listing>): (records: seq<Record>)
    ensures |records| == |listings|
    ensures forall i :: 0 <= i < |listings| ==> records[i] == AsRecord(listings[i])
  {
    seq(|listings|, i requires 0 <= i < |listings| => AsRecord(listings[i]))
  }

  /**
   * `{**j, **details}`: the listing's keys with the detail keys laid over
   * them; a listing without a link is left as it is.
   */
  function Enriched(j: Listing, detailSite: string -> DetailPage): Record {
    if j.jobLink != "" then AsRecord(j) + Details(detailSite(j.jobLink)) else AsRecord(j)
  }

  /**
   * A listing without a link stays as it is; otherwise the record has the
   * listing's keys and the detail keys, a detail value winning on a clash.
   */
  lemma EnrichedSound(j: Listing, detailSite: string -> DetailPage)
    ensures var e := Enriched(j, detailSite);
      && (j.jobLink == "" ==> e == AsRecord(j))
      && (j.jobLink != "" ==> e.Keys == AsRecord(j).Keys + Details(detailSite(j.jobLink)).Keys)
      && (j.jobLink != "" ==> forall k :: k in e ==>
            e[k] == if k in Details(detailSite(j.jobLink)) then Details(detailSite(j.jobLink))[k] else AsRecord(j)[k])
  {
  }

  /** The detail keys never touch the listing's link: an enriched record keeps its `job_link`. */
  lemma EnrichedKeepsLink(j: Listing, detailSite: string -> DetailPage)
    ensures "job_link" in Enriched(j, detailSite) && Enriched(j, detailSite)["job_link"] == Str(j.jobLink)
  {
    if j.jobLink != "" {
      var d := Details(detailSite(j.jobLink));
      DetailKeys(detailSite(j.jobLink));
      assert "job_link" !in d;
    }
  }

  /** One turn of `enrich_details`: the detail page is visited only for a listing with a link. */
  method EnrichOne(job: Listing, detailSite: string -> DetailPage) returns (e: Record)
    ensures e == Enriched(job, detailSite)
  {
    var j := AsRecord(job);
    var details: Record := map[];
    if job.jobLink != "" {
      details := ExtractDetails(detailSite(job.jobLink));
    }
    assert j + map[] == j;
    e := j + details;
  }

  /** `enrich_details`: one record out per listing in, in order. */
  method EnrichDetails(jobs: seq<Listing>, detailSite: string -> DetailPage) returns (enriched: seq<Record>)
    ensures |enriched| == |jobs|
    ensures forall i :: 0 <= i < |jobs| ==> enriched[i] == Enriched(jobs[i], detailSite)
  {
    enriched := [];
    var i := 0;
    while i < |jobs|
      invariant 0 <= i <= |jobs|
      invariant |enriched| == i
      invariant forall k :: 0 <= k < i ==> enriched[k] == Enriched(jobs[k], detailSite)
    {
      var e := EnrichOne(jobs[i], detailSite);
      enriched := enriched + [e];
      i := i + 1;
    }
  }

  // ---------------------------------------------------------------------------
  // Export file names

  /** A UTC instant, to the second. */
  datatype Timestamp = Timestamp(year: nat, month: nat, day: nat, hour: nat, minute: nat, second: nat)

  /** The range of Python's `datetime`. */
  predicate ValidTimestamp(t: Timestamp) {
    1 <= t.year <= 9999 && 1 <= t.month <= 12 && 1 <= t.day <= 31
    && t.hour < 24 && t.minute < 60 && t.second < 60
  }

  /** `strftime("%Y%m%d-%H%M%S")`. */
  function Strftime(t: Timestamp): (s: string)
    requires ValidTimestamp(t)
    ensures |s| == 15 && s[8] == '-'
    ensures forall i :: 0 <= i < 15 && i != 8 ==> IsDigit(s[i])
  {
    Digits(t.year, 4) + Digits(t.month, 2) + Digits(t.day, 2) + "-"
      + Digits(t.hour, 2) + Digits(t.minute, 2) + Digits(t.second, 2)
  }

  /** Distinct instants give distinct stamps. */
  lemma StrftimeInjective(a: Timestamp, b: Timestamp)
    requires ValidTimestamp(a) && ValidTimestamp(b) && Strftime(a) == Strftime(b)
    ensures a == b
  {
    var s := Strftime(a);
    assert s[..4] == Digits(a.year, 4) == Digits(b.year, 4);
    assert s[4..6] == Digits(a.month, 2) == Digits(b.month, 2);
    assert s[6..8] == Digits(a.day, 2) == Digits(b.day, 2);
    assert s[9..11] == Digits(a.hour, 2) == Digits(b.hour, 2);
    assert s[11..13] == Digits(a.minute, 2) == Digits(b.minute, 2);
    assert s[13..] == Digits(a.second, 2) == Digits(b.second, 2);
    ValueOfDigits(a.year, 4);
    ValueOfDigits(b.year, 4);
    ValueOfDigits(a.month, 2);
    ValueOfDigits(b.month, 2);
    ValueOfDigits(a.day, 2);
    ValueOfDigits(b.day, 2);
    ValueOfDigits(a.hour, 2);
    ValueOfDigits(b.hour, 2);
    ValueOfDigits(a.minute, 2);
    ValueOfDigits(b.minute, 2);
    ValueOfDigits(a.second, 2);
    ValueOfDigits(b.second, 2);
  }

  /** `os.path.join(dir, name)` on POSIX. */
  function PathJoin(dir: string, name: string): (p: string)
    ensures |p| >= |name| && p[|p| - |name|..] == name
  {
    if name != [] && name[0] == '/' then name
    else if dir == [] || dir[|dir| - 1] == '/' then dir + name
    else dir + "/" + name
  }

  datatype ExportFiles = ExportFiles(csv: string, json: string)

  /** The common stem of both files: `{dir}/{base}-{ts}`. */
  function ExportStem(outDir: string, baseName: string, t: Timestamp): (stem: string)
    requires ValidTimestamp(t)
    ensures |stem| >= |baseName| + 16
    ensures stem[|stem| - |baseName| - 16..] == baseName + "-" + Strftime(t)
    ensures stem[|stem| - 15..] == Strftime(t)
  {
    var name := baseName + "-" + Strftime(t);
    var p := PathJoin(outDir, name);
    assert p[|p| - 15..] == name[|name| - 15..];
    p
  }

  /** `export`'s file names: one stem, `.csv` and `.json`. */
  function ExportPaths(outDir: string, baseName: string, t: Timestamp): (f: ExportFiles)
    requires ValidTimestamp(t)
    ensures |f.csv| == |ExportStem(outDir, baseName, t)| + 4 && |f.json| == |f.csv| + 1
    ensures f.csv[..|f.csv| - 4] == f.json[..|f.json| - 5] == ExportStem(outDir, baseName, t)
    ensures f.csv[|f.csv| - 4..] == ".csv" && f.json[|f.json| - 5..] == ".json"
  {
    var stem := ExportStem(outDir, baseName, t);
    var f := ExportFiles(stem + ".csv", stem + ".json");
    assert f.csv[..|f.csv| - 4] == stem;
    assert f.json[..|f.json| - 5] == stem;
    f
  }

  /** Two exports of the same query to the same directory at different seconds never share a file. */
  lemma ExportsAtDistinctTimes(outDir: string, baseName: string, a: Timestamp, b: Timestamp)
    requires ValidTimestamp(a) && ValidTimestamp(b) && a != b
    ensures ExportPaths(outDir, baseName, a).csv != ExportPaths(outDir, baseName, b).csv
    ensures ExportPaths(outDir, baseName, a).json != ExportPaths(outDir, baseName, b).json
  {
    var sa, sb := ExportStem(outDir, baseName, a), ExportStem(outDir, baseName, b);
    if sa == sb {
      StrftimeInjective(a, b);
    }
  }

  // ---------------------------------------------------------------------------
  // The whole run

  /** `ScrapeConfig`, reduced to what the model uses: the page budget. */
  datatype ScrapeConfig = ScrapeConfig(maxPages: int)

  function DefaultScrapeConfig(): (c: ScrapeConfig)
    ensures c.maxPages == 10
  {
    ScrapeConfig(10)
  }

  /** `f"{keywords}-{location}".replace(" ", "_")`. */
  function BaseName(keywords: string, location: string): (b: string)
    ensures |b| == |keywords| + 1 + |location| && ' ' !in b
    ensures forall i :: 0 <= i < |keywords| ==> b[i] == if keywords[i] == ' ' then '_' else keywords[i]
    ensures b[|keywords|] == '-'
    ensures forall i :: 0 <= i < |location| ==>
      b[|keywords| + 1 + i] == if location[i] == ' ' then '_' else location[i]
  {
    var s := keywords + "-" + location;
    assert forall i :: 0 <= i < |location| ==> s[|keywords| + 1 + i] == location[i];
    ReplaceChar(s, ' ', '_')
  }

  datatype Summary = Summary(found: nat, exported: nat, files: ExportFiles)

  /**
   * `run_advanced_scrape`: collect, enrich when asked, export, and quit the
   * driver. Both counts are the number of distinct links found.
   */
  method RunAdvancedScrape(keywords: string, location: string, outDir: string, config: Option<ScrapeConfig>,
                           enrich: bool, site: string -> Page, detailSite: string -> DetailPage, now: Timestamp)
    returns (summary: Summary, records: seq<Record>, driver: Driver)
    requires ValidTimestamp(now)
    ensures var raw := RawCollect(keywords, location, site, 0, config.GetOr(DefaultScrapeConfig()).maxPages);
      var unique := FirstOccurrences(raw, |raw|);
      && summary.found == summary.exported == |unique| == |records|
      && forall i :: 0 <= i < |records| ==>
           records[i] == if enrich then Enriched(unique[i], detailSite) else AsRecord(unique[i])
    ensures summary.files == ExportPaths(outDir, BaseName(keywords, location), now)
    ensures fresh(driver) && driver.quit
  {
    var cfg := config.GetOr(DefaultScrapeConfig());
    driver := new Driver();
    var listings := SearchAndCollect(keywords, location, cfg.maxPages, site);
    if enrich {
      records := EnrichDetails(listings, detailSite);
    } else {
      records := AsRecords(listings);
    }
    var files := ExportPaths(outDir, BaseName(keywords, location), now);
    summary := Summary(|listings|, |records|, files);
    driver.Quit();
  }
}
