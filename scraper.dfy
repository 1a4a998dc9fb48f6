/**
 * The basic LinkedIn scraper used by the scrape endpoint and the daily job:
 * one search URL, then page after page through the `Next` button, every
 * card that has all five elements becoming a record. Records are not
 * deduplicated.
 */
module Scraper {
  import opened Wrappers
  import opened Text
  import opened LinkedinSearch
  import opened Browser
  import opened Ingestion

  /** The scroll budget per page. */
  const ScrollSteps := 5

  /** `posted_date`: the `datetime` attribute up to its first `T`, when the attribute is non-empty. */
  function PostedDateOf(time: Element): Option<string>
    requires time.Found?
  {
    if Truthy(time.attr) then Some(BeforeFirst(time.attr.value, 'T')) else None
  }

  /** An empty attribute gives None; otherwise the date part is the attribute up to, not including, its first `T`. */
  lemma PostedDateOfSound(time: Element)
    requires time.Found?
    ensures var d := PostedDateOf(time);
      && (!Truthy(time.attr) ==> d.None?)
      && (Truthy(time.attr) ==> d.Some? && StartsWith(time.attr.value, d.value) && 'T' !in d.value)
      && (Truthy(time.attr) && 'T' in time.attr.value ==> time.attr.value[|d.value|] == 'T')
  {
    if Truthy(time.attr) {
      BeforeFirstSound(time.attr.value, 'T');
    }
  }

  /**
   * One card: skipped when any of its five elements is missing; otherwise
   * the stripped texts, the link's `href` as it is, the query keywords and
   * no experience level or job type.
   */
  function ParseCard(keywords: string, c: Card): Option<RawRecord> {
    if c.title.Missing? || c.company.Missing? || c.location.Missing? || c.time.Missing? || c.link.Missing? then None
    else Some(RawRecord(Some(Strip(c.title.text)), Some(Strip(c.company.text)), Some(Strip(c.location.text)),
                        PostedDateOf(c.time), c.link.attr, None, None, Some(keywords)))
  }

  /**
   * A card is skipped exactly when one of its five elements is missing; a
   * kept card's record has trimmed texts with no surrounding whitespace,
   * the `href` unchanged, the query keywords and no level or type.
   */
  lemma ParseCardSound(keywords: string, c: Card)
    ensures var r := ParseCard(keywords, c);
      && (r.None? <==> c.title.Missing? || c.company.Missing? || c.location.Missing? || c.time.Missing? || c.link.Missing?)
      && (r.Some? ==> r.value.keywords == Some(keywords) && r.value.experienceLevel.None? && r.value.jobType.None?)
      && (r.Some? ==> r.value.title == Some(Strip(c.title.text)) && r.value.company == Some(Strip(c.company.text)))
      && (r.Some? ==> r.value.location == Some(Strip(c.location.text)))
      && (r.Some? ==> r.value.jobLink == c.link.attr && r.value.postedDate == PostedDateOf(c.time))
  {
  }

  /** The records of a page's cards, in card order. */
  function CardRecords(keywords: string, cards: seq<Card>): seq<RawRecord> {
    if cards == [] then [] else ParseCard(keywords, cards[0]).ToSeq() + CardRecords(keywords, cards[1..])
  }

  /** Every record comes from a complete card and carries the query keywords. */
  lemma {:induction false} CardRecordsFromCards(keywords: string, cards: seq<Card>)
    ensures |CardRecords(keywords, cards)| <= |cards|
    ensures forall r :: r in CardRecords(keywords, cards) ==>
      exists k :: 0 <= k < |cards| && ParseCard(keywords, cards[k]) == Some(r)
  {
    if cards != [] {
      CardRecordsFromCards(keywords, cards[1..]);
      forall r | r in CardRecords(keywords, cards)
        ensures exists k :: 0 <= k < |cards| && ParseCard(keywords, cards[k]) == Some(r)
      {
        if r !in ParseCard(keywords, cards[0]).ToSeq() {
          var k :| 0 <= k < |cards[1..]| && ParseCard(keywords, cards[1..][k]) == Some(r);
          assert cards[k + 1] == cards[1..][k];
        }
      }
    }
  }

  /** No deduplication: the records of two runs of cards are the two runs' records, back to back. */
  lemma {:induction false} CardRecordsAppend(keywords: string, a: seq<Card>, b: seq<Card>)
    ensures CardRecords(keywords, a + b) == CardRecords(keywords, a) + CardRecords(keywords, b)
  {
    if a != [] {
      var head := ParseCard(keywords, a[0]).ToSeq();
      assert (a + b)[0] == a[0];
      assert (a + b)[1..] == a[1..] + b;
      CardRecordsAppend(keywords, a[1..], b);
      assert CardRecords(keywords, a + b) == head + (CardRecords(keywords, a[1..]) + CardRecords(keywords, b));
      assert CardRecords(keywords, a) == head + CardRecords(keywords, a[1..]);
    } else {
      assert a + b == b;
    }
  }

  /** The card loop of one page. */
  method CollectCards(keywords: string, cards: seq<Card>) returns (records: seq<RawRecord>)
    ensures records == CardRecords(keywords, cards)
  {
    records := [];
    var i := 0;
    while i < |cards|
      invariant 0 <= i <= |cards|
      invariant records == CardRecords(keywords, cards[..i])
    {
      var one := ParseCard(keywords, cards[i]).ToSeq();
      assert CardRecords(keywords, [cards[i]]) == one + CardRecords(keywords, []);
      assert cards[..i + 1] == cards[..i] + [cards[i]];
      CardRecordsAppend(keywords, cards[..i], [cards[i]]);
      records := records + one;
      i := i + 1;
    }
    assert cards[..i] == cards;
  }

  /** The page the browser shows at (0-based) index `i`; past the site's end, a page that times out. */
  function PageAt(pages: seq<Page>, i: nat): Page {
    if i < |pages| then pages[i] else Blank
  }

  /**
   * The records from the page at index `i` on (`current_page` = i + 1): none
   * once the page budget is spent or the card wait times out; else this
   * page's records, then the next page's if an enabled `Next` button exists.
   */
  function Crawl(keywords: string, pages: seq<Page>, i: nat, maxPages: int): seq<RawRecord>
    decreases |pages| - i
  {
    if i + 1 > maxPages || PageAt(pages, i).timedOut then []
    else
      var page := PageAt(pages, i);
      CardRecords(keywords, page.cards)
        + (if page.next == Next(true) && i < |pages| then Crawl(keywords, pages, i + 1, maxPages) else [])
  }

  /** `acc` followed by the records from page `i` on, in the accumulating form the loop computes. */
  function CrawlInto(acc: seq<RawRecord>, keywords: string, pages: seq<Page>, i: nat, maxPages: int): seq<RawRecord>
    decreases |pages| - i
  {
    if i + 1 > maxPages || PageAt(pages, i).timedOut then acc
    else
      var page := PageAt(pages, i);
      var gathered := acc + CardRecords(keywords, page.cards);
      if page.next == Next(true) && i < |pages| then CrawlInto(gathered, keywords, pages, i + 1, maxPages)
      else gathered
  }

  /** The accumulating form is the records gathered so far followed by the rest of the crawl. */
  lemma {:induction false} CrawlIntoAppends(acc: seq<RawRecord>, keywords: string, pages: seq<Page>, i: nat, maxPages: int)
    ensures CrawlInto(acc, keywords, pages, i, maxPages) == acc + Crawl(keywords, pages, i, maxPages)
    decreases |pages| - i
  {
    if i + 1 > maxPages || PageAt(pages, i).timedOut {
      assert acc + [] == acc;
    } else {
      var page := PageAt(pages, i);
      var here := CardRecords(keywords, page.cards);
      if page.next == Next(true) && i < |pages| {
        CrawlIntoAppends(acc + here, keywords, pages, i + 1, maxPages);
        AppendAssoc(acc, here, Crawl(keywords, pages, i + 1, maxPages));
      } else {
        assert Crawl(keywords, pages, i, maxPages) == here + [];
        assert here + [] == here;
      }
    }
  }

  /** Only the first `maxPages` pages are ever read. */
  lemma {:induction false} CrawlReadsBudget(keywords: string, pages: seq<Page>, i: nat, maxPages: int)
    requires 0 <= maxPages <= |pages|
    ensures Crawl(keywords, pages, i, maxPages) == Crawl(keywords, pages[..maxPages], i, maxPages)
    decreases |pages| - i
  {
    var cut := pages[..maxPages];
    if i + 1 <= maxPages {
      var page := PageAt(pages, i);
      assert page == PageAt(cut, i);
      if !page.timedOut {
        var here := CardRecords(keywords, page.cards);
        if page.next == Next(true) {
          CrawlReadsBudget(keywords, pages, i + 1, maxPages);
          assert Crawl(keywords, pages, i, maxPages) == here + Crawl(keywords, pages, i + 1, maxPages);
          assert Crawl(keywords, cut, i, maxPages) == here + Crawl(keywords, cut, i + 1, maxPages);
        } else {
          assert Crawl(keywords, pages, i, maxPages) == here;
          assert Crawl(keywords, cut, i, maxPages) == here;
        }
      }
    }
  }

  /** Every scraped record comes from a complete card of one of the pages. */
  lemma {:induction false} CrawlFromCards(keywords: string, pages: seq<Page>, i: nat, maxPages: int)
    ensures forall r :: r in Crawl(keywords, pages, i, maxPages) ==>
      exists p, k :: 0 <= p < |pages| && 0 <= k < |pages[p].cards| && ParseCard(keywords, pages[p].cards[k]) == Some(r)
    decreases |pages| - i
  {
    if i + 1 <= maxPages && !PageAt(pages, i).timedOut {
      var page := PageAt(pages, i);
      CardRecordsFromCards(keywords, page.cards);
      if page.next == Next(true) && i < |pages| {
        CrawlFromCards(keywords, pages, i + 1, maxPages);
      }
      forall r | r in CardRecords(keywords, page.cards)
        ensures exists p, k :: 0 <= p < |pages| && 0 <= k < |pages[p].cards| && ParseCard(keywords, pages[p].cards[k]) == Some(r)
      {
        var k :| 0 <= k < |page.cards| && ParseCard(keywords, page.cards[k]) == Some(r);
        assert i < |pages|;
      }
    }
  }

  /**
   * `scrape_linkedin_jobs`: open the search URL, then while the page budget
   * lasts: wait for cards (a timeout ends the run), scroll, read the cards,
   * and follow an enabled `Next` button or stop.
   */
  method ScrapeLinkedinJobs(keywords: string, location: string, maxPages: int, site: string -> seq<Page>)
    returns (jobs: seq<RawRecord>, driver: Driver)
    ensures jobs == Crawl(keywords, site(BasicSearchUrl(keywords, location)), 0, maxPages)
    ensures fresh(driver) && driver.quit
  {
    var pages := site(BasicSearchUrl(keywords, location));
    driver := new Driver();
    jobs := CrawlPages(keywords, pages, maxPages);
    driver.Quit();
  }

  /** One page of the crawl in accumulating form: a stop keeps `acc`, else the page's records are added. */
  lemma CrawlIntoStep(acc: seq<RawRecord>, keywords: string, pages: seq<Page>, i: nat, maxPages: int)
    ensures PageAt(pages, i).timedOut || i + 1 > maxPages ==> CrawlInto(acc, keywords, pages, i, maxPages) == acc
    ensures !PageAt(pages, i).timedOut && i + 1 <= maxPages ==>
      var page := PageAt(pages, i);
      var gathered := acc + CardRecords(keywords, page.cards);
      CrawlInto(acc, keywords, pages, i, maxPages)
        == if page.next == Next(true) then CrawlInto(gathered, keywords, pages, i + 1, maxPages) else gathered
  {
  }

  /**
   * The page loop of `scrape_linkedin_jobs` (`current_page` from 1): wait,
   * scroll, read the cards, then follow an enabled `Next` button or stop.
   */
  method CrawlPages(keywords: string, pages: seq<Page>, maxPages: int) returns (jobs: seq<RawRecord>)
    ensures jobs == Crawl(keywords, pages, 0, maxPages)
  {
    ghost var whole := CrawlInto([], keywords, pages, 0, maxPages);
    jobs := [];
    var current := 1;
    while current <= maxPages
      invariant 1 <= current <= |pages| + 1
      invariant CrawlInto(jobs, keywords, pages, current - 1, maxPages) == whole
      decreases |pages| + 1 - current
    {
      var page := PageAt(pages, current - 1);
      CrawlIntoStep(jobs, keywords, pages, current - 1, maxPages);
      if page.timedOut {
        break;
      }
      var scrolled := Settle(page.heights, ScrollSteps);
      var batch := CollectCards(keywords, page.cards);
      jobs := jobs + batch;
      if page.next != Next(true) {
        break;
      }
      current := current + 1;
    }
    CrawlIntoStep(jobs, keywords, pages, current - 1, maxPages);
    CrawlIntoAppends([], keywords, pages, 0, maxPages);
    assert [] + Crawl(keywords, pages, 0, maxPages) == Crawl(keywords, pages, 0, maxPages);
  }
}
