/**
 * The LinkedIn job-search URLs both scrapers build: the search base, `?`, and
 * the form-encoded query. The basic scraper sends keywords and location; the
 * advanced one adds a `start` offset for every result page after the first.
 */
module LinkedinSearch {
  import opened Text
  import opened UrlEncode

  const SearchBase := "https://www.linkedin.com/jobs/search/"

  /** The basic scraper's parameters: keywords, then location. */
  function BasicParams(keywords: string, location: string): seq<(string, string)> {
    [("keywords", keywords), ("location", location)]
  }

  /** The advanced scraper's parameters: `start` is sent only when it is not 0. */
  function PagedParams(keywords: string, location: string, start: nat): seq<(string, string)> {
    BasicParams(keywords, location) + (if start != 0 then [("start", Decimal(start))] else [])
  }

  /** `_build_search_url` of the basic scraper. */
  function BasicSearchUrl(keywords: string, location: string): string {
    SearchBase + "?" + Urlencode(BasicParams(keywords, location))
  }

  /** `_build_search_url` of the advanced scraper. */
  function PagedSearchUrl(keywords: string, location: string, start: nat): string {
    SearchBase + "?" + Urlencode(PagedParams(keywords, location, start))
  }

  /** Both URLs are the search base followed by `?`. */
  lemma SearchUrlPrefix(keywords: string, location: string, start: nat)
    ensures StartsWith(BasicSearchUrl(keywords, location), SearchBase + "?")
    ensures StartsWith(PagedSearchUrl(keywords, location, start), SearchBase + "?")
  {
    var prefix := SearchBase + "?";
    assert BasicSearchUrl(keywords, location)[..|prefix|] == prefix;
    assert PagedSearchUrl(keywords, location, start)[..|prefix|] == prefix;
  }

  /** The advanced scraper's first page is the basic scraper's search. */
  lemma FirstPageIsBasicSearch(keywords: string, location: string)
    ensures PagedSearchUrl(keywords, location, 0) == BasicSearchUrl(keywords, location)
  {
    assert PagedParams(keywords, location, 0) == BasicParams(keywords, location);
  }

  /** The basic query string: exactly the two fields, keywords first, each value encoded. */
  lemma BasicSearchUrlQuery(keywords: string, location: string)
    ensures var url := BasicSearchUrl(keywords, location);
      Split(url[|SearchBase| + 1..], '&')
        == ["keywords" + "=" + QuotePlus(keywords), "location" + "=" + QuotePlus(location)]
  {
    var url := BasicSearchUrl(keywords, location);
    var prefix := SearchBase + "?";
    assert url == prefix + Urlencode(BasicParams(keywords, location));
    assert url[|SearchBase| + 1..] == Urlencode(BasicParams(keywords, location));
    UrlencodeStructure(BasicParams(keywords, location));
    BasicFields(keywords, location);
  }

  /**
   * The paged query string: keywords, location, then `start=` and the offset
   * in decimal exactly when the offset is not 0.
   */
  lemma PagedSearchUrlQuery(keywords: string, location: string, start: nat)
    ensures var url := PagedSearchUrl(keywords, location, start);
      Split(url[|SearchBase| + 1..], '&')
        == ["keywords" + "=" + QuotePlus(keywords), "location" + "=" + QuotePlus(location)]
           + (if start != 0 then ["start" + "=" + Decimal(start)] else [])
  {
    var url := PagedSearchUrl(keywords, location, start);
    var prefix := SearchBase + "?";
    assert url == prefix + Urlencode(PagedParams(keywords, location, start));
    assert url[|SearchBase| + 1..] == Urlencode(PagedParams(keywords, location, start));
    UrlencodeStructure(PagedParams(keywords, location, start));
    PagedFields(keywords, location, start);
  }

  /** Different offsets give different URLs: the offset can be read back from the query. */
  lemma PagedSearchUrlInjective(keywords: string, location: string, a: nat, b: nat)
    requires PagedSearchUrl(keywords, location, a) == PagedSearchUrl(keywords, location, b)
    ensures a == b
  {
    var url := PagedSearchUrl(keywords, location, a);
    var head := ["keywords" + "=" + QuotePlus(keywords), "location" + "=" + QuotePlus(location)];
    var fields := Split(url[|SearchBase| + 1..], '&');
    PagedSearchUrlQuery(keywords, location, a);
    PagedSearchUrlQuery(keywords, location, b);
    assert fields == head + (if a != 0 then ["start" + "=" + Decimal(a)] else []);
    assert fields == head + (if b != 0 then ["start" + "=" + Decimal(b)] else []);
    if a != 0 && b != 0 {
      var fa, fb := "start" + "=" + Decimal(a), "start" + "=" + Decimal(b);
      assert fa == fields[2] == fb;
      assert Decimal(a) == fa[6..] == fb[6..] == Decimal(b);
      DecimalInjective(a, b);
    }
  }

  lemma BasicFields(keywords: string, location: string)
    ensures Fields(BasicParams(keywords, location))
      == ["keywords" + "=" + QuotePlus(keywords), "location" + "=" + QuotePlus(location)]
  {
    NamedFields("keywords", keywords, "location", location);
  }

  /** Two parameters whose names need no escaping: each field is the name, `=`, and the encoded value. */
  lemma NamedFields(n1: string, v1: string, n2: string, v2: string)
    requires forall i :: 0 <= i < |n1| ==> IsUnreserved(n1[i])
    requires forall i :: 0 <= i < |n2| ==> IsUnreserved(n2[i])
    ensures Fields([(n1, v1), (n2, v2)]) == [n1 + "=" + QuotePlus(v1), n2 + "=" + QuotePlus(v2)]
  {
    var fields := Fields([(n1, v1), (n2, v2)]);
    QuotePlusUnreserved(n1);
    QuotePlusUnreserved(n2);
    assert fields[0] == Field(n1, v1);
    assert fields[1] == Field(n2, v2);
  }

  lemma PagedFields(keywords: string, location: string, start: nat)
    ensures Fields(PagedParams(keywords, location, start))
      == ["keywords" + "=" + QuotePlus(keywords), "location" + "=" + QuotePlus(location)]
         + (if start != 0 then ["start" + "=" + Decimal(start)] else [])
  {
    var tail := if start != 0 then [("start", Decimal(start))] else [];
    FieldsAppend(BasicParams(keywords, location), tail);
    BasicFields(keywords, location);
    if start != 0 {
      StartField(start);
    } else {
      assert Fields(tail) == [];
    }
  }

  lemma StartField(start: nat)
    ensures Fields([("start", Decimal(start))]) == ["start" + "=" + Decimal(start)]
  {
    assert QuotePlus("start") == "start";
    QuotePlusUnreserved(Decimal(start));
    assert Fields([("start", Decimal(start))])[0] == Field("start", Decimal(start));
  }
}
