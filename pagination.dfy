/**
 * What the two scraper scripts share about crawling one category: the
 * reasons a category's page loop ends, the record of one category's crawl,
 * and the address of the following listing page.
 */
module Pagination {
  import opened JsString
  import opened JsNumber
  import opened SearchParams

  /** Why the page loop of a category ended: navigation or another call
      threw, the wait for product cards timed out, a page had no product
      cards, the next-page control was absent or disabled, or the page cap
      was reached. */
  datatype Stop = Failed | Timeout | NoProducts | LastPage | CapReached

  /** The course of one category's page loop: the listing URLs visited, in
      order, and why the loop ended. */
  datatype Path = Path(visited: seq<string>, stop: Stop)

  /** One category's crawl: the path it took and what was extracted from
      the cards of its pages. */
  datatype CrawlLog<T> = CrawlLog(visited: seq<string>, items: seq<T>, stop: Stop)

  /** How a page loop derives the address of the following page from the
      address the browser landed on and the current page number. */
  type NextUrl = (string, int) -> string

  /** The landed address with its `page` query parameter set to the decimal
      text of the following page number. */
  function NextListingUrl(landedUrl: string, pageNum: int): string {
    SetParam(landedUrl, "page", IntToString(pageNum + 1))
  }

  lemma PageParamWellFormed(text: string)
    requires forall k :: 0 <= k < |text| ==> IsDigit(text[k]) || text[k] == '-' || text[k] == 'N' || text[k] == 'a'
    ensures WellFormedParam(Param("page", text))
  {
    assert forall k :: 0 <= k < |text| ==> text[k] != '&' && text[k] != '#';
  }

  /** The next listing URL is the page the browser landed on with `page`
      set to `pageNum + 1`, every other parameter kept in order, and the
      rest of the address unchanged. */
  lemma NextListingUrlEffect(landedUrl: string, pageNum: int)
    ensures var before := Parse(landedUrl);
            var after := Parse(NextListingUrl(landedUrl, pageNum));
            && Get(after.query, "page") == Some(IntToString(pageNum + 1))
            && ParseInt(IntToString(pageNum + 1)) == Some(pageNum + 1)
            && Without(after.query, "page") == Without(before.query, "page")
            && after.base == before.base && after.fragment == before.fragment
  {
    IntToStringChars(pageNum + 1);
    PageParamWellFormed(IntToString(pageNum + 1));
    SetParamEffect(landedUrl, "page", IntToString(pageNum + 1));
    ParseIntOfIntToString(pageNum + 1);
  }
}
