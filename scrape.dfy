/**
 * The batch scraper: start URLs from the (optionally filtered) category
 * tree, then for each of them a loop over at most five listing pages that
 * turns every readable product card into a title, an absolute address and
 * a price, and follows the next-page control.
 */
module Scrape {
  import opened JsString
  import opened JsNumber
  import opened SearchParams
  import opened Types
  import opened Browser
  import opened CategoryTree
  import opened Pagination
  import opened Collect

  const MaxPages := 5
  const UnknownTitle := "Unknown Product"

  /** What the scraper records for one product card (its `crawled_at`
      timestamp is not part of this model). */
  datatype CardItem = CardItem(title: string, url: string, price: int)

  // ---------------------------------------------------------------------------
  // Card text
  // ---------------------------------------------------------------------------

  /** `lines[0] || 'Unknown Product'`: the text before the first line break. */
  function CardTitle(text: string): string {
    var first := Split(text, '\n')[0];
    if first != "" then first else UnknownTitle
  }

  /** The title is the card text up to its first line break, or the
      placeholder when that part is empty. */
  lemma CardTitleSpec(text: string)
    ensures text == "" || text[0] == '\n' ==> CardTitle(text) == UnknownTitle
    ensures text != "" && text[0] != '\n' ==>
              var t := CardTitle(text);
              && t != "" && t <= text && '\n' !in t
              && (|t| < |text| ==> text[|t|] == '\n')
  {
    SplitFirstPiece(text, '\n');
  }

  /** Index of the line `lines.find(l => l.includes('$'))` returns,
      `|lines|` when it returns nothing. */
  function FirstPriceLine(lines: seq<string>): nat {
    if |lines| == 0 then 0
    else if '$' in lines[0] then 0
    else 1 + FirstPriceLine(lines[1..])
  }

  /** `find` stops at the first line containing `$`, and runs off the end
      when no line does. */
  lemma {:induction false} FirstPriceLineSpec(lines: seq<string>)
    ensures FirstPriceLine(lines) <= |lines|
    ensures forall j :: 0 <= j < FirstPriceLine(lines) ==> '$' !in lines[j]
    ensures FirstPriceLine(lines) < |lines| ==> '$' in lines[FirstPriceLine(lines)]
    decreases |lines|
  {
    if |lines| > 0 && '$' !in lines[0] {
      FirstPriceLineSpec(lines[1..]);
      assert forall j :: 1 <= j < |lines| ==> lines[j] == lines[1..][j - 1];
    }
  }

  /** The value of a string of digits, 0 for the empty string. */
  function PriceOfDigits(ds: string): int
    requires AllDigits(ds)
  {
    if ds == "" then 0 else DigitsValue(ds)
  }

  /** On a string of digits, `parseInt(ds) || 0` is its value, and 0 for
      the empty string, whose `parseInt` is NaN. */
  lemma PriceOfDigitsIsParseInt(ds: string)
    requires AllDigits(ds)
    ensures PriceOfDigits(ds) == ParseIntOrZero(ds)
  {
    if ds != "" {
      ParseIntOfDigits(ds);
    }
  }

  /** The price a price line gives is the value of its digits. */
  lemma PriceOfLine(priceText: string)
    ensures AllDigits(KeepDigits(priceText))
    ensures ParseIntOrZero(KeepDigits(priceText)) == PriceOfDigits(KeepDigits(priceText))
  {
    KeepDigitsSpec(priceText);
    PriceOfDigitsIsParseInt(KeepDigits(priceText));
  }

  /** The price read from the lines of a card, as `CardPrice` reads it. */
  function LinesPrice(lines: seq<string>): int {
    var k := FirstPriceLine(lines);
    ParseIntOrZero(KeepDigits(if k < |lines| then lines[k] else "0"))
  }

  /** `LinesPrice` on any lines: 0 without a `$` line, the digits' value of
      the first `$` line otherwise. */
  lemma LinesPriceSpec(lines: seq<string>)
    ensures (forall j :: 0 <= j < |lines| ==> '$' !in lines[j]) ==> LinesPrice(lines) == 0
    ensures forall k :: 0 <= k < |lines| && '$' in lines[k] && (forall j :: 0 <= j < k ==> '$' !in lines[j]) ==>
              AllDigits(KeepDigits(lines[k])) && LinesPrice(lines) == PriceOfDigits(KeepDigits(lines[k]))
    ensures LinesPrice(lines) >= 0
  {
    FirstPriceLineSpec(lines);
    var k := FirstPriceLine(lines);
    var priceText := if k < |lines| then lines[k] else "0";
    PriceOfLine(priceText);
    if k == |lines| {
      assert KeepDigits("0") == "0";
      assert DigitsValue("0") == 0 by {
        assert "0"[..0] == "";
      }
    }
    forall k' | 0 <= k' < |lines| && '$' in lines[k'] && (forall j :: 0 <= j < k' ==> '$' !in lines[j])
      ensures AllDigits(KeepDigits(lines[k'])) && LinesPrice(lines) == PriceOfDigits(KeepDigits(lines[k']))
    {
      assert k' == k;
    }
  }

  /** The price of a card: the integer read from the digits of the first
      line with `$` (or `'0'` when there is none), with NaN read as 0. */
  function CardPrice(text: string): int {
    LinesPrice(Split(text, '\n'))
  }

  /** The price is the number formed by the digits of the first line that
      contains `$`, and 0 when no line contains `$` or that line has no
      digit. */
  lemma CardPriceSpec(text: string)
    ensures var lines := Split(text, '\n');
            (forall j :: 0 <= j < |lines| ==> '$' !in lines[j]) ==> CardPrice(text) == 0
    ensures var lines := Split(text, '\n');
            forall k :: 0 <= k < |lines| && '$' in lines[k] && (forall j :: 0 <= j < k ==> '$' !in lines[j]) ==>
              AllDigits(KeepDigits(lines[k])) && CardPrice(text) == PriceOfDigits(KeepDigits(lines[k]))
    ensures CardPrice(text) >= 0
  {
    var lines := Split(text, '\n');
    LinesPriceSpec(lines);
    assert CardPrice(text) == LinesPrice(lines);
  }

  /** One card of the per-card loop: the record, or `None` when reading its
      text or its `href` throws and the card is skipped. */
  function ParseCard(card: Card): Option<CardItem> {
    if card.text.None? || card.href.HrefFailed? then None
    else
      var href := if card.href.Href? then card.href.value else "";
      Some(CardItem(CardTitle(card.text.value), FullUrl(href), CardPrice(card.text.value)))
  }

  /** The records of a page's cards, in card order. */
  function ParseCards(cards: seq<Card>): seq<CardItem> {
    Present(cards, ParseCard)
  }

  /** A page whose cards can all be read gives one record per card, in
      card order; the records of a page are exactly those of its readable
      cards. */
  lemma ParseCardsSpec(cards: seq<Card>)
    ensures (forall j :: 0 <= j < |cards| ==> ParseCard(cards[j]).Some?) ==>
              && |ParseCards(cards)| == |cards|
              && forall j :: 0 <= j < |cards| ==> ParseCards(cards)[j] == ParseCard(cards[j]).value
    ensures forall item :: item in ParseCards(cards) <==>
              exists j :: 0 <= j < |cards| && ParseCard(cards[j]) == Some(item)
  {
    if forall j :: 0 <= j < |cards| ==> ParseCard(cards[j]).Some? {
      PresentAll(cards, ParseCard);
    }
    forall item
      ensures item in ParseCards(cards) <==> exists j :: 0 <= j < |cards| && ParseCard(cards[j]) == Some(item)
    {
      PresentMembership(cards, ParseCard, item);
    }
  }

  /** The per-card loop: a card whose text or `href` cannot be read is
      skipped; the others are pushed in order. */
  method CollectCards(cards: seq<Card>) returns (newProducts: seq<CardItem>)
    ensures newProducts == ParseCards(cards)
  {
    newProducts := [];
    for i := 0 to |cards|
      invariant newProducts == ParseCards(cards[..i])
    {
      assert cards[..i + 1][..i] == cards[..i];
      var card := cards[i];
      if card.text.Some? && !card.href.HrefFailed? {
        var href := if card.href.Href? then card.href.value else "";
        var title := CardTitle(card.text.value);
        var fullUrl := if StartsWith(href, "http") then href else SiteOrigin + href;
        newProducts := newProducts + [CardItem(title, fullUrl, CardPrice(card.text.value))];
      }
    }
    assert cards[..|cards|] == cards;
  }

  // ---------------------------------------------------------------------------
  // The page loop
  // ---------------------------------------------------------------------------

  /** A page after which the loop goes on, provided the cap allows it. */
  predicate Continues(l: Listing) {
    l.Loaded? && |l.cards| > 0 && l.arrow.ArrowEnabled?
  }

  /** The records the per-card loop takes from a visited page. */
  function PageItems(l: Listing): seq<CardItem> {
    if l.Loaded? then ParseCards(l.cards) else []
  }

  /** Why the loop stops at a page after which it does not go on. */
  function Outcome(l: Listing): Stop
    requires !Continues(l)
  {
    match l
    case PageFailed => Failed
    case SelectorTimeout => Timeout
    case Loaded(cards, _, arrow) =>
      if |cards| == 0 then NoProducts
      else if arrow.ArrowFailed? then Failed
      else LastPage
  }

  /** The rest of one category's page loop from page `pageNum` at `url`,
      for a given derivation `next` of the following address (the script's
      is `NextListingUrl`). */
  function Crawl(browse: Browse, next: NextUrl, url: string, pageNum: nat): Path
    requires pageNum >= 1
    decreases MaxPages + 1 - pageNum
  {
    if pageNum > MaxPages then Path([], CapReached)
    else
      var l := browse(url);
      if Continues(l) then
        var rest := Crawl(browse, next, next(l.landedUrl, pageNum), pageNum + 1);
        Path([url] + rest.visited, rest.stop)
      else Path([url], Outcome(l))
  }

  /** The pages visited from page `pageNum` on: never more than the cap
      allows, and at least the one at `url`. */
  lemma {:induction false} CrawlBound(browse: Browse, next: NextUrl, url: string, pageNum: nat)
    requires 1 <= pageNum <= MaxPages
    ensures 1 <= |Crawl(browse, next, url, pageNum).visited| <= MaxPages + 1 - pageNum
    decreases MaxPages + 1 - pageNum
  {
    var l := browse(url);
    if Continues(l) && pageNum < MaxPages {
      CrawlBound(browse, next, next(l.landedUrl, pageNum), pageNum + 1);
    }
  }

  /** The visited pages form a chain: it starts at `url`, every page but the
      last had product cards and an enabled next-page control, and each next
      page is the landed URL of the one before with `page` set to its own
      page number. */
  lemma {:induction false} CrawlChain(browse: Browse, next: NextUrl, url: string, pageNum: nat)
    requires 1 <= pageNum <= MaxPages
    ensures var v := Crawl(browse, next, url, pageNum).visited;
            && v[0] == url
            && forall k :: 0 <= k < |v| - 1 ==>
                 && Continues(browse(v[k]))
                 && v[k + 1] == next(browse(v[k]).landedUrl, pageNum + k)
    decreases MaxPages + 1 - pageNum
  {
    var l := browse(url);
    CrawlBound(browse, next, url, pageNum);
    if Continues(l) && pageNum < MaxPages {
      var nextUrl := next(l.landedUrl, pageNum);
      CrawlChain(browse, next, nextUrl, pageNum + 1);
      CrawlBound(browse, next, nextUrl, pageNum + 1);
      var w := Crawl(browse, next, nextUrl, pageNum + 1).visited;
      var v := Crawl(browse, next, url, pageNum).visited;
      assert v == [url] + w;
      forall k | 0 <= k < |v| - 1
        ensures Continues(browse(v[k])) && v[k + 1] == next(browse(v[k]).landedUrl, pageNum + k)
      {
        if k > 0 {
          assert v[k] == w[k - 1] && v[k + 1] == w[k];
        }
      }
    }
  }

  /** The reasons for stopping, one page at a time. */
  lemma OutcomeSpec(l: Listing)
    requires !Continues(l)
    ensures Outcome(l) == Failed <==> l.PageFailed? || (l.Loaded? && |l.cards| > 0 && l.arrow.ArrowFailed?)
    ensures Outcome(l) == Timeout <==> l.SelectorTimeout?
    ensures Outcome(l) == NoProducts <==> l.Loaded? && |l.cards| == 0
    ensures Outcome(l) == LastPage <==> l.Loaded? && |l.cards| > 0 && (l.arrow.NoArrow? || l.arrow.ArrowDisabled?)
    ensures Outcome(l) != CapReached
  {
  }

  lemma {:induction false} CrawlLast(browse: Browse, next: NextUrl, url: string, pageNum: nat)
    requires 1 <= pageNum <= MaxPages
    ensures var path := Crawl(browse, next, url, pageNum);
            var l := browse(path.visited[|path.visited| - 1]);
            && (Continues(l) ==> path.stop == CapReached && |path.visited| == MaxPages + 1 - pageNum)
            && (!Continues(l) ==> path.stop == Outcome(l))
    decreases MaxPages + 1 - pageNum
  {
    var l := browse(url);
    CrawlBound(browse, next, url, pageNum);
    if Continues(l) && pageNum < MaxPages {
      var nextUrl := next(l.landedUrl, pageNum);
      CrawlLast(browse, next, nextUrl, pageNum + 1);
      CrawlBound(browse, next, nextUrl, pageNum + 1);
      var w := Crawl(browse, next, nextUrl, pageNum + 1).visited;
      assert Crawl(browse, next, url, pageNum).visited == [url] + w;
    }
  }

  /** The loop ends for exactly the reason the last visited page gives:
      navigation failure or a throwing next-page control, a timeout, a page
      without cards, a last page, or, only after a page that would have
      continued, the cap, with the cap's worth of pages visited. */
  lemma CrawlStop(browse: Browse, next: NextUrl, url: string, pageNum: nat)
    requires 1 <= pageNum <= MaxPages
    ensures var path := Crawl(browse, next, url, pageNum);
            var l := browse(path.visited[|path.visited| - 1]);
            && (path.stop == Failed <==> l.PageFailed? || (l.Loaded? && |l.cards| > 0 && l.arrow.ArrowFailed?))
            && (path.stop == Timeout <==> l.SelectorTimeout?)
            && (path.stop == NoProducts <==> l.Loaded? && |l.cards| == 0)
            && (path.stop == LastPage <==> l.Loaded? && |l.cards| > 0 && (l.arrow.NoArrow? || l.arrow.ArrowDisabled?))
            && (path.stop == CapReached <==> Continues(l))
            && (path.stop == CapReached ==> |path.visited| == MaxPages + 1 - pageNum)
  {
    CrawlBound(browse, next, url, pageNum);
    CrawlLast(browse, next, url, pageNum);
    var path := Crawl(browse, next, url, pageNum);
    var l := browse(path.visited[|path.visited| - 1]);
    if !Continues(l) {
      OutcomeSpec(l);
    }
  }

  /** The records of the visited pages, page after page. */
  function ItemsOf(browse: Browse, urls: seq<string>): seq<CardItem> {
    if |urls| == 0 then [] else ItemsOf(browse, urls[..|urls| - 1]) + PageItems(browse(urls[|urls| - 1]))
  }

  /** Visiting one more page appends that page's records. */
  lemma ItemsOfSnoc(browse: Browse, urls: seq<string>, url: string)
    ensures ItemsOf(browse, urls + [url]) == ItemsOf(browse, urls) + PageItems(browse(url))
  {
    assert (urls + [url])[..|urls|] == urls;
  }

  /** One category's crawl: its page loop and the records of its pages. */
  function CategoryLog(browse: Browse, startUrl: string): CrawlLog<CardItem> {
    var path := Crawl(browse, NextListingUrl, startUrl, 1);
    CrawlLog(path.visited, ItemsOf(browse, path.visited), path.stop)
  }

  /** One step of `Crawl`: the page at `url` and the rest of the loop. */
  lemma CrawlStep(browse: Browse, next: NextUrl, url: string, pageNum: nat)
    requires 1 <= pageNum <= MaxPages
    ensures var l := browse(url);
            var path := Crawl(browse, next, url, pageNum);
            && (Continues(l) ==>
                  var rest := Crawl(browse, next, next(l.landedUrl, pageNum), pageNum + 1);
                  path == Path([url] + rest.visited, rest.stop))
            && (!Continues(l) ==> path == Path([url], Outcome(l)))
  {
  }

  /** What is left of the loop after the page at `url` has been visited,
      seen from the whole path `whole` with `before` visited earlier. */
  lemma CrawlAdvance(browse: Browse, next: NextUrl, whole: Path, before: seq<string>, url: string, pageNum: nat)
    requires 1 <= pageNum <= MaxPages
    requires whole.visited == before + Crawl(browse, next, url, pageNum).visited
    requires whole.stop == Crawl(browse, next, url, pageNum).stop
    ensures var l := browse(url);
            && (Continues(l) ==>
                  var rest := Crawl(browse, next, next(l.landedUrl, pageNum), pageNum + 1);
                  whole.visited == (before + [url]) + rest.visited && whole.stop == rest.stop)
            && (!Continues(l) ==> whole.visited == before + [url] && whole.stop == Outcome(l))
  {
    CrawlStep(browse, next, url, pageNum);
    var l := browse(url);
    if Continues(l) {
      ConcatAssoc(before, [url], Crawl(browse, next, next(l.landedUrl, pageNum), pageNum + 1).visited);
    }
  }

  /** One pass of the page loop, seen from the whole path: the page's
      records extend those of the pages before, and the rest of the path is
      either empty, with the stop reason of the page, or the crawl from the
      next address. */
  lemma LoopStep(browse: Browse, next: NextUrl, whole: Path, before: seq<string>, url: string, pageNum: nat,
                 newProducts: seq<CardItem>, nextUrl: Option<string>, stop: Stop)
    requires 1 <= pageNum <= MaxPages
    requires whole.visited == before + Crawl(browse, next, url, pageNum).visited
    requires whole.stop == Crawl(browse, next, url, pageNum).stop
    requires newProducts == PageItems(browse(url))
    requires nextUrl.Some? <==> Continues(browse(url))
    requires nextUrl.Some? ==> nextUrl.value == next(browse(url).landedUrl, pageNum)
    requires nextUrl.None? ==> stop == Outcome(browse(url))
    ensures ItemsOf(browse, before + [url]) == ItemsOf(browse, before) + newProducts
    ensures nextUrl.None? ==> whole.visited == before + [url] && whole.stop == stop
    ensures nextUrl.Some? ==>
              && whole.visited == (before + [url]) + Crawl(browse, next, nextUrl.value, pageNum + 1).visited
              && whole.stop == Crawl(browse, next, nextUrl.value, pageNum + 1).stop
  {
    CrawlAdvance(browse, next, whole, before, url, pageNum);
    ItemsOfSnoc(browse, before, url);
  }

  /** One pass of the loop body: the records pushed for the page at
      `currentUrl`, and either the address of the next page or the reason
      the loop stops. */
  method VisitPage(browse: Browse, next: NextUrl, currentUrl: string, pageNum: int)
    returns (newProducts: seq<CardItem>, nextUrl: Option<string>, stop: Stop)
    ensures newProducts == PageItems(browse(currentUrl))
    ensures nextUrl.Some? <==> Continues(browse(currentUrl))
    ensures nextUrl.Some? ==> nextUrl.value == next(browse(currentUrl).landedUrl, pageNum)
    ensures nextUrl.None? ==> stop == Outcome(browse(currentUrl))
  {
    nextUrl := None;
    newProducts := [];
    var listing := browse(currentUrl);
    if listing.PageFailed? {
      return [], None, Failed;
    }
    if listing.SelectorTimeout? {
      return [], None, Timeout;
    }
    if |listing.cards| == 0 {
      return [], None, NoProducts;
    }
    newProducts := CollectCards(listing.cards);
    var following := next(listing.landedUrl, pageNum);
    if listing.arrow.ArrowFailed? {
      stop := Failed;
    } else if listing.arrow.ArrowEnabled? {
      nextUrl := Some(following);
      stop := CapReached;
    } else {
      stop := LastPage;
    }
  }

  /** The `while (pageNum <= 5)` loop for one start URL, for a given
      derivation of the following address. */
  method PageLoop(browse: Browse, next: NextUrl, startUrl: string) returns (log: CrawlLog<CardItem>)
    ensures var path := Crawl(browse, next, startUrl, 1);
            log == CrawlLog(path.visited, ItemsOf(browse, path.visited), path.stop)
  {
    var currentUrl := startUrl;
    var pageNum := 1;
    var visited: seq<string> := [];
    var items: seq<CardItem> := [];
    var stop := CapReached;
    ghost var whole := Crawl(browse, next, startUrl, 1);
    while pageNum <= MaxPages
      invariant 1 <= pageNum <= MaxPages + 1
      invariant whole.visited == visited + Crawl(browse, next, currentUrl, pageNum).visited
      invariant whole.stop == Crawl(browse, next, currentUrl, pageNum).stop
      invariant items == ItemsOf(browse, visited)
      decreases MaxPages + 1 - pageNum
    {
      var newProducts, nextUrl, reason := VisitPage(browse, next, currentUrl, pageNum);
      LoopStep(browse, next, whole, visited, currentUrl, pageNum, newProducts, nextUrl, reason);
      visited := visited + [currentUrl];
      items := items + newProducts;
      if nextUrl.None? {
        stop := reason;
        break;
      }
      currentUrl := nextUrl.value;
      pageNum := pageNum + 1;
    }
    assert whole.visited == visited && whole.stop == stop;
    log := CrawlLog(visited, items, stop);
  }

  /** One category's crawl, with the script's next-page address. */
  method CrawlCategory(browse: Browse, startUrl: string) returns (log: CrawlLog<CardItem>)
    ensures log == CategoryLog(browse, startUrl)
  {
    log := PageLoop(browse, NextListingUrl, startUrl);
  }

  /** The `for` loop over start URLs: one crawl per URL, in order. The
      crawl of one category is a parameter, so that both scripts share the
      loop; `CrawlCategory` shows it is what the page loop computes. */
  method CrawlEach<L>(startUrls: seq<string>, crawl: string -> L) returns (logs: seq<L>)
    ensures |logs| == |startUrls|
    ensures forall i :: 0 <= i < |startUrls| ==> logs[i] == crawl(startUrls[i])
  {
    logs := [];
    for i := 0 to |startUrls|
      invariant |logs| == i
      invariant forall j :: 0 <= j < i ==> logs[j] == crawl(startUrls[j])
    {
      logs := logs + [crawl(startUrls[i])];
    }
  }

  /** The whole script after loading the mapped categories: optional filter,
      flattening, then one crawl per start URL (none when there is no start
      URL). */
  method Run(browse: Browse, categories: seq<CategoryNode>, filterArg: Option<string>)
    returns (startUrls: seq<string>, logs: seq<CrawlLog<CardItem>>)
    ensures startUrls == Flatten(MaybeFilter(categories, filterArg))
    ensures |logs| == |startUrls|
    ensures forall i :: 0 <= i < |startUrls| ==> logs[i] == CategoryLog(browse, startUrls[i])
  {
    var tree := categories;
    if filterArg.Some? && filterArg.value != "" {
      tree := FilterTree(categories, filterArg.value);
    }
    startUrls := CollectStartUrls(tree);
    if |startUrls| == 0 {
      return startUrls, [];
    }
    logs := CrawlEach(startUrls, u => CategoryLog(browse, u));
  }
}
