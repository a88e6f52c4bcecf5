/**
 * The demonstration scraper: the same start URLs as the batch scraper, of
 * which only the first two are crawled, at most two listing pages each. It
 * only logs a short title per product card; a card whose text cannot be
 * read ends the category, and a page without cards does not.
 */
module SimpleScrape {
  import opened JsString
  import opened SearchParams
  import opened Types
  import opened Browser
  import opened CategoryTree
  import opened Pagination
  import Scrape

  const MaxPages := 2
  const DemoCount := 2
  const TitleWidth := 30
  const UnknownTitle := "Unknown"

  /** `startUrls.slice(0, 2)`. */
  function DemoUrls(startUrls: seq<string>): (r: seq<string>)
    ensures r <= startUrls
    ensures |r| == if |startUrls| < DemoCount then |startUrls| else DemoCount
  {
    if |startUrls| < DemoCount then startUrls else startUrls[..DemoCount]
  }

  // ---------------------------------------------------------------------------
  // Card titles
  // ---------------------------------------------------------------------------

  /** `s.substring(0, n)` for `0 <= n`. */
  function Prefix(s: string, n: nat): (r: string)
    ensures r <= s
    ensures |r| == if |s| < n then |s| else n
  {
    if |s| < n then s else s[..n]
  }

  /** The logged title: `(lines[0] || 'Unknown').substring(0, 30)`. */
  function LoggedTitle(text: string): string {
    var first := Split(text, '\n')[0];
    Prefix(if first != "" then first else UnknownTitle, TitleWidth)
  }

  /** The logged title is at most thirty characters of the card's first
      line, the whole first line when it is that short, and the placeholder
      when the first line is empty. */
  lemma LoggedTitleSpec(text: string)
    ensures |LoggedTitle(text)| <= TitleWidth
    ensures text == "" || text[0] == '\n' ==> LoggedTitle(text) == UnknownTitle
    ensures text != "" && text[0] != '\n' ==>
              var t := LoggedTitle(text);
              && t != "" && t <= text && '\n' !in t
              && (|t| < TitleWidth && |t| < |text| ==> text[|t|] == '\n')
  {
    SplitFirstPiece(text, '\n');
  }

  /** Index of the first card whose text cannot be read, `|cards|` when all
      can. */
  function FirstUnreadable(cards: seq<Card>): (k: nat)
    ensures k <= |cards|
    ensures forall j :: 0 <= j < k ==> cards[j].text.Some?
    ensures k < |cards| ==> cards[k].text.None?
  {
    if |cards| == 0 || cards[0].text.None? then 0
    else 1 + FirstUnreadable(cards[1..])
  }

  /** The titles `title` gives for the cards before the first unreadable
      one; the logged titles are `ReadTitles`. The properties below hold for
      any `title`, which keeps the text functions out of their proofs. */
  function TitlesWith(cards: seq<Card>, title: string -> string): seq<string> {
    if |cards| == 0 || cards[0].text.None? then []
    else [title(cards[0].text.value)] + TitlesWith(cards[1..], title)
  }

  /** The titles the per-card loop logs before its first unreadable card. */
  function ReadTitles(cards: seq<Card>): seq<string> {
    TitlesWith(cards, LoggedTitle)
  }

  /** One title per card up to the first unreadable one, in card order. */
  lemma {:induction false} TitlesWithSpec(cards: seq<Card>, title: string -> string)
    ensures |TitlesWith(cards, title)| == FirstUnreadable(cards)
    ensures forall j :: 0 <= j < FirstUnreadable(cards) ==>
              TitlesWith(cards, title)[j] == title(cards[j].text.value)
    decreases |cards|
  {
    if |cards| > 0 && cards[0].text.Some? {
      TitlesWithSpec(cards[1..], title);
    }
  }

  /** One logged title per card up to the first unreadable one, in card
      order. */
  lemma ReadTitlesSpec(cards: seq<Card>)
    ensures |ReadTitles(cards)| == FirstUnreadable(cards)
    ensures forall j :: 0 <= j < FirstUnreadable(cards) ==>
              ReadTitles(cards)[j] == LoggedTitle(cards[j].text.value)
  {
    TitlesWithSpec(cards, LoggedTitle);
  }

  /** The per-card loop for any title function: log each card's title;
      reading a card's text may throw, which ends the loop and the
      category. */
  method TitlesLoop(cards: seq<Card>, title: string -> string) returns (titles: seq<string>, readAll: bool)
    ensures titles == TitlesWith(cards, title)
    ensures readAll <==> FirstUnreadable(cards) == |cards|
  {
    TitlesWithSpec(cards, title);
    titles := [];
    var i := 0;
    while i < |cards|
      invariant 0 <= i <= |cards|
      invariant forall j :: 0 <= j < i ==> cards[j].text.Some?
      invariant |titles| == i
      invariant forall j :: 0 <= j < i ==> titles[j] == title(cards[j].text.value)
    {
      if cards[i].text.None? {
        FirstUnreadablePrefix(cards, i);
        return titles, false;
      }
      titles := titles + [title(cards[i].text.value)];
      i := i + 1;
    }
    FirstUnreadablePrefix(cards, |cards|);
    readAll := true;
  }

  /** The per-card loop of the demo, with the logged title. */
  method LogTitles(cards: seq<Card>) returns (titles: seq<string>, readAll: bool)
    ensures titles == ReadTitles(cards)
    ensures readAll <==> FirstUnreadable(cards) == |cards|
  {
    titles, readAll := TitlesLoop(cards, LoggedTitle);
  }

  /** A prefix of readable cards followed by an unreadable card or the end
      fixes where the first unreadable card is. */
  lemma {:induction false} FirstUnreadablePrefix(cards: seq<Card>, i: nat)
    requires i <= |cards|
    requires forall j :: 0 <= j < i ==> cards[j].text.Some?
    requires i < |cards| ==> cards[i].text.None?
    ensures FirstUnreadable(cards) == i
    decreases i
  {
    if i > 0 {
      FirstUnreadablePrefix(cards[1..], i - 1);
    }
  }

  // ---------------------------------------------------------------------------
  // The page loop
  // ---------------------------------------------------------------------------

  /** A page after which the loop goes on, provided the cap allows it: every
      card could be read and the next-page control is enabled (a page
      without cards qualifies). */
  predicate Continues(l: Listing) {
    l.Loaded? && FirstUnreadable(l.cards) == |l.cards| && l.arrow.ArrowEnabled?
  }

  /** The titles the per-card loop logs on a visited page. */
  function PageTitles(l: Listing): seq<string> {
    if l.Loaded? then ReadTitles(l.cards) else []
  }

  /** Why the loop stops at a page after which it does not go on. */
  function Outcome(l: Listing): Stop
    requires !Continues(l)
  {
    match l
    case PageFailed => Failed
    case SelectorTimeout => Timeout
    case Loaded(cards, _, arrow) =>
      if FirstUnreadable(cards) < |cards| || arrow.ArrowFailed? then Failed
      else LastPage
  }

  /** The rest of one category's page loop from page `pageNum` at `url`. */
  function Crawl(browse: Browse, next: NextUrl, url: string, pageNum: nat): Path
    requires pageNum >= 1
    decreases MaxPages + 1 - pageNum
  {
    if pageNum > MaxPages then Path([], CapReached)
    else
      var l := browse(url);
      if Continues(l) then
        var rest := Crawl(browse, next, next(l.landedUrl, pageNum), pageNum + 1);
        Path([url] + rest.visited, rest.stop)
      else Path([url], Outcome(l))
  }

  lemma CrawlStep(browse: Browse, next: NextUrl, url: string, pageNum: nat)
    requires 1 <= pageNum <= MaxPages
    ensures var l := browse(url);
            var path := Crawl(browse, next, url, pageNum);
            && (Continues(l) ==>
                  var rest := Crawl(browse, next, next(l.landedUrl, pageNum), pageNum + 1);
                  path == Path([url] + rest.visited, rest.stop))
            && (!Continues(l) ==> path == Path([url], Outcome(l)))
  {
  }

  /** What is left of the loop after the page at `url` has been visited,
      seen from the whole path `whole` with `before` visited earlier. */
  lemma CrawlAdvance(browse: Browse, next: NextUrl, whole: Path, before: seq<string>, url: string, pageNum: nat)
    requires 1 <= pageNum <= MaxPages
    requires whole.visited == before + Crawl(browse, next, url, pageNum).visited
    requires whole.stop == Crawl(browse, next, url, pageNum).stop
    ensures var l := browse(url);
            && (Continues(l) ==>
                  var rest := Crawl(browse, next, next(l.landedUrl, pageNum), pageNum + 1);
                  whole.visited == (before + [url]) + rest.visited && whole.stop == rest.stop)
            && (!Continues(l) ==> whole.visited == before + [url] && whole.stop == Outcome(l))
  {
    CrawlStep(browse, next, url, pageNum);
    var l := browse(url);
    if Continues(l) {
      ConcatAssoc(before, [url], Crawl(browse, next, next(l.landedUrl, pageNum), pageNum + 1).visited);
    }
  }

  /** At most two pages of a category are visited, and at least one. */
  lemma {:induction false} CrawlBound(browse: Browse, next: NextUrl, url: string, pageNum: nat)
    requires 1 <= pageNum <= MaxPages
    ensures 1 <= |Crawl(browse, next, url, pageNum).visited| <= MaxPages + 1 - pageNum
    decreases MaxPages + 1 - pageNum
  {
    var l := browse(url);
    if Continues(l) && pageNum < MaxPages {
      CrawlBound(browse, next, next(l.landedUrl, pageNum), pageNum + 1);
    }
  }

  /** The loop ends for the reason its last visited page gives: a throwing
      navigation, card read or next-page control; a timeout; a last page;
      or the cap after a page that would have continued. A page without
      product cards is never a reason of its own. */
  lemma {:induction false} CrawlStop(browse: Browse, next: NextUrl, url: string, pageNum: nat)
    requires 1 <= pageNum <= MaxPages
    ensures var path := Crawl(browse, next, url, pageNum);
            var l := browse(path.visited[|path.visited| - 1]);
            && (path.stop == Failed <==>
                  l.PageFailed? || (l.Loaded? && (FirstUnreadable(l.cards) < |l.cards| || l.arrow.ArrowFailed?)))
            && (path.stop == Timeout <==> l.SelectorTimeout?)
            && (path.stop == LastPage <==>
                  l.Loaded? && FirstUnreadable(l.cards) == |l.cards| && (l.arrow.NoArrow? || l.arrow.ArrowDisabled?))
            && (path.stop == CapReached <==> Continues(l))
            && (path.stop == CapReached ==> |path.visited| == MaxPages + 1 - pageNum)
            && path.stop != NoProducts
    decreases MaxPages + 1 - pageNum
  {
    var l := browse(url);
    CrawlBound(browse, next, url, pageNum);
    if Continues(l) && pageNum < MaxPages {
      var nextUrl := next(l.landedUrl, pageNum);
      CrawlStop(browse, next, nextUrl, pageNum + 1);
      CrawlBound(browse, next, nextUrl, pageNum + 1);
      var w := Crawl(browse, next, nextUrl, pageNum + 1).visited;
      assert Crawl(browse, next, url, pageNum).visited == [url] + w;
    }
  }

  /** Where the two scrapers part: a loaded page without product cards
      whose next-page control is enabled ends a batch category, while the
      demonstration goes on to the next page. */
  lemma EmptyPageDiffers(browse: Browse, next: NextUrl, url: string)
    requires var l := browse(url); l.Loaded? && |l.cards| == 0 && l.arrow.ArrowEnabled?
    ensures Scrape.Crawl(browse, next, url, 1) == Path([url], NoProducts)
    ensures var path := Crawl(browse, next, url, 1);
            && |path.visited| == 2 && path.visited[0] == url
            && path.visited[1] == next(browse(url).landedUrl, 1)
  {
  }

  /** The titles logged on the visited pages, page after page. */
  function TitlesOf(browse: Browse, urls: seq<string>): seq<string> {
    if |urls| == 0 then [] else TitlesOf(browse, urls[..|urls| - 1]) + PageTitles(browse(urls[|urls| - 1]))
  }

  lemma TitlesOfSnoc(browse: Browse, urls: seq<string>, url: string)
    ensures TitlesOf(browse, urls + [url]) == TitlesOf(browse, urls) + PageTitles(browse(url))
  {
    assert (urls + [url])[..|urls|] == urls;
  }

  /** One category's crawl: its page loop and the titles it logged. */
  function CategoryLog(browse: Browse, startUrl: string): CrawlLog<string> {
    var path := Crawl(browse, NextListingUrl, startUrl, 1);
    CrawlLog(path.visited, TitlesOf(browse, path.visited), path.stop)
  }

  /** One pass of the loop body. */
  method VisitPage(browse: Browse, next: NextUrl, currentUrl: string, pageNum: int)
    returns (titles: seq<string>, nextUrl: Option<string>, stop: Stop)
    ensures titles == PageTitles(browse(currentUrl))
    ensures nextUrl.Some? <==> Continues(browse(currentUrl))
    ensures nextUrl.Some? ==> nextUrl.value == next(browse(currentUrl).landedUrl, pageNum)
    ensures nextUrl.None? ==> stop == Outcome(browse(currentUrl))
  {
    nextUrl := None;
    titles := [];
    var listing := browse(currentUrl);
    if listing.PageFailed? {
      return [], None, Failed;
    }
    if listing.SelectorTimeout? {
      return [], None, Timeout;
    }
    var readAll;
    titles, readAll := LogTitles(listing.cards);
    if !readAll {
      return titles, None, Failed;
    }
    var following := next(listing.landedUrl, pageNum);
    if listing.arrow.ArrowFailed? {
      stop := Failed;
    } else if listing.arrow.ArrowEnabled? {
      nextUrl := Some(following);
      stop := CapReached;
    } else {
      stop := LastPage;
    }
  }

  /** The `while (pageNum <= 2)` loop for one start URL. */
  method PageLoop(browse: Browse, next: NextUrl, startUrl: string) returns (log: CrawlLog<string>)
    ensures var path := Crawl(browse, next, startUrl, 1);
            log == CrawlLog(path.visited, TitlesOf(browse, path.visited), path.stop)
  {
    var currentUrl := startUrl;
    var pageNum := 1;
    var visited: seq<string> := [];
    var titles: seq<string> := [];
    var stop := CapReached;
    ghost var whole := Crawl(browse, next, startUrl, 1);
    while pageNum <= MaxPages
      invariant 1 <= pageNum <= MaxPages + 1
      invariant whole.visited == visited + Crawl(browse, next, currentUrl, pageNum).visited
      invariant whole.stop == Crawl(browse, next, currentUrl, pageNum).stop
      invariant titles == TitlesOf(browse, visited)
      decreases MaxPages + 1 - pageNum
    {
      CrawlAdvance(browse, next, whole, visited, currentUrl, pageNum);
      TitlesOfSnoc(browse, visited, currentUrl);
      visited := visited + [currentUrl];
      var pageTitles, nextUrl, reason := VisitPage(browse, next, currentUrl, pageNum);
      titles := titles + pageTitles;
      if nextUrl.None? {
        stop := reason;
        break;
      }
      currentUrl := nextUrl.value;
      pageNum := pageNum + 1;
    }
    assert whole.visited == visited && whole.stop == stop;
    log := CrawlLog(visited, titles, stop);
  }

  /** One category's crawl, with the script's next-page address. */
  method CrawlCategory(browse: Browse, startUrl: string) returns (log: CrawlLog<string>)
    ensures log == CategoryLog(browse, startUrl)
  {
    log := PageLoop(browse, NextListingUrl, startUrl);
  }

  /** The whole script after loading the mapped categories: optional filter,
      flattening, then one crawl for each of the first two start URLs. */
  method Run(browse: Browse, categories: seq<CategoryNode>, filterArg: Option<string>)
    returns (startUrls: seq<string>, logs: seq<CrawlLog<string>>)
    ensures startUrls == Flatten(MaybeFilter(categories, filterArg))
    ensures |logs| == |DemoUrls(startUrls)| <= DemoCount
    ensures forall i :: 0 <= i < |logs| ==> logs[i] == CategoryLog(browse, startUrls[i])
  {
    var tree := categories;
    if filterArg.Some? && filterArg.value != "" {
      tree := FilterTree(categories, filterArg.value);
    }
    startUrls := CollectStartUrls(tree);
    logs := [];
    if |startUrls| == 0 {
      return;
    }
    logs := Scrape.CrawlEach(DemoUrls(startUrls), u => CategoryLog(browse, u));
  }
}
