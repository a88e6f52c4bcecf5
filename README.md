# Falabella product scraper — a Dafny model

This project models the core of a browser-driven product scraper for the
Falabella online store. It covers:

- the two request handlers of the crawler: the category listing handler and
  the product detail handler;
- the batch scraper script, which filters and flattens the category tree
  and walks at most five listing pages per category;
- the smaller demonstration scraper: two categories, two pages each,
  titles only;
- category discovery from the site's menu;
- the one-page debugging script for JSON-LD product data.

Everything is stated over plain data. The browser is replaced by what it
reports (module `Browser`): a listing visit is `PageFailed`,
`SelectorTimeout` or the loaded cards, the landed URL and the next-page
control. A product page is its JSON-LD script, its `__NEXT_DATA__`
script, its title and its price text. A menu is its labels with their
panels. A call that throws is a constructor of its own. The store list is a
parameter, and `Falabella.ConfiguredStores` is the list as configured. The
command-line filter is a parameter too.

Modules:

- `JsString`, `JsNumber` and `JsValue` model the JavaScript built-ins the
  code relies on:
  - `toLowerCase`, `includes`, `startsWith`, `split`, `trim`;
  - `replace(/\D/g, '')`;
  - `parseInt`, `parseFloat`, `Number.prototype.toString`;
  - truthiness, `||`, property reads that throw on `null`/`undefined`,
    and `?.`.
- `SearchParams` models the part of the WHATWG URL API used for
  pagination: `new URL`, `searchParams.get`/`set`, `toString`.
- `Types` holds the records of `src/types.ts` and the relative-to-absolute
  link rule.
- `CategoryTree` holds `filterTree` and `traverse`.
- `Pagination` holds the page-loop outcome types and the
  next-listing-address rule shared by both scrapers.
- `Scrape`, `SimpleScrape`, `Falabella`, `Discovery` and `DebugFalabella`
  follow one source file each.
- `Collect` is a generic "keep the results that are present" collector.

The loops of the source are methods (`Scrape.PageLoop`,
`Scrape.CollectCards`, `Discovery.ExtractLinks`, `DebugFalabella.CollectBlocks`,
…). Each is proved equal to a recursive specification function, and the
properties are lemmas about those functions. Several specification
functions are written once for an arbitrary per-element function:
`Collect.Present`, `Discovery.ScanWith` and `SimpleScrape.TitlesWith`. The
source's own function is one instance, so each generic lemma states the
source's property for that instance.

## Model

| member | source | states |
|---|---|---|
| Falabella.GetStoreConfig | src/handlers/falabella.ts:13-15 | the result is the first store named `Falabella`; there is none exactly when no store has that name |
| Falabella.StoreIdSpec | src/handlers/falabella.ts:74 | the store id is the first Falabella store's id; it is `unknown` when that id is empty or there is no such store |
| Falabella.ConfiguredStoreId | src/config.ts:6-10 | with the configured store list, records carry the configured UUID |
| Falabella.CurrentPageDefault | src/handlers/falabella.ts:35-36 | a listing without a `page` parameter, or with an empty one, is page 1 |
| Falabella.CurrentPageAfterSet | src/handlers/falabella.ts:36-39 | a `page` value that is set is what the next handler's `parseInt` reads back |
| Falabella.NextPageTextSpec | src/handlers/falabella.ts:39 | the written page text is non-empty and well formed; it reads back as the current page plus one, and a NaN page as NaN |
| Falabella.NextPageUrlEffect | src/handlers/falabella.ts:35-40 | the next listing has `page` = current + 1 (NaN stays NaN); other parameters keep their order; base and fragment are unchanged; the result matches the scrapers' next-page address |
| Falabella.ProductRequests | src/handlers/falabella.ts:24-28 | every enqueued request is a link of the page under the product path, labelled for the product handler and carrying the category name |
| Falabella.ProductRequestsComplete | src/handlers/falabella.ts:24-28 | a product request for a link is enqueued exactly when the link is on the page and under the product path |
| Falabella.ProductRequestsAppend | src/handlers/falabella.ts:24-28 | requests keep the page order of the links |
| Falabella.CategoryHandler | src/handlers/falabella.ts:17-50 | the output is the product requests, then one next-page request exactly when the next-page control is present; every request keeps the category name |
| Falabella.FindProductSpec | src/handlers/falabella.ts:69 | `find` returns the first `Product` element, throws when a nullish element comes first, and finds nothing otherwise |
| Falabella.SelectProductSpec | src/handlers/falabella.ts:69 | a selected entry is typed `Product`; a non-array is used exactly when it is itself typed `Product`; only the search in an array throws |
| Falabella.ImagesOneMain | src/handlers/falabella.ts:83 | a non-empty image list has exactly one main image, the first |
| Falabella.MapProductSpec | src/handlers/falabella.ts:71-85 | id is `sku`, else `productID`, else `unknown`; currency defaults to `CLP`; price is the offer price, else the low price, else 0; raw entry kept; store, address and category come from the caller |
| Falabella.OfferPriceSpec | src/handlers/falabella.ts:77 | the price is the offer's price when truthy, else its low price when truthy, else 0 |
| Falabella.JsonLdStageSpec | src/handlers/falabella.ts:61-90 | JSON-LD yields a record exactly when the script parses to a truthy value from which a `Product` entry is selected without throwing; the record is that entry's mapping |
| Falabella.DomPriceMissing | src/handlers/falabella.ts:113 | an unreadable price element gives price 0 |
| Falabella.DomPriceRead | src/handlers/falabella.ts:121 | a read price is the number formed by the text's digits, and NaN when the text has no digit |
| Falabella.DomRecordSpec | src/handlers/falabella.ts:111-129 | the DOM record has id `unknown`, currency `CLP`, no images, the page title and the request's store, address and category, with the price rules above |
| Falabella.ProductRecordSpec | src/handlers/falabella.ts:57-129 | the record is the JSON-LD one when there is one and the DOM one otherwise; it always carries the store id, address and category; `__NEXT_DATA__` never changes it |
| Falabella.HandleProduct | src/handlers/falabella.ts:53-140 | the handler syncs and then pushes exactly the product record |
| CategoryTree.FilterAppend | src/scrape.ts:16-25 | the filter works sibling by sibling: it distributes over concatenation |
| CategoryTree.FilterMembership | src/scrape.ts:16-25 | the result's nodes are exactly the pruned copies of the input nodes that survive |
| CategoryTree.KeptIffRelevant | src/scrape.ts:18-20 | a node survives exactly when it or a descendant matches the filter case-insensitively |
| CategoryTree.NonEmptyIffRelevant | src/scrape.ts:16-25 | the filtered forest is non-empty exactly when some input node or descendant matches |
| CategoryTree.FilterEmbeds | src/scrape.ts:16-25 | the result is a pruned sub-forest of the input: nodes dropped or children pruned, order kept |
| CategoryTree.AncestorsKept | src/scrape.ts:18-21 | a matching category survives with its whole chain of ancestors |
| CategoryTree.FilterIdempotent | src/scrape.ts:16-25 | filtering twice is filtering once |
| CategoryTree.FilterEmpty | src/scrape.ts:18 | the empty filter keeps the whole tree |
| CategoryTree.MaybeFilter | src/scrape.ts:14-27 | a missing filter leaves the tree alone; a given one applies `filterTree` |
| CategoryTree.FlattenIsPreOrder | src/scrape.ts:30-35 | the start URLs are those of the pre-order node sequence that start with `http`, in that order |
| CategoryTree.FlattenMembership | src/scrape.ts:32 | a URL is a start URL exactly when some node of the tree has it as an `http` address |
| CategoryTree.FlattenFilterSubseq | src/scrape.ts:16-35 | filtering only removes start URLs: the filtered list is a subsequence of the unfiltered one |
| CategoryTree.Traverse | src/scrape.ts:31-34 | `traverse` appends the node's flattened subtree to the list |
| CategoryTree.CollectStartUrls | src/scrape.ts:30-35 | the collected list is the flattening of the forest |
| Types.FullUrlSpec | src/scrape.ts:85-86 | every recorded address starts with `http`; an absolute link is kept, a relative one is prefixed with the site origin; the rule is idempotent |
| Scrape.CardTitleSpec | src/scrape.ts:82-84 | the title is the card text up to its first line break, or `Unknown Product` when that part is empty |
| Scrape.CardPriceSpec | src/scrape.ts:87-90 | the price is the value of the digits of the first line containing `$`; it is 0 when no line has `$` or that line has no digit, and never negative |
| Scrape.FirstPriceLineSpec | src/scrape.ts:89 | `find` stops at the first line holding `$`, no earlier line holds one, and it runs off the end only when no line does |
| Scrape.PriceOfDigitsIsParseInt | src/scrape.ts:90 | on a digit string, `parseInt` with NaN read as 0 gives the string's decimal value, and 0 for the empty string |
| Scrape.PriceOfLine | src/scrape.ts:90 | the characters kept from a price line are digits, and `parseInt` of them with NaN read as 0 is their decimal value |
| Scrape.LinesPriceSpec | src/scrape.ts:89-90 | over any lines, the price is 0 when no line has `$` and otherwise the value of the digits of the first line with `$`; it is never negative |
| Scrape.ParseCardsSpec | src/scrape.ts:80-103 | a fully readable page gives one record per card in order; the records are exactly those of the readable cards |
| Scrape.CollectCards | src/scrape.ts:80-103 | the per-card loop yields the records of the page's readable cards |
| Scrape.CrawlBound | src/scrape.ts:60 | a category visits at least one page and at most five |
| Scrape.CrawlChain | src/scrape.ts:112-119 | visited pages form a chain from the start URL; each page before the last had cards and an enabled next control; each next page is the previous landed URL with `page` advanced |
| Scrape.OutcomeSpec | src/scrape.ts:61-128 | per page, the stop reason is failure, timeout, no products or last page, exactly as the page's state says |
| Scrape.CrawlStop | src/scrape.ts:60-128 | the loop stops for the reason its last page gives; the cap is reached only after a page that would continue, with five pages visited |
| Scrape.LoopStep | src/scrape.ts:61-119 | one pass appends the page's records to those of the pages before; the rest of the path is then empty, ending with the page's stop reason, or it is the crawl from the next address |
| Scrape.VisitPage | src/scrape.ts:61-128 | one loop pass records the page's cards and gives the next address exactly when the loop continues, else the stop reason |
| Scrape.PageLoop | src/scrape.ts:55-129 | the page loop visits exactly the page chain and collects the records of those pages in order |
| Scrape.CrawlCategory | src/scrape.ts:55-129 | one category's crawl uses the script's next-page address |
| Scrape.CrawlEach | src/scrape.ts:55 | one crawl per start URL, in order, for any per-category crawl; both scripts' `Run` use it |
| Scrape.Run | src/scrape.ts:14-55 | the start URLs are the flattened, optionally filtered tree, with one crawl each |
| Pagination.NextListingUrlEffect | src/scrape.ts:112-114 | the next listing URL is the landed URL with `page` = pageNum + 1; other parameters keep their order; base and fragment are unchanged |
| SimpleScrape.DemoUrls | src/simple-scrape.ts:48 | the demo takes the first two start URLs, or all when there are fewer |
| SimpleScrape.LoggedTitleSpec | src/simple-scrape.ts:73-77 | the logged title is at most thirty characters of the first line, or `Unknown` when the first line is empty |
| SimpleScrape.TitlesWithSpec | src/simple-scrape.ts:72-80 | one title per card up to the first unreadable card, in card order |
| SimpleScrape.ReadTitlesSpec | src/simple-scrape.ts:72-80 | the logged titles are the cards' logged titles up to the first unreadable card |
| SimpleScrape.TitlesLoop | src/simple-scrape.ts:72-80 | for any title function, the per-card loop logs the titles of the cards before the first unreadable one and reports whether it read every card |
| SimpleScrape.LogTitles | src/simple-scrape.ts:72-80 | the per-card loop logs the cards' logged titles up to the first unreadable card and reports whether it read every card |
| SimpleScrape.CrawlBound | src/simple-scrape.ts:55 | a category visits one or two pages |
| SimpleScrape.CrawlStop | src/simple-scrape.ts:55-103 | the loop stops on failure (including an unreadable card), timeout, last page or the cap, as its last page says; it never stops for want of products |
| SimpleScrape.EmptyPageDiffers | src/simple-scrape.ts:68-91 | a page with no cards and an enabled next control ends a batch category, but the demo goes on to the next page |
| SimpleScrape.PageLoop | src/simple-scrape.ts:55-104 | the page loop visits exactly the page chain and logs those pages' titles in order |
| SimpleScrape.Run | src/simple-scrape.ts:14-50 | the start URLs are the flattened, optionally filtered tree; at most two of them are crawled |
| Discovery.ScanSources | src/handlers/falabella-discovery.ts:85-104 | each child comes from an accepted link; children, raw `href`s and source indices match one to one, in link order |
| Discovery.ScanDistinct | src/handlers/falabella-discovery.ts:92-94 | no two children share a raw `href`, and every accepted link's `href` is recorded |
| Discovery.ScanFirst | src/handlers/falabella-discovery.ts:86-94 | a link gives a child exactly when it passes the tests and no earlier passing link has its raw `href` |
| Discovery.ScanLinksSpec | src/handlers/falabella-discovery.ts:85-104 | the three properties above, for the link loop's own tests |
| Discovery.ScanLinksStep | src/handlers/falabella-discovery.ts:85-94 | one more link is taken exactly when it passes the tests and its raw `href` has not been seen, and then adds its child, its `href` and its index |
| Discovery.ChildShape | src/handlers/falabella-discovery.ts:89-101 | every child is a depth-2 leaf with non-empty text not mentioning "ver todo" and an absolute address |
| Discovery.RawHrefDedup | src/handlers/falabella-discovery.ts:92-94 | a relative link and its absolute form are both kept, as two children with one address |
| Discovery.ExtractLinks | src/handlers/falabella-discovery.ts:80-104 | the link loop yields the children of the scan |
| Discovery.ExtractCategoryBranch | src/handlers/falabella-discovery.ts:65-111 | no node without a title, a throw when the extraction throws, else the label's depth-1 node with the panel's children |
| Discovery.DiscoverSkips | src/handlers/falabella-discovery.ts:37-48 | an excluded label, a missing title or a throwing extraction contributes nothing; the other entries keep their places |
| Discovery.DiscoverMembership | src/handlers/falabella-discovery.ts:37-49 | a node is discovered exactly when some menu entry contributes it |
| Discovery.DiscoverShape | src/handlers/falabella-discovery.ts:39-49 | every discovered node is a non-excluded label's depth-1 node without an address, whose children are depth-2 leaves |
| Discovery.DiscoverLabels | src/handlers/falabella-discovery.ts:37-49 | the label loop yields the nodes of the entries, in menu order |
| Discovery.Discover | src/handlers/falabella-discovery.ts:20-58 | a failure inside the `try` (navigation, opening the menu, reading the labels) gives no categories; otherwise the label loop's nodes |
| DebugFalabella.ParsedBlocksMembership | src/debug-falabella.ts:40-49 | a value is a block exactly when some script parses to it |
| DebugFalabella.CollectBlocks | src/debug-falabella.ts:40-49 | the collecting loop yields the parsed blocks in document order |
| DebugFalabella.TypeLabels | src/debug-falabella.ts:52-54 | logging the types throws exactly when some block is nullish; otherwise one label per block |
| DebugFalabella.FindBlockSpec | src/debug-falabella.ts:58-61 | the outer `find` returns the first matching block, throws when a test throws first, and finds nothing otherwise |
| DebugFalabella.SelectDebugProductSpec | src/debug-falabella.ts:58-66 | the selected product is typed `Product`; it is the first matching block, or that array block's first `Product` element; a nullish block means nothing is selected, and with no nullish block a matching block means a product is selected |
| DebugFalabella.FindProductBlock | src/debug-falabella.ts:58-61 | a matching block is typed `Product`, or an array whose `find` returns a `Product` |
| DebugFalabella.DebugRecordSpec | src/debug-falabella.ts:66-81 | a record is printed exactly when a product is selected; it keeps that product, has the fixed store, category and address, and is the production mapping of the product |
| DebugFalabella.AgreesWithProduction | src/debug-falabella.ts:58-81 | with one JSON-LD script, the script and the production handler build the same record |
| DebugFalabella.Extract | src/debug-falabella.ts:39-86 | the script produces exactly the debug record |
| SearchParams.GetAfterSet | src/handlers/falabella.ts:39 | after `set`, `get` of that name returns the new value |
| SearchParams.SetKeepsOthers | src/handlers/falabella.ts:39 | `set` keeps every other pair in order, and every other `get` |
| SearchParams.ParseOfSerialized | src/handlers/falabella.ts:35-40 | serialising a well-formed URL and parsing it back gives the same URL |
| SearchParams.SetParamEffect | src/scrape.ts:112-114 | after setting one parameter of a URL string, it reads back, the others are unchanged in order, and base and fragment are kept |
| JsString.IncludesIffOccurs | src/scrape.ts:18 | `includes` holds exactly when the substring occurs somewhere |
| JsString.ToLowerIdempotent | src/scrape.ts:18 | lower-casing twice is lower-casing once |
| JsString.JoinSplit | src/scrape.ts:83 | joining the pieces of a split gives back the string |
| JsString.SplitJoin | src/scrape.ts:83 | splitting a join of separator-free pieces gives back the pieces |
| JsString.SplitFirstPiece | src/scrape.ts:84 | the first piece of a split is the text before the first separator |
| JsString.SplitPiecesFree | src/scrape.ts:83 | no piece of a split holds the separator |
| JsString.TrimIdempotent | src/handlers/falabella-discovery.ts:89 | trimming is idempotent, and a trimmed string has no white space at either end |
| JsString.KeepDigitsAppend | src/scrape.ts:90 | deleting non-digits works piece by piece |
| JsString.KeepDigitsSpec | src/scrape.ts:90 | what `replace(/\D/g, '')` keeps is digits only, each digit as often as it occurs in the text |
| JsNumber.NatToStringValue | src/handlers/falabella.ts:39 | the decimal text of a number reads back as that number |
| JsNumber.ParseIntOfIntToString | src/handlers/falabella.ts:36-39 | `parseInt` reads back what `toString` writes |
| JsNumber.ParseIntOfDigits | src/scrape.ts:90 | `parseInt` of a digit string is its decimal value |
| JsNumber.ParseFloatOfDigits | src/handlers/falabella.ts:121 | `parseFloat` of a digit string is its decimal value |
| JsNumber.ParseFloatOfEmpty | src/handlers/falabella.ts:121 | `parseFloat` of the empty string is NaN |
| JsValue.ProductTypedIsObject | src/handlers/falabella.ts:69 | only an object can be typed `Product`, so it is truthy and not nullish |

## Left out

- The browser, Playwright and crawlee are modelled by the data they
  report. Navigation timeouts, waits, user-agent setup and the popup
  handling click are not modelled.
- Backend calls are left out: fetching the mapped categories, syncing
  products over HTTP, and the backend service itself (`src/services/backend.ts`,
  `src/sync.ts`). A sync is an effect value (`Falabella.SyncProduct`).
- Writing `products.jsonl` and all console logging are left out. The
  logged values that matter are results.
- Scrape.CollectCards and the `CardItem` record leave out `crawled_at`,
  a clock reading.
- Argument parsing (`--filter=`) is left out: the filter is a parameter.
- Falabella.ProductRequests models the `enqueueLinks` glob as a prefix
  test on the product path. crawlee's request de-duplication and
  URL normalisation are not part of this model.
- SearchParams models a URL as the text before the query, the ordered
  query pairs and the fragment. WHATWG parsing of scheme, host and path,
  percent-encoding and a `new URL` that throws are not modelled.
- JsNumber.ParseFloat covers white space, a sign, digits, a fraction, an
  exponent and the literal `Infinity`, over exact reals. IEEE-754
  rounding, overflow to Infinity and precision loss above 2^53 are not
  modelled, and neither is hexadecimal `parseInt`.
- JsNumber.ParseInt gives the exact integer of any digit string, and
  JsNumber.IntToString always writes plain decimal digits. JavaScript loses
  precision above 2^53, gives Infinity past about 1e308, and from 10^21 up
  writes a number in exponent form (`1e+21`), which `parseInt` reads back
  as 1. So JsNumber.ParseIntOfIntToString, and the "current page + 1"
  part of Falabella.CurrentPage, Falabella.NextPageText and
  Falabella.NextPageUrlEffect (src/handlers/falabella.ts:36-39), hold for
  every integer only in the model. Scrape.CardPrice inherits the same
  exactness.
- Discovery.Discover does not model a failure launching the browser or
  opening its page (src/handlers/falabella-discovery.ts:10-18); that happens
  outside the `try`, so it rejects `discover()` instead of giving `[]`.
- JsString.ToLower maps ASCII and Latin-1 letters only. Full Unicode case
  mapping and UTF-16 code units in `substring` are not modelled.
- The `document.title` read (src/handlers/falabella.ts:112, outside any
  `try`) is taken as not throwing. A throw there would end in the
  handler's error log, which the model does not produce. A failed
  `__NEXT_DATA__` parse is modelled (`Unparsable`): it is caught, and
  Falabella.ProductRecordSpec shows it never changes the record.
- `Browser.Browse` is a function of the address: every visit to one
  address is taken to see the same listing, so a site that changes between
  two visits of the same page is not modelled.
- The `:has-text` match of a menu label to its panel is not modelled:
  the panel is given per menu entry (`Browser.MenuEntry`).
- Discovery.ScanLinks deduplicates by the raw `href`, as the code does
  (src/handlers/falabella-discovery.ts:92-94). A normalised key is computed
  at line 93 but not used.
- `src/debug-pagination.ts`, `src/discover.ts`, `src/routes.ts` and
  `src/main.ts` are not part of this model. They are wiring and
  diagnostic scripts around the modelled handlers.
