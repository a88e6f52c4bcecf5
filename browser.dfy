/**
 * What the browser reports to the scraper, as plain data. Each datatype
 * stands for the answers the Playwright calls of one page give; a call that
 * throws is a constructor of its own.
 */
module Browser {
  import opened JsString
  import opened JsValue

  /** The text of a `<script>` element given to `JSON.parse`. */
  datatype Script = Unparsable | Parsed(value: Value)

  /** A product detail page: its first `application/ld+json` script and its
      `#__NEXT_DATA__` script (`None` when the page has none), the document
      title, and the inner text of the first `span.copy10` (`None` when that
      read fails, for instance because there is no such element). */
  datatype ProductPage = ProductPage(
    ldScript: Option<Script>,
    nextData: Option<Script>,
    title: string,
    priceText: Option<string>)

  /** `getAttribute('href')` of a product card. */
  datatype Href = HrefFailed | NoHref | Href(value: string)

  /** A product card of a listing: its inner text (`None` when reading it
      throws) and its `href`. */
  datatype Card = Card(text: Option<string>, href: Href)

  /** The `#testId-pagination-top-arrow-right` control: `count()` and, when it
      is present, `isEnabled()`; `ArrowFailed` when either call throws. */
  datatype Arrow = NoArrow | ArrowDisabled | ArrowEnabled | ArrowFailed

  /** Visiting a listing URL: the navigation (or the product-element query)
      throws, the wait for product cards times out, or the page loads with
      its cards, the URL the browser ended up on, and the next-page control. */
  datatype Listing =
    | PageFailed
    | SelectorTimeout
    | Loaded(cards: seq<Card>, landedUrl: string, arrow: Arrow)

  /** A listing page as the crawler's category handler sees it: the
      absolute addresses of its links, in page order, and the `count()` of
      the next-page control. */
  datatype CategoryPage = CategoryPage(links: seq<string>, arrowCount: nat)

  /** The browser's answer for each listing URL. */
  type Browse = string -> Listing

  /** A second-level link in an opened menu panel: `isVisible()`,
      `getAttribute('href')` (`None` for a missing attribute) and
      `innerText()`. */
  datatype Link = Link(visible: bool, href: Option<string>, text: string)

  /** Opening the menu panel of a first-level label: no title element carries
      the label, or some call of the branch extraction throws, or the panel
      opens and lists its links. */
  datatype Panel = TitleNotFound | BranchFailed | Opened(links: seq<Link>)

  datatype MenuEntry = MenuEntry(name: string, panel: Panel)
}
