/**
 * The two request handlers of the crawler for the Falabella store.
 *
 * The category handler enqueues the product links of a listing page and,
 * when the page has a next-page control, the same listing with its `page`
 * parameter advanced by one. The product handler builds one product record
 * from the page's JSON-LD, falls back to reading the page's title and price
 * element, and hands the record to the backend and to the dataset.
 */
module Falabella {
  import opened JsString
  import opened JsNumber
  import opened JsValue
  import SearchParams
  import opened Types
  import opened Browser
  import opened Pagination

  const StoreName := "Falabella"
  const CategoryLabel := "falabella-category"
  const ProductLabel := "falabella-product"
  const Unknown := "unknown"
  const DefaultCurrency := "CLP"
  // The fixed part of the product-link glob, which ends in `product/` followed by `**`.
  const ProductPrefix := "https://www.falabella.com/falabella-cl/product/"

  /** A crawler request: its address, the label naming the handler that
      takes it, and the category name carried in its user data. */
  datatype Request = Request(url: string, handler: string, categoryName: string)

  /** What the product handler hands on: the backend sync, then the dataset
      entry. */
  datatype Effect = SyncProduct(product: ScrapedProduct) | PushData(product: ScrapedProduct)

  // ---------------------------------------------------------------------------
  // Store configuration
  // ---------------------------------------------------------------------------

  /** The configured stores. */
  const ConfiguredStores := [
    StoreConfig("123e4567-e89b-12d3-a456-426614174000", "Falabella", "https://www.falabella.com.cl", [
      StoreCategory(None, "TV y Video", "https://www.falabella.com/falabella-cl/category/cat1012/TV-y-Video"),
      StoreCategory(None, "Audio", "https://www.falabella.com/falabella-cl/category/cat2005/Audio"),
      StoreCategory(None, "Mundo Gamer", "https://www.falabella.com/falabella-cl/category/CATG19006/Computacion-gamer"),
      StoreCategory(None, "Cámaras y Drones", "https://www.falabella.com/falabella-cl/category/cat2038/Fotografia"),
      StoreCategory(None, "Smart TV", "https://www.falabella.com/falabella-cl/category/cat7190148/Televisores-LED")])]

  /** `getStoreConfig`: the first store named `Falabella`. */
  function GetStoreConfig(stores: seq<StoreConfig>): (r: Option<StoreConfig>)
    ensures r.None? <==> forall i :: 0 <= i < |stores| ==> stores[i].name != StoreName
    ensures r.Some? ==> exists i :: 0 <= i < |stores| && stores[i] == r.value && r.value.name == StoreName
                          && forall j :: 0 <= j < i ==> stores[j].name != StoreName
  {
    if |stores| == 0 then None
    else if stores[0].name == StoreName then Some(stores[0])
    else
      var r := GetStoreConfig(stores[1..]);
      assert forall i :: 1 <= i < |stores| ==> stores[i] == stores[1..][i - 1];
      r
  }

  /** `store?.id || 'unknown'`. */
  function StoreId(stores: seq<StoreConfig>): string {
    match GetStoreConfig(stores)
    case Some(s) => if s.id != "" then s.id else Unknown
    case None => Unknown
  }

  /** The store id is the id of the first store named `Falabella`, and
      `unknown` when there is no such store or its id is empty. */
  lemma StoreIdSpec(stores: seq<StoreConfig>)
    ensures (forall i :: 0 <= i < |stores| ==> stores[i].name != StoreName) ==> StoreId(stores) == Unknown
    ensures forall i :: 0 <= i < |stores| && stores[i].name == StoreName
                        && (forall j :: 0 <= j < i ==> stores[j].name != StoreName) ==>
              StoreId(stores) == if stores[i].id != "" then stores[i].id else Unknown
  {
    var r := GetStoreConfig(stores);
    if r.Some? {
      var k :| 0 <= k < |stores| && stores[k] == r.value && r.value.name == StoreName
               && forall j :: 0 <= j < k ==> stores[j].name != StoreName;
      forall i | 0 <= i < |stores| && stores[i].name == StoreName && (forall j :: 0 <= j < i ==> stores[j].name != StoreName)
        ensures i == k
      {
      }
    }
  }

  /** With the configuration as shipped, records carry the configured UUID. */
  lemma ConfiguredStoreId()
    ensures StoreId(ConfiguredStores) == "123e4567-e89b-12d3-a456-426614174000"
  {
    assert ConfiguredStores[0].name == StoreName;
  }

  // ---------------------------------------------------------------------------
  // The category handler
  // ---------------------------------------------------------------------------

  /** The current page number read from the address's `page` parameter as
      an integer; a missing or empty `page` counts as page 1, and `None`
      stands for a value that does not start with a number (NaN). */
  function CurrentPage(url: string): Option<int> {
    var text := SearchParams.Get(SearchParams.Parse(url).query, "page");
    ParseInt(if text.Some? && text.value != "" then text.value else "1")
  }

  /** The decimal text of the current page plus one; `NaN` when the
      current page is NaN. */
  function NextPageText(current: Option<int>): string {
    match current
    case Some(n) => IntToString(n + 1)
    case None => "NaN"
  }

  /** The next listing address: `page` set to the current page plus one. */
  function NextPageUrl(url: string): string {
    SearchParams.SetParam(url, "page", NextPageText(CurrentPage(url)))
  }

  lemma ParseIntOfNaN()
    ensures ParseInt("NaN") == None
  {
    assert TrimStart("NaN") == "NaN";
    assert !IsDigit("NaN"[0]);
    assert LeadingDigits("NaN") == "";
  }

  lemma ParseIntOfOne()
    ensures ParseInt("1") == Some(1)
  {
    ParseIntOfDigits("1");
    assert "1"[..0] == "";
  }

  /** A listing without a `page` parameter, or with an empty one, is page 1. */
  lemma CurrentPageDefault(url: string)
    requires var text := SearchParams.Get(SearchParams.Parse(url).query, "page");
             text.None? || text == Some("")
    ensures CurrentPage(url) == Some(1)
  {
    ParseIntOfOne();
  }

  /** `page` text that is set is read back by the next handler. */
  lemma CurrentPageAfterSet(url: string, text: string)
    requires text != "" && SearchParams.WellFormedParam(SearchParams.Param("page", text))
    ensures CurrentPage(SearchParams.SetParam(url, "page", text)) == ParseInt(text)
  {
    SearchParams.SetParamEffect(url, "page", text);
  }

  /** The text written for the next page reads back as the current page
      plus one, and NaN as NaN. */
  lemma NextPageTextSpec(current: Option<int>)
    ensures NextPageText(current) != ""
    ensures SearchParams.WellFormedParam(SearchParams.Param("page", NextPageText(current)))
    ensures current.Some? ==> ParseInt(NextPageText(current)) == Some(current.value + 1)
    ensures current.None? ==> ParseInt(NextPageText(current)) == None
  {
    if current.Some? {
      NextPageTextOfNumber(current.value);
    } else {
      ParseIntOfNaN();
      PageNaNWellFormed();
    }
  }

  lemma NextPageTextOfNumber(n: int)
    ensures var text := NextPageText(Some(n));
            && text != "" && ParseInt(text) == Some(n + 1)
            && SearchParams.WellFormedParam(SearchParams.Param("page", text))
  {
    var text := IntToString(n + 1);
    IntToStringChars(n + 1);
    ParseIntOfIntToString(n + 1);
    PageParamWellFormed(text);
  }

  lemma PageNaNWellFormed()
    ensures SearchParams.WellFormedParam(SearchParams.Param("page", "NaN"))
  {
    PageParamWellFormed("NaN");
  }

  /** The next listing address carries `page` = current page + 1 (NaN stays
      NaN), keeps every other query parameter in order, and keeps the rest
      of the address. With a numeric current page it is the address the
      scraper scripts derive for the following page. */
  lemma NextPageUrlEffect(url: string)
    ensures var before := SearchParams.Parse(url);
            var after := SearchParams.Parse(NextPageUrl(url));
            && SearchParams.Get(after.query, "page") == Some(NextPageText(CurrentPage(url)))
            && SearchParams.Without(after.query, "page") == SearchParams.Without(before.query, "page")
            && after.base == before.base && after.fragment == before.fragment
    ensures CurrentPage(url).Some? ==> CurrentPage(NextPageUrl(url)) == Some(CurrentPage(url).value + 1)
    ensures CurrentPage(url).None? ==> CurrentPage(NextPageUrl(url)) == None
    ensures CurrentPage(url).Some? ==> NextPageUrl(url) == NextListingUrl(url, CurrentPage(url).value)
  {
    NextPageUrlQuery(url);
    NextPageUrlPage(url);
  }

  /** The query and the rest of the next listing address. */
  lemma NextPageUrlQuery(url: string)
    ensures var before := SearchParams.Parse(url);
            var after := SearchParams.Parse(NextPageUrl(url));
            && SearchParams.Get(after.query, "page") == Some(NextPageText(CurrentPage(url)))
            && SearchParams.Without(after.query, "page") == SearchParams.Without(before.query, "page")
            && after.base == before.base && after.fragment == before.fragment
  {
    NextPageTextSpec(CurrentPage(url));
    SearchParams.SetParamEffect(url, "page", NextPageText(CurrentPage(url)));
  }

  /** The page number the next listing address carries. */
  lemma NextPageUrlPage(url: string)
    ensures CurrentPage(url).Some? ==> CurrentPage(NextPageUrl(url)) == Some(CurrentPage(url).value + 1)
    ensures CurrentPage(url).None? ==> CurrentPage(NextPageUrl(url)) == None
    ensures CurrentPage(url).Some? ==> NextPageUrl(url) == NextListingUrl(url, CurrentPage(url).value)
  {
    NextPageTextSpec(CurrentPage(url));
    CurrentPageAfterSet(url, NextPageText(CurrentPage(url)));
    if CurrentPage(url).Some? {
      NextPageUrlIsListingUrl(url, CurrentPage(url).value);
      assert NextPageUrl(url) == SearchParams.SetParam(url, "page", NextPageText(Some(CurrentPage(url).value)));
    }
  }

  /** For a numeric page `n`, setting the next page text gives the address
      the scraper scripts derive. */
  lemma NextPageUrlIsListingUrl(url: string, n: int)
    ensures SearchParams.SetParam(url, "page", NextPageText(Some(n))) == NextListingUrl(url, n)
  {
    assert NextPageText(Some(n)) == IntToString(n + 1);
  }

  /** The product requests `enqueueLinks` adds: the page's links under the
      product path, in page order, labelled for the product handler and
      carrying the category name. */
  function ProductRequests(links: seq<string>, categoryName: string): (r: seq<Request>)
    ensures |r| <= |links|
    ensures forall i :: 0 <= i < |r| ==>
              r[i].handler == ProductLabel && r[i].categoryName == categoryName
              && StartsWith(r[i].url, ProductPrefix) && r[i].url in links
  {
    if |links| == 0 then []
    else
      var rest := ProductRequests(links[1..], categoryName);
      if StartsWith(links[0], ProductPrefix) then [Request(links[0], ProductLabel, categoryName)] + rest else rest
  }

  /** Every product link of the page is enqueued, and nothing else. */
  lemma {:induction false} ProductRequestsComplete(links: seq<string>, categoryName: string, link: string)
    ensures Request(link, ProductLabel, categoryName) in ProductRequests(links, categoryName)
            <==> link in links && StartsWith(link, ProductPrefix)
    decreases |links|
  {
    if |links| > 0 {
      ProductRequestsComplete(links[1..], categoryName, link);
      assert links == [links[0]] + links[1..];
    }
  }

  /** Product requests keep the order of the links on the page. */
  lemma {:induction false} ProductRequestsAppend(a: seq<string>, b: seq<string>, categoryName: string)
    ensures ProductRequests(a + b, categoryName) == ProductRequests(a, categoryName) + ProductRequests(b, categoryName)
    decreases |a|
  {
    if |a| == 0 {
      assert a + b == b;
    } else {
      assert (a + b)[0] == a[0];
      assert (a + b)[1..] == a[1..] + b;
      ProductRequestsAppend(a[1..], b, categoryName);
    }
  }

  /** The `falabella-category` handler: the product requests, then, when the
      next-page control is present, the next listing page of the same
      category. */
  function CategoryHandler(request: Request, page: CategoryPage): (out: seq<Request>)
    ensures var products := ProductRequests(page.links, request.categoryName);
            && |out| == |products| + (if page.arrowCount > 0 then 1 else 0)
            && out[..|products|] == products
            && (page.arrowCount > 0 ==>
                  out[|out| - 1] == Request(NextPageUrl(request.url), CategoryLabel, request.categoryName))
    ensures forall i :: 0 <= i < |out| ==> out[i].categoryName == request.categoryName
    ensures (exists i :: 0 <= i < |out| && out[i].handler == CategoryLabel) <==> page.arrowCount > 0
  {
    var products := ProductRequests(page.links, request.categoryName);
    var out := products + (if page.arrowCount > 0 then [Request(NextPageUrl(request.url), CategoryLabel, request.categoryName)] else []);
    assert out[..|products|] == products;
    assert forall i :: 0 <= i < |products| ==> out[i] == products[i];
    out
  }

  // ---------------------------------------------------------------------------
  // The product handler: JSON-LD
  // ---------------------------------------------------------------------------

  /** Index of the first element at which `find(i => i['@type'] === 'Product')`
      stops: a product-typed element, or a nullish one, whose read throws. */
  function FirstStop(items: seq<Value>): (k: nat)
    ensures k <= |items|
    ensures forall j :: 0 <= j < k ==> !Nullish(items[j]) && !HasProductType(items[j])
    ensures k < |items| ==> Nullish(items[k]) || HasProductType(items[k])
  {
    if |items| == 0 || Nullish(items[0]) || HasProductType(items[0]) then 0
    else 1 + FirstStop(items[1..])
  }

  /** `items.find(i => i['@type'] === 'Product')`, which throws when it
      reaches a `null` or `undefined` element. */
  function FindProduct(items: seq<Value>): Completion<Option<Value>> {
    if |items| == 0 then Normal(None)
    else if Nullish(items[0]) then Threw
    else if HasProductType(items[0]) then Normal(Some(items[0]))
    else FindProduct(items[1..])
  }

  /** `find` returns the first product-typed element, throws when a nullish
      element comes first, and finds nothing when neither occurs. */
  lemma {:induction false} FindProductSpec(items: seq<Value>)
    ensures var k := FirstStop(items);
            FindProduct(items) ==
              if k == |items| then Normal(None)
              else if Nullish(items[k]) then Threw
              else Normal(Some(items[k]))
    decreases |items|
  {
    if |items| > 0 && !Nullish(items[0]) && !HasProductType(items[0]) {
      FindProductSpec(items[1..]);
    }
  }

  /** Line 69: an array gives its first `Product` entry; any other value is
      the product when it is typed `Product` itself. */
  function SelectProduct(v: Value): Completion<Option<Value>> {
    if v.Arr? then FindProduct(v.items)
    else if HasProductType(v) then Normal(Some(v))
    else Normal(None)
  }

  /** A selected entry is always typed `Product`; a non-array value is used
      exactly when it is typed `Product` itself, and only the search in an
      array can throw. */
  lemma {:induction false} SelectProductSpec(v: Value)
    ensures SelectProduct(v).Normal? && SelectProduct(v).value.Some? ==> HasProductType(SelectProduct(v).value.value)
    ensures !v.Arr? ==> SelectProduct(v) == if HasProductType(v) then Normal(Some(v)) else Normal(None)
    ensures SelectProduct(v).Threw? ==> v.Arr? && exists j :: 0 <= j < |v.items| && Nullish(v.items[j])
  {
    if v.Arr? {
      FindProductSpec(v.items);
    }
  }

  /** The `images` field: an array maps element by element with `main` on
      the first, any other truthy value is the one main image, and a falsy
      value gives no images. */
  function ImagesOf(image: Value): seq<ScrapedImage> {
    if !Truthy(image) then []
    else if image.Arr? then seq(|image.items|, i requires 0 <= i < |image.items| => ScrapedImage(image.items[i], i == 0))
    else [ScrapedImage(image, true)]
  }

  /** A non-empty image list has exactly one main image, the first. */
  lemma ImagesOneMain(image: Value)
    ensures var r := ImagesOf(image);
            r != [] ==> r[0].main && forall i :: 0 < i < |r| ==> !r[i].main
  {
  }

  /** `a || b || c`: the first truthy of the three, else the last. */
  lemma OrChain(a: Value, b: Value, c: Value)
    ensures Truthy(a) ==> Or(Or(a, b), c) == a
    ensures !Truthy(a) && Truthy(b) ==> Or(Or(a, b), c) == b
    ensures !Truthy(a) && !Truthy(b) ==> Or(Or(a, b), c) == c
  {
  }

  /** The `external_id` field: `sku`, else `productID`, else `unknown`. */
  function ExternalIdOf(raw: Value): Value {
    Or(Or(Member(raw, "sku"), Member(raw, "productID")), Str(Unknown))
  }

  /** The `price` field: the offer's price, else its low price, else `'0'`,
      read by `parseFloat`. */
  function OfferPrice(offers: Value): Number {
    ParseFloatValue(Or(Or(OptGet(offers, "price"), OptGet(offers, "lowPrice")), Str("0")))
  }

  /** The offer price when it is truthy, else the low price when that is,
      else 0. */
  lemma OfferPriceSpec(offers: Value)
    ensures Truthy(OptGet(offers, "price")) ==> OfferPrice(offers) == ParseFloatValue(OptGet(offers, "price"))
    ensures !Truthy(OptGet(offers, "price")) && Truthy(OptGet(offers, "lowPrice")) ==>
              OfferPrice(offers) == ParseFloatValue(OptGet(offers, "lowPrice"))
    ensures !Truthy(OptGet(offers, "price")) && !Truthy(OptGet(offers, "lowPrice")) ==> OfferPrice(offers) == Finite(0.0)
  {
    OrChain(OptGet(offers, "price"), OptGet(offers, "lowPrice"), Str("0"));
    if !Truthy(OptGet(offers, "price")) && !Truthy(OptGet(offers, "lowPrice")) {
      ParseFloatOfZero();
    }
  }

  /** The record literal of lines 73-85 for a selected entry. */
  function MapProduct(raw: Value, storeId: string, url: string, categoryName: string): ScrapedProduct {
    var offers := Member(raw, "offers");
    ScrapedProduct(
      storeId,
      ExternalIdOf(raw),
      url,
      Member(raw, "name"),
      Member(raw, "description"),
      OfferPrice(offers),
      Or(OptGet(offers, "priceCurrency"), Str(DefaultCurrency)),
      OptGet(Member(raw, "brand"), "name"),
      categoryName,
      ImagesOf(Member(raw, "image")),
      Some(raw))
  }

  /** The field defaults of a JSON-LD record: `sku`, else `productID`, else
      `unknown`; the offer's currency, else `CLP`; the offer's price, else
      its low price, else 0; the raw entry kept verbatim; the store, address
      and category from the caller, never from the page. */
  lemma MapProductSpec(raw: Value, storeId: string, url: string, categoryName: string)
    requires raw.Obj?
    ensures var p := MapProduct(raw, storeId, url, categoryName);
            var offers := Member(raw, "offers");
            && (Truthy(Member(raw, "sku")) ==> p.externalId == Member(raw, "sku"))
            && (!Truthy(Member(raw, "sku")) && Truthy(Member(raw, "productID")) ==> p.externalId == Member(raw, "productID"))
            && (!Truthy(Member(raw, "sku")) && !Truthy(Member(raw, "productID")) ==> p.externalId == Str(Unknown))
            && (Truthy(OptGet(offers, "priceCurrency")) ==> p.currency == OptGet(offers, "priceCurrency"))
            && (!Truthy(OptGet(offers, "priceCurrency")) ==> p.currency == Str(DefaultCurrency))
            && (Truthy(OptGet(offers, "price")) ==> p.price == ParseFloatValue(OptGet(offers, "price")))
            && (!Truthy(OptGet(offers, "price")) && Truthy(OptGet(offers, "lowPrice")) ==>
                  p.price == ParseFloatValue(OptGet(offers, "lowPrice")))
            && (!Truthy(OptGet(offers, "price")) && !Truthy(OptGet(offers, "lowPrice")) ==> p.price == Finite(0.0))
            && p.title == Member(raw, "name") && p.additionalData == Some(raw)
            && p.storeId == storeId && p.url == url && p.categoryName == categoryName
  {
    OrChain(Member(raw, "sku"), Member(raw, "productID"), Str(Unknown));
    OfferPriceSpec(Member(raw, "offers"));
  }

  /** Approach 1: the record from the page's first JSON-LD script, `None`
      when there is no script, when it is falsy or selects nothing, and when
      parsing or selection throws (the error is caught). */
  function JsonLdStage(ld: Option<Script>, storeId: string, url: string, categoryName: string): Option<ScrapedProduct> {
    match ld
    case None => None
    case Some(Unparsable) => None
    case Some(Parsed(v)) =>
      if !Truthy(v) then None
      else
        match SelectProduct(v)
        case Threw => None
        case Normal(None) => None
        case Normal(Some(raw)) => if Truthy(raw) then Some(MapProduct(raw, storeId, url, categoryName)) else None
  }

  /** JSON-LD yields a record exactly when the script parses to a value from
      which a `Product` entry is selected without throwing, and then the
      record is that entry's. */
  lemma JsonLdStageSpec(ld: Option<Script>, storeId: string, url: string, categoryName: string)
    ensures JsonLdStage(ld, storeId, url, categoryName).Some? <==>
              ld.Some? && ld.value.Parsed? && Truthy(ld.value.value)
              && SelectProduct(ld.value.value).Normal? && SelectProduct(ld.value.value).value.Some?
    ensures JsonLdStage(ld, storeId, url, categoryName).Some? ==>
              var raw := SelectProduct(ld.value.value).value.value;
              && HasProductType(raw)
              && JsonLdStage(ld, storeId, url, categoryName) == Some(MapProduct(raw, storeId, url, categoryName))
  {
    if ld.Some? && ld.value.Parsed? {
      var v := ld.value.value;
      SelectProductSpec(v);
      var s := SelectProduct(v);
      if s.Normal? && s.value.Some? {
        ProductTypedIsObject(s.value.value);
      }
    }
  }

  // ---------------------------------------------------------------------------
  // The product handler: DOM fallback and the whole handler
  // ---------------------------------------------------------------------------

  /** `parseFloat(priceText.replace(/[^0-9]/g, ''))`, where `priceText` is
      the price element's text, `'0'` when reading it fails. */
  function DomPrice(priceText: Option<string>): Number {
    ParseFloat(KeepDigits(priceText.GetOr("0")))
  }

  /** When the price element cannot be read the price is 0. */
  lemma DomPriceMissing()
    ensures DomPrice(None) == Finite(0.0)
  {
    assert KeepDigits("0") == "0";
    ParseFloatOfZero();
  }

  /** A read price is the number formed by the digits of the element's
      text, and NaN when that text has no digit. */
  lemma DomPriceRead(text: string)
    ensures AllDigits(KeepDigits(text))
    ensures KeepDigits(text) == "" ==> DomPrice(Some(text)) == NaN
    ensures KeepDigits(text) != "" ==> DomPrice(Some(text)) == Finite(DigitsValue(KeepDigits(text)) as real)
  {
    KeepDigitsSpec(text);
    var ds := KeepDigits(text);
    if ds == "" {
      ParseFloatOfEmpty();
    } else {
      ParseFloatOfDigits(ds);
    }
  }

  /** Approach 3: the document title and the price element's number. */
  function DomRecord(page: ProductPage, storeId: string, url: string, categoryName: string): ScrapedProduct {
    ScrapedProduct(
      storeId, Str(Unknown), url, Str(page.title), Undefined,
      DomPrice(page.priceText),
      Str(DefaultCurrency), Undefined, categoryName, [], None)
  }

  /** The DOM record has no external id, currency `CLP` and no images; its
      price is 0 when the price element cannot be read, the number formed
      by the digits of its text otherwise, and NaN when that text has no
      digit. */
  lemma DomRecordSpec(page: ProductPage, storeId: string, url: string, categoryName: string)
    ensures var p := DomRecord(page, storeId, url, categoryName);
            && p.externalId == Str(Unknown) && p.currency == Str(DefaultCurrency) && p.images == []
            && p.title == Str(page.title) && p.storeId == storeId && p.url == url && p.categoryName == categoryName
            && (page.priceText.None? ==> p.price == Finite(0.0))
            && (page.priceText.Some? ==> AllDigits(KeepDigits(page.priceText.value)))
            && (page.priceText.Some? && KeepDigits(page.priceText.value) == "" ==> p.price == NaN)
            && (page.priceText.Some? && KeepDigits(page.priceText.value) != "" ==>
                  p.price == Finite(DigitsValue(KeepDigits(page.priceText.value)) as real))
  {
    if page.priceText.None? {
      DomPriceMissing();
    } else {
      DomPriceRead(page.priceText.value);
    }
  }

  /** The record the product handler produces: JSON-LD first, the DOM
      otherwise. `__NEXT_DATA__` is read but never yields a record. */
  function ProductRecord(stores: seq<StoreConfig>, request: Request, page: ProductPage): ScrapedProduct {
    var storeId := StoreId(stores);
    match JsonLdStage(page.ldScript, storeId, request.url, request.categoryName)
    case Some(p) => p
    case None => DomRecord(page, storeId, request.url, request.categoryName)
  }

  /** Whichever stage produces it, the record carries the configured store
      id, the request's address and the request's category; the DOM stage
      runs exactly when JSON-LD yields nothing; `__NEXT_DATA__` plays no
      part. */
  lemma ProductRecordSpec(stores: seq<StoreConfig>, request: Request, page: ProductPage, nextData: Option<Script>)
    ensures var p := ProductRecord(stores, request, page);
            var json := JsonLdStage(page.ldScript, StoreId(stores), request.url, request.categoryName);
            && p.storeId == StoreId(stores) && p.url == request.url && p.categoryName == request.categoryName
            && (json.Some? ==> p == json.value)
            && (json.None? ==> p == DomRecord(page, StoreId(stores), request.url, request.categoryName))
            && ProductRecord(stores, request, page.(nextData := nextData)) == p
  {
    var json := JsonLdStage(page.ldScript, StoreId(stores), request.url, request.categoryName);
    JsonLdStageSpec(page.ldScript, StoreId(stores), request.url, request.categoryName);
    if json.Some? {
      var raw := SelectProduct(page.ldScript.value.value).value.value;
      ProductTypedIsObject(raw);
      MapProductSpec(raw, StoreId(stores), request.url, request.categoryName);
    }
  }

  /** The `falabella-product` handler: three fallback stages fill
      `productData`, which is then synced and pushed. The error branch is
      never taken, since the DOM stage always produces a record. */
  method HandleProduct(stores: seq<StoreConfig>, request: Request, page: ProductPage) returns (effects: seq<Effect>)
    ensures var p := ProductRecord(stores, request, page);
            effects == [SyncProduct(p), PushData(p)]
  {
    var productData: Option<ScrapedProduct> := None;
    var storeId := StoreId(stores);
    // Approach 1: JSON-LD.
    productData := JsonLdStage(page.ldScript, storeId, request.url, request.categoryName);
    // Approach 2: `__NEXT_DATA__` is parsed when present, and nothing is
    // taken from it.
    if productData.None? {
      var nextData := page.nextData;
    }
    // Approach 3: the DOM.
    if productData.None? {
      productData := Some(DomRecord(page, storeId, request.url, request.categoryName));
    }
    if productData.Some? {
      effects := [SyncProduct(productData.value), PushData(productData.value)];
    } else {
      assert false;
    }
  }
}
