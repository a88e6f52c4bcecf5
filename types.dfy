/**
 * The records the scraper passes around: category trees, scraped products
 * with their images, and the store configuration.
 *
 * Fields that the product handlers copy verbatim out of parsed JSON-LD
 * (`external_id`, `title`, `description`, `currency`, `brand_name`, an
 * image's `image_url`) hold a JavaScript value, since the declared `string`
 * type is not enforced when the data is copied. An optional field that is
 * absent holds `Undefined`.
 */
module Types {
  import opened JsString
  import opened JsNumber
  import opened JsValue

  /** The prefix given to relative links found on the site. */
  const SiteOrigin := "https://www.falabella.com"

  /** A link as the scraper records it: absolute links are kept and
      relative ones are prefixed with the site. */
  function FullUrl(href: string): string {
    if StartsWith(href, "http") then href else SiteOrigin + href
  }

  /** Every recorded address is absolute, and an absolute address is left
      alone. */
  lemma FullUrlSpec(href: string)
    ensures StartsWith(FullUrl(href), "http")
    ensures FullUrl(FullUrl(href)) == FullUrl(href)
    ensures StartsWith(href, "http") ==> FullUrl(href) == href
    ensures !StartsWith(href, "http") ==> FullUrl(href) == SiteOrigin + href
  {
    assert SiteOrigin[..4] == "http";
  }

  datatype CategoryNode = CategoryNode(name: string, url: string, children: seq<CategoryNode>, depth: int)

  datatype ScrapedImage = ScrapedImage(imageUrl: Value, main: bool)

  /** `additionalData` is the `additional_data` record, which the handlers
      only ever fill with one entry, `raw_json_ld`: its value is kept here,
      `None` when the record has no `additional_data`. */
  datatype ScrapedProduct = ScrapedProduct(
    storeId: string,
    externalId: Value,
    url: string,
    title: Value,
    description: Value,
    price: Number,
    currency: Value,
    brandName: Value,
    categoryName: string,
    images: seq<ScrapedImage>,
    additionalData: Option<Value>)

  datatype StoreCategory = StoreCategory(id: Option<string>, name: string, url: string)

  datatype StoreConfig = StoreConfig(id: string, name: string, baseUrl: string, categories: seq<StoreCategory>)
}
