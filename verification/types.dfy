/** The scraper's records and its abstraction of the browser: a rendered page is an
    immutable `Document` snapshot instead of a live DOM. */
module Types {
  import opened Js
  import opened JsNumber

  /** The twenty social platforms a `SocialLinks` record can have a key for. */
  datatype PlatformName =
    | Facebook | Twitter | LinkedIn | Instagram | YouTube | TikTok | Pinterest
    | Snapchat | Reddit | Tumblr | WhatsApp | Vimeo | Discord | Spotify | Medium
    | Behance | Flickr | Twitch | Periscope | Skype

  /** Platform name to the hrefs found for it; a platform without links has no key. */
  type SocialLinks = map<PlatformName, seq<string>>

  /** One scraped listing. Numeric fields hold what `Number` produced, NaN included;
      `email` and `socialLinks` are `Undefined` unless the website was visited. */
  datatype SearchResult = SearchResult(
    title: Nullable<string>,
    businessType: Nullable<string>,
    address: Nullable<string>,
    phone: Nullable<string>,
    website: Nullable<string>,
    rating: Nullable<NumberValue>,
    reviewCount: Nullable<NumberValue>,
    email: Optional<Nullable<string>>,
    socialLinks: Optional<SocialLinks>)

  /** A DOM element as the extraction code reads it. */
  datatype Element = Element(textContent: string, attributes: map<string, string>)

  /** `element.getAttribute(name)`. */
  function GetAttribute(e: Element, name: string): (r: Nullable<string>)
    ensures r.NonNull? <==> name in e.attributes
  {
    if name in e.attributes then NonNull(e.attributes[name]) else Null
  }

  /** A rendered page. `query` maps each selector the code asks about to the first
      element matching it (`document.querySelector`), `anchors` lists the page's
      `<a>` elements in document order, and `bodyText` is `document.body.innerText`. */
  datatype Document = Document(query: map<string, Element>, anchors: seq<Element>, bodyText: string)

  /** `document.querySelector(selector)`. */
  function QuerySelector(d: Document, selector: string): (r: Nullable<Element>)
    ensures r.NonNull? <==> selector in d.query
  {
    if selector in d.query then NonNull(d.query[selector]) else Null
  }

  /** The values of the constants module the scraper imports, as parameters. */
  datatype Config = Config(defaultTimeout: int, networkIdleTimeout: int, retryLimit: nat)

  /** Coordinates as the text JavaScript renders the two numbers to. */
  datatype Coordinates = Coordinates(latitude: string, longitude: string)

  /** `ScraperOptions`: every field but the search key may be left out. */
  datatype ScraperOptions = ScraperOptions(
    searchKey: string,
    coordinates: Optional<Coordinates>,
    resultLimit: Optional<int>,
    email: Optional<bool>,
    socialLinks: Optional<bool>,
    threadCount: Optional<int>)
}
