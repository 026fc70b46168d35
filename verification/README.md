# Google Maps scraper core, modelled in Dafny

The scraper searches Google Maps for a search key and visits each result listing. From each listing it extracts the title, business type, address, phone, website, rating and review count. When asked, it also visits the listing's website to collect an email address and social-media links.

This project models the logic between the browser calls. The browser itself is replaced by values:

- A rendered page is an immutable `Document` snapshot. It holds a map from each selector the code asks about to the first matching element, the page's anchors in document order, and the body text.
- Every awaited browser step (navigation plus the waits after it, or taking a screenshot) is a `Step` that completes or throws.
- Each attempt at each link gets its own `Browser` behaviour, indexed by the attempt number `async-retry` uses.

The modules follow the program's structure:

| file | module | models |
|---|---|---|
| `js.dfy` | `Js` | `null`/`undefined`, thrown values, `String.prototype.trim`, `indexOf`, `includes`, `startsWith`, `replace` with a string pattern |
| `js_number.dfy` | `JsNumber` | `Number(string)` (ECMA-262 section 7.1.4.1.1): which texts are numeric literals, and the value of exact integers |
| `seqs.dfy` | `Seqs` | `Array.prototype.filter`, and `Array.from(new Set(xs))` as order-preserving de-duplication |
| `types.dfy` | `Types` | `SearchResult`, `SocialLinks`, `ScraperOptions`, the page snapshot |
| `field_extraction.dfy` | `FieldExtraction` | the listing-page `evaluate`: selector fallback, website, rating, review count |
| `contact_extraction.dfy` | `ContactExtraction` | the website-page `evaluate`: email merge, social-link grouping |
| `retry.dfy` | `Retry` | the `async-retry` attempt loop and its `onRetry` warning |
| `process_result.dfy` | `ProcessResult` | `processSearchResult`: one attempt's body, the catch-block classification, the retried call |
| `uri_encoding.dfy` | `UriEncoding` | `encodeURIComponent` and `decodeURIComponent` (ECMA-262 section 19.2.6) |
| `maps_url.dfy` | `MapsUrl` | `buildGoogleMapsURL` |
| `auto_scroll.dfy` | `AutoScroll` | the feed scroll loop |
| `batch.dfy` | `Batch` | `scrapeWithoutPMap` and `scrape`: defaults, timeouts, link selection, one slot per link |

The model follows the code, including where its behaviour may be surprising:

- When the debug screenshot succeeds, a listing without a title (`null` or empty) is not retried. The "No title found" error is not a network error, so the catch block swallows it, and the call resolves with `undefined` after a single attempt. The link's slot is therefore `undefined`, not `null`. A failing screenshot's error replaces the "No title found" error, so a network error there is retried.
- A failed website visit is not a partial success. A network error retries the whole attempt. Any other error loses the listing record too, and the call resolves with `undefined`.
- Social links keep repeated hrefs. De-duplication only decides whether a platform's key is emitted.
- A pattern match wins over every `mailto:` link. The regex match array comes first in the merged candidate list.
- Review text made only of parentheses and commas (or only whitespace) is truthy. It becomes `Number("")`, which is 0.
- A negative `resultLimit` counts back from the end of the link list, as `slice(0, limit)` does.
- `scrape` returns its `null` slots. The list is not filtered.
- `scrape` throws inside `pMap` for a thread count below 1. Its catch block turns this into `undefined`.
- `processSearchResult` passes `DEFAULT_TIMEOUT` and `NETWORK_IDLE_TIMEOUT` to `async-retry` as the minimum and maximum backoff delay. node-retry refuses a minimum above the maximum by throwing inside the promise executor. In that case every call is rejected before any attempt runs, and every slot is `null`.

The `type` field of `SearchResult` is called `businessType` here, because `type` is a Dafny keyword.

## Model

| member | source | states |
|---|---|---|
| Js.Trim | src/services/process-search-result.ts:49 | the trimmed text is a contiguous slice of the input; only whitespace was removed from either end, and none is left at either end |
| Js.TrimIdempotent | src/services/process-search-result.ts:49 | trimming trimmed text changes nothing |
| Js.IndexOf | src/services/process-search-result.ts:196 | the first position where the pattern occurs, and `null` exactly when it occurs nowhere |
| Js.NotIncludes | src/services/process-search-result.ts:196 | text lacking some character of the pattern cannot include the pattern |
| Js.ReplaceFirst | src/services/process-search-result.ts:148 | text that starts with the pattern has that prefix replaced, and text that does not contain it is unchanged |
| JsNumber.ToNumber | src/services/process-search-result.ts:84 | `Number` of any text: 0 when only whitespace, NaN exactly when the trimmed text is no numeric literal, and the exact value of a trimmed signed digit run up to 2^53 |
| JsNumber.ConvertTrimmed | src/services/process-search-result.ts:91-93 | `Number` of trimmed text: 0 for empty text, NaN exactly for non-empty text that is no numeric literal, and the exact value of a signed digit run up to 2^53 |
| JsNumber.NumericLiteralAlphabet | src/services/process-search-result.ts:92 | every character of a numeric literal is a hex digit, a sign, a point or a letter of a radix prefix, exponent or `Infinity` |
| JsNumber.ForeignCharacterIsNaN | src/services/process-search-result.ts:92 | text holding any other character converts to NaN |
| JsNumber.DigitsConvertExactly | src/services/process-search-result.ts:92 | a trimmed run of up to 15 digits converts to its decimal value |
| JsNumber.DigitsValueBound | src/services/process-search-result.ts:92 | a run of n digits is worth less than 10^n |
| Seqs.Filter | src/services/process-search-result.ts:160-162 | the kept items all pass the test, every passing item is kept, and nothing new appears |
| Seqs.FilterConcat | src/services/process-search-result.ts:160-162 | filtering distributes over concatenation, so order is kept |
| Seqs.FilterAll | src/services/process-search-result.ts:160-162 | a list whose items all pass is kept whole, repeats included |
| Seqs.FilterNone | src/services/process-search-result.ts:145-147 | nothing is kept when no item passes |
| Seqs.Dedup | src/services/process-search-result.ts:175 | `[...new Set(xs)]` holds the same values without repeats, and starts with the first item |
| Seqs.DedupAppend | src/services/process-search-result.ts:175 | adding a value already seen changes nothing, and a new value is added last, so values keep the order of their first occurrence |
| Seqs.DedupKeepsFirstOrder | src/services/process-search-result.ts:175 | a value first seen before another stays before it |
| Seqs.DedupDistinct | src/services/process-search-result.ts:165 | a list without repeats is unchanged by de-duplication |
| FieldExtraction.FirstMatch | src/services/process-search-result.ts:47-50 | the index of the first selector in list order that matches an element, `null` exactly when none does |
| FieldExtraction.SelectTextContent | src/services/process-search-result.ts:46-52 | `null` exactly when no selector matches; otherwise the trimmed text of the first matching selector's element |
| FieldExtraction.FirstSelectorWins | src/services/process-search-result.ts:46-52 | a matching first selector wins even when its text is empty |
| FieldExtraction.TitleFromGenericHeading | src/services/process-search-result.ts:54-61 | with only a plain `h1` on the page, the title is its trimmed text |
| FieldExtraction.Website | src/services/process-search-result.ts:74-78 | present exactly when the "Open website" anchor exists and has an `href`; then it is the trimmed `href` |
| FieldExtraction.WebsiteIgnoresText | src/services/process-search-result.ts:74-78 | changing the anchor's text never changes the website |
| FieldExtraction.NumberField | src/services/process-search-result.ts:79-94 | `null` when the element is absent, otherwise what its text converts to |
| FieldExtraction.NumberOfText | src/services/process-search-result.ts:91-93 | `null` exactly when the text is empty |
| FieldExtraction.RemoveChars | src/services/process-search-result.ts:92 | no character of the dropped set is left, and the text never gets longer |
| FieldExtraction.RemoveCharsSpec | src/services/process-search-result.ts:92 | every character left comes from the input, and text without dropped characters is unchanged |
| FieldExtraction.RemoveCharsOne | src/services/process-search-result.ts:92 | a single character is dropped exactly when it is in the set, and otherwise kept |
| FieldExtraction.RemoveCharsConcat | src/services/process-search-result.ts:92 | removal works piece by piece, so every other character is kept, in order |
| FieldExtraction.Rating | src/services/process-search-result.ts:79-86 | `null` without a rating element or with empty text; otherwise `Number` of the element's text |
| FieldExtraction.ReviewCount | src/services/process-search-result.ts:87-94 | `null` without a review element or with empty text; otherwise `Number` of the trimmed text without parentheses and commas |
| FieldExtraction.ReviewCountOfGroupedText | src/services/process-search-result.ts:87-94 | a review element with text "(1,234)" gives 1234 |
| FieldExtraction.ReviewCountOfWords | src/services/process-search-result.ts:87-94 | a review element with text "N/A" gives NaN, not `null` |
| FieldExtraction.ReviewCountOfBareParentheses | src/services/process-search-result.ts:91-93 | a review element with text "()" gives 0 |
| FieldExtraction.ExtractListing | src/services/process-search-result.ts:45-96 | the listing record leaves `email` and `socialLinks` unset |
| ContactExtraction.MatchArray | src/services/process-search-result.ts:142 | an `exec` result with no match gives an empty array; a match puts the matched text first |
| ContactExtraction.Hrefs | src/services/process-search-result.ts:155-161 | every anchor's `href` is listed, and every listed value is the `href` of some anchor |
| ContactExtraction.HrefsConcat | src/services/process-search-result.ts:155-161 | anchors without `href` are dropped and the rest keep their document order |
| ContactExtraction.MailtoHrefs | src/services/process-search-result.ts:145-147 | every `href` starting with `mailto:` is selected, and nothing else is |
| ContactExtraction.MailtoHrefsConcat | src/services/process-search-result.ts:145-147 | mailto links keep their document order |
| ContactExtraction.FirstMailtoLink | src/services/process-search-result.ts:145-148 | the first mailto link in the page heads the list |
| ContactExtraction.MailtoTarget | src/services/process-search-result.ts:148 | a mailto `href` loses its prefix and is trimmed |
| ContactExtraction.MailtoTargets | src/services/process-search-result.ts:145-149 | one target per mailto link, in document order |
| ContactExtraction.EmailCandidates | src/services/process-search-result.ts:175 | a pattern match comes first; without one the candidates are the mailto targets |
| ContactExtraction.Email | src/services/process-search-result.ts:140-176 | a pattern match wins; otherwise the first mailto target; `null` when there is neither |
| ContactExtraction.AnchorHrefs | src/services/process-search-result.ts:155-161 | one trimmed `href` per anchor that has one, in document order |
| ContactExtraction.PlatformLinks | src/services/process-search-result.ts:160-162 | the hrefs a platform's pattern accepts: each kept href passes the pattern and comes from the page, and every accepted href is kept |
| ContactExtraction.LastAccepting | src/services/process-search-result.ts:159-170 | the last configured platform of a name whose pattern accepts some href, `null` when none does |
| ContactExtraction.CollectSocialLinks | src/services/process-search-result.ts:152-171 | a key is present exactly when a platform of that name accepts some href, and holds the hrefs the last such platform accepts |
| ContactExtraction.SocialLinksPerPlatform | src/services/process-search-result.ts:159-170 | with distinct platform names, a platform's key is present exactly when its pattern accepts some href, and holds every such href in document order |
| ContactExtraction.SocialLinksKeepRepeats | src/services/process-search-result.ts:160-168 | an href found twice is stored twice |
| ContactExtraction.ExtractContact | src/services/process-search-result.ts:173-178 | each field is set exactly when its option is on, to the email and to the social links |
| Retry.RetryFrom | src/services/process-search-result.ts:207-226 | from attempt `num` on: the attempts before the last all threw; the call resolves with the last attempt's value or is rejected after attempt `retries + 1`; it records every error and counts the warnings |
| Retry.RunWithRetries | src/services/process-search-result.ts:207-226 | at most `RETRY_LIMIT + 1` attempts; resolves with the first attempt that resolves; rejected exactly when every attempt throws, and then after exactly `RETRY_LIMIT + 1` attempts; one warning per retry while `RETRY_LIMIT - attempt > 0` |
| Retry.TimeoutsInOrder | src/services/process-search-result.ts:209-210 | node-retry accepts the options only when the minimum delay is not above the maximum |
| Retry.AsyncRetry | src/services/process-search-result.ts:207-211 | options with the minimum delay above the maximum reject the call with no attempt; otherwise the attempts run as `RunWithRetries` states |
| Retry.OneRetryThenSuccess | src/services/process-search-result.ts:207-226 | a throw and then a success gives two attempts and one warning when the limit is at least 2 |
| ProcessResult.IdleTimeout | src/services/process-search-result.ts:33-36 | the selector-wait timeout is the network-idle timeout or twice it; for a non-zero timeout it is twice it exactly when email or social links are requested |
| ProcessResult.VisitsWebsite | src/services/process-search-result.ts:115 | the website is visited exactly when it is truthy and email or social links are requested |
| ProcessResult.AttemptBody | src/services/process-search-result.ts:24-193 | a failed listing load throws its error; a missing title throws the screenshot error or the "No title found" error; with a title the listing completes, unless the website is visited, in which case a failed visit throws its error and a successful one completes with the contact data merged in |
| ProcessResult.Catch | src/services/process-search-result.ts:194-205 | rethrows exactly the `Error`s whose message includes `net::ERR_`; anything else thrown resolves with `undefined` |
| ProcessResult.IsNetworkError | src/services/process-search-result.ts:195-196 | true exactly for an `Error` whose message contains `net::ERR_` somewhere; never for a non-`Error` value |
| ProcessResult.FailsOnNetwork | src/services/process-search-result.ts:194-198 | the attempt's body throws an `Error` whose message includes `net::ERR_`, which the catch block rethrows |
| ProcessResult.Attempt | src/services/process-search-result.ts:24-205 | only network errors escape an attempt; a record it resolves with has a truthy title; a failed listing load escapes exactly when it is a network error |
| ProcessResult.RetryOptionsOf | src/services/process-search-result.ts:207-211 | `async-retry` gets `RETRY_LIMIT` retries and `DEFAULT_TIMEOUT` and `NETWORK_IDLE_TIMEOUT` as the minimum and maximum delay |
| ProcessResult.ProcessSearchResult | src/services/process-search-result.ts:16-228 | no attempt when `DEFAULT_TIMEOUT` exceeds `NETWORK_IDLE_TIMEOUT`, and then a rejection; otherwise at most `RETRY_LIMIT + 1` attempts, rejected exactly when every attempt fails with a network error, and then after all `RETRY_LIMIT + 1` of them; a resolved call ends on an attempt that did not fail on the network, so such a failure is always followed by another attempt while attempts remain; the last attempt decides the result: its record when it completed, `undefined` when it failed otherwise |
| ProcessResult.FirstAttemptCompletes | src/services/process-search-result.ts:22-227 | when `DEFAULT_TIMEOUT` is at most `NETWORK_IDLE_TIMEOUT`, a first attempt that completes makes the call resolve with its record after one attempt |
| ProcessResult.NetworkErrorIsRetried | src/services/process-search-result.ts:194-211 | when `DEFAULT_TIMEOUT` is at most `NETWORK_IDLE_TIMEOUT` and `RETRY_LIMIT` is at least 1, a network error on the first attempt followed by a completed second attempt resolves with the second attempt's record after two attempts |
| ProcessResult.NoTitleIsNotNetworkError | src/services/process-search-result.ts:109-111 | the missing-title error does not include `net::ERR_` |
| ProcessResult.MissingTitleIsNotRetried | src/services/process-search-result.ts:99-111 | when the listing loads and the screenshot succeeds, a listing without a title ends the attempt with `undefined`, so it is not retried |
| ProcessResult.MissingTitleSkipsWebsite | src/services/process-search-result.ts:99-115 | a listing without a title throws before any website navigation |
| ProcessResult.WebsiteFailureDropsListing | src/services/process-search-result.ts:115-124 | a non-network failure while visiting the website loses the whole record |
| ProcessResult.NoContactOptionsIsListingOnly | src/services/process-search-result.ts:115 | with both options off, the result is exactly the listing record |
| UriEncoding.HexDigit | src/utils/build-google-map-url.ts:11 | the digit is `0123456789ABCDEF` at the value, so upper case, and unreserved |
| UriEncoding.EscapeUpper | src/utils/build-google-map-url.ts:11 | the two digits of a `%XX` escape are upper-case hex digits |
| UriEncoding.Utf8Bytes | src/utils/build-google-map-url.ts:11 | one to four bytes, every byte after the first a continuation byte |
| UriEncoding.EscapeAll | src/utils/build-google-map-url.ts:11 | three characters per byte, each `%` or unreserved |
| UriEncoding.EncodeChar | src/utils/build-google-map-url.ts:11 | an unreserved character stays itself; any other character is escaped |
| UriEncoding.Encode | src/utils/build-google-map-url.ts:11 | output of only unreserved characters and `%` escapes, every `%` followed by two upper-case hex digits; all-unreserved text is unchanged |
| UriEncoding.EncodeHasNoDelimiters | src/utils/build-google-map-url.ts:11 | the encoded key holds no `/`, `?`, `#`, `&`, `=`, `@` or space |
| UriEncoding.ReservedNotEncoded | src/utils/build-google-map-url.ts:11 | no reserved character other than `%` appears in encoded text |
| UriEncoding.Decode | src/utils/build-google-map-url.ts:11 | decoded text is never longer than its input |
| UriEncoding.DecodeEncode | src/utils/build-google-map-url.ts:11 | decoding the encoded key gives the key back |
| UriEncoding.DecodeWithoutEscapes | src/utils/build-google-map-url.ts:11 | text without `%` decodes to itself |
| UriEncoding.LonePercentIsError | src/utils/build-google-map-url.ts:11 | a lone `%` is a `URIError` |
| UriEncoding.EncodedSurrogateIsError | src/utils/build-google-map-url.ts:11 | an escaped surrogate is a `URIError` |
| MapsUrl.Location | src/utils/build-google-map-url.ts:12-14 | empty exactly without coordinates; otherwise it starts with `/`, and `ParseLocation` reads the coordinates back from it |
| MapsUrl.ParseLocation | src/utils/build-google-map-url.ts:13 | a suffix read back is `/@`, the latitude, `,`, the longitude and `,15z`, with no `,` in the latitude |
| MapsUrl.ParseLocationOfLocation | src/utils/build-google-map-url.ts:12-14 | the suffix built for coordinates reads back to the same coordinates when the latitude text holds no `,` |
| MapsUrl.BuildGoogleMapsURL | src/utils/build-google-map-url.ts:3-17 | the URL is the base, the encoded key and the location suffix; without coordinates it ends with the encoded key |
| MapsUrl.ParseSearchUrl | src/utils/build-google-map-url.ts:10-16 | a URL is read back exactly when it starts with the base |
| MapsUrl.ParseBuiltUrl | src/utils/build-google-map-url.ts:10-16 | every built URL reads back to its search key and location suffix |
| MapsUrl.UrlWithoutCoordinates | src/utils/build-google-map-url.ts:12-16 | without coordinates the URL ends with the encoded key |
| AutoScroll.Stalls | src/utils/auto-scroll.ts:29-33 | the stall count never exceeds the number of steps |
| AutoScroll.Continues | src/utils/auto-scroll.ts:16-37 | the loop goes on after a step exactly when fewer links than the limit were seen and fewer than 10 steps stalled |
| AutoScroll.Scroll | src/utils/auto-scroll.ts:3-40 | nothing happens without a feed; no step runs for a limit of 0 or less; at most 10 stalls; the count and height are the last step's; the loop stops at the first step with enough links or 10 stalls |
| AutoScroll.StallsOfStillFeed | src/utils/auto-scroll.ts:29-33 | on a feed that never grows, every step is a stall |
| AutoScroll.StillFeedGivesUpAfterTen | src/utils/auto-scroll.ts:12-37 | on a feed that never grows and never has enough links, the loop stops after exactly ten steps |
| Batch.OrDefault | src/services/scrape.ts:17-23 | a left-out option takes its default |
| Batch.WithDefaults | src/services/scrape.ts:17-23 | `resultLimit` 10, `email` and `socialLinks` false, `threadCount` 1 when left out |
| Batch.SliceEnd | src/services/scrape-without-pmap.ts:93 | `slice(0, limit)` keeps `min(limit, n)` items for a non-negative limit and `max(n + limit, 0)` for a negative one |
| Batch.SelectLinks | src/services/scrape-without-pmap.ts:84-94 | the links are a prefix of the feed's `href` values, as long as `slice(0, resultLimit)` makes it: `min(resultLimit, n)` for a non-negative limit, `max(n + resultLimit, 0)` for a negative one |
| Batch.SessionLinks | src/services/scrape-without-pmap.ts:84-94 | the links selected from the feed of the search URL built from the settings |
| Batch.SelectionIgnoresLaterEntries | src/services/scrape-without-pmap.ts:82-94 | once `resultLimit` links are listed, entries loaded later change nothing |
| Batch.SlotOf | src/services/scrape-without-pmap.ts:102-116 | a slot is `null` exactly when processing threw, and otherwise holds the returned value |
| Batch.LinkProcess | src/services/scrape-without-pmap.ts:102-116 | the per-link `try`/`catch` around `processSearchResult`: the slot of a link at an index, shared by the loop and the `pMap` mapper |
| Batch.LinkSlot | src/services/scrape.ts:95-113 | `null` exactly when node-retry refuses the delays or every attempt at the link fails with a network error; otherwise the last attempt decides: its record when it completed (with a truthy title), `undefined` when it failed with any other error |
| Batch.CompletedListingIsKept | src/services/scrape.ts:95-113 | when `DEFAULT_TIMEOUT` is at most `NETWORK_IDLE_TIMEOUT`, a listing whose first attempt completes appears in its slot |
| Batch.MapLinks | src/services/scrape.ts:93-119 | one slot per link, slot `i` being link `i`'s |
| Batch.ProcessSequentially | src/services/scrape-without-pmap.ts:98-117 | the loop builds the appended list `Sequential` describes: one slot per link in index order, later links processed whatever happened before |
| Batch.Sequential | src/services/scrape-without-pmap.ts:98-117 | the list built by appending one slot per link, link after link |
| Batch.SequentialPointwise | src/services/scrape-without-pmap.ts:98-117 | appending slot after slot puts link `i`'s slot at index `i` |
| Batch.SequentialTimeouts | src/services/scrape-without-pmap.ts:38-76 | page and feed timeouts doubled exactly when contact data is requested |
| Batch.ContactDoublesTimeouts | src/services/scrape-without-pmap.ts:38-76 | requesting contact data doubles every timeout of a run |
| Batch.PMapTimeouts | src/services/scrape.ts:40-74 | navigation `DEFAULT_TIMEOUT` times the thread count, default `NETWORK_IDLE_TIMEOUT` times the thread count, and the feed wait uses that default |
| Batch.PMapTimeoutsScale | src/services/scrape.ts:40-41 | every timeout is the one-thread timeout times the thread count |
| Batch.ScrapeWithoutPMap | src/services/scrape-without-pmap.ts:16-128 | `undefined` exactly when loading the search page fails; otherwise the slots the sequential loop appends, one per selected link |
| Batch.Scrape | src/services/scrape.ts:17-131 | `undefined` exactly when loading fails or the thread count is below 1; otherwise one slot per link, in order, `null` slots kept |
| Batch.ValidConcurrency | src/services/scrape.ts:115-118 | `pMap` accepts a thread count of at least 1 |
| Batch.AtMostLimitSlots | src/services/scrape.ts:78-88 | for a non-negative `resultLimit`, no more than `resultLimit` slots; a negative limit is covered by `Batch.SelectLinks` |
| Batch.PMapAgreesWithSequential | src/services/scrape.ts:93-122 | with a valid thread count, `scrape` is `undefined` exactly when loading fails and otherwise returns the list the sequential loop of `scrapeWithoutPMap` appends |

## Left out

- Puppeteer: launching, navigation, `waitForSelector`, the `Promise.race` of the two waits, `evaluate`, user agent, viewport, headers and stealth setup. Each awaited step is a `Step` that completes or throws, and each rendered page is a `Document`.
- Setting page timeouts: the timeouts are computed, but their effect on the browser is part of the `Step` outcomes.
- The regular expressions and the constants module: `EMAIL_REGEX`'s `exec` and each platform's `test` are parameters, as are `DEFAULT_TIMEOUT`, `NETWORK_IDLE_TIMEOUT` and `RETRY_LIMIT`.
- JsNumber.ConvertTrimmed: the double value of fractions, exponents, `Infinity`, binary, octal and hexadecimal literals, and integers beyond 2^53 is not computed (`Unevaluated`), because the model has no floating point. This covers the rating's value.
- Retry.RunWithRetries: the backoff delays (`factor`, `minTimeout`, `maxTimeout`) are not modelled, and neither is which error the library rejects with after the last attempt. The model keeps every attempt's error instead. Only the delays' effect of refusing the options is modelled, in `Retry.AsyncRetry`.
- Timers and randomness: the random delays, `waitSafely`, and the scroll loop's waits.
- Logging.
- Screenshots and directory creation. The screenshot is a `Step`, because its failure replaces the missing-title error.
- The entry point and file output (`src/index.ts`).
- Concurrency inside `pMap`. Links are processed on one shared page, and concurrent navigations on it interfere. The model gives each link its own browser behaviour and keeps only `pMap`'s order preservation.
- Batch.ValidConcurrency: thread counts are integers here. p-map's rejection of non-integer counts and its acceptance of `Infinity` are not modelled.
- Number formatting of coordinates: latitude and longitude are given as the text JavaScript renders them.
- AutoScroll.Scroll: the observations are a finite sequence, so a run still going when they end stops there. The real loop waits for the next step, and it does not end if the feed grows forever without listing enough links. The scroll distance (80% of the feed's height) is not modelled.
- The link between scrolling and the links found: the feed entries after scrolling are given per search URL, not derived from the scroll observations.
- `Places` search keys are taken as their string values.
- Within one attempt, the listing and the website are loaded through the same `navigate` and `render` behaviour. A website whose URL equals the listing link therefore loads and renders exactly as the listing did. A real browser could give different results for the two loads. No property here depends on this.
- UriEncoding.Encode: strings here are sequences of Unicode scalar values, while JavaScript strings are UTF-16 code units. A search key holding a lone surrogate makes `encodeURIComponent` throw `URIError`, and the scraper then returns `undefined`. The model cannot express such a key.
