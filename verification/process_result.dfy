/** `processSearchResult`: one listing link is loaded and its fields extracted; when
    the listing has a website and contact data was asked for, the website is loaded
    as well and its email and social links are merged into the record. Each attempt
    runs inside `async-retry`; the attempt's own catch block rethrows only network
    errors, so only those are retried, and every other failure yields `undefined`. */
module ProcessResult {
  import opened Js
  import opened Types
  import opened FieldExtraction
  import opened ContactExtraction
  import opened Retry

  /** The text every Chromium network error message carries. */
  const NetworkErrorMarker := "net::ERR_"

  /** The error thrown when the listing page has no (or an empty) title. */
  const NoTitleMessage := NoTitleStart + NoTitleEnd

  const NoTitleStart := "No title found - possible "
  const NoTitleEnd := "captcha, block, or page structure change"

  /** An awaited browser step: it completes, or it throws. */
  datatype Step = Completes | Throws(thrown: Thrown)

  /** What the browser does during one attempt. `navigate(url)` stands for loading
      `url` and every wait that follows it before the page is read; `render(url)` is
      the page that load leaves; `screenshot` is saving the debug screenshot. The
      listing and the website share these, so a website at the listing's own URL
      loads as the listing did. */
  datatype Browser = Browser(navigate: string -> Step, render: string -> Document, screenshot: Step)

  /** How the body of the `try` block ends. */
  datatype BodyResult = Completed(result: SearchResult) | Threw(thrown: Thrown)

  /** The timeout of the two selector waits after the listing loads: doubled when
      the website will be visited for contact data. */
  function IdleTimeout(cfg: Config, email: bool, social: bool): (t: int)
    ensures t == cfg.networkIdleTimeout || t == 2 * cfg.networkIdleTimeout
    ensures cfg.networkIdleTimeout != 0 ==> (email || social <==> t == 2 * cfg.networkIdleTimeout)
  {
    if email || social then cfg.networkIdleTimeout * 2 else cfg.networkIdleTimeout
  }

  /** True when the record's website is visited: it is truthy and some contact
      option is on. */
  predicate VisitsWebsite(listing: SearchResult, email: bool, social: bool) {
    Truthy(listing.website) && (email || social)
  }

  /** The body of the `try` block of one attempt at `link`. */
  function AttemptBody(link: string, b: Browser, email: bool, social: bool, contact: ContactConfig)
    : (r: BodyResult)
    ensures b.navigate(link).Throws? ==> r == Threw(b.navigate(link).thrown)
    ensures r.Completed? ==> Truthy(r.result.title)
    ensures r.Completed? ==>
              var listing := ExtractListing(b.render(link));
              r.result == listing.(email := r.result.email, socialLinks := r.result.socialLinks)
    ensures r.Completed? && !VisitsWebsite(r.result, email, social) ==>
              r.result.email == Undefined && r.result.socialLinks == Undefined
    ensures r.Completed? && VisitsWebsite(r.result, email, social) ==>
              var c := ExtractContact(b.render(r.result.website.value), contact, email, social);
              r.result.email == c.email && r.result.socialLinks == c.socialLinks
    ensures b.navigate(link).Completes? && !Truthy(ExtractListing(b.render(link)).title) ==>
              r == Threw(if b.screenshot.Throws? then b.screenshot.thrown else ErrorValue(NoTitleMessage))
    ensures b.navigate(link).Completes? ==>
              var listing := ExtractListing(b.render(link));
              Truthy(listing.title) && !VisitsWebsite(listing, email, social) ==> r == Completed(listing)
    ensures b.navigate(link).Completes? ==>
              var listing := ExtractListing(b.render(link));
              Truthy(listing.title) && VisitsWebsite(listing, email, social) ==>
                var visit := b.navigate(listing.website.value);
                (visit.Completes? ==> r.Completed?) && (visit.Throws? ==> r == Threw(visit.thrown))
  {
    match b.navigate(link)
    case Throws(e) => Threw(e)
    case Completes =>
      var listing := ExtractListing(b.render(link));
      if !Truthy(listing.title) then
        match b.screenshot
        case Throws(e) => Threw(e)
        case Completes => Threw(ErrorValue(NoTitleMessage))
      else if VisitsWebsite(listing, email, social) then
        var site := listing.website.value;
        match b.navigate(site)
        case Throws(e) => Threw(e)
        case Completes =>
          var c := ExtractContact(b.render(site), contact, email, social);
          Completed(listing.(email := c.email, socialLinks := c.socialLinks))
      else Completed(listing)
  }

  /** True for the errors the catch block rethrows: `Error`s whose message contains
      the network-error marker. */
  function IsNetworkError(e: Thrown): (r: bool)
    ensures e.NonErrorValue? ==> !r
    ensures e.ErrorValue? ==> (r <==> exists i :: OccursAt(e.message, NetworkErrorMarker, i))
    ensures r ==> |e.message| >= |NetworkErrorMarker|
  {
    e.ErrorValue? && Includes(e.message, NetworkErrorMarker)
  }

  /** The catch block: a network error is rethrown, so the attempt is retried; any
      other thrown value is logged and swallowed, so the attempt resolves with
      `undefined`; a completed body resolves with its record. */
  function Catch(body: BodyResult): (r: AttemptOutcome<Optional<SearchResult>>)
    ensures r.Rethrows? <==> body.Threw? && IsNetworkError(body.thrown)
    ensures r.Rethrows? ==> r.thrown == body.thrown
    ensures body.Completed? ==> r == Resolves(Defined(body.result))
    ensures body.Threw? && !IsNetworkError(body.thrown) ==> r == Resolves(Undefined)
  {
    match body
    case Completed(result) => Resolves(Defined(result))
    case Threw(e) => if IsNetworkError(e) then Rethrows(e) else Resolves(Undefined)
  }

  /** One attempt: the body followed by the catch block. Only network errors escape
      it, and a record it resolves with has a truthy title. */
  function Attempt(link: string, b: Browser, email: bool, social: bool, contact: ContactConfig)
    : (r: AttemptOutcome<Optional<SearchResult>>)
    ensures r.Rethrows? ==> IsNetworkError(r.thrown)
    ensures r.Resolves? && r.value.Defined? ==> Truthy(r.value.value.title)
    ensures b.navigate(link).Throws? ==> (r.Rethrows? <==> IsNetworkError(b.navigate(link).thrown))
  {
    Catch(AttemptBody(link, b, email, social, contact))
  }

  /** True when attempt `b` at `link` throws a network error, which is retried. */
  predicate FailsOnNetwork(link: string, b: Browser, email: bool, social: bool, contact: ContactConfig) {
    var body := AttemptBody(link, b, email, social, contact);
    body.Threw? && IsNetworkError(body.thrown)
  }

  /** The options `processSearchResult` gives `async-retry`. */
  function RetryOptionsOf(cfg: Config): RetryOptions {
    RetryOptions(cfg.retryLimit, cfg.defaultTimeout, cfg.networkIdleTimeout)
  }

  /** `processSearchResult(page, link, email, socialLinks)`, `browsers(n)` being the
      browser's behaviour on attempt `n`. With `DEFAULT_TIMEOUT` above
      `NETWORK_IDLE_TIMEOUT` node-retry refuses the options and no attempt runs.
      Otherwise attempts run while they fail with network errors, at most
      `RETRY_LIMIT + 1` of them; the last one decides the result: its record, or
      `undefined` when it failed in any other way. */
  function ProcessSearchResult(cfg: Config, contact: ContactConfig, link: string, email: bool, social: bool,
                               browsers: nat -> Browser): (r: RetryRun<Optional<SearchResult>>)
    ensures r.attempts <= cfg.retryLimit + 1
    ensures r.attempts == 0 <==> cfg.defaultTimeout > cfg.networkIdleTimeout
    ensures r.attempts == 0 ==> r.outcome == Rejected([ErrorValue(TimeoutOrderMessage)])
    ensures r.outcome.Rejected? <==>
              cfg.defaultTimeout > cfg.networkIdleTimeout
              || forall n :: 1 <= n <= cfg.retryLimit + 1 ==> FailsOnNetwork(link, browsers(n), email, social, contact)
    ensures forall n :: 1 <= n < r.attempts ==> FailsOnNetwork(link, browsers(n), email, social, contact)
    ensures r.attempts >= 1 ==>
              var body := AttemptBody(link, browsers(r.attempts), email, social, contact);
              && (body.Completed? ==> r.outcome == Resolved(Defined(body.result)))
              && (body.Threw? && !IsNetworkError(body.thrown) ==> r.outcome == Resolved(Undefined))
    ensures r.outcome.Resolved? ==> r.attempts >= 1 && !FailsOnNetwork(link, browsers(r.attempts), email, social, contact)
    ensures r.outcome.Rejected? && cfg.defaultTimeout <= cfg.networkIdleTimeout ==> r.attempts == cfg.retryLimit + 1
    ensures r.outcome.Resolved? && r.outcome.value.Defined? ==> Truthy(r.outcome.value.value.title)
  {
    var attempt := n => Attempt(link, browsers(n), email, social, contact);
    assert forall n :: attempt(n) == Catch(AttemptBody(link, browsers(n), email, social, contact));
    AsyncRetry(RetryOptionsOf(cfg), attempt)
  }

  /** A first attempt that completes is the result: its record is returned at once. */
  lemma FirstAttemptCompletes(cfg: Config, contact: ContactConfig, link: string, email: bool, social: bool,
                              browsers: nat -> Browser)
    requires cfg.defaultTimeout <= cfg.networkIdleTimeout
    requires AttemptBody(link, browsers(1), email, social, contact).Completed?
    ensures var r := ProcessSearchResult(cfg, contact, link, email, social, browsers);
            && r.attempts == 1
            && r.outcome == Resolved(Defined(AttemptBody(link, browsers(1), email, social, contact).result))
  {
  }

  /** A network error on the first attempt is retried: when the second attempt
      completes, the call resolves with its record after two attempts. */
  lemma NetworkErrorIsRetried(cfg: Config, contact: ContactConfig, link: string, email: bool, social: bool,
                              browsers: nat -> Browser)
    requires cfg.defaultTimeout <= cfg.networkIdleTimeout && cfg.retryLimit >= 1
    requires FailsOnNetwork(link, browsers(1), email, social, contact)
    requires AttemptBody(link, browsers(2), email, social, contact).Completed?
    ensures var r := ProcessSearchResult(cfg, contact, link, email, social, browsers);
            && r.attempts == 2
            && r.outcome == Resolved(Defined(AttemptBody(link, browsers(2), email, social, contact).result))
  {
  }

  /** The missing-title error is not a network error. */
  lemma NoTitleIsNotNetworkError()
    ensures !IsNetworkError(ErrorValue(NoTitleMessage))
  {
    assert NetworkErrorMarker[3] == ':';
    assert ':' !in NoTitleStart;
    assert ':' !in NoTitleEnd;
    NotIncludes(NoTitleMessage, NetworkErrorMarker, 3);
  }

  /** A listing without a title is given up at once: the attempt resolves with
      `undefined` whenever the screenshot succeeds, so it is never retried. */
  lemma MissingTitleIsNotRetried(link: string, b: Browser, email: bool, social: bool, contact: ContactConfig)
    requires b.navigate(link).Completes? && b.screenshot.Completes?
    requires !Truthy(ExtractListing(b.render(link)).title)
    ensures Attempt(link, b, email, social, contact) == Resolves(Undefined)
  {
    NoTitleIsNotNetworkError();
  }

  /** Without a title the website is never visited: the attempt does not depend on
      what navigating to or rendering any other URL would do. */
  lemma MissingTitleSkipsWebsite(link: string, b: Browser, b': Browser, email: bool, social: bool,
                                 contact: ContactConfig)
    requires b.navigate(link) == b'.navigate(link) && b.render(link) == b'.render(link)
    requires b.screenshot == b'.screenshot
    requires !Truthy(ExtractListing(b.render(link)).title)
    ensures AttemptBody(link, b, email, social, contact) == AttemptBody(link, b', email, social, contact)
  {
  }

  /** A website that fails to load with a non-network error loses the whole
      listing: the attempt resolves with `undefined`, not with the listing fields. */
  lemma WebsiteFailureDropsListing(link: string, b: Browser, email: bool, social: bool, contact: ContactConfig)
    requires b.navigate(link).Completes?
    requires var listing := ExtractListing(b.render(link));
             Truthy(listing.title) && VisitsWebsite(listing, email, social)
             && b.navigate(listing.website.value).Throws?
             && !IsNetworkError(b.navigate(listing.website.value).thrown)
    ensures Attempt(link, b, email, social, contact) == Resolves(Undefined)
  {
  }

  /** With both contact options off the result is the listing record as extracted,
      whatever the website would have held. */
  lemma NoContactOptionsIsListingOnly(link: string, b: Browser, contact: ContactConfig)
    requires b.navigate(link).Completes?
    requires Truthy(ExtractListing(b.render(link)).title)
    ensures Attempt(link, b, false, false, contact) == Resolves(Defined(ExtractListing(b.render(link))))
  {
  }
}
