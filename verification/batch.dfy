/** The two scraper entry points, `scrapeWithoutPMap` and `scrape`: both load the
    search page, collect the result links and process each link, the first one link
    after another, the second through `pMap`. Each returns one slot per link, or
    `undefined` when anything outside the per-link processing throws. */
module Batch {
  import opened Js
  import opened Types
  import opened ContactExtraction
  import opened Retry
  import opened ProcessResult
  import opened MapsUrl

  /** The selector of the result links inside the feed. */
  const ResultLinkSelector := "div[role=\"feed\"] > div:nth-child(n+3) > div > a"

  const DefaultResultLimit := 10
  const DefaultThreadCount := 1

  /** The options once the destructuring defaults are applied. */
  datatype Settings = Settings(
    searchKey: string,
    coordinates: Optional<Coordinates>,
    resultLimit: int,
    email: bool,
    socialLinks: bool,
    threadCount: int)

  /** The value of an optional setting, or its default when it is left out. */
  function OrDefault<T>(o: Optional<T>, default: T): (r: T)
    ensures o.Defined? ==> r == o.value
    ensures o.Undefined? ==> r == default
  {
    match o
    case Undefined => default
    case Defined(v) => v
  }

  /** `resultLimit = 10`, `email = false`, `socialLinks = false`, `threadCount = 1`. */
  function WithDefaults(opts: ScraperOptions): (s: Settings)
    ensures s.searchKey == opts.searchKey && s.coordinates == opts.coordinates
    ensures s.resultLimit == OrDefault(opts.resultLimit, DefaultResultLimit)
    ensures s.email == OrDefault(opts.email, false)
    ensures s.socialLinks == OrDefault(opts.socialLinks, false)
    ensures s.threadCount == OrDefault(opts.threadCount, DefaultThreadCount)
  {
    Settings(opts.searchKey, opts.coordinates, OrDefault(opts.resultLimit, DefaultResultLimit),
             OrDefault(opts.email, false), OrDefault(opts.socialLinks, false),
             OrDefault(opts.threadCount, DefaultThreadCount))
  }

  /** Where `slice(0, limit)` ends on a list of `len` items: a negative limit counts
      back from the end. */
  function SliceEnd(len: nat, limit: int): (k: nat)
    ensures k <= len
    ensures limit >= 0 ==> k == if limit < len then limit else len
    ensures limit < 0 ==> k == if len + limit > 0 then len + limit else 0
  {
    if limit >= 0 then (if limit < len then limit else len)
    else if len + limit > 0 then len + limit else 0
  }

  /** The result links: the `href` of each feed entry that has one, in document
      order, cut with `slice(0, resultLimit)`. */
  function SelectLinks(entries: seq<Element>, limit: int): (r: seq<string>)
    ensures |r| <= |Hrefs(entries)| && r == Hrefs(entries)[..|r|]
    ensures |r| == SliceEnd(|Hrefs(entries)|, limit)
    ensures 0 <= limit ==> |r| == if limit < |Hrefs(entries)| then limit else |Hrefs(entries)|
    ensures limit < 0 ==> |r| == if |Hrefs(entries)| + limit > 0 then |Hrefs(entries)| + limit else 0
  {
    var hrefs := Hrefs(entries);
    hrefs[..SliceEnd(|hrefs|, limit)]
  }

  /** Once the feed lists `limit` links, entries loaded further down do not change
      the selection. */
  lemma SelectionIgnoresLaterEntries(a: seq<Element>, b: seq<Element>, limit: int)
    requires 0 <= limit <= |Hrefs(a)|
    ensures SelectLinks(a + b, limit) == SelectLinks(a, limit)
  {
    HrefsConcat(a, b);
    assert (Hrefs(a) + Hrefs(b))[..limit] == Hrefs(a)[..limit];
  }

  /** One entry of the returned list: `null` when processing the link threw, otherwise
      what it returned, `undefined` or a record. */
  datatype Slot = NullSlot | UndefinedSlot | RecordSlot(record: SearchResult)

  /** The slot the per-link `try`/`catch` stores for one `processSearchResult` call. */
  function SlotOf(run: RetryRun<Optional<SearchResult>>): (s: Slot)
    ensures s.NullSlot? <==> run.outcome.Rejected?
    ensures s.UndefinedSlot? <==> run.outcome == Resolved(Undefined)
    ensures s.RecordSlot? ==> run.outcome == Resolved(Defined(s.record))
  {
    match run.outcome
    case Rejected(_) => NullSlot
    case Resolved(Undefined) => UndefinedSlot
    case Resolved(Defined(record)) => RecordSlot(record)
  }

  /** What the browser does while link `i` is processed, attempt by attempt. */
  type LinkBrowsers = nat -> nat -> Browser

  /** The `try`/`catch` around `processSearchResult` for the link at `index`: what
      the loop body and the `pMap` mapper both compute. */
  function LinkProcess(cfg: Config, contact: ContactConfig, s: Settings, browsers: LinkBrowsers)
    : (string, nat) -> Slot
  {
    (link: string, index: nat) => SlotOf(ProcessSearchResult(cfg, contact, link, s.email, s.socialLinks, browsers(index)))
  }

  /** The slot of link `i`: `null` exactly when its call is rejected, that is when
      node-retry refuses the delays or every attempt fails with a network error; a
      record is what the last attempt completed with. */
  function LinkSlot(cfg: Config, contact: ContactConfig, s: Settings, links: seq<string>,
                    browsers: LinkBrowsers, i: nat): (r: Slot)
    requires i < |links|
    ensures r.NullSlot? <==>
              cfg.defaultTimeout > cfg.networkIdleTimeout
              || forall n :: 1 <= n <= cfg.retryLimit + 1 ==>
                   FailsOnNetwork(links[i], browsers(i)(n), s.email, s.socialLinks, contact)
    ensures r.RecordSlot? ==>
              var run := ProcessSearchResult(cfg, contact, links[i], s.email, s.socialLinks, browsers(i));
              && Truthy(r.record.title)
              && AttemptBody(links[i], browsers(i)(run.attempts), s.email, s.socialLinks, contact) == Completed(r.record)
    ensures var run := ProcessSearchResult(cfg, contact, links[i], s.email, s.socialLinks, browsers(i));
            run.attempts >= 1 ==>
              var body := AttemptBody(links[i], browsers(i)(run.attempts), s.email, s.socialLinks, contact);
              && (body.Completed? ==> r == RecordSlot(body.result))
              && (body.Threw? && !IsNetworkError(body.thrown) ==> r == UndefinedSlot)
  {
    SlotOf(ProcessSearchResult(cfg, contact, links[i], s.email, s.socialLinks, browsers(i)))
  }

  /** A listing whose first attempt completes appears in its slot. */
  lemma CompletedListingIsKept(cfg: Config, contact: ContactConfig, s: Settings, links: seq<string>,
                               browsers: LinkBrowsers, i: nat)
    requires i < |links|
    requires cfg.defaultTimeout <= cfg.networkIdleTimeout
    requires AttemptBody(links[i], browsers(i)(1), s.email, s.socialLinks, contact).Completed?
    ensures LinkSlot(cfg, contact, s, links, browsers, i)
              == RecordSlot(AttemptBody(links[i], browsers(i)(1), s.email, s.socialLinks, contact).result)
  {
    FirstAttemptCompletes(cfg, contact, links[i], s.email, s.socialLinks, browsers(i));
  }

  /** The mapped list: slot `i` is link `i`'s slot, whatever happened to other links. */
  function MapLinks(cfg: Config, contact: ContactConfig, s: Settings, links: seq<string>,
                    browsers: LinkBrowsers): (r: seq<Slot>)
    ensures |r| == |links|
    ensures forall i :: 0 <= i < |links| ==> r[i] == LinkSlot(cfg, contact, s, links, browsers, i)
  {
    seq(|links|, i requires 0 <= i < |links| => LinkSlot(cfg, contact, s, links, browsers, i))
  }

  /** The slots a loop appends when it processes `links` one after another: those of
      all links but the last, then the last one's. */
  function Sequential(links: seq<string>, process: (string, nat) -> Slot): seq<Slot>
    decreases |links|
  {
    if |links| == 0 then []
    else Sequential(links[..|links| - 1], process) + [process(links[|links| - 1], |links| - 1)]
  }

  /** Appending slot after slot puts link `i`'s slot at index `i`. */
  lemma {:induction false} SequentialPointwise(links: seq<string>, process: (string, nat) -> Slot)
    ensures |Sequential(links, process)| == |links|
    ensures forall i :: 0 <= i < |links| ==> Sequential(links, process)[i] == process(links[i], i)
    decreases |links|
  {
    if |links| > 0 {
      var init := links[..|links| - 1];
      SequentialPointwise(init, process);
      assert forall i :: 0 <= i < |init| ==> init[i] == links[i];
    }
  }

  /** The `for` loop of `scrapeWithoutPMap`, with `process(link, index)` standing for
      the `try`/`catch` around one `processSearchResult` call: each link is processed
      in turn and its slot appended, and a link that throws does not stop the later ones. */
  method ProcessSequentially(links: seq<string>, process: (string, nat) -> Slot) returns (slots: seq<Slot>)
    ensures slots == Sequential(links, process)
    ensures |slots| == |links|
    ensures forall i :: 0 <= i < |links| ==> slots[i] == process(links[i], i)
  {
    slots := [];
    var index := 0;
    while index < |links|
      invariant 0 <= index <= |links|
      invariant slots == Sequential(links[..index], process)
    {
      assert links[..index + 1][..index] == links[..index];
      slots := slots + [process(links[index], index)];
      index := index + 1;
    }
    assert links[..index] == links;
    SequentialPointwise(links, process);
  }

  /** The search page as the scraper meets it. `load(url)` stands for launching the
      browser, loading the search URL, waiting for the feed and scrolling it; `feed`
      is the feed entries matching the result-link selector afterwards. */
  datatype SearchSession = SearchSession(load: string -> Step, feed: string -> seq<Element>, browsers: LinkBrowsers)

  /** The timeouts a scraper configures on its page. */
  datatype PageTimeouts = PageTimeouts(navigation: int, defaultWait: int, feedWait: int)

  /** `scrapeWithoutPMap`'s timeouts: each doubled when contact data is asked for. */
  function SequentialTimeouts(cfg: Config, s: Settings): (t: PageTimeouts)
    ensures var k := if s.email || s.socialLinks then 2 else 1;
            t == PageTimeouts(k * cfg.defaultTimeout, k * cfg.defaultTimeout, k * cfg.networkIdleTimeout)
  {
    var defaultTimeout := if s.email || s.socialLinks then cfg.defaultTimeout * 2 else cfg.defaultTimeout;
    var idleTimeout := if s.email || s.socialLinks then cfg.networkIdleTimeout * 2 else cfg.networkIdleTimeout;
    PageTimeouts(defaultTimeout, defaultTimeout, idleTimeout)
  }

  /** `scrape`'s timeouts: scaled by the thread count; the feed wait uses the page's
      default timeout. */
  function PMapTimeouts(cfg: Config, s: Settings): (t: PageTimeouts)
    ensures t.navigation == s.threadCount * cfg.defaultTimeout
    ensures t.defaultWait == s.threadCount * cfg.networkIdleTimeout
    ensures t.feedWait == t.defaultWait
  {
    PageTimeouts(cfg.defaultTimeout * s.threadCount, cfg.networkIdleTimeout * s.threadCount,
                 cfg.networkIdleTimeout * s.threadCount)
  }

  /** Every `pMap` timeout is the one-thread timeout times the thread count. */
  lemma PMapTimeoutsScale(cfg: Config, s: Settings)
    ensures var one := PMapTimeouts(cfg, s.(threadCount := 1));
            var t := PMapTimeouts(cfg, s);
            && t.navigation == s.threadCount * one.navigation
            && t.defaultWait == s.threadCount * one.defaultWait
            && t.feedWait == s.threadCount * one.feedWait
  {
  }

  /** Asking for contact data doubles every timeout of `scrapeWithoutPMap`, and the
      processing idle timeout with them. */
  lemma ContactDoublesTimeouts(cfg: Config, s: Settings)
    requires s.email || s.socialLinks
    ensures var plain := SequentialTimeouts(cfg, s.(email := false, socialLinks := false));
            var t := SequentialTimeouts(cfg, s);
            && t.navigation == 2 * plain.navigation
            && t.defaultWait == 2 * plain.defaultWait
            && t.feedWait == 2 * plain.feedWait
            && IdleTimeout(cfg, s.email, s.socialLinks) == 2 * IdleTimeout(cfg, false, false)
  {
  }

  /** The links found on the search page for these settings. */
  function SessionLinks(session: SearchSession, s: Settings): seq<string> {
    SelectLinks(session.feed(BuildGoogleMapsURL(s.searchKey, s.coordinates)), s.resultLimit)
  }

  /** `scrapeWithoutPMap(options)`. */
  method ScrapeWithoutPMap(cfg: Config, contact: ContactConfig, opts: ScraperOptions, session: SearchSession)
    returns (r: Optional<seq<Slot>>)
    ensures var s := WithDefaults(opts);
            r.Undefined? <==> session.load(BuildGoogleMapsURL(s.searchKey, s.coordinates)).Throws?
    ensures var s := WithDefaults(opts);
            r.Defined? ==> |r.value| == |SessionLinks(session, s)|
    ensures var s := WithDefaults(opts);
            r.Defined? ==> forall i :: 0 <= i < |r.value| ==>
              r.value[i] == LinkSlot(cfg, contact, s, SessionLinks(session, s), session.browsers, i)
    ensures var s := WithDefaults(opts);
            r.Defined? ==> r.value == Sequential(SessionLinks(session, s), LinkProcess(cfg, contact, s, session.browsers))
  {
    var s := WithDefaults(opts);
    var url := BuildGoogleMapsURL(s.searchKey, s.coordinates);
    if session.load(url).Throws? {
      return Undefined;
    }
    var links := SelectLinks(session.feed(url), s.resultLimit);
    assert links == SessionLinks(session, s);
    var process := LinkProcess(cfg, contact, s, session.browsers);
    var slots := ProcessSequentially(links, process);
    return Defined(slots);
  }

  /** p-map's check of its `concurrency` option: an integer of at least 1. */
  predicate ValidConcurrency(threadCount: int) {
    threadCount >= 1
  }

  /** `scrape(options)`: as `scrapeWithoutPMap` with the links mapped by `pMap`, whose
      output keeps input order and every slot, `null` ones included. A thread count
      below 1 makes `pMap` throw once the links are collected, so the call returns
      `undefined`. */
  function Scrape(cfg: Config, contact: ContactConfig, opts: ScraperOptions, session: SearchSession)
    : (r: Optional<seq<Slot>>)
    ensures var s := WithDefaults(opts);
            r.Undefined? <==>
              session.load(BuildGoogleMapsURL(s.searchKey, s.coordinates)).Throws? || !ValidConcurrency(s.threadCount)
    ensures var s := WithDefaults(opts);
            r.Defined? ==> |r.value| == |SessionLinks(session, s)|
    ensures var s := WithDefaults(opts);
            r.Defined? ==> forall i :: 0 <= i < |r.value| ==>
              r.value[i] == LinkSlot(cfg, contact, s, SessionLinks(session, s), session.browsers, i)
  {
    var s := WithDefaults(opts);
    var url := BuildGoogleMapsURL(s.searchKey, s.coordinates);
    if session.load(url).Throws? then Undefined
    else
      var links := SelectLinks(session.feed(url), s.resultLimit);
      if !ValidConcurrency(s.threadCount) then Undefined
      else Defined(MapLinks(cfg, contact, s, links, session.browsers))
  }

  /** With no more than `limit` links asked for, no more are processed. */
  lemma AtMostLimitSlots(cfg: Config, contact: ContactConfig, opts: ScraperOptions, session: SearchSession)
    requires var s := WithDefaults(opts); s.resultLimit >= 0
    ensures var r := Scrape(cfg, contact, opts, session);
            r.Defined? ==> |r.value| <= WithDefaults(opts).resultLimit
  {
  }

  /** With a valid thread count `scrape` returns what the sequential loop of
      `scrapeWithoutPMap` builds: `pMap` keeps input order, so concurrency changes
      nothing in the result. */
  lemma PMapAgreesWithSequential(cfg: Config, contact: ContactConfig, opts: ScraperOptions, session: SearchSession)
    requires ValidConcurrency(WithDefaults(opts).threadCount)
    ensures var s := WithDefaults(opts);
            var r := Scrape(cfg, contact, opts, session);
            && (r.Undefined? <==> session.load(BuildGoogleMapsURL(s.searchKey, s.coordinates)).Throws?)
            && (r.Defined? ==>
                  r.value == Sequential(SessionLinks(session, s), LinkProcess(cfg, contact, s, session.browsers)))
  {
    var s := WithDefaults(opts);
    var links := SessionLinks(session, s);
    var process := LinkProcess(cfg, contact, s, session.browsers);
    SequentialPointwise(links, process);
    var r := Scrape(cfg, contact, opts, session);
    if r.Defined? {
      assert r.value == Sequential(links, process);
    }
  }
}
