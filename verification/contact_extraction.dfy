/** The website-page extraction that runs inside the page: an email address from the
    body text and `mailto:` links, and the social-platform links among the anchors.
    The regular expressions are parameters: the email pattern as the function its
    `exec` computes, each platform pattern as the predicate its `test` computes. */
module ContactExtraction {
  import opened Js
  import opened Seqs
  import opened Types

  /** What `pattern.exec(text)` returns: no match (`null`, read as `[]`), or the
      matched text followed by the capture groups, which may be `undefined`. */
  datatype ExecResult = NoMatch | Match(matched: string, groups: seq<Optional<string>>)

  /** A configured platform: its key and its pattern's `test`. */
  datatype Platform = Platform(name: PlatformName, test: string -> bool)

  /** The patterns the extraction is configured with. */
  datatype ContactConfig = ContactConfig(emailPattern: string -> ExecResult, platforms: seq<Platform>)

  /** What the website page yields: each field `Undefined` when its option is off. */
  datatype ContactData = ContactData(email: Optional<Nullable<string>>, socialLinks: Optional<SocialLinks>)

  const MailtoPrefix := "mailto:"

  /** `pattern.exec(text) ?? []` as an array. */
  function MatchArray(e: ExecResult): (r: seq<Optional<string>>)
    ensures e.NoMatch? <==> |r| == 0
    ensures e.Match? ==> r[0] == Defined(e.matched)
  {
    match e
    case NoMatch => []
    case Match(m, groups) => [Defined(m)] + groups
  }

  /** True for an anchor carrying an `href` attribute. */
  predicate HasHref(e: Element) {
    "href" in e.attributes
  }

  /** True when `x` is the `href` of some anchor of the list. */
  predicate IsHrefOf(anchors: seq<Element>, x: string) {
    exists i :: 0 <= i < |anchors| && HasHref(anchors[i]) && anchors[i].attributes["href"] == x
  }

  /** The `href` values of the anchors that have one, in document order (`a[href]`). */
  function Hrefs(anchors: seq<Element>): (r: seq<string>)
    ensures |r| <= |anchors|
    ensures forall i :: 0 <= i < |anchors| && HasHref(anchors[i]) ==> anchors[i].attributes["href"] in r
    ensures forall k :: 0 <= k < |r| ==> IsHrefOf(anchors, r[k])
  {
    if |anchors| == 0 then []
    else
      var rest := Hrefs(anchors[1..]);
      assert forall k :: 0 <= k < |rest| ==> IsHrefOf(anchors, rest[k]) by {
        forall k | 0 <= k < |rest| ensures IsHrefOf(anchors, rest[k]) {
          HrefOfTail(anchors, rest[k]);
        }
      }
      match GetAttribute(anchors[0], "href")
      case Null => rest
      case NonNull(h) => [h] + rest
  }

  /** The `href` of an anchor after the first is the `href` of an anchor of the list. */
  lemma HrefOfTail(anchors: seq<Element>, x: string)
    requires |anchors| > 0 && IsHrefOf(anchors[1..], x)
    ensures IsHrefOf(anchors, x)
  {
    var j :| 0 <= j < |anchors[1..]| && HasHref(anchors[1..][j]) && anchors[1..][j].attributes["href"] == x;
    assert anchors[j + 1] == anchors[1..][j];
  }

  /** Anchors without `href` are skipped and the rest keep their document order. */
  lemma {:induction false} HrefsConcat(a: seq<Element>, b: seq<Element>)
    ensures Hrefs(a + b) == Hrefs(a) + Hrefs(b)
  {
    if |a| > 0 {
      assert (a + b)[1..] == a[1..] + b;
      HrefsConcat(a[1..], b);
    } else {
      assert a + b == b;
    }
  }

  predicate IsMailto(href: string) {
    StartsWith(href, MailtoPrefix)
  }

  /** The `href` values of `a[href^="mailto:"]`. */
  function MailtoHrefs(anchors: seq<Element>): (r: seq<string>)
    ensures forall i :: 0 <= i < |r| ==> IsMailto(r[i])
    ensures forall i :: 0 <= i < |anchors| && HasHref(anchors[i]) && IsMailto(anchors[i].attributes["href"]) ==>
              anchors[i].attributes["href"] in r
    ensures forall k :: 0 <= k < |r| ==> r[k] in Hrefs(anchors)
  {
    Filter(Hrefs(anchors), IsMailto)
  }

  /** Mailto links keep their document order across any split of the page. */
  lemma MailtoHrefsConcat(a: seq<Element>, b: seq<Element>)
    ensures MailtoHrefs(a + b) == MailtoHrefs(a) + MailtoHrefs(b)
  {
    HrefsConcat(a, b);
    FilterConcat(Hrefs(a), Hrefs(b), IsMailto);
  }

  /** The first mailto link in document order heads the list, whatever follows it. */
  lemma FirstMailtoLink(a: seq<Element>, e: Element, b: seq<Element>)
    requires forall i :: 0 <= i < |a| && HasHref(a[i]) ==> !IsMailto(a[i].attributes["href"])
    requires HasHref(e) && IsMailto(e.attributes["href"])
    ensures |MailtoHrefs(a + [e] + b)| > 0 && MailtoHrefs(a + [e] + b)[0] == e.attributes["href"]
  {
    MailtoHrefsConcat(a + [e], b);
    MailtoHrefsConcat(a, [e]);
    assert forall k :: 0 <= k < |Hrefs(a)| ==> !IsMailto(Hrefs(a)[k]);
    FilterNone(Hrefs(a), IsMailto);
    assert [e][0] == e;
  }

  /** `href.replace("mailto:", "").trim()`: for a mailto link, the trimmed text after the prefix. */
  function MailtoTarget(href: string): (r: string)
    ensures IsMailto(href) ==> r == Trim(href[|MailtoPrefix|..])
  {
    assert IsMailto(href) ==> ReplaceFirst(href, MailtoPrefix, "") == href[|MailtoPrefix|..];
    Trim(ReplaceFirst(href, MailtoPrefix, ""))
  }

  /** The targets of the mailto links, in document order. */
  function MailtoTargets(anchors: seq<Element>): (r: seq<Optional<string>>)
    ensures |r| == |MailtoHrefs(anchors)|
    ensures forall i :: 0 <= i < |r| ==> r[i] == Defined(Trim(MailtoHrefs(anchors)[i][|MailtoPrefix|..]))
  {
    var hrefs := MailtoHrefs(anchors);
    seq(|hrefs|, i requires 0 <= i < |hrefs| => Defined(MailtoTarget(hrefs[i])))
  }

  /** The email candidates: the pattern's match array, then the mailto targets. */
  function EmailCandidates(d: Document, cfg: ContactConfig): (r: seq<Optional<string>>)
    ensures cfg.emailPattern(d.bodyText).Match? ==> |r| > 0 && r[0] == Defined(cfg.emailPattern(d.bodyText).matched)
    ensures cfg.emailPattern(d.bodyText).NoMatch? ==> r == MailtoTargets(d.anchors)
  {
    MatchArray(cfg.emailPattern(d.bodyText)) + MailtoTargets(d.anchors)
  }

  /** `[...new Set(candidates)][0] ?? null`. A pattern match wins over every mailto
      link, the first mailto link is used when the pattern does not match, and
      without candidates the email is `null`. */
  function Email(d: Document, cfg: ContactConfig): (r: Nullable<string>)
    ensures cfg.emailPattern(d.bodyText).Match? ==> r == NonNull(cfg.emailPattern(d.bodyText).matched)
    ensures cfg.emailPattern(d.bodyText).NoMatch? && |MailtoHrefs(d.anchors)| > 0 ==>
              r == NonNull(Trim(MailtoHrefs(d.anchors)[0][|MailtoPrefix|..]))
    ensures cfg.emailPattern(d.bodyText).NoMatch? && |MailtoHrefs(d.anchors)| == 0 ==> r == Null
  {
    var candidates := EmailCandidates(d, cfg);
    var unique := Dedup(candidates);
    assert cfg.emailPattern(d.bodyText).NoMatch? ==> candidates == MailtoTargets(d.anchors);
    if |unique| == 0 then Null
    else match unique[0]
      case Undefined => Null
      case Defined(x) => NonNull(x)
  }

  /** The trimmed `href` of every anchor that has one, in document order. */
  function AnchorHrefs(anchors: seq<Element>): (r: seq<string>)
    ensures |r| == |Hrefs(anchors)|
    ensures forall i :: 0 <= i < |r| ==> r[i] == Trim(Hrefs(anchors)[i])
  {
    var hrefs := Hrefs(anchors);
    seq(|hrefs|, i requires 0 <= i < |hrefs| => Trim(hrefs[i]))
  }

  /** The hrefs a platform's pattern accepts, in document order, repeats included. */
  function PlatformLinks(p: Platform, hrefs: seq<string>): (r: seq<string>)
    ensures forall i :: 0 <= i < |r| ==> p.test(r[i]) && r[i] in hrefs
    ensures forall i :: 0 <= i < |hrefs| && p.test(hrefs[i]) ==> hrefs[i] in r
  {
    Filter(hrefs, p.test)
  }

  /** The last platform named `n` whose pattern accepts some href: the one whose
      links end up stored under `n`. */
  function LastAccepting(platforms: seq<Platform>, hrefs: seq<string>, n: PlatformName): (r: Nullable<nat>)
    ensures r.NonNull? ==> r.value < |platforms| && platforms[r.value].name == n
                           && |PlatformLinks(platforms[r.value], hrefs)| > 0
    ensures r.NonNull? ==> forall k :: r.value < k < |platforms| && platforms[k].name == n ==>
                                         |PlatformLinks(platforms[k], hrefs)| == 0
    ensures r.Null? ==> forall k :: 0 <= k < |platforms| && platforms[k].name == n ==>
                                      |PlatformLinks(platforms[k], hrefs)| == 0
  {
    if |platforms| == 0 then Null
    else
      var last := platforms[|platforms| - 1];
      if last.name == n && |PlatformLinks(last, hrefs)| > 0 then NonNull(|platforms| - 1)
      else
        var init := platforms[..|platforms| - 1];
        assert forall k :: 0 <= k < |init| ==> init[k] == platforms[k];
        LastAccepting(init, hrefs, n)
  }

  /** The `forEach` over the platforms, in configured order: a platform whose pattern
      accepts some href sets its key to all the hrefs it accepts, repeats included,
      so a later platform of the same name overwrites an earlier one. */
  function CollectSocialLinks(platforms: seq<Platform>, hrefs: seq<string>): (r: SocialLinks)
    ensures forall n :: n in r <==> LastAccepting(platforms, hrefs, n).NonNull?
    ensures forall n :: n in r ==> r[n] == PlatformLinks(platforms[LastAccepting(platforms, hrefs, n).value], hrefs)
  {
    if |platforms| == 0 then map[]
    else
      var init := platforms[..|platforms| - 1];
      var acc := CollectSocialLinks(init, hrefs);
      var p := platforms[|platforms| - 1];
      var links := PlatformLinks(p, hrefs);
      assert forall k :: 0 <= k < |init| ==> init[k] == platforms[k];
      if |Dedup(links)| > 0 then acc[p.name := links] else acc
  }

  /** With distinct platform names, as configured: a platform has a key exactly when
      its pattern accepts some href, and the key holds every href it accepts. */
  lemma SocialLinksPerPlatform(platforms: seq<Platform>, hrefs: seq<string>, k: nat)
    requires forall i, j :: 0 <= i < j < |platforms| ==> platforms[i].name != platforms[j].name
    requires k < |platforms|
    ensures var r := CollectSocialLinks(platforms, hrefs);
            && (platforms[k].name in r <==> |PlatformLinks(platforms[k], hrefs)| > 0)
            && (platforms[k].name in r ==> r[platforms[k].name] == PlatformLinks(platforms[k], hrefs))
  {
  }

  /** Repeated hrefs are stored repeatedly: the de-duplication only decides whether
      the key is emitted. */
  lemma SocialLinksKeepRepeats(platforms: seq<Platform>, k: nat, h: string)
    requires forall i, j :: 0 <= i < j < |platforms| ==> platforms[i].name != platforms[j].name
    requires k < |platforms| && platforms[k].test(h)
    ensures CollectSocialLinks(platforms, [h, h])[platforms[k].name] == [h, h]
  {
    var hrefs := [h, h];
    assert forall i :: 0 <= i < |hrefs| ==> platforms[k].test(hrefs[i]);
    FilterAll(hrefs, platforms[k].test);
    assert PlatformLinks(platforms[k], hrefs) == hrefs;
    SocialLinksPerPlatform(platforms, hrefs, k);
  }

  /** The website page's contribution to the record. */
  function ExtractContact(d: Document, cfg: ContactConfig, emailOption: bool, socialOption: bool): (r: ContactData)
    ensures r.email.Defined? <==> emailOption
    ensures r.socialLinks.Defined? <==> socialOption
    ensures emailOption ==> r.email.value == Email(d, cfg)
    ensures socialOption ==> r.socialLinks.value == CollectSocialLinks(cfg.platforms, AnchorHrefs(d.anchors))
  {
    ContactData(
      email := if emailOption then Defined(Email(d, cfg)) else Undefined,
      socialLinks := if socialOption then Defined(CollectSocialLinks(cfg.platforms, AnchorHrefs(d.anchors))) else Undefined)
  }
}
