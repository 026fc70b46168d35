/** The listing-page extraction that runs inside the page: each text field from an
    ordered fallback list of selectors, the website from an anchor's `href`, and the
    two numeric fields through `Number`. */
module FieldExtraction {
  import opened Js
  import opened JsNumber
  import opened Types

  const MainHeading := "div[role=\"main\"] > div:nth-child(2) > div > div:nth-child(1)"

  const TitleSelectors: seq<string> := [MainHeading + " > div:nth-child(1) > h1", "h1.title", "h1"]

  const TypeSelectors: seq<string> := [
    MainHeading + " > div:nth-child(2) > div > div:nth-child(2) > span:nth-child(1) > span > button",
    ".business-type"]

  const AddressSelectors: seq<string> := [
    "button[data-tooltip=\"Copy address\"] > div > div:nth-child(2) > div:nth-child(1)", ".address"]

  const PhoneSelectors: seq<string> := [
    "button[data-tooltip=\"Copy phone number\"] > div > div:nth-child(2) > div:nth-child(1)", ".phone-number"]

  const WebsiteSelector := "a[data-tooltip=\"Open website\"]"

  const RatingSelector :=
    MainHeading + " > div:nth-child(2) > div > div:nth-child(1) > div:nth-child(2) > span:nth-child(1) > span:nth-child(1)"

  const ReviewCountSelector :=
    MainHeading + " > div:nth-child(2) > div > div:nth-child(1) > div:nth-child(2) > span:nth-child(2) > span > span"

  /** The characters the review-count text loses before conversion (`/[(),]/g`). */
  const ReviewPunctuation: set<char> := {'(', ')', ','}

  /** Index of the first selector, in list order, that matches an element. */
  function FirstMatch(d: Document, selectors: seq<string>): (r: Nullable<nat>)
    ensures r.NonNull? ==> r.value < |selectors| && selectors[r.value] in d.query
    ensures r.NonNull? ==> forall j :: 0 <= j < r.value ==> selectors[j] !in d.query
    ensures r.Null? <==> forall j :: 0 <= j < |selectors| ==> selectors[j] !in d.query
  {
    if |selectors| == 0 then Null
    else if selectors[0] in d.query then NonNull(0)
    else match FirstMatch(d, selectors[1..])
      case Null => Null
      case NonNull(i) => NonNull(i + 1)
  }

  /** `selectTextContent`: the trimmed text of the element the first matching selector
      finds, even when that text is empty; `null` only when no selector matches. */
  function SelectTextContent(d: Document, selectors: seq<string>): (r: Nullable<string>)
    ensures r.Null? <==> forall j :: 0 <= j < |selectors| ==> selectors[j] !in d.query
    ensures r.NonNull? ==>
      exists i :: 0 <= i < |selectors| && selectors[i] in d.query
                  && (forall j :: 0 <= j < i ==> selectors[j] !in d.query)
                  && r.value == Trim(d.query[selectors[i]].textContent)
  {
    match FirstMatch(d, selectors)
    case Null => Null
    case NonNull(i) => NonNull(Trim(d.query[selectors[i]].textContent))
  }

  /** The website: the trimmed `href` of the "Open website" anchor, else `null`. */
  function Website(d: Document): (r: Nullable<string>)
    ensures r.NonNull? <==> WebsiteSelector in d.query && "href" in d.query[WebsiteSelector].attributes
    ensures r.NonNull? ==> r.value == Trim(d.query[WebsiteSelector].attributes["href"])
  {
    match QuerySelector(d, WebsiteSelector)
    case Null => Null
    case NonNull(e) =>
      match GetAttribute(e, "href")
      case Null => Null
      case NonNull(href) => NonNull(Trim(href))
  }

  /** A number field: `null` when the element is absent, otherwise what its text gives. */
  function NumberField(d: Document, selector: string, drop: set<char>): (r: Nullable<NumberValue>)
    ensures selector !in d.query ==> r.Null?
    ensures selector in d.query ==> r == NumberOfText(d.query[selector].textContent, drop)
  {
    match QuerySelector(d, selector)
    case Null => Null
    case NonNull(e) => NumberOfText(e.textContent, drop)
  }

  /** `null` when the text is empty (falsy), otherwise `Number` of the trimmed text
      once every character of `drop` is removed. */
  function NumberOfText(text: string, drop: set<char>): (r: Nullable<NumberValue>)
    ensures r.Null? <==> text == ""
  {
    if text == "" then Null
    else NonNull(ToNumber(RemoveChars(Trim(text), drop)))
  }

  /** `s.replace(/[...]/g, "")`: `s` without any character of `drop`. */
  function RemoveChars(s: string, drop: set<char>): (r: string)
    ensures |r| <= |s|
    ensures forall i :: 0 <= i < |r| ==> r[i] !in drop
  {
    if |s| == 0 then []
    else (if s[0] in drop then [] else [s[0]]) + RemoveChars(s[1..], drop)
  }

  /** Removal leaves no character of `drop`, keeps every other character in order,
      and changes nothing when there is nothing to drop. */
  lemma {:induction false} RemoveCharsSpec(s: string, drop: set<char>)
    ensures forall i :: 0 <= i < |RemoveChars(s, drop)| ==> RemoveChars(s, drop)[i] in s
    ensures (forall i :: 0 <= i < |s| ==> s[i] !in drop) ==> RemoveChars(s, drop) == s
  {
    if |s| > 0 {
      RemoveCharsSpec(s[1..], drop);
      var head := if s[0] in drop then [] else [s[0]];
      var tail := RemoveChars(s[1..], drop);
      assert RemoveChars(s, drop) == head + tail;
      assert forall i :: |head| <= i < |head + tail| ==> (head + tail)[i] == tail[i - |head|];
      assert forall x :: x in s[1..] ==> x in s;
    }
  }

  /** A single character is dropped or kept as it is. */
  lemma RemoveCharsOne(c: char, drop: set<char>)
    ensures RemoveChars([c], drop) == if c in drop then [] else [c]
  {
    assert [c][1..] == [];
  }

  /** Removal works piece by piece: with `RemoveCharsOne` it keeps every character
      outside `drop`, in order. */
  lemma {:induction false} RemoveCharsConcat(a: string, b: string, drop: set<char>)
    ensures RemoveChars(a + b, drop) == RemoveChars(a, drop) + RemoveChars(b, drop)
  {
    if |a| > 0 {
      assert (a + b)[0] == a[0];
      assert (a + b)[1..] == a[1..] + b;
      RemoveCharsConcat(a[1..], b, drop);
    } else {
      assert a + b == b;
    }
  }

  /** The review count: `null` without a review element or with an empty one,
      otherwise `Number` of its trimmed text with parentheses and commas removed. */
  function ReviewCount(d: Document): (r: Nullable<NumberValue>)
    ensures r.Null? <==> ReviewCountSelector !in d.query || d.query[ReviewCountSelector].textContent == ""
    ensures r.NonNull? ==>
              r.value == ToNumber(RemoveChars(Trim(d.query[ReviewCountSelector].textContent), ReviewPunctuation))
  {
    NumberField(d, ReviewCountSelector, ReviewPunctuation)
  }

  /** The rating: `null` without a rating element or with an empty one, otherwise
      `Number` of its text, which trims it anyway. */
  function Rating(d: Document): (r: Nullable<NumberValue>)
    ensures r.Null? <==> RatingSelector !in d.query || d.query[RatingSelector].textContent == ""
    ensures r.NonNull? ==> r.value == ToNumber(d.query[RatingSelector].textContent)
  {
    NothingToDrop(d, RatingSelector);
    NumberField(d, RatingSelector, {})
  }

  /** With no character to drop, a present element with non-empty text is read as
      `Number` of that text. */
  lemma NothingToDrop(d: Document, selector: string)
    ensures selector in d.query && d.query[selector].textContent != "" ==>
              NumberField(d, selector, {}) == NonNull(ToNumber(d.query[selector].textContent))
  {
    if selector in d.query {
      var text := d.query[selector].textContent;
      RemoveCharsSpec(Trim(text), {});
      TrimIdempotent(text);
    }
  }

  /** The record the listing page yields before any website visit. */
  function ExtractListing(d: Document): (r: SearchResult)
    ensures r.email == Undefined && r.socialLinks == Undefined
  {
    SearchResult(
      title := SelectTextContent(d, TitleSelectors),
      businessType := SelectTextContent(d, TypeSelectors),
      address := SelectTextContent(d, AddressSelectors),
      phone := SelectTextContent(d, PhoneSelectors),
      website := Website(d),
      rating := Rating(d),
      reviewCount := ReviewCount(d),
      email := Undefined,
      socialLinks := Undefined)
  }

  /** A matched first selector wins even when its text is blank: the fallback does
      not move on to later selectors. */
  lemma FirstSelectorWins(d: Document, selectors: seq<string>)
    requires |selectors| > 0 && selectors[0] in d.query
    ensures SelectTextContent(d, selectors) == NonNull(Trim(d.query[selectors[0]].textContent))
  {
  }

  /** With only the generic `h1` on the page, the title comes from it. */
  lemma TitleFromGenericHeading(text: string)
    ensures var d := Document(map["h1" := Element(text, map[])], [], "");
            ExtractListing(d).title == NonNull(Trim(text))
  {
    var d := Document(map["h1" := Element(text, map[])], [], "");
    assert TitleSelectors[0] !in d.query && TitleSelectors[1] !in d.query;
    assert FirstMatch(d, TitleSelectors[2..]) == NonNull(0);
  }

  /** The website ignores the anchor's text: only its `href` is read. */
  lemma WebsiteIgnoresText(d: Document, text: string)
    requires WebsiteSelector in d.query
    ensures var e := d.query[WebsiteSelector];
            Website(d.(query := d.query[WebsiteSelector := e.(textContent := text)])) == Website(d)
  {
  }

  /** "(1,234)" is read as 1234. */
  lemma ReviewCountOfGroupedText(d: Document)
    requires ReviewCountSelector in d.query && d.query[ReviewCountSelector].textContent == "(1,234)"
    ensures ReviewCount(d) == NonNull(IntegerValue(1234))
  {
    TrimIdentity("(1,234)");
    GroupedDigitsCleaned();
    NumberOf1234();
  }

  lemma NumberOf1234()
    ensures ToNumber("1234") == IntegerValue(1234)
  {
    TrimIdentity("1234");
    DigitsConvertExactly("1234");
    DigitsOf1234();
  }

  lemma DigitsOf1234()
    ensures DigitsValue("1234") == 1234
  {
    assert "1234"[..3] == "123" && "123"[..2] == "12" && "12"[..1] == "1" && "1"[..0] == "";
  }

  lemma GroupedDigitsCleaned()
    ensures RemoveChars("(1,234)", ReviewPunctuation) == "1234"
  {
  }

  /** Text that is not a number yields NaN, not `null`. */
  lemma ReviewCountOfWords(d: Document)
    requires ReviewCountSelector in d.query && d.query[ReviewCountSelector].textContent == "N/A"
    ensures ReviewCount(d) == NonNull(NaN)
  {
    TrimIdentity("N/A");
    WordsKeepTheirLetters();
    WordsAreNaN();
  }

  lemma WordsAreNaN()
    ensures ToNumber("N/A") == NaN
  {
    TrimIdentity("N/A");
    WordsAreNotNumeric();
  }

  lemma WordsAreNotNumeric()
    ensures ConvertTrimmed("N/A") == NaN
  {
    if IsNumericLiteral("N/A") {
      NumericLiteralAlphabet("N/A");
    }
  }

  lemma WordsKeepTheirLetters()
    ensures RemoveChars("N/A", ReviewPunctuation) == "N/A"
  {
  }

  /** Text made only of parentheses and commas is truthy, and `Number("")` is 0. */
  lemma ReviewCountOfBareParentheses(d: Document)
    requires ReviewCountSelector in d.query && d.query[ReviewCountSelector].textContent == "()"
    ensures ReviewCount(d) == NonNull(IntegerValue(0))
  {
    TrimIdentity("()");
    assert RemoveChars("()", ReviewPunctuation) == "";
  }
}
