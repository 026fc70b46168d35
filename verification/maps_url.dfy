/** `buildGoogleMapsURL`: the Google Maps search URL for a search key, optionally
    centred on coordinates at zoom level 15. */
module MapsUrl {
  import opened Js
  import opened Types
  import opened UriEncoding

  const BaseUrl := "https://www.google.com/maps/search/"

  /** The zoom part that ends a location suffix. */
  const ZoomSuffix := ",15z"

  /** The location suffix: empty without coordinates, `/@lat,lng,15z` with them. */
  function Location(coordinates: Optional<Coordinates>): (r: string)
    ensures coordinates.Undefined? <==> r == []
    ensures coordinates.Defined? ==> r[0] == '/'
  {
    match coordinates
    case Undefined => []
    case Defined(c) => "/@" + c.latitude + "," + c.longitude + ZoomSuffix
  }

  /** The text that opens a location suffix. */
  const LocationStart := "/@"

  /** Reads a location suffix back: `/@`, the latitude up to the first `,`, the
      longitude, and the zoom part. `null` for text of any other shape. */
  function ParseLocation(loc: string): (r: Nullable<Coordinates>)
    ensures r.NonNull? ==> loc == LocationStart + r.value.latitude + "," + r.value.longitude + ZoomSuffix
    ensures r.NonNull? ==> ',' !in r.value.latitude
  {
    if |loc| < |LocationStart| + |ZoomSuffix| || loc[..|LocationStart|] != LocationStart
       || loc[|loc| - |ZoomSuffix|..] != ZoomSuffix then Null
    else
      var mid := loc[|LocationStart|..|loc| - |ZoomSuffix|];
      assert loc == LocationStart + mid + ZoomSuffix;
      match IndexOf(mid, ",")
      case Null => Null
      case NonNull(k) =>
        SplitAtFirst(mid, ',', k);
        NonNull(Coordinates(mid[..k], mid[k + 1..]))
  }

  /** Text split at the first occurrence of `c`: the part before holds no `c`. */
  lemma SplitAtFirst(s: string, c: char, k: nat)
    requires OccursAt(s, [c], k)
    requires forall i :: 0 <= i < k ==> !OccursAt(s, [c], i)
    ensures s == s[..k] + [c] + s[k + 1..]
    ensures c !in s[..k]
  {
    assert s[k..k + 1] == [c];
    forall i | 0 <= i < k
      ensures s[..k][i] != c
    {
      assert s[i..i + 1] == [s[i]];
      assert !OccursAt(s, [c], i);
    }
  }

  /** The coordinates can be read back from the suffix built for them, as long as
      the latitude text holds no `,` (no rendering of a number does). */
  lemma {:induction false} ParseLocationOfLocation(c: Coordinates)
    requires ',' !in c.latitude
    ensures ParseLocation(Location(Defined(c))) == NonNull(c)
  {
    var loc := Location(Defined(c));
    var mid := c.latitude + "," + c.longitude;
    assert loc == LocationStart + mid + ZoomSuffix;
    assert loc[..|LocationStart|] == LocationStart;
    assert loc[|loc| - |ZoomSuffix|..] == ZoomSuffix;
    assert loc[|LocationStart|..|loc| - |ZoomSuffix|] == mid;
    var k := |c.latitude|;
    assert mid[k..k + 1] == ",";
    forall i | 0 <= i < k
      ensures !OccursAt(mid, ",", i)
    {
      assert mid[i] == c.latitude[i];
      assert c.latitude[i] in c.latitude;
    }
    assert OccursAt(mid, ",", k);
    var r := IndexOf(mid, ",");
    assert r.NonNull?;
    assert r.value <= k;
    assert r == NonNull(k);
    assert mid[..k] == c.latitude && mid[k + 1..] == c.longitude;
  }

  /** `buildGoogleMapsURL({searchKey, coordinates})`. */
  function BuildGoogleMapsURL(searchKey: string, coordinates: Optional<Coordinates>): (url: string)
    ensures StartsWith(url, BaseUrl)
    ensures url[|BaseUrl|..] == Encode(searchKey) + Location(coordinates)
    ensures coordinates.Undefined? ==> url == BaseUrl + Encode(searchKey)
  {
    var url := BaseUrl + Encode(searchKey) + Location(coordinates);
    assert url == BaseUrl + (Encode(searchKey) + Location(coordinates));
    url
  }

  /** A search URL taken apart: the decoded search key and the location suffix. */
  datatype SearchUrl = SearchUrl(searchKey: DecodeResult, location: string)

  /** Reads a search URL back: the text after the base up to the first `/` is the
      encoded key, and the rest is the location suffix. */
  function ParseSearchUrl(url: string): (r: Nullable<SearchUrl>)
    ensures r.NonNull? <==> StartsWith(url, BaseUrl)
  {
    if !StartsWith(url, BaseUrl) then Null
    else
      var rest := url[|BaseUrl|..];
      match IndexOf(rest, "/")
      case Null => NonNull(SearchUrl(Decode(rest), []))
      case NonNull(k) => NonNull(SearchUrl(Decode(rest[..k]), rest[k..]))
  }

  /** The first `/` after an encoded key is where the location suffix starts. */
  lemma FirstSlashEndsKey(e: string, loc: string)
    requires '/' !in e
    requires loc == [] || loc[0] == '/'
    ensures IndexOf(e + loc, "/") == if loc == [] then Null else NonNull(|e|)
  {
    var s := e + loc;
    forall i | 0 <= i < |e|
      ensures !OccursAt(s, "/", i)
    {
      assert s[i] == e[i];
      assert e[i] in e;
    }
    if loc == [] {
      assert s == e;
    } else {
      assert s[|e|..|e| + 1] == "/";
      assert OccursAt(s, "/", |e|);
    }
  }

  /** The search key and the location can be read back from every URL built. */
  lemma ParseBuiltUrl(searchKey: string, coordinates: Optional<Coordinates>)
    ensures ParseSearchUrl(BuildGoogleMapsURL(searchKey, coordinates))
         == NonNull(SearchUrl(Decoded(searchKey), Location(coordinates)))
  {
    var e := Encode(searchKey);
    var loc := Location(coordinates);
    var rest := e + loc;
    ReservedNotEncoded(searchKey, '/');
    FirstSlashEndsKey(e, loc);
    DecodeEncode(searchKey);
    if loc != [] {
      assert rest[..|e|] == e && rest[|e|..] == loc;
    } else {
      assert rest == e;
    }
  }

  /** Without coordinates the URL ends with the encoded key. */
  lemma UrlWithoutCoordinates(searchKey: string)
    ensures var url := BuildGoogleMapsURL(searchKey, Undefined);
            url[|url| - |Encode(searchKey)|..] == Encode(searchKey)
  {
  }
}
