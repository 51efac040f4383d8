/**
 * The image proxy serverless function (netlify/functions/image-proxy.ts): it
 * fetches an image from the application's own storage buckets on behalf of
 * the browser, refusing any other address before fetching.
 *
 * The upstream fetch is an oracle from address to how the fetch ended; the
 * base64 encoding of the fetched bytes is not modelled.
 */
module ImageProxy {
  import opened Wrappers
  import opened Strings
  import opened Http

  const AllowedOrigins: seq<string> := [
    "https://firebasestorage.googleapis.com",
    "https://past-palette-3c4ea.firebasestorage.app"
  ]

  const CacheControl: string := "public, max-age=31536000"

  /** How fetching (and reading the body of) the upstream address ended. */
  datatype Fetched =
    | FetchThrew
    | FetchAnswered(status: nat, statusText: string, contentType: Option<string>, bytes: seq<bv8>)

  /** `response.ok`: a status in the 200 range. */
  predicate Ok(status: nat)
  {
    200 <= status <= 299
  }

  datatype ProxyBody =
    | ErrorJson(error: string)
    | Image(contentType: string, cacheControl: string, bytes: seq<bv8>, isBase64Encoded: bool)

  /** `ALLOWED_ORIGINS.some(origin => url.startsWith(origin))`. */
  predicate IsAllowed(url: string)
  {
    exists k :: 0 <= k < |AllowedOrigins| && StartsWith(url, AllowedOrigins[k])
  }

  /** The allow-list, spelled out: an address passes exactly when it begins with one of the two origins. */
  lemma AllowedIffPrefixed(url: string)
    ensures IsAllowed(url) <==>
      StartsWith(url, "https://firebasestorage.googleapis.com")
      || StartsWith(url, "https://past-palette-3c4ea.firebasestorage.app")
  {
    if StartsWith(url, "https://firebasestorage.googleapis.com") {
      assert StartsWith(url, AllowedOrigins[0]);
    }
    if StartsWith(url, "https://past-palette-3c4ea.firebasestorage.app") {
      assert StartsWith(url, AllowedOrigins[1]);
    }
  }

  /**
   * The handler, for the `url` query parameter and the fetch oracle: 400 for
   * a missing or empty address, 403 for one outside the allow-list, the
   * upstream status for a failed upstream answer, 500 when the fetch throws,
   * and otherwise 200 with the image.
   */
  function Handle(url: Option<string>, fetch: string -> Fetched): (r: Response<ProxyBody>)
    ensures !(url.Some? && url.value != "") ==> r == Response(400, ErrorJson("Missing url parameter"))
    ensures url.Some? && url.value != "" && !IsAllowed(url.value) ==> r == Response(403, ErrorJson("URL not allowed"))
  {
    if !(url.Some? && url.value != "") then Response(400, ErrorJson("Missing url parameter"))
    else if !IsAllowed(url.value) then Response(403, ErrorJson("URL not allowed"))
    else match fetch(url.value)
      case FetchThrew => Response(500, ErrorJson("Failed to fetch image"))
      case FetchAnswered(status, statusText, contentType, bytes) =>
        if !Ok(status) then Response(status, ErrorJson("Failed to fetch image: " + statusText))
        else Response(200, Image(OrDefault(contentType, "image/jpeg"), CacheControl, bytes, true))
  }

  /** Both refusals come before any fetch: the reply does not depend on what the fetch would do. */
  lemma RefusalsDoNotFetch(url: Option<string>, f1: string -> Fetched, f2: string -> Fetched)
    requires !(url.Some? && url.value != "" && IsAllowed(url.value))
    ensures Handle(url, f1) == Handle(url, f2)
    ensures Handle(url, f1).statusCode == 400 || Handle(url, f1).statusCode == 403
  {
  }

  /** An allowed address is fetched as given, and the reply follows the fetch's outcome. */
  lemma AllowedIsFetched(url: string, fetch: string -> Fetched)
    requires url != "" && IsAllowed(url)
    ensures fetch(url).FetchThrew? ==> Handle(Some(url), fetch) == Response(500, ErrorJson("Failed to fetch image"))
    ensures fetch(url).FetchAnswered? && !Ok(fetch(url).status) ==>
      Handle(Some(url), fetch).statusCode == fetch(url).status
      && Handle(Some(url), fetch).body == ErrorJson("Failed to fetch image: " + fetch(url).statusText)
    ensures fetch(url).FetchAnswered? && Ok(fetch(url).status) ==>
      var r := Handle(Some(url), fetch);
      && r.statusCode == 200
      && r.body.Image?
      && r.body.isBase64Encoded
      && r.body.bytes == fetch(url).bytes
      && (fetch(url).contentType.Some? && fetch(url).contentType.value != "" ==>
            r.body.contentType == fetch(url).contentType.value)
      && (!(fetch(url).contentType.Some? && fetch(url).contentType.value != "") ==>
            r.body.contentType == "image/jpeg")
  {
  }

  /** A 200 reply only ever carries an image from an allowed address. */
  lemma SuccessOnlyFromAllowed(url: Option<string>, fetch: string -> Fetched)
    requires Handle(url, fetch).statusCode == 200
    ensures url.Some? && IsAllowed(url.value)
    ensures Handle(url, fetch).body.Image? && Handle(url, fetch).body.isBase64Encoded
  {
  }

  // ---------------------------------------------------------------------------
  // Lookalike hosts: the allow-list compares bare prefixes
  // ---------------------------------------------------------------------------

  /** The two storage hosts the allow-list names, after `https://`. */
  const Hosts: seq<string> := ["firebasestorage.googleapis.com", "past-palette-3c4ea.firebasestorage.app"]

  lemma OriginsAreSchemeAndHost()
    ensures |AllowedOrigins| == |Hosts| == 2
    ensures forall k :: 0 <= k < 2 ==> AllowedOrigins[k] == "https://" + Hosts[k]
  {
    var scheme, google, bucket := "https://", "firebasestorage.googleapis.com", "past-palette-3c4ea.firebasestorage.app";
    assert AllowedOrigins[0] == scheme + google;
    assert AllowedOrigins[1] == scheme + bucket;
  }

  predicate Delimiter(c: char)
  {
    c == '/' || c == '?' || c == '#'
  }

  /** The leading part of `s` before its first `/`, `?` or `#`. */
  function UpToDelimiter(s: string): (r: string)
    ensures |r| <= |s| && r == s[..|r|]
    ensures forall i :: 0 <= i < |r| ==> !Delimiter(r[i])
    ensures |r| < |s| ==> Delimiter(s[|r|])
  {
    if s == [] || Delimiter(s[0]) then "" else [s[0]] + UpToDelimiter(s[1..])
  }

  /**
   * The authority of an `https://` address (its host, with any user
   * information and port): what follows the scheme up to the first `/`,
   * `?` or `#`. The host a fetch contacts is named by it.
   */
  function Authority(url: string): string
  {
    if StartsWith(url, "https://") then UpToDelimiter(url[8..]) else ""
  }

  /** A text free of delimiters followed by `/` has exactly that text as its leading part. */
  lemma UpToSlash(h: string, rest: string)
    requires forall i :: 0 <= i < |h| ==> !Delimiter(h[i])
    ensures UpToDelimiter(h + "/" + rest) == h
  {
    var s := h + "/" + rest;
    assert s[|h|] == '/';
    assert s[..|h|] == h;
  }

  /**
   * As written, the allow-list also passes an address whose host merely
   * begins with a storage host: `https://firebasestorage.googleapis.com.evil.example/...`
   * is fetched although its host is `firebasestorage.googleapis.com.evil.example`.
   */
  lemma LookalikeHostAllowed(path: string)
    ensures var url := AllowedOrigins[0] + ".evil.example" + "/" + path;
      && IsAllowed(url)
      && Authority(url) == Hosts[0] + ".evil.example"
      && Authority(url) != Hosts[0] && Authority(url) != Hosts[1]
      && Handle(Some(url), (u: string) => FetchThrew).statusCode == 500
  {
    var host := Hosts[0] + ".evil.example";
    var url := AllowedOrigins[0] + ".evil.example" + "/" + path;
    OriginsAreSchemeAndHost();
    assert url == "https://" + (host + "/" + path);
    assert StartsWith(url, AllowedOrigins[0]) by {
      assert url == AllowedOrigins[0] + (".evil.example" + "/" + path);
      StartsWithConcat(AllowedOrigins[0], ".evil.example" + "/" + path);
    }
    StartsWithConcat("https://", host + "/" + path);
    assert url[8..] == host + "/" + path;
    UpToSlash(host, path);
    assert |host| != |Hosts[0]| && |host| != |Hosts[1]|;
  }

  /**
   * The check the allow-list evidently intends: the address begins with an
   * allowed origin and then a `/`, so that origin's host is the whole host.
   */
  predicate IsAllowedOrigin(url: string)
  {
    exists k :: 0 <= k < |AllowedOrigins| && StartsWith(url, AllowedOrigins[k] + "/")
  }

  /** Under the intended check the host of an allowed address is one of the two storage hosts. */
  lemma AllowedOriginHostIsStorage(url: string)
    requires IsAllowedOrigin(url)
    ensures IsAllowed(url)
    ensures Authority(url) == Hosts[0] || Authority(url) == Hosts[1]
  {
    var k :| 0 <= k < |AllowedOrigins| && StartsWith(url, AllowedOrigins[k] + "/");
    OriginsAreSchemeAndHost();
    var o := AllowedOrigins[k];
    var rest := url[|o| + 1..];
    assert url == o + "/" + rest by {
      assert url[..|o| + 1] == o + "/";
    }
    assert StartsWith(url, o) by {
      assert url[..|o|] == (o + "/")[..|o|];
    }
    assert url == "https://" + (Hosts[k] + "/" + rest);
    StartsWithConcat("https://", Hosts[k] + "/" + rest);
    assert url[8..] == Hosts[k] + "/" + rest;
    UpToSlash(Hosts[k], rest);
  }

  /** The lookalike address fails the intended check. */
  lemma LookalikeRefusedByOrigin(path: string)
    ensures !IsAllowedOrigin(AllowedOrigins[0] + ".evil.example" + "/" + path)
  {
    var url := AllowedOrigins[0] + ".evil.example" + "/" + path;
    if IsAllowedOrigin(url) {
      AllowedOriginHostIsStorage(url);
      LookalikeHostAllowed(path);
      assert false;
    }
  }

  /** The handler with the intended check: a lookalike host is refused before any fetch. */
  function HandleCorrected(url: Option<string>, fetch: string -> Fetched): (r: Response<ProxyBody>)
    ensures url.Some? && url.value != "" && !IsAllowedOrigin(url.value) ==> r == Response(403, ErrorJson("URL not allowed"))
    ensures url.Some? && url.value != "" && IsAllowedOrigin(url.value) ==> r == Handle(url, fetch)
    ensures !(url.Some? && url.value != "") ==> r == Handle(url, fetch)
  {
    if url.Some? && url.value != "" && !IsAllowedOrigin(url.value) then Response(403, ErrorJson("URL not allowed"))
    else Handle(url, fetch)
  }

  /** Every 200 of the corrected handler fetched from one of the two storage hosts. */
  lemma CorrectedFetchesOnlyStorageHosts(url: Option<string>, fetch: string -> Fetched)
    requires HandleCorrected(url, fetch).statusCode == 200
    ensures url.Some? && (Authority(url.value) == Hosts[0] || Authority(url.value) == Hosts[1])
  {
    AllowedOriginHostIsStorage(url.value);
  }
}
