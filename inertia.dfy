/**
 * The page protocol: per request, read the protocol headers, enforce version agreement
 * on GET requests, and answer with either the page object as JSON or a full HTML document
 * that embeds it.
 */
module Inertia {
  import opened Wrappers
  import opened Text
  import opened Http
  import Vite

  const VersionHeader := "x-inertia-version"
  const XhrHeader := "x-inertia"
  const LocationHeader := "x-inertia-location"

  /** The frontend entry point the HTML document loads. */
  const EntryPoint := "src/index.tsx"

  /** A JSON value (`serde_json::Value`), the form the page's props take. */
  datatype JsonValue =
    | Null
    | Bool(b: bool)
    | Number(n: real)
    | String(s: string)
    | Array(items: seq<JsonValue>)
    | Object(members: map<string, JsonValue>)

  /** The page object sent to the client. */
  datatype Page = Page(url: string, component: string, props: JsonValue, version: Option<string>)

  /** The protocol context of one request. */
  datatype Request = Request(path: string, isXhr: bool, version: Option<string>)

  /** What the framework passes to the extractors: the method, the headers and the original URI as text. */
  datatype Parts = Parts(httpMethod: Method, headers: HeaderMap, originalUri: string)

  /** A rendered page, before it is turned into an HTTP response. */
  datatype Response = Response(page: Page, vite: Vite.Vite, request: Request)

  /** The outcome of version negotiation. */
  datatype Negotiation = Proceed(request: Request) | Reject(response: HttpResponse)

  /**
   * The asset version computed by `Inertia::new`: in production the SHA-256 digest of the
   * manifest's JSON text, in development nothing. Both library calls are parameters.
   */
  function ServerVersion(vite: Vite.Vite, sha256: string -> string, manifestToJson: Vite.Manifest -> string): (r: Option<string>)
    ensures r.Some? <==> vite.Production?
    ensures vite.Production? ==> r.value == sha256(manifestToJson(vite.manifest))
  {
    match vite
    case Production(manifest) => Some(sha256(manifestToJson(manifest)))
    case Development(_) => None
  }

  /** `Inertia::redirect`: 409 Conflict with the target in `X-Inertia-Location` and no body. */
  function Redirect(url: string): (r: HttpResponse)
    ensures r.status == StatusConflict && r.body == NoBody
    ensures r.headers == [(LocationHeader, url)]
  {
    HttpResponse(StatusConflict, [(LocationHeader, url)], NoBody)
  }

  /**
   * `Request::from_request_parts`. The path is the original URI; the request is protocol-aware
   * only when `X-Inertia` is exactly `true`; a present version header that is not text reads as
   * the empty string, not as absent.
   */
  function ExtractRequest(parts: Parts): (r: Request)
    ensures r.path == parts.originalUri
    ensures r.isXhr <==> XhrHeader in parts.headers && parts.headers[XhrHeader] == FromText("true")
    ensures r.version.None? <==> VersionHeader !in parts.headers
    ensures VersionHeader in parts.headers ==>
      match ToStr(parts.headers[VersionHeader])
      case Some(text) => r.version == Some(text)
      case None => r.version == Some("")
  {
    var headers := parts.headers;
    Request(
      parts.originalUri,
      XhrHeader in headers && headers[XhrHeader] == FromText("true"),
      if VersionHeader in headers then Some(ToStr(headers[VersionHeader]).UnwrapOr("")) else None)
  }

  /** A version header that is not text is indistinguishable from an empty one, and differs from none. */
  lemma NonTextVersionReadsAsEmpty(parts: Parts)
    requires VersionHeader in parts.headers && ToStr(parts.headers[VersionHeader]).None?
    ensures ExtractRequest(parts).version
         == ExtractRequest(parts.(headers := parts.headers[VersionHeader := FromText("")])).version
    ensures ExtractRequest(parts).version
         != ExtractRequest(parts.(headers := parts.headers - {VersionHeader})).version
  {
    ToStrFromText("");
  }

  /**
   * The decision `from_request_parts` makes: a GET whose client version differs from the
   * server's, absent on either side included, is sent back to reload its path; everything
   * else proceeds with the request bound.
   */
  function Negotiate(serverVersion: Option<string>, httpMethod: Method, request: Request): (r: Negotiation)
    ensures r.Reject? <==> httpMethod == Get && serverVersion != request.version
    ensures r.Reject? ==> r.response == Redirect(request.path)
    ensures r.Proceed? ==> r.request == request
  {
    if httpMethod == Get && serverVersion != request.version then Reject(Redirect(request.path))
    else Proceed(request)
  }

  /** Only GET requests are subject to the version check. */
  lemma NonGetProceeds(serverVersion: Option<string>, parts: Parts)
    requires parts.httpMethod != Get
    ensures Negotiate(serverVersion, parts.httpMethod, ExtractRequest(parts)) == Proceed(ExtractRequest(parts))
  {
  }

  /** A GET that proceeds carries exactly the server's version. */
  lemma ProceedingGetAgrees(serverVersion: Option<string>, request: Request)
    requires Negotiate(serverVersion, Get, request).Proceed?
    ensures request.version == serverVersion
  {
  }

  /** In development every GET that sends a version header, text or not, is rejected. */
  lemma DevelopmentRejectsVersionedGet(devServer: string, sha256: string -> string,
                                       manifestToJson: Vite.Manifest -> string, parts: Parts)
    requires parts.httpMethod == Get && VersionHeader in parts.headers
    ensures Negotiate(ServerVersion(Vite.Development(devServer), sha256, manifestToJson), Get, ExtractRequest(parts))
         == Reject(Redirect(parts.originalUri))
  {
  }

  /** In production a GET without a version header is rejected with a reload of its own path. */
  lemma ProductionRejectsUnversionedGet(manifest: Vite.Manifest, sha256: string -> string,
                                         manifestToJson: Vite.Manifest -> string, parts: Parts)
    requires parts.httpMethod == Get && VersionHeader !in parts.headers
    ensures Negotiate(ServerVersion(Vite.Production(manifest), sha256, manifestToJson), Get, ExtractRequest(parts))
         == Reject(Redirect(parts.originalUri))
  {
  }

  /** A client that echoes the server's version as header text proceeds. */
  lemma MatchingVersionProceeds(serverVersion: string, parts: Parts)
    requires IsHeaderText(serverVersion)
    requires VersionHeader in parts.headers && parts.headers[VersionHeader] == FromText(serverVersion)
    ensures Negotiate(Some(serverVersion), parts.httpMethod, ExtractRequest(parts)) == Proceed(ExtractRequest(parts))
  {
    ToStrFromText(serverVersion);
  }

  /**
   * The adapter: the asset resolver and version fixed at startup, and the request context
   * bound to the per-request copy during extraction.
   */
  class Inertia {
    const vite: Vite.Vite
    const version: Option<string>
    var request: Option<Request>

    /** The version is present exactly in production. */
    ghost predicate Valid() {
      version.Some? <==> vite.Production?
    }

    constructor (vite: Vite.Vite, version: Option<string>)
      ensures this.vite == vite && this.version == version && request == None
      ensures (version.Some? <==> vite.Production?) ==> Valid()
    {
      this.vite := vite;
      this.version := version;
      request := None;
    }

    /** `Inertia::new`: build the resolver, fingerprint its manifest, bind no request yet. */
    static method New(debugBuild: bool, devServerFile: Option<string>, manifestFile: Option<string>,
                      parseManifest: string -> Result<Vite.Manifest, string>,
                      sha256: string -> string, manifestToJson: Vite.Manifest -> string)
      returns (r: Result<Inertia, Vite.Error>)
      ensures match Vite.New(debugBuild, devServerFile, manifestFile, parseManifest)
        case Failure(e) => r == Failure(e)
        case Success(vite) =>
          && r.Success? && fresh(r.value) && r.value.Valid()
          && r.value.vite == vite && r.value.version == ServerVersion(vite, sha256, manifestToJson)
          && r.value.request == None
    {
      var vite := Vite.New(debugBuild, devServerFile, manifestFile, parseManifest);
      if vite.Failure? {
        return Failure(vite.error);
      }
      var version := ServerVersion(vite.value, sha256, manifestToJson);
      var inertia := new Inertia(vite.value, version);
      return Success(inertia);
    }

    /** The derived `Clone`: a new adapter with the same resolver, version and request. */
    method Clone() returns (c: Inertia)
      ensures fresh(c) && c.vite == vite && c.version == version && c.request == request
      ensures Valid() ==> c.Valid()
    {
      c := new Inertia(vite, version);
      c.request := request;
    }

    /**
     * `from_request_parts` for `Inertia`: take a copy of the shared adapter, bind the extracted
     * request to it, and reject a GET whose version disagrees. The shared adapter is not changed.
     */
    method FromRequestParts(parts: Parts) returns (r: Result<Inertia, HttpResponse>)
      ensures var request := ExtractRequest(parts);
        && (r.Failure? <==> Negotiate(version, parts.httpMethod, request).Reject?)
        && (r.Failure? ==> r.error == Redirect(request.path))
        && (r.Success? ==> fresh(r.value) && r.value.vite == vite && r.value.version == version
                           && r.value.request == Some(request))
        && (r.Success? && Valid() ==> r.value.Valid())
      ensures Valid() && vite.Development? && parts.httpMethod == Get && VersionHeader in parts.headers ==> r.Failure?
    {
      var inertia := Clone();
      var request := ExtractRequest(parts);
      inertia.request := Some(request);
      if parts.httpMethod == Get && inertia.version != request.version {
        return Failure(Redirect(request.path));
      }
      return Success(inertia);
    }

    /**
     * `Inertia::render`: the page for `component` at the bound request's path, with the
     * server's version and the props as JSON. Rendering with no bound request panics.
     */
    function Render<T>(component: string, props: T, toValue: T -> JsonValue): (r: Response)
      reads this
      requires request.Some?
      ensures r.page.component == component && r.page.props == toValue(props)
      ensures r.page.url == request.value.path && r.page.version == version
      ensures r.request == request.value && r.vite == vite
    {
      var request := request.value;
      Response(Page(request.path, component, toValue(props), version), vite, request)
    }
  }

  /** A page rendered after a GET that passed negotiation carries the client's own version. */
  lemma RenderedGetCarriesClientVersion<T>(inertia: Inertia, parts: Parts, component: string, props: T,
                                          toValue: T -> JsonValue)
    requires parts.httpMethod == Get && inertia.request == Some(ExtractRequest(parts))
    requires Negotiate(inertia.version, parts.httpMethod, ExtractRequest(parts)).Proceed?
    ensures inertia.Render(component, props, toValue).page.version == ExtractRequest(parts).version
    ensures inertia.Render(component, props, toValue).page.url == parts.originalUri
  {
  }

  const DocumentHead :=
    "<!doctype html>\n" +
    "<html lang=\"en\">\n" +
    "    <head>\n" +
    "        <title>PingCRM</title>\n" +
    "        <meta charset=\"UTF-8\" />\n" +
    "        <meta name=\"viewport\" content=\"width=device-width, initial-scale=1.0\" />\n" +
    "        "
  const DataPageOpen := "<div id=\"app\" data-page='"
  const DocumentBody := "\n    </head>\n    <body>\n        " + DataPageOpen
  const DocumentEnd := "'></div>\n    </body>\n</html>\n"

  /** What the head holds between its fixed parts: the dev bootstrap (if any), then the entry's assets. */
  function HeadMarkup(vite: Vite.Vite): string
    requires Vite.Asset(vite, EntryPoint).Some?
  {
    Vite.DevScripts(vite).UnwrapOr("") + Vite.Asset(vite, EntryPoint).value
  }

  /** Where the `data-page` attribute value starts in the document rendered for `vite`. */
  function DataPageOffset(vite: Vite.Vite): nat
    requires Vite.Asset(vite, EntryPoint).Some?
  {
    |DocumentHead| + |HeadMarkup(vite)| + |DocumentBody|
  }

  /**
   * `Response::html_page`: the document whose head loads the dev bootstrap and then the entry
   * point, and whose mount element carries the page's JSON, not escaped, in a single-quoted
   * `data-page` attribute. An entry point the resolver cannot find panics.
   */
  function HtmlPage(response: Response, pageToJson: Page -> string): (html: string)
    requires Vite.Asset(response.vite, EntryPoint).Some?
    ensures DocumentHead <= html
    ensures IsAt(html, HeadMarkup(response.vite), |DocumentHead|)
    ensures IsAt(html, DocumentBody, |DocumentHead| + |HeadMarkup(response.vite)|)
    ensures IsAt(html, DataPageOpen, DataPageOffset(response.vite) - |DataPageOpen|)
    ensures html[DataPageOffset(response.vite)..] == pageToJson(response.page) + DocumentEnd
  {
    DocumentShape(DocumentHead, HeadMarkup(response.vite), "\n    </head>\n    <body>\n        ", DataPageOpen,
                  pageToJson(response.page), DocumentEnd);
    DocumentHead + HeadMarkup(response.vite) + DocumentBody + pageToJson(response.page) + DocumentEnd
  }

  lemma DocumentShape(start: string, head: string, middle: string, open: string, json: string, end: string)
    ensures var html := start + head + (middle + open) + json + end;
      && start <= html
      && IsAt(html, middle + open, |start| + |head|)
      && IsAt(html, head, |start|)
      && IsAt(html, open, |start| + |head| + |middle|)
      && html[|start| + |head| + |middle| + |open|..] == json + end
  {
    var html := start + head + (middle + open) + json + end;
    IsAtAfter(start, head, (middle + open) + json + end);
    IsAtAfter(start + head, middle + open, json + end);
    assert html[..|start|] == start;
    assert html == start + head + middle + open + (json + end);
    IsAtAfter(start + head + middle, open, json + end);
    assert html == (start + head + middle + open) + (json + end);
  }

  /**
   * The raw text of a single-quoted attribute value: every character up to the next quote. An HTML
   * parser then decodes character references in it, each of which starts with `&`.
   */
  function SingleQuotedValue(s: string): (v: string)
    ensures v <= s && '\'' !in v
  {
    if |s| == 0 || s[0] == '\'' then "" else [s[0]] + SingleQuotedValue(s[1..])
  }

  lemma {:induction false} SingleQuotedValueStopsAtQuote(v: string, rest: string)
    requires '\'' !in v && |rest| > 0 && rest[0] == '\''
    ensures SingleQuotedValue(v + rest) == v
  {
    if |v| > 0 {
      assert (v + rest)[1..] == v[1..] + rest;
      SingleQuotedValueStopsAtQuote(v[1..], rest);
    } else {
      assert v + rest == rest;
    }
  }

  /**
   * Because the JSON is written into the attribute unescaped, the raw attribute text is the JSON
   * exactly when the JSON holds no single quote.
   */
  lemma DataPageReadsBackIff(response: Response, pageToJson: Page -> string)
    requires Vite.Asset(response.vite, EntryPoint).Some?
    ensures var html := HtmlPage(response, pageToJson);
      (SingleQuotedValue(html[DataPageOffset(response.vite)..]) == pageToJson(response.page))
        <==> '\'' !in pageToJson(response.page)
  {
    var json := pageToJson(response.page);
    if '\'' !in json {
      SingleQuotedValueStopsAtQuote(json, DocumentEnd);
    }
  }

  /**
   * When the JSON holds neither a single quote nor `&`, the raw attribute text is the JSON and has
   * no character reference to decode. Given JSON text with no raw control characters, which
   * serde_json never emits, an HTML parser then reads the page back unchanged.
   */
  lemma DataPageIntactWithoutQuoteOrAmpersand(response: Response, pageToJson: Page -> string)
    requires Vite.Asset(response.vite, EntryPoint).Some?
    requires '\'' !in pageToJson(response.page) && '&' !in pageToJson(response.page)
    ensures var raw := SingleQuotedValue(HtmlPage(response, pageToJson)[DataPageOffset(response.vite)..]);
      raw == pageToJson(response.page) && '&' !in raw
  {
    SingleQuotedValueStopsAtQuote(pageToJson(response.page), DocumentEnd);
  }

  /**
   * `Response::into_response`: a protocol-aware request gets the page as JSON, any other request
   * the HTML document; both with status 200. The document needs the entry point to resolve.
   */
  function IntoResponse(response: Response, pageToJson: Page -> string): (r: HttpResponse)
    requires response.request.isXhr || Vite.Asset(response.vite, EntryPoint).Some?
    ensures r.status == StatusOk
    ensures response.request.isXhr ==>
      r.headers == [(ContentType, JsonContentType)] && r.body == JsonBody(pageToJson(response.page))
    ensures !response.request.isXhr ==>
      r.headers == [(ContentType, HtmlContentType)] && r.body == HtmlBody(HtmlPage(response, pageToJson))
  {
    if response.request.isXhr then
      HttpResponse(StatusOk, [(ContentType, JsonContentType)], JsonBody(pageToJson(response.page)))
    else
      HttpResponse(StatusOk, [(ContentType, HtmlContentType)], HtmlBody(HtmlPage(response, pageToJson)))
  }

  /**
   * A first visit (no `X-Inertia` header) that passed negotiation is answered with the document,
   * whose `data-page` holds the JSON of a page carrying the client's version.
   */
  lemma FirstVisitGetsDocument<T>(inertia: Inertia, parts: Parts, component: string, props: T,
                                  toValue: T -> JsonValue, pageToJson: Page -> string)
    requires inertia.request == Some(ExtractRequest(parts)) && XhrHeader !in parts.headers
    requires Negotiate(inertia.version, parts.httpMethod, ExtractRequest(parts)).Proceed?
    requires Vite.Asset(inertia.vite, EntryPoint).Some?
    ensures var response := inertia.Render(component, props, toValue);
      var http := IntoResponse(response, pageToJson);
      && http.status == StatusOk && http.body.HtmlBody?
      && http.body.html[DataPageOffset(inertia.vite)..] == pageToJson(response.page) + DocumentEnd
      && (parts.httpMethod == Get ==> response.page.version == ExtractRequest(parts).version)
  {
  }

  /** A protocol-aware visit that passed negotiation gets the page object as the JSON body. */
  lemma XhrVisitGetsJson<T>(inertia: Inertia, parts: Parts, component: string, props: T,
                            toValue: T -> JsonValue, pageToJson: Page -> string)
    requires inertia.request == Some(ExtractRequest(parts))
    requires XhrHeader in parts.headers && parts.headers[XhrHeader] == FromText("true")
    ensures var response := inertia.Render(component, props, toValue);
      IntoResponse(response, pageToJson)
        == HttpResponse(StatusOk, [(ContentType, JsonContentType)], JsonBody(pageToJson(response.page)))
  {
  }
}
