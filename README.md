# PingCRM's Inertia adapter, modelled in Dafny

This project models the server-side adapter of PingCRM (a Rust/axum web app). The adapter lets the
server answer each page request in one of two ways:

- a full HTML document, on the first visit;
- a JSON page object, on later navigations made by the client-side router.

It has two parts:

- **The asset resolver** (`Vite`, `src/frontend/vite.rs`). It has a development mode, which points the
  browser at the bundler's dev server, and a production mode, which reads the build manifest. It turns
  the logical entry `src/index.tsx` into script and stylesheet tags. In development it also emits the
  hot-reload bootstrap.
- **The page protocol** (`Inertia`, `Request`, `Response`, `Page`, `src/frontend/inertia.rs`). It reads
  the `X-Inertia` and `X-Inertia-Version` headers. A GET whose client version differs from the
  server's version (a digest of the manifest) gets 409 Conflict with `X-Inertia-Location`. Any other
  request proceeds. A `render` then becomes either JSON or the HTML document.

Modules:

- `Wrappers`: Option and Result.
- `Text`: join, and position of a substring.
- `Http`: methods, raw header bytes, `HeaderValue::to_str`, and responses as status, headers and body.
- `Vite`: the resolver.
- `Inertia`: the protocol. `Inertia.Inertia` is a class. Its resolver and version are fixed at
  startup. Its `request` field is assigned on the per-request copy, as `from_request_parts` does.

Library calls appear as function-typed parameters, with no definition in the model:

- SHA-256;
- `serde_json::to_string` of the manifest and of the page;
- `serde_json::from_str` of the manifest;
- `serde_json::to_value` of the props.

Startup inputs are also parameters:

- whether the binary is a debug build;
- the embedded `.vite-dev` and `manifest.json` files, each as its decoded contents or None.

In these places the model follows the code as written, which may not be what a reader expects:

- The `data-page` attribute is written without HTML escaping. `DataPageReadsBackIff` proves that the
  raw attribute text equals the page JSON exactly when the JSON contains no single quote.
  `DataPageIntactWithoutQuoteOrAmpersand` proves that an HTML parser, which also decodes `&` character
  references, reads the page back unchanged when the JSON holds neither `'` nor `&`, given JSON text with no raw
  control characters, which serde_json never emits.
- The version check compares `Option`s. In development (server version None), a GET that carries
  any `X-Inertia-Version` header is rejected, not only a GET whose version is stale.
- A version header whose value is not text is read as `Some("")`, not as "no version".
- An entry point that does not resolve makes `html_page` panic at an `unwrap`. The model makes this a
  precondition. It is not modelled as a 500 response.

## Model

| member | source | states |
|---|---|---|
| Vite.New | src/frontend/vite.rs:35-61 | A debug build gives Development with the `.vite-dev` contents, or HrmServerNotFound when that file is missing. A release build gives BuildManifestNotFound when `manifest.json` is missing, FailedToParseManifest with the parser's error when parsing fails, and otherwise Production with the parsed map. Success is Development exactly in a debug build. A failure is HrmServerNotFound exactly in a debug build. |
| Vite.NewReadsOnlyItsMode | src/frontend/vite.rs:36-60 | A debug build ignores the manifest file and its parser. A release build ignores the dev-server file. |
| Vite.Asset | src/frontend/vite.rs:63-91 | In Development the result is always `Some` of one module script for `{dev_server}/{path}`. In Production it is None exactly when the path is not a manifest key. A Production result ends with the module script for `/{file}`. |
| Vite.AssetWithoutCss | src/frontend/vite.rs:83-88 | An entry whose css list is missing or empty resolves to just `<script type="module" src="/{file}"></script>`. |
| Vite.AssetWithTwoStylesheets | src/frontend/vite.rs:71-88 | An entry with two css files resolves to both links, in listed order and separated by a newline, followed directly by the script. |
| Vite.AssetTags | src/frontend/vite.rs:63-91 | The tag sequence resolves exactly when `asset` does. It is non-empty. Its last tag is a module script and every earlier tag is a stylesheet. In Production the i-th stylesheet is `/css[i]` and there are exactly as many stylesheets as css files. In Development it is the single dev-server script. |
| Vite.LayoutOfStylesheets | src/frontend/vite.rs:71-88 | For stylesheets followed by a script, the tag layout (links separated by newlines, the script glued to the last link) equals the css links joined with "\n" followed by the script tag, for every css list. |
| Vite.AssetIsLayoutOfTags | src/frontend/vite.rs:63-91 | The string `asset` returns is exactly the layout of its tag sequence, in both modes. |
| Vite.AssetTagCounts | src/frontend/vite.rs:63-91 | Every resolved asset has exactly one module script. In Production it has exactly one stylesheet per css file. |
| Vite.DevScripts | src/frontend/vite.rs:92-109 | The bootstrap is None exactly in Production. |
| Vite.DevScriptsLoadClientThenRefresh | src/frontend/vite.rs:97-108 | The development bootstrap starts with the module script for `{dev_server}/@vite/client`. It contains `{dev_server}/@vite/client` before `{dev_server}/@react-refresh`. |
| Http.ToStr | src/frontend/inertia.rs:124 | A header value reads as text exactly when every byte is visible ASCII or tab. The text it reads is header text. |
| Http.ToStrFromText | src/frontend/inertia.rs:124 | Text written into a header value reads back as the same text. |
| Http.FromTextToStr | src/frontend/inertia.rs:124 | A value that reads as text is the header value of that text, so `ToStr` is injective on the values that read as text. |
| Inertia.ServerVersion | src/frontend/inertia.rs:33-37 | The version is present exactly in Production. There it is the digest of the manifest's JSON text. |
| Inertia.Redirect | src/frontend/inertia.rs:50-52 | The rejection is status 409 with the single header `x-inertia-location` set to the given URL, and no body. |
| Inertia.ExtractRequest | src/frontend/inertia.rs:116-130 | The path is the original URI. `is_xhr` holds exactly when `X-Inertia` is present with the bytes `true`. The version is None exactly when `X-Inertia-Version` is absent. A text header gives `Some(text)` and a non-text header gives `Some("")`. |
| Inertia.NonTextVersionReadsAsEmpty | src/frontend/inertia.rs:122-124 | A non-text version header gives the same version as an empty one, and a different version from no header at all. |
| Inertia.Negotiate | src/frontend/inertia.rs:94-98 | It rejects exactly when the method is GET and the server and client versions differ as Options. A rejection is the redirect to the request's path. Anything else proceeds with the extracted request. |
| Inertia.NonGetProceeds | src/frontend/inertia.rs:94-98 | A request that is not GET always proceeds, whatever its version header. |
| Inertia.ProceedingGetAgrees | src/frontend/inertia.rs:94-98 | A GET that proceeds carries exactly the server's version. |
| Inertia.DevelopmentRejectsVersionedGet | src/frontend/inertia.rs:94-96 | In Development, a GET with any version header, text or not, is redirected to its own original URI. |
| Inertia.ProductionRejectsUnversionedGet | src/frontend/inertia.rs:94-96 | In Production, a GET with no version header is redirected to its own original URI. |
| Inertia.MatchingVersionProceeds | src/frontend/inertia.rs:94-98 | A request whose version header holds the server's version as text proceeds, whatever its method. |
| Inertia.Inertia.constructor | src/frontend/inertia.rs:39-43 | A new adapter holds the given resolver and version, with no request bound. It keeps the invariant when the version is present exactly in production. |
| Inertia.Inertia.New | src/frontend/inertia.rs:30-44 | A resolver error is returned unchanged. Otherwise the result is a fresh adapter with that resolver, the version `ServerVersion` gives, no request bound, and the invariant "version present exactly in Production". |
| Inertia.Inertia.Clone | src/frontend/inertia.rs:22-27 | The copy is a fresh object with equal fields, and it keeps the invariant. |
| Inertia.Inertia.FromRequestParts | src/frontend/inertia.rs:79-99 | It rejects exactly when `Negotiate` rejects the extracted request, and the rejection is the redirect to its path. On success, a fresh copy has the same resolver and version, `request` is `Some(extracted request)` and the invariant is kept. On an adapter that keeps the invariant in development, every GET carrying a version header is rejected. The shared adapter is not modified. |
| Inertia.Inertia.Render | src/frontend/inertia.rs:54-69 | It needs a bound request and carries that request and the resolver. The page has the given component, the converted props, the bound request's path as url, and the server version. |
| Inertia.RenderedGetCarriesClientVersion | src/frontend/inertia.rs:54-98 | A page rendered after a GET that passed negotiation has the client's own version and the original URI as url. |
| Inertia.HtmlPage | src/frontend/inertia.rs:140-155 | The document starts with the fixed head fragment and `</head>` directly follows the head markup, so the head holds the dev bootstrap (empty if None) followed by the entry's asset markup. `data-page='` opens the attribute. The page JSON follows it verbatim, then the closing quote and the end of the document. |
| Inertia.DataPageReadsBackIff | src/frontend/inertia.rs:151-154 | The raw text of the `data-page` attribute (before character references are decoded) equals the page JSON if and only if the JSON contains no single quote, since nothing is escaped. |
| Inertia.DataPageIntactWithoutQuoteOrAmpersand | src/frontend/inertia.rs:151-154 | When the page JSON contains neither `'` nor `&`, the raw attribute text is the JSON and contains no character reference, so an HTML parser reads the page back unchanged, given JSON text with no raw control characters, which serde_json never emits. |
| Inertia.IntoResponse | src/frontend/inertia.rs:158-165 | Status is 200. A protocol-aware request gets `application/json` with the page's JSON. Any other request gets `text/html` with the HTML document. |
| Inertia.FirstVisitGetsDocument | src/frontend/inertia.rs:158-165 | A negotiated visit without `X-Inertia` gets 200 with the document, whose `data-page` holds the rendered page's JSON. For a GET, that page carries the client's version. |
| Inertia.XhrVisitGetsJson | src/frontend/inertia.rs:159-162 | A visit with `X-Inertia: true` gets 200, `application/json`, and the rendered page's JSON as body. |

## Left out

- axum extractor plumbing (`FromRequestParts`, `Extension`, `OriginalUri`, `HeaderMap`, `IntoResponse`, `Json`, `Html`): modelled only by its results, as plain `Parts` and `HttpResponse` values.
- The 500 branches of `from_request_parts`: `Method` and `Request` extraction cannot fail, so they are never reached. The `Extension` unwrap is modelled by calling the method on the shared adapter.
- `Inertia::extension`: framework wiring only.
- SHA-256 and serde_json: parameters of the operations that call them. No property of them is assumed: not that the fingerprint is independent of the `HashMap` iteration order, and not that it changes when the manifest changes.
- Vite.New: `String::from_utf8_lossy` of the embedded files is not modelled; the inputs are the decoded contents.
- Inertia.Inertia.Render: a failing `serde_json::to_value` (a panic at `unwrap`) is not modelled; the conversion is total.
- Inertia.Redirect: turning the URL into a header value could fail, which axum answers with 500. This is not modelled; a URI's text is always a valid header value.
- Header names: the map is keyed by lower-case names and holds only the first value for each name. This reflects `HeaderMap::get`, which matches names case-insensitively.
- The whitespace of the `formatdoc!` templates is written out by reading the template. It is not checked against the macro's exact unindenting rule.
- `Method::Extension`: the model's type would admit an extension named like a standard method, such as `GET`. The HTTP layer never builds one, so the model does not rule it out.
- A panic in `html_page` when the entry point does not resolve: a precondition of `HtmlPage` and `IntoResponse`.
- `Arc` sharing and concurrent request handling: the resolver is an immutable value, and nothing is mutated after startup.
- `serve_assets` and the embedded-file lookup in `src/frontend/mod.rs`, `src/main.rs`, `build.rs`, `frontend/vite.config.ts` and the React `.tsx` files: HTTP wiring, file I/O, build tooling and UI, outside this model.
