/**
 * The asset resolver: in development it points the browser at the bundler's
 * dev server, in production it reads the build manifest.
 */
module Vite {
  import opened Wrappers
  import opened Text

  /** One manifest record: the hashed output file and the stylesheets it imports, if any. */
  datatype ManifestEntry = ManifestEntry(file: string, css: Option<seq<string>>)

  type Manifest = map<string, ManifestEntry>

  /** Startup errors; the parse error carries the JSON parser's message. */
  datatype Error = HrmServerNotFound | BuildManifestNotFound | FailedToParseManifest(cause: string)

  datatype Vite = Production(manifest: Manifest) | Development(devServer: string)

  /**
   * `Vite::new`. A debug build reads the dev-server address from the embedded `.vite-dev`
   * file, a release build parses the embedded `manifest.json`. Each file is given as its
   * (lossily decoded) contents, or None when it is not embedded; `parseManifest` is the JSON parser.
   */
  function New(debugBuild: bool, devServerFile: Option<string>, manifestFile: Option<string>,
               parseManifest: string -> Result<Manifest, string>): (r: Result<Vite, Error>)
    ensures r.Success? ==> (r.value.Development? <==> debugBuild)
    ensures r.Failure? ==> (r.error.HrmServerNotFound? <==> debugBuild)
    ensures debugBuild && devServerFile.None? ==> r == Failure(HrmServerNotFound)
    ensures debugBuild && devServerFile.Some? ==> r == Success(Development(devServerFile.value))
    ensures !debugBuild && manifestFile.None? ==> r == Failure(BuildManifestNotFound)
    ensures !debugBuild && manifestFile.Some? ==>
      match parseManifest(manifestFile.value)
      case Success(m) => r == Success(Production(m))
      case Failure(e) => r == Failure(FailedToParseManifest(e))
  {
    if debugBuild then
      match devServerFile
      case None => Failure(HrmServerNotFound)
      case Some(contents) => Success(Development(contents))
    else
      match manifestFile
      case None => Failure(BuildManifestNotFound)
      case Some(contents) =>
        match parseManifest(contents)
        case Failure(e) => Failure(FailedToParseManifest(e))
        case Success(m) => Success(Production(m))
  }

  /** The mode is fixed by the build: the other mode's input is never consulted. */
  lemma NewReadsOnlyItsMode(devServerFile: Option<string>,
                            manifestFile: Option<string>, manifestFile': Option<string>,
                            parse: string -> Result<Manifest, string>, parse': string -> Result<Manifest, string>,
                            devServerFile': Option<string>)
    ensures New(true, devServerFile, manifestFile, parse) == New(true, devServerFile, manifestFile', parse')
    ensures New(false, devServerFile, manifestFile, parse) == New(false, devServerFile', manifestFile, parse)
  {
  }

  const ScriptOpen := "<script type=\"module\" src=\""
  const ScriptClose := "\"></script>"

  function ScriptTag(src: string): string {
    ScriptOpen + src + ScriptClose
  }

  function LinkTag(cssFile: string): string {
    "<link rel=\"stylesheet\" href=\"/" + cssFile + "\" />"
  }

  function Links(cssFiles: seq<string>): seq<string> {
    seq(|cssFiles|, i requires 0 <= i < |cssFiles| => LinkTag(cssFiles[i]))
  }

  /** The stylesheet imports of an entry: its links joined by newlines, or nothing without a css list. */
  function CssImports(css: Option<seq<string>>): string {
    match css
    case None => ""
    case Some(cssFiles) => Join("\n", Links(cssFiles))
  }

  /** `Vite::asset`: the markup that loads the entry `path`, or None when the manifest lacks it. */
  function Asset(vite: Vite, path: string): (r: Option<string>)
    ensures vite.Development? ==> r == Some(ScriptTag(vite.devServer + "/" + path))
    ensures vite.Production? ==> (r.None? <==> path !in vite.manifest)
    ensures vite.Production? && r.Some? ==> EndsWith(r.value, ScriptTag("/" + vite.manifest[path].file))
  {
    match vite
    case Development(devServer) => Some(ScriptTag(devServer + "/" + path))
    case Production(manifest) =>
      if path !in manifest then None
      else
        var entry := manifest[path];
        Some(CssImports(entry.css) + ScriptTag("/" + entry.file))
  }

  /** The css list of an entry, empty when the manifest gives none. */
  function CssFiles(entry: ManifestEntry): seq<string> {
    entry.css.UnwrapOr([])
  }

  /** An entry without stylesheets, whether its css list is missing or empty, loads as one script tag. */
  lemma AssetWithoutCss(manifest: Manifest, path: string)
    requires path in manifest && CssFiles(manifest[path]) == []
    ensures Asset(Production(manifest), path) == Some(ScriptTag("/" + manifest[path].file))
  {
  }

  /** An entry with two stylesheets: both links, in listed order, then the script. */
  lemma AssetWithTwoStylesheets(manifest: Manifest, path: string)
    requires path in manifest && |CssFiles(manifest[path])| == 2
    ensures var entry := manifest[path];
      Asset(Production(manifest), path)
        == Some(LinkTag(CssFiles(entry)[0]) + "\n" + LinkTag(CssFiles(entry)[1]) + ScriptTag("/" + entry.file))
  {
    var entry := manifest[path];
    var files := CssFiles(entry);
    assert Links(files)[1..] == [LinkTag(files[1])];
    assert Join("\n", Links(files)) == LinkTag(files[0]) + "\n" + LinkTag(files[1]);
    assert CssImports(entry.css) == Join("\n", Links(files));
  }

  /** The fragments of the asset markup, one per tag, in document order. */
  datatype Tag = Stylesheet(href: string) | ModuleScript(src: string)

  function Markup(tag: Tag): string {
    match tag
    case Stylesheet(href) => "<link rel=\"stylesheet\" href=\"" + href + "\" />"
    case ModuleScript(src) => ScriptTag(src)
  }

  function StylesheetTags(cssFiles: seq<string>): seq<Tag> {
    seq(|cssFiles|, i requires 0 <= i < |cssFiles| => Stylesheet("/" + cssFiles[i]))
  }

  /** The tags `asset` emits: the entry's stylesheets in listed order, then exactly one module script. */
  function AssetTags(vite: Vite, path: string): (r: Option<seq<Tag>>)
    ensures r.Some? <==> Asset(vite, path).Some?
    ensures r.Some? ==> |r.value| > 0 && r.value[|r.value| - 1].ModuleScript?
    ensures r.Some? ==> forall i :: 0 <= i < |r.value| - 1 ==> r.value[i].Stylesheet?
    ensures vite.Development? ==> r == Some([ModuleScript(vite.devServer + "/" + path)])
    ensures vite.Production? && r.Some? ==>
      var entry := vite.manifest[path];
      && |r.value| == |CssFiles(entry)| + 1
      && (forall i :: 0 <= i < |CssFiles(entry)| ==> r.value[i] == Stylesheet("/" + CssFiles(entry)[i]))
      && r.value[|r.value| - 1] == ModuleScript("/" + entry.file)
  {
    match vite
    case Development(devServer) => Some([ModuleScript(devServer + "/" + path)])
    case Production(manifest) =>
      if path !in manifest then None
      else Some(StylesheetTags(CssFiles(manifest[path])) + [ModuleScript("/" + manifest[path].file)])
  }

  /**
   * How tags are laid out as text: stylesheets are separated by a newline, and the
   * script follows the last stylesheet directly.
   */
  function Layout(tags: seq<Tag>): string
    requires |tags| > 0
  {
    if |tags| == 1 then Markup(tags[0])
    else Markup(tags[0]) + Gap(tags[1]) + Layout(tags[1..])
  }

  function Gap(next: Tag): string {
    if next.Stylesheet? then "\n" else ""
  }

  lemma {:induction false} LayoutOfStylesheets(cssFiles: seq<string>, src: string)
    ensures Layout(StylesheetTags(cssFiles) + [ModuleScript(src)]) == Join("\n", Links(cssFiles)) + ScriptTag(src)
    decreases |cssFiles|
  {
    var tags := StylesheetTags(cssFiles) + [ModuleScript(src)];
    if |cssFiles| > 0 {
      var rest := cssFiles[1..];
      assert tags[1..] == StylesheetTags(rest) + [ModuleScript(src)];
      assert Links(cssFiles)[1..] == Links(rest);
      assert Markup(tags[0]) == LinkTag(cssFiles[0]);
      LayoutOfStylesheets(rest, src);
      if |rest| == 0 {
        assert Gap(tags[1]) == "";
      } else {
        assert Gap(tags[1]) == "\n";
      }
    }
  }

  /** The markup `asset` returns is exactly the layout of its tags. */
  lemma AssetIsLayoutOfTags(vite: Vite, path: string)
    ensures AssetTags(vite, path).Some? ==> Asset(vite, path) == Some(Layout(AssetTags(vite, path).value))
  {
    if vite.Production? && path in vite.manifest {
      var entry := vite.manifest[path];
      LayoutOfStylesheets(CssFiles(entry), "/" + entry.file);
      assert CssImports(entry.css) == Join("\n", Links(CssFiles(entry)));
    }
  }

  function CountStylesheets(tags: seq<Tag>): nat {
    if |tags| == 0 then 0 else (if tags[0].Stylesheet? then 1 else 0) + CountStylesheets(tags[1..])
  }

  function CountScripts(tags: seq<Tag>): nat {
    if |tags| == 0 then 0 else (if tags[0].ModuleScript? then 1 else 0) + CountScripts(tags[1..])
  }

  lemma {:induction false} CountTagKinds(tags: seq<Tag>)
    requires |tags| > 0 && tags[|tags| - 1].ModuleScript?
    requires forall i :: 0 <= i < |tags| - 1 ==> tags[i].Stylesheet?
    ensures CountScripts(tags) == 1 && CountStylesheets(tags) == |tags| - 1
  {
    if |tags| > 1 {
      CountTagKinds(tags[1..]);
    }
  }

  /** Every resolved asset has exactly one module script, and in production one stylesheet per css file. */
  lemma AssetTagCounts(vite: Vite, path: string)
    requires Asset(vite, path).Some?
    ensures CountScripts(AssetTags(vite, path).value) == 1
    ensures vite.Production? ==> CountStylesheets(AssetTags(vite, path).value) == |CssFiles(vite.manifest[path])|
  {
    CountTagKinds(AssetTags(vite, path).value);
  }

  const ClientPath := "/@vite/client"
  const RefreshPath := "/@react-refresh"
  const RefreshOpen := "<script type=\"module\">\n    import RefreshRuntime from '"
  const RefreshClose :=
    "'\n" +
    "    RefreshRuntime.injectIntoGlobalHook(window)\n" +
    "    window.$RefreshReg$ = () => {}\n" +
    "    window.$RefreshSig$ = () => (type) => type\n" +
    "    window.__vite_plugin_react_preamble_installed__ = true\n" +
    "</script>\n"

  /** The fast-refresh preamble: imports the refresh runtime and installs no-op registration hooks. */
  function RefreshScript(devServer: string): string {
    RefreshOpen + (devServer + RefreshPath) + RefreshClose
  }

  /**
   * `Vite::dev_scripts`: in development, the dev server's client script followed by the
   * fast-refresh preamble; nothing in production.
   */
  function DevScripts(vite: Vite): (r: Option<string>)
    ensures r.None? <==> vite.Production?
  {
    match vite
    case Production(_) => None
    case Development(devServer) => Some(ScriptTag(devServer + ClientPath) + "\n" + RefreshScript(devServer))
  }

  /** The bootstrap opens with the client script and then imports the refresh runtime, both from the dev server. */
  lemma DevScriptsLoadClientThenRefresh(devServer: string)
    ensures var s := DevScripts(Development(devServer)).value;
      && IsAt(s, ScriptTag(devServer + ClientPath), 0)
      && exists i, j :: i < j && IsAt(s, devServer + ClientPath, i) && IsAt(s, devServer + RefreshPath, j)
  {
    TwoScriptsShape(ScriptOpen, devServer + ClientPath, ScriptClose, "\n", RefreshOpen, devServer + RefreshPath, RefreshClose);
  }

  lemma TwoScriptsShape(open: string, first: string, close: string, sep: string,
                        open': string, second: string, close': string)
    ensures var s := (open + first + close) + sep + (open' + second + close');
      && IsAt(s, open + first + close, 0)
      && IsAt(s, first, |open|)
      && IsAt(s, second, |open + first + close| + |sep| + |open'|)
  {
    var tag := open + first + close;
    var rest := sep + (open' + second + close');
    var s := tag + sep + (open' + second + close');
    assert s == "" + tag + rest;
    IsAtAfter("", tag, rest);
    IsAtAfter(open, first, close);
    IsAtPrefix(tag, rest, first, |open|);
    IsAtAfter(open', second, close');
    IsAtShift(tag + sep, open' + second + close', second, |open'|);
  }
}
