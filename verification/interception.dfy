/**
 * What the request-interception pipelines of every platform share: how a
 * URL relates to the app origin, the three-entry extension table, the 404
 * constants, and the step that adopts a proxy handler's answer.
 *
 * `System.Uri` is not modelled: `new Uri(url)` followed by
 * `AppOriginUri.IsBaseOf` and `MakeRelativeUri` is the parameter `origin`
 * of each pipeline, returning an `OriginCheck`.
 */
module Interception {
  import opened Wrappers
  import opened Text
  import opened PathUtils
  import opened QueryStringHelper
  import opened ProxyEventArgs

  /** `new Uri(url)` threw, the URL is outside the app origin, or the path relative to it. */
  datatype OriginCheck = Malformed | Outside | Inside(relative: string)

  /** `new Uri(url)` then the origin test: an empty URL is always malformed. */
  function CheckOrigin(origin: string -> OriginCheck, url: string): (r: OriginCheck)
    ensures url == [] ==> r == Malformed
    ensures url != [] ==> r == origin(url)
  {
    if url == [] then Malformed else origin(url)
  }

  /** The out-parameters of `PathUtils.GetRelativePathAndContentType`. */
  datatype PathInfo = PathInfo(relativePath: string, contentType: string, fullUrl: string)

  /** An exception that escapes a pipeline. */
  datatype Fault =
    | UriFormat                     // `new Uri(url)` on a malformed URL
    | QueryParse(error: QueryError) // the proxy event args' query did not parse
    | HandlerFault(exception: string) // the proxy handler threw; nothing catches it

  /** A content source, in the order the pipelines consult them. */
  datatype Provider = ProxyHandler | BuiltInFile | AssetFile

  /** The proxy handler: the event args as the handler leaves them, or the exception it threw. */
  type Handler = ProxyEventArgs -> Result<ProxyEventArgs, string>

  const PlainText: string := "text/plain"
  const NotFoundText: string := "Resource not found (404)"
  const NoCacheValue: string := "no-cache, max-age=0, must-revalidate, no-store"

  /** `Encoding.UTF8.GetBytes` on a text; exact for ASCII characters, the only ones used here. */
  function AsciiBytes(s: string): (r: Bytes)
    ensures |r| == |s|
    ensures forall i :: 0 <= i < |s| && s[i] as int < 128 ==> r[i] as int == s[i] as int
  {
    if |s| == 0 then [] else [(s[0] as int % 256) as Byte] + AsciiBytes(s[1..])
  }

  /** The body of every 404: the UTF-8 bytes of "Resource not found (404)". */
  function NotFoundBytes(): (r: Bytes)
    ensures |r| == 24
  {
    AsciiBytes(NotFoundText)
  }

  /** The extension switch of the older pipelines; ordinal, so case-sensitive. */
  function ContentTypeOfExtension(ext: string): (r: string)
    ensures r in {"text/html", "application/javascript", "text/css", "text/plain"}
  {
    if ext == ".htm" || ext == ".html" then "text/html"
    else if ext == ".js" then "application/javascript"
    else if ext == ".css" then "text/css"
    else "text/plain"
  }

  /**
   * The content type for a relative path: "text/html" for the main file
   * (an empty relative path), else the extension table.
   */
  function ContentTypeForRequest(relativePath: string, seps: set<char>): string {
    if relativePath == [] then "text/html"
    else ContentTypeOfExtension(GetExtension(relativePath, seps))
  }

  /**
   * The extension table, stated on paths: a non-empty relative path ending in
   * ".htm"/".html" is HTML, ".js" JavaScript, ".css" CSS, and a path with no
   * extension, or a different-case one, plain text.
   */
  lemma ContentTypeTable(path: string, seps: set<char>)
    requires path != [] && '.' !in seps && forall c :: c in seps ==> IsSlash(c)
    ensures EndsWith(path, ".html") ==> ContentTypeForRequest(path, seps) == "text/html"
    ensures EndsWith(path, ".htm") ==> ContentTypeForRequest(path, seps) == "text/html"
    ensures EndsWith(path, ".js") ==> ContentTypeForRequest(path, seps) == "application/javascript"
    ensures EndsWith(path, ".css") ==> ContentTypeForRequest(path, seps) == "text/css"
    ensures EndsWith(path, ".JS") ==> ContentTypeForRequest(path, seps) == "text/plain"
    ensures '.' !in path ==> ContentTypeForRequest(path, seps) == "text/plain"
  {
    ExtensionFor(path, seps, ".html");
    ExtensionFor(path, seps, ".htm");
    ExtensionFor(path, seps, ".js");
    ExtensionFor(path, seps, ".css");
    ExtensionFor(path, seps, ".JS");
    var e := GetExtension(path, seps);
    assert e == [] || path[|path| - |e|] == '.';
  }

  lemma ExtensionFor(path: string, seps: set<char>, ext: string)
    requires |ext| >= 2 && ext[0] == '.' && forall j :: 1 <= j < |ext| ==> ext[j] != '.' && !IsSlash(ext[j])
    requires forall c :: c in seps ==> IsSlash(c)
    ensures EndsWith(path, ext) ==> GetExtension(path, seps) == ext
  {
    if EndsWith(path, ext) {
      ExtensionOfSuffix(path, seps, ext);
    }
  }

  /** The proxy handler's answer as a pipeline adopts it. */
  datatype ProxyAnswer = ProxyAnswer(stream: Bytes, contentType: string, customHeaders: Option<map<string, string>>)

  /**
   * Adopting the handler's answer: only a non-null `ResponseStream` is an
   * answer; a null `ResponseContentType` falls back to `plainText`.
   */
  function AdoptProxyAnswer(args: ProxyEventArgs, plainText: string): (r: Option<ProxyAnswer>)
    ensures r.Some? <==> args.Handled()
    ensures r.Some? ==> && r.value.stream == args.responseStream.value
                        && r.value.customHeaders == args.customResponseHeaders
                        && (args.responseContentType.Some? ==> r.value.contentType == args.responseContentType.value)
                        && (args.responseContentType.None? ==> r.value.contentType == plainText)
  {
    if args.responseStream.None? then None
    else Some(ProxyAnswer(args.responseStream.value, args.responseContentType.GetOr(plainText), args.customResponseHeaders))
  }

  /** A content source's answer: who answered, the bytes, the content type and any custom headers. */
  datatype Hit = Hit(provider: Provider, body: Bytes, contentType: string, customHeaders: Option<map<string, string>>)

  /** Which sources were consulted, in order, and the answer if any. */
  datatype Resolution = Resolution(consulted: seq<Provider>, hit: Option<Hit>)

  /** The orders in which the pipelines may consult the sources: the proxy first, if at all, then built-in, then asset. */
  predicate InLookupOrder(consulted: seq<Provider>) {
    consulted in {[ProxyHandler], [ProxyHandler, BuiltInFile], [ProxyHandler, BuiltInFile, AssetFile],
                  [BuiltInFile], [BuiltInFile, AssetFile]}
  }

  /**
   * The lookup chain: the proxy's answer (only for the proxy path), then the
   * built-in file, then the asset; the first non-null stream wins and the
   * sources after it are not consulted. Only a proxy answer carries custom
   * headers or its own content type.
   */
  function Resolve(proxyEligible: bool, proxy: Option<ProxyAnswer>, builtIn: Option<Bytes>,
                   asset: Option<Bytes>, contentType: string): (r: Resolution)
    requires !proxyEligible ==> proxy.None?
    ensures 1 <= |r.consulted| <= 3
    ensures InLookupOrder(r.consulted)
    ensures ProxyHandler in r.consulted <==> proxyEligible
    ensures r.hit.Some? ==> r.hit.value.provider == r.consulted[|r.consulted| - 1]
    ensures r.hit.None? ==> r.consulted[|r.consulted| - 1] == AssetFile
    ensures proxy.Some? ==> r.hit == Some(Hit(ProxyHandler, proxy.value.stream, proxy.value.contentType, proxy.value.customHeaders))
    ensures proxy.None? && builtIn.Some? ==> r.hit == Some(Hit(BuiltInFile, builtIn.value, contentType, None))
    ensures proxy.None? && builtIn.None? && asset.Some? ==> r.hit == Some(Hit(AssetFile, asset.value, contentType, None))
    ensures proxy.None? && builtIn.None? && asset.None? ==> r.hit.None?
    ensures r.hit.Some? && r.hit.value.customHeaders.Some? ==> r.consulted == [ProxyHandler]
  {
    if proxy.Some? then
      Resolution([ProxyHandler], Some(Hit(ProxyHandler, proxy.value.stream, proxy.value.contentType, proxy.value.customHeaders)))
    else
      var consulted :=
        if builtIn.Some? then (if proxyEligible then [ProxyHandler, BuiltInFile] else [BuiltInFile])
        else if proxyEligible then [ProxyHandler, BuiltInFile, AssetFile] else [BuiltInFile, AssetFile];
      if builtIn.Some? then
        Resolution(consulted, Some(Hit(BuiltInFile, builtIn.value, contentType, None)))
      else if asset.Some? then
        Resolution(consulted, Some(Hit(AssetFile, asset.value, contentType, None)))
      else
        Resolution(consulted, None)
  }

  /** The event args the proxy step builds; `contentType` is `None` for the one-argument constructor. */
  function ProxyArgsFor(fullUrl: string, contentType: Option<string>): Result<ProxyEventArgs, QueryError> {
    if contentType.Some? then CreateWithContentType(fullUrl, contentType.value) else Create(fullUrl)
  }

  /** The proxy step hands the request on: it is not for the proxy path, or the handler set no stream. */
  predicate ProxyDeclines(eligible: bool, fullUrl: string, contentType: Option<string>, handler: Handler) {
    !eligible ||
    (ProxyArgsFor(fullUrl, contentType).Success?
     && handler(ProxyArgsFor(fullUrl, contentType).value).Success?
     && !handler(ProxyArgsFor(fullUrl, contentType).value).value.Handled())
  }

  /** The proxy step answers the request: the handler returned with a stream set. */
  predicate ProxyAnswers(eligible: bool, fullUrl: string, contentType: Option<string>, handler: Handler) {
    eligible
    && ProxyArgsFor(fullUrl, contentType).Success?
    && handler(ProxyArgsFor(fullUrl, contentType).value).Success?
    && handler(ProxyArgsFor(fullUrl, contentType).value).value.Handled()
  }

  /** The proxy step throws: the query did not parse, or the handler threw. */
  predicate ProxyThrows(eligible: bool, fullUrl: string, contentType: Option<string>, handler: Handler) {
    eligible
    && (ProxyArgsFor(fullUrl, contentType).Failure?
        || handler(ProxyArgsFor(fullUrl, contentType).value).Failure?)
  }

  /** The handler's answer, adopted, when the proxy step answers. */
  function HandlerAnswer(fullUrl: string, contentType: Option<string>, handler: Handler, plainText: string): ProxyAnswer
    requires ProxyAnswers(true, fullUrl, contentType, handler)
  {
    AdoptProxyAnswer(handler(ProxyArgsFor(fullUrl, contentType).value).value, plainText).value
  }

  /** The exception that escapes when the proxy step throws. */
  function ProxyFault(fullUrl: string, contentType: Option<string>, handler: Handler): Fault
    requires ProxyThrows(true, fullUrl, contentType, handler)
  {
    match ProxyArgsFor(fullUrl, contentType)
    case Failure(e) => QueryParse(e)
    case Success(args) => HandlerFault(handler(args).error)
  }

  /** Exactly one of the three happens. */
  lemma ProxyOutcomesPartition(eligible: bool, fullUrl: string, contentType: Option<string>, handler: Handler)
    ensures ProxyDeclines(eligible, fullUrl, contentType, handler)
            || ProxyAnswers(eligible, fullUrl, contentType, handler)
            || ProxyThrows(eligible, fullUrl, contentType, handler)
    ensures !(ProxyDeclines(eligible, fullUrl, contentType, handler) && ProxyAnswers(eligible, fullUrl, contentType, handler))
    ensures !(ProxyDeclines(eligible, fullUrl, contentType, handler) && ProxyThrows(eligible, fullUrl, contentType, handler))
    ensures !(ProxyAnswers(eligible, fullUrl, contentType, handler) && ProxyThrows(eligible, fullUrl, contentType, handler))
  {
  }

  /**
   * The proxy step: for the proxy path, build the event args (which throws
   * if the query does not parse), run the handler (whose exception escapes),
   * adopt its answer.
   */
  function RunProxy(eligible: bool, fullUrl: string, contentType: Option<string>, handler: Handler, plainText: string)
    : (r: Result<Option<ProxyAnswer>, Fault>)
    ensures r == Success(None) <==> ProxyDeclines(eligible, fullUrl, contentType, handler)
    ensures ProxyAnswers(eligible, fullUrl, contentType, handler) ==>
              r == Success(Some(HandlerAnswer(fullUrl, contentType, handler, plainText)))
    ensures ProxyThrows(eligible, fullUrl, contentType, handler) ==> r == Failure(ProxyFault(fullUrl, contentType, handler))
    ensures r.Failure? && r.error.QueryParse? <==> eligible && GetKeyValuePairs(Some(fullUrl)).Failure?
    ensures r.Failure? && r.error.QueryParse? ==> r.error == QueryParse(GetKeyValuePairs(Some(fullUrl)).error)
    ensures r.Success? && r.value.Some? ==> eligible
  {
    if !eligible then Success(None)
    else
      match ProxyArgsFor(fullUrl, contentType)
      case Failure(e) => Failure(QueryParse(e))
      case Success(args) =>
        match handler(args)
        case Failure(x) => Failure(HandlerFault(x))
        case Success(after) => Success(AdoptProxyAnswer(after, plainText))
  }
}
