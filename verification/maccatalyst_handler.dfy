/**
 * The Mac Catalyst scheme handler. It differs from the iOS one in three
 * ways: an empty URL is a 404 rather than an exception, the relative path
 * and content type come from `PathUtils.GetRelativePathAndContentType`,
 * and a proxy handler's custom headers reach the response.
 *
 * `PathUtils.GetRelativePathAndContentType` is not part of this model: it
 * is the parameter `relativePathAndContentType`.
 */
module MacCatalystHandler {
  import opened Wrappers
  import opened Text
  import opened PathUtils
  import opened QueryStringHelper
  import opened KnownStaticFileProvider
  import opened Interception
  import Ios = IosHandler

  const Sep: char := '/'

  datatype Env = Env(
    origin: string -> OriginCheck,
    relativePathAndContentType: (string, string, string) -> PathInfo, // (query-stripped URL, original URL, main file)
    mainFile: string,
    hybridAssetRoot: Option<string>,
    resourcePath: string,
    proxyRequestPath: string,
    plainTextMimeType: string,
    handler: Handler,
    manifest: string -> Option<Bytes>,
    files: string -> Option<Bytes>)

  /** The tuple `GetResponseBytes` returns, and which sources it consulted. */
  datatype ResponseData = ResponseData(
    responseBytes: Bytes, contentType: string, statusCode: int,
    customHeaders: Option<map<string, string>>, consulted: seq<Provider>)

  function NotFound(consulted: seq<Provider>): ResponseData {
    ResponseData([], "", 404, None, consulted)
  }

  /** The 200 of the first source that answered, with the proxy's custom headers, else the empty 404. */
  function FromResolution(resolution: Resolution): (r: ResponseData)
    ensures r.consulted == resolution.consulted
    ensures r.statusCode == 200 <==> resolution.hit.Some?
    ensures r.statusCode == 404 ==> resolution.hit.None? && r == NotFound(resolution.consulted)
    ensures resolution.hit.Some? ==>
              && r.responseBytes == resolution.hit.value.body
              && r.contentType == resolution.hit.value.contentType
              && r.customHeaders == resolution.hit.value.customHeaders
  {
    match resolution.hit
    case None => NotFound(resolution.consulted)
    case Some(hit) => ResponseData(hit.body, hit.contentType, 200, hit.customHeaders, resolution.consulted)
  }

  /** The relative path, content type and full URL of a request. */
  function PathInfoOf(env: Env, url: string): PathInfo {
    env.relativePathAndContentType(RemovePossibleQueryString(Some(url)), url, env.mainFile)
  }

  /** The built-in file for a relative path. */
  function BuiltInStream(env: Env, relativePath: string): Option<Bytes> {
    GetKnownResourceStream(relativePath, Sep, env.manifest)
  }

  /** The bundle file under the resource path and the hybrid asset root ("" when null), if it exists. */
  function BundleFile(env: Env, relativePath: string): Option<Bytes> {
    env.files(Combine(Combine(env.resourcePath, env.hybridAssetRoot.GetOr(""), {Sep}, Sep, false), relativePath, {Sep}, Sep, false))
  }

  /** A 200 carrying `body`, `contentType` and `customHeaders`. */
  predicate Serves(data: ResponseData, body: Bytes, contentType: string, customHeaders: Option<map<string, string>>) {
    data.statusCode == 200 && data.responseBytes == body && data.contentType == contentType && data.customHeaders == customHeaders
  }

  /**
   * The lookup chain for a request inside the app origin: the first source
   * with a stream answers, in the order proxy handler (only for the proxy
   * path, and the only source whose custom headers are kept), built-in
   * file, bundle file; with none of them the empty 404.
   */
  function ServeInOrigin(env: Env, url: string): (r: Result<ResponseData, Fault>)
    ensures var info := PathInfoOf(env, url);
            var eligible := info.relativePath == env.proxyRequestPath;
            var contentType := Some(info.contentType);
            && (r.Failure? ==> r.error != UriFormat && eligible)
            && (ProxyThrows(eligible, info.fullUrl, contentType, env.handler) ==>
                  r == Failure(ProxyFault(info.fullUrl, contentType, env.handler)))
            && (ProxyAnswers(eligible, info.fullUrl, contentType, env.handler) ==>
                  var answer := HandlerAnswer(info.fullUrl, contentType, env.handler, env.plainTextMimeType);
                  r.Success? && Serves(r.value, answer.stream, answer.contentType, answer.customHeaders))
            && (ProxyDeclines(eligible, info.fullUrl, contentType, env.handler) ==>
                  && r.Success?
                  && (BuiltInStream(env, info.relativePath).Some? ==>
                        Serves(r.value, BuiltInStream(env, info.relativePath).value, info.contentType, None))
                  && (BuiltInStream(env, info.relativePath).None? && BundleFile(env, info.relativePath).Some? ==>
                        Serves(r.value, BundleFile(env, info.relativePath).value, info.contentType, None))
                  && (BuiltInStream(env, info.relativePath).None? && BundleFile(env, info.relativePath).None? ==>
                        r.value == NotFound(r.value.consulted)))
    ensures r.Success? ==>
              && r.value.statusCode in {200, 404}
              && 1 <= |r.value.consulted|
              && InLookupOrder(r.value.consulted)
              && (ProxyHandler in r.value.consulted <==> PathInfoOf(env, url).relativePath == env.proxyRequestPath)
              && (r.value.customHeaders.Some? ==> r.value.consulted == [ProxyHandler])
  {
    var info := PathInfoOf(env, url);
    var eligible := info.relativePath == env.proxyRequestPath;
    match RunProxy(eligible, info.fullUrl, Some(info.contentType), env.handler, env.plainTextMimeType)
    case Failure(e) => Failure(e)
    case Success(proxy) =>
      var resolution := Resolve(eligible, proxy, BuiltInStream(env, info.relativePath),
                                BundleFile(env, info.relativePath), info.contentType);
      Success(FromResolution(resolution))
  }

  /** `GetResponseBytes`: an empty URL, or one outside the app origin, is an empty 404; a malformed one throws. */
  function GetResponseBytes(env: Env, url: string): (r: Result<ResponseData, Fault>)
    ensures url == [] ==> r == Success(NotFound([]))
    ensures r.Failure? && r.error == UriFormat <==>
              url != [] && CheckOrigin(env.origin, RemovePossibleQueryString(Some(url))).Malformed?
    ensures url != [] && CheckOrigin(env.origin, RemovePossibleQueryString(Some(url))).Outside? ==>
              r == Success(NotFound([]))
    ensures r.Success? && r.value.statusCode != 200 ==> r.value.statusCode == 404 && r.value.responseBytes == []
    ensures url != [] && CheckOrigin(env.origin, RemovePossibleQueryString(Some(url))).Inside? ==> r == ServeInOrigin(env, url)
  {
    if url == [] then Success(NotFound([]))
    else match CheckOrigin(env.origin, RemovePossibleQueryString(Some(url)))
      case Malformed => Failure(UriFormat)
      case Outside => Success(NotFound([]))
      case Inside(_) => ServeInOrigin(env, url)
  }

  /** The custom headers that may be copied: all but Content-Length and Content-Type. */
  function CopiedCustomHeaders(customHeaders: Option<map<string, string>>): (r: map<string, string>)
    ensures "Content-Length" !in r && "Content-Type" !in r
    ensures forall k :: k in r ==> customHeaders.Some? && k in customHeaders.value && r[k] == customHeaders.value[k]
    ensures customHeaders.Some? ==> forall k :: k in customHeaders.value && k != "Content-Length" && k != "Content-Type" ==>
              k in r && r[k] == customHeaders.value[k]
  {
    if customHeaders.None? then map[]
    else map k | k in customHeaders.value && k != "Content-Length" && k != "Content-Type" :: customHeaders.value[k]
  }

  /** Content-Length, Content-Type and the copied custom headers, before Cache-Control is considered. */
  function BaseHeaders(data: ResponseData): (r: map<string, string>)
    ensures "Content-Length" in r && IsDecimalOf(r["Content-Length"], |data.responseBytes|)
    ensures "Content-Type" in r && r["Content-Type"] == data.contentType
    ensures forall k :: k in r && k != "Content-Length" && k != "Content-Type" ==>
              k in CopiedCustomHeaders(data.customHeaders) && r[k] == CopiedCustomHeaders(data.customHeaders)[k]
  {
    NatToStringValue(|data.responseBytes|);
    CopiedCustomHeaders(data.customHeaders)["Content-Length" := NatToString(|data.responseBytes|)]["Content-Type" := data.contentType]
  }

  /**
   * The header dictionary as written: the no-cache Cache-Control is added
   * when there are no custom headers, or when they DO contain Cache-Control
   * (`NSMutableDictionary.Add` replaces the custom value).
   */
  function ResponseHeadersAsWritten(data: ResponseData): (r: map<string, string>)
    ensures "Cache-Control" in r <==>
              data.customHeaders.None? || "Cache-Control" in data.customHeaders.value
    ensures "Cache-Control" in r ==> r["Cache-Control"] == NoCacheValue
    ensures forall k :: k in r && k != "Cache-Control" ==> k in BaseHeaders(data) && r[k] == BaseHeaders(data)[k]
    ensures forall k :: k in BaseHeaders(data) && k != "Cache-Control" ==> k in r && r[k] == BaseHeaders(data)[k]
  {
    var headers := BaseHeaders(data);
    if data.customHeaders.None? || "Cache-Control" in data.customHeaders.value then headers["Cache-Control" := NoCacheValue]
    else headers
  }

  /** Custom headers without Cache-Control get no Cache-Control at all: caching is left on. */
  lemma CachingLeftOnAsWritten(data: ResponseData)
    requires data.customHeaders == Some(map["X-Request-Id" := "1"])
    ensures "Cache-Control" !in ResponseHeadersAsWritten(data)
  {
  }

  /** A custom Cache-Control is thrown away for the no-cache value. */
  lemma CustomCacheControlLostAsWritten(data: ResponseData)
    requires data.customHeaders == Some(map["Cache-Control" := "max-age=60"])
    ensures ResponseHeadersAsWritten(data)["Cache-Control"] != "max-age=60"
  {
  }

  /**
   * The header dictionary as the comment above the condition says it should
   * be: a custom Cache-Control is kept, and caching is disabled whenever the
   * custom headers do not set it.
   */
  function ResponseHeaders(data: ResponseData): (r: map<string, string>)
    ensures "Cache-Control" in r
    ensures data.customHeaders.Some? && "Cache-Control" in data.customHeaders.value ==>
              r["Cache-Control"] == data.customHeaders.value["Cache-Control"]
    ensures data.customHeaders.None? || "Cache-Control" !in data.customHeaders.value ==>
              r["Cache-Control"] == NoCacheValue
    ensures "Content-Length" in r && IsDecimalOf(r["Content-Length"], |data.responseBytes|)
    ensures "Content-Type" in r && r["Content-Type"] == data.contentType
    ensures data.customHeaders.Some? ==> forall k :: k in data.customHeaders.value && k != "Content-Length" && k != "Content-Type" ==>
              k in r && r[k] == data.customHeaders.value[k]
  {
    var headers := BaseHeaders(data);
    if data.customHeaders.None? || "Cache-Control" !in data.customHeaders.value then headers["Cache-Control" := NoCacheValue]
    else headers
  }

  /** Without custom headers, which is every answer but a proxy handler's, the two dictionaries agree. */
  lemma HeadersAgreeWithoutCustomHeaders(data: ResponseData)
    requires data.customHeaders.None?
    ensures ResponseHeadersAsWritten(data) == ResponseHeaders(data)
  {
  }

  /** The calls on the task for one `GetResponseBytes` result, with the headers as the source builds them. */
  function TaskActions(data: ResponseData, hasUrl: bool): (r: seq<Ios.TaskAction>)
    ensures Ios.DidFinish in r <==> data.statusCode == 200
    ensures data.statusCode != 200 ==> r == []
    ensures data.statusCode == 200 ==>
              && |r| == (if hasUrl then 3 else 2)
              && r[|r| - 2] == Ios.DidReceiveData(data.responseBytes)
              && r[|r| - 1] == Ios.DidFinish
              && (hasUrl ==> r[0] == Ios.DidReceiveResponse(200, "HTTP/1.1", ResponseHeadersAsWritten(data)))
  {
    if data.statusCode != 200 then []
    else
      var response := if hasUrl then [Ios.DidReceiveResponse(data.statusCode, "HTTP/1.1", ResponseHeadersAsWritten(data))] else [];
      response + [Ios.DidReceiveData(data.responseBytes), Ios.DidFinish]
  }

  /** `StartUrlSchemeTask`; `requestUrl` is the request's `Url`, `None` for null. */
  function StartUrlSchemeTask(env: Env, requestUrl: Option<string>): (r: Ios.TaskOutcome)
    ensures r.Crashed? <==> GetResponseBytes(env, requestUrl.GetOr("")).Failure?
    ensures r.Completed? ==> r.actions == TaskActions(GetResponseBytes(env, requestUrl.GetOr("")).value, requestUrl.Some?)
  {
    match GetResponseBytes(env, requestUrl.GetOr(""))
    case Failure(e) => Ios.Crashed(e)
    case Success(data) => Ios.Completed(TaskActions(data, requestUrl.Some?))
  }

  /** A proxy answer with unrelated custom headers reaches WebKit without any Cache-Control. */
  lemma TaskLeavesCachingOnAsWritten(data: ResponseData)
    requires data.statusCode == 200 && data.customHeaders == Some(map["X-Request-Id" := "1"])
    ensures var actions := TaskActions(data, true);
            actions[0].DidReceiveResponse? && "Cache-Control" !in actions[0].headers
  {
    CachingLeftOnAsWritten(data);
  }

  /** Unlike iOS, a null request URL is a 404, so the task gets no call at all. */
  lemma NullUrlGetsNoAnswer(env: Env)
    ensures StartUrlSchemeTask(env, None) == Ios.Completed([])
  {
  }
}
