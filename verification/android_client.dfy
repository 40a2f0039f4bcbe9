/**
 * `AndroidHybridWebViewClient.ShouldInterceptRequest`, the newer Android
 * pipeline: requests under the app origin are answered from the proxy
 * handler, the built-in file or the app package's assets, else a 404;
 * everything else goes to the base `MauiWebViewClient`.
 *
 * `PathUtils.GetRelativePathAndContentType` and `PathUtils.PlanTextMimeType`
 * are not part of this model: they are the parameters
 * `relativePathAndContentType` and `plainTextMimeType`.
 */
module AndroidHybridWebViewClient {
  import opened Wrappers
  import opened Text
  import opened PathUtils
  import opened QueryStringHelper
  import opened KnownStaticFileProvider
  import opened Interception

  /** `Path.DirectorySeparatorChar` on Android. */
  const Sep: char := '/'

  datatype Env = Env(
    origin: string -> OriginCheck,
    relativePathAndContentType: (string, string, string) -> PathInfo, // (query-stripped URL, original URL, main file)
    mainFile: string,
    proxyRequestPath: string,
    plainTextMimeType: string,
    hybridAssetRoot: string,
    handler: Handler,
    manifest: string -> Option<Bytes>,    // this assembly's manifest resources
    assets: string -> Option<Bytes>)      // Assets.Open; None where it throws FileNotFoundException

  datatype WebResourceResponse = WebResourceResponse(
    mimeType: string, encoding: string, statusCode: int, reasonPhrase: string,
    headers: map<string, string>, data: Bytes)

  datatype Outcome =
    | Delegated                                                    // base.ShouldInterceptRequest
    | Responded(response: WebResourceResponse, resolution: Resolution)
    | Threw(fault: Fault)

  /**
   * `GetHeaders`: every custom header except Content-Length and
   * Content-Type, plus Content-Type set to the resolved type.
   */
  function GetHeaders(contentType: string, customHeaders: Option<map<string, string>>): (r: map<string, string>)
    ensures "Content-Type" in r && r["Content-Type"] == contentType
    ensures "Content-Length" !in r
    ensures forall k :: k in r && k != "Content-Type" ==>
              customHeaders.Some? && k in customHeaders.value && r[k] == customHeaders.value[k]
    ensures customHeaders.Some? ==> forall k :: k in customHeaders.value && k != "Content-Length" && k != "Content-Type" ==>
              k in r && r[k] == customHeaders.value[k]
  {
    var copied := if customHeaders.None? then map[]
                  else map k | k in customHeaders.value && k != "Content-Length" && k != "Content-Type" :: customHeaders.value[k];
    copied["Content-Type" := contentType]
  }

  /** `PlatformOpenAppPackageFile`: normalize, open; a missing file is null, not an error. */
  function PlatformOpenAppPackageFile(env: Env, filename: string): Option<Bytes> {
    env.assets(NormalizePath(filename, Sep))
  }

  /** `PlatformOpenAppPackageFile` does not care which slash a path uses. */
  lemma PackageFileIgnoresSlashKind(env: Env, a: string, b: string)
    requires |a| == |b|
    requires forall i :: 0 <= i < |a| ==> a[i] == b[i] || (IsSlash(a[i]) && IsSlash(b[i]))
    ensures PlatformOpenAppPackageFile(env, a) == PlatformOpenAppPackageFile(env, b)
  {
    NormalizeIgnoresSlashKind(a, b, Sep);
  }

  /** The relative path, content type and full URL of an in-origin request. */
  function PathInfoOf(env: Env, originalUrl: string): PathInfo {
    env.relativePathAndContentType(RemovePossibleQueryString(Some(originalUrl)), originalUrl, env.mainFile)
  }

  /** The proxy handler is consulted only for a non-empty relative path equal to the proxy path. */
  predicate ProxyEligible(env: Env, relativePath: string) {
    relativePath != [] && relativePath == env.proxyRequestPath
  }

  /** The 404: plain text, whose only header is its Content-Type. */
  function NotFoundResponse(): (r: WebResourceResponse)
    ensures r.statusCode == 404 && r.mimeType == "text/plain"
    ensures r.headers == map["Content-Type" := "text/plain"]
  {
    WebResourceResponse("text/plain", "UTF-8", 404, "Not Found", GetHeaders("text/plain", None), NotFoundBytes())
  }

  /** A 200 carrying `body`, its content type and the headers `GetHeaders` builds. */
  function OkResponse(body: Bytes, contentType: string, customHeaders: Option<map<string, string>>): WebResourceResponse {
    WebResourceResponse(contentType, "UTF-8", 200, "OK", GetHeaders(contentType, customHeaders), body)
  }

  /** The built-in file for a relative path. */
  function BuiltInStream(env: Env, relativePath: string): Option<Bytes> {
    GetKnownResourceStream(relativePath, Sep, env.manifest)
  }

  /** The app-package asset under the hybrid asset root. */
  function PackageStream(env: Env, relativePath: string): Option<Bytes> {
    PlatformOpenAppPackageFile(env, Combine(env.hybridAssetRoot, relativePath, {Sep}, Sep, false))
  }

  /** The request has a URL under the app origin. */
  predicate InOrigin(env: Env, originalUrl: Option<string>) {
    originalUrl.Some? && originalUrl.value != [] && CheckOrigin(env.origin, RemovePossibleQueryString(originalUrl)).Inside?
  }

  /**
   * The lookup chain for a request under the app origin: the first source
   * with a stream answers, in the order proxy handler (only for the proxy
   * path), built-in file, package asset; with none of them the 404.
   */
  function ServeInOrigin(env: Env, originalUrl: string): (r: Outcome)
    ensures !r.Delegated?
    ensures r.Threw? ==> r.fault != UriFormat
    ensures var info := PathInfoOf(env, originalUrl);
            var eligible := ProxyEligible(env, info.relativePath);
            var contentType := Some(info.contentType);
            && (ProxyThrows(eligible, info.fullUrl, contentType, env.handler) ==>
                  r == Threw(ProxyFault(info.fullUrl, contentType, env.handler)))
            && (ProxyAnswers(eligible, info.fullUrl, contentType, env.handler) ==>
                  var answer := HandlerAnswer(info.fullUrl, contentType, env.handler, env.plainTextMimeType);
                  r.Responded? && r.response == OkResponse(answer.stream, answer.contentType, answer.customHeaders))
            && (ProxyDeclines(eligible, info.fullUrl, contentType, env.handler) ==>
                  && r.Responded?
                  && (BuiltInStream(env, info.relativePath).Some? ==>
                        r.response == OkResponse(BuiltInStream(env, info.relativePath).value, info.contentType, None))
                  && (BuiltInStream(env, info.relativePath).None? && PackageStream(env, info.relativePath).Some? ==>
                        r.response == OkResponse(PackageStream(env, info.relativePath).value, info.contentType, None))
                  && (BuiltInStream(env, info.relativePath).None? && PackageStream(env, info.relativePath).None? ==>
                        r.response == NotFoundResponse()))
    ensures r.Responded? ==>
              && (ProxyHandler in r.resolution.consulted <==> ProxyEligible(env, PathInfoOf(env, originalUrl).relativePath))
              && (r.response.statusCode == 200 <==> r.resolution.hit.Some?)
              && (r.resolution.hit.None? ==> r.response == NotFoundResponse())
              && (r.resolution.hit.Some? ==>
                    var hit := r.resolution.hit.value;
                    r.response == OkResponse(hit.body, hit.contentType, hit.customHeaders))
  {
    var info := PathInfoOf(env, originalUrl);
    var eligible := ProxyEligible(env, info.relativePath);
    match RunProxy(eligible, info.fullUrl, Some(info.contentType), env.handler, env.plainTextMimeType)
    case Failure(e) => Threw(e)
    case Success(proxy) =>
      var resolution := Resolve(eligible, proxy, BuiltInStream(env, info.relativePath),
                                PackageStream(env, info.relativePath), info.contentType);
      match resolution.hit
      case None => Responded(NotFoundResponse(), resolution)
      case Some(hit) => Responded(OkResponse(hit.body, hit.contentType, hit.customHeaders), resolution)
  }

  /** `ShouldInterceptRequest`: outside the origin the base client decides; inside it, the lookup chain. */
  function ShouldInterceptRequest(env: Env, originalUrl: Option<string>): (r: Outcome)
    ensures r.Delegated? <==>
              originalUrl.None? || originalUrl.value == []
              || CheckOrigin(env.origin, RemovePossibleQueryString(originalUrl)).Outside?
    ensures r == Threw(UriFormat) <==>
              originalUrl.Some? && originalUrl.value != [] && CheckOrigin(env.origin, RemovePossibleQueryString(originalUrl)).Malformed?
    ensures InOrigin(env, originalUrl) ==> r == ServeInOrigin(env, originalUrl.value)
    ensures r.Responded? ==> InOrigin(env, originalUrl)
  {
    var requestUri := RemovePossibleQueryString(originalUrl);
    if originalUrl.None? || originalUrl.value == [] then Delegated
    else match CheckOrigin(env.origin, requestUri)
      case Malformed => Threw(UriFormat)
      case Outside => Delegated
      case Inside(_) => ServeInOrigin(env, originalUrl.value)
  }
}
