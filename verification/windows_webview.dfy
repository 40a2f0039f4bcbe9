/**
 * The Windows pipeline, `CoreWebView2_WebResourceRequested`: a request under
 * `https://0.0.0.0/` is answered from the proxy handler, the built-in file
 * or the app package, else with a 404 that has headers but no content; any
 * other request is left to WebView2. Headers travel as one string.
 *
 * `GetAssetStreamAsync` is the parameter `assets`.
 */
module WindowsWebView {
  import opened Wrappers
  import opened Text
  import opened PathUtils
  import opened QueryStringHelper
  import opened KnownStaticFileProvider
  import opened Interception
  import ProxyEventArgs

  /** `Path.DirectorySeparatorChar` on Windows; both slashes separate. */
  const Sep: char := '\\'
  const Seps: set<char> := {'\\', '/'}

  datatype Env = Env(
    origin: string -> OriginCheck,
    mainFile: string,
    hybridAssetRoot: string,
    proxyRequestPath: string,
    handler: Handler,
    manifest: string -> Option<Bytes>,
    assets: string -> Option<Bytes>)

  /** The arguments of `CreateWebResourceResponse`. */
  datatype WebResourceResponse = WebResourceResponse(
    content: Option<Bytes>, statusCode: int, reasonPhrase: string, headers: string)

  /** The response set on the event (`None`: left to WebView2), or the exception that ended the handler. */
  datatype Outcome =
    | Completed(response: Option<WebResourceResponse>, consulted: seq<Provider>)
    | Threw(fault: Fault)

  /** `GetHeaderString`: two header lines separated by a line feed. */
  function GetHeaderString(contentType: string, contentLength: int): string {
    "Content-Type: " + contentType + "\n" + "Content-Length: " + IntToString(contentLength)
  }

  /** The header string splits back into exactly its two lines. */
  lemma HeaderStringLines(contentType: string, contentLength: int)
    requires '\n' !in contentType
    ensures Split(GetHeaderString(contentType, contentLength), '\n')
         == ["Content-Type: " + contentType, "Content-Length: " + IntToString(contentLength)]
  {
    var first := "Content-Type: " + contentType;
    var second := "Content-Length: " + IntToString(contentLength);
    assert '\n' !in first by {
      assert forall k :: 0 <= k < |first| ==> first[k] == ("Content-Type: " + contentType)[k];
    }
    assert '\n' !in second by {
      forall k | 0 <= k < |second| ensures second[k] != '\n' {
        if k >= 16 {
          assert second[k] == IntToString(contentLength)[k - 16];
        }
      }
    }
    assert GetHeaderString(contentType, contentLength) == first + ['\n'] + second;
    SplitCons(first, '\n', second);
    SplitWithout(second, '\n');
  }

  /** The 404: headers announce the 24 bytes of the message, but no content is sent. */
  function NotFoundResponse(): (r: WebResourceResponse)
    ensures r.content.None? && r.statusCode == 404
    ensures r.headers == GetHeaderString("text/plain", |NotFoundText|)
  {
    WebResourceResponse(None, 404, "Not Found", GetHeaderString("text/plain", |NotFoundText|))
  }

  /** A 200 with the body; `(int)contentStream.Length` wraps for a body of 2 GiB or more. */
  function OkResponse(body: Bytes, contentType: string): (r: WebResourceResponse)
    ensures r.content == Some(body) && r.statusCode == 200
    ensures IsInt32(|body|) ==> r.headers == GetHeaderString(contentType, |body|)
  {
    WebResourceResponse(Some(body), 200, "OK", GetHeaderString(contentType, Wrap32(|body|)))
  }

  /** The relative path with '/' turned into '\', the main file standing in for the origin itself. */
  function RelativePathOf(env: Env, relative: string): string {
    var relativePath := ReplaceChar(relative, '/', '\\');
    if relativePath == [] then env.mainFile else relativePath
  }

  /** The 200 of the first source that answered, else the 404. */
  function FromResolution(resolution: Resolution): (r: WebResourceResponse)
    ensures r.statusCode == 200 <==> resolution.hit.Some?
    ensures r.statusCode == 404 ==> resolution.hit.None? && r == NotFoundResponse()
    ensures resolution.hit.Some? ==> r == OkResponse(resolution.hit.value.body, resolution.hit.value.contentType)
  {
    match resolution.hit
    case None => NotFoundResponse()
    case Some(hit) => OkResponse(hit.body, hit.contentType)
  }

  /** The content type of a request: "text/html" for the origin itself, else by extension. */
  function ContentTypeOf(relative: string): string {
    ContentTypeForRequest(ReplaceChar(relative, '/', '\\'), Seps)
  }

  /** The built-in file for a relative path. */
  function BuiltInStream(env: Env, relativePath: string): Option<Bytes> {
    GetKnownResourceStream(relativePath, Sep, env.manifest)
  }

  /** The package asset under the hybrid asset root. */
  function PackageStream(env: Env, relativePath: string): Option<Bytes> {
    env.assets(Combine(env.hybridAssetRoot, relativePath, Seps, Sep, true))
  }

  /**
   * The lookup chain for a request inside the app origin: the first source
   * with a stream answers, in the order proxy handler (only for the proxy
   * path), built-in file, package asset; with none of them the 404.
   */
  function ServeInOrigin(env: Env, requestUri: string, relative: string): (r: Outcome)
    ensures r.Threw? ==> r.fault != UriFormat && RelativePathOf(env, relative) == env.proxyRequestPath
    ensures var path := RelativePathOf(env, relative);
            var eligible := path == env.proxyRequestPath;
            && (ProxyThrows(eligible, requestUri, None, env.handler) ==> r == Threw(ProxyFault(requestUri, None, env.handler)))
            && (ProxyAnswers(eligible, requestUri, None, env.handler) ==>
                  var answer := HandlerAnswer(requestUri, None, env.handler, PlainText);
                  r.Completed? && r.response == Some(OkResponse(answer.stream, answer.contentType)))
            && (ProxyDeclines(eligible, requestUri, None, env.handler) ==>
                  && r.Completed?
                  && (BuiltInStream(env, path).Some? ==>
                        r.response == Some(OkResponse(BuiltInStream(env, path).value, ContentTypeOf(relative))))
                  && (BuiltInStream(env, path).None? && PackageStream(env, path).Some? ==>
                        r.response == Some(OkResponse(PackageStream(env, path).value, ContentTypeOf(relative))))
                  && (BuiltInStream(env, path).None? && PackageStream(env, path).None? ==>
                        r.response == Some(NotFoundResponse())))
    ensures r.Completed? ==>
              && r.response.Some?
              && 1 <= |r.consulted|
              && InLookupOrder(r.consulted)
              && (ProxyHandler in r.consulted <==> RelativePathOf(env, relative) == env.proxyRequestPath)
              && (r.response.value.statusCode == 404 ==>
                    r.response.value == NotFoundResponse() && r.consulted[|r.consulted| - 1] == AssetFile)
  {
    var relativePath := RelativePathOf(env, relative);
    var eligible := relativePath == env.proxyRequestPath;
    match RunProxy(eligible, requestUri, None, env.handler, PlainText)
    case Failure(e) => Threw(e)
    case Success(proxy) =>
      var resolution := Resolve(eligible, proxy, BuiltInStream(env, relativePath), PackageStream(env, relativePath),
                                ContentTypeOf(relative));
      Completed(Some(FromResolution(resolution)), resolution.consulted)
  }

  /** `CoreWebView2_WebResourceRequested`; `requestUri` is the full request URI, query included. */
  function WebResourceRequested(env: Env, requestUri: string): (r: Outcome)
    ensures r == Threw(UriFormat) <==> CheckOrigin(env.origin, RemovePossibleQueryString(Some(requestUri))).Malformed?
    ensures r.Completed? && r.response.None? <==> CheckOrigin(env.origin, RemovePossibleQueryString(Some(requestUri))).Outside?
    ensures r.Completed? && r.response.Some? ==> r.response.value.statusCode in {200, 404}
    ensures CheckOrigin(env.origin, RemovePossibleQueryString(Some(requestUri))).Inside? ==>
              r == ServeInOrigin(env, requestUri, CheckOrigin(env.origin, RemovePossibleQueryString(Some(requestUri))).relative)
  {
    match CheckOrigin(env.origin, RemovePossibleQueryString(Some(requestUri)))
    case Malformed => Threw(UriFormat)
    case Outside => Completed(None, [])
    case Inside(relative) => ServeInOrigin(env, requestUri, relative)
  }

  /**
   * The relative path is compared with the proxy path after '/' became '\':
   * a proxy path with a '/' in it never matches a request.
   */
  lemma SlashedProxyPathNeverMatches(env: Env, relative: string)
    requires relative != [] && '/' in env.proxyRequestPath
    ensures RelativePathOf(env, relative) != env.proxyRequestPath
  {
    assert '/' !in ReplaceChar(relative, '/', '\\');
  }

  /**
   * A proxy request whose handler sets a stream is answered with that stream
   * and the handler's content type; the proxy sees the URI with its query.
   */
  lemma ProxyAnswerServed(env: Env, requestUri: string, args: ProxyEventArgs.ProxyEventArgs, after: ProxyEventArgs.ProxyEventArgs)
    requires CheckOrigin(env.origin, RemovePossibleQueryString(Some(requestUri))) == Inside(env.proxyRequestPath)
    requires '/' !in env.proxyRequestPath && env.proxyRequestPath != []
    requires ProxyEventArgs.Create(requestUri) == Success(args)
    requires env.handler(args) == Success(after) && after.Handled()
    ensures WebResourceRequested(env, requestUri)
         == Completed(Some(OkResponse(after.responseStream.value, after.responseContentType.GetOr(PlainText))), [ProxyHandler])
  {
    var p := env.proxyRequestPath;
    assert ReplaceChar(p, '/', '\\') == p;
    assert RelativePathOf(env, p) == p;
    var answer := AdoptProxyAnswer(after, PlainText);
    assert RunProxy(true, requestUri, None, env.handler, PlainText) == Success(answer);
  }
}
